# Unit converter: the conversion service in Dafny

This project models the conversion service of a small web unit converter,
`src/services/converter.ts`. The service has four parts:

- Two constant rate tables. Length is measured in centimetres and weight in grams.
- `convertLength` and `convertWeight`. Each multiplies the value by the source unit's rate and divides by the target unit's rate.
- `convertTemperature`. It converts the value to Celsius and then from Celsius to the target unit.
- `getUnits`. It returns the ordered code-to-label listing for the length, weight or temperature category.

Everything is pure. The model is one module, `Converter` (`converter.dfy`), made of
functions and lemmas. A small `Wrappers` module (`wrappers.dfy`) supplies `Option` and `Result`.

Modelling choices:

- Numbers are Dafny `real`. The laws below (identity, round trip, composition) therefore hold exactly.
  In IEEE doubles the service only approximates them.
- A length or weight code that is missing from its table does not throw. JavaScript reads the rate
  as `undefined`, and the arithmetic gives NaN. The model returns `None`, meaning "no number".
  One might expect an error here; the service yields NaN, and the model follows the code.
- `convertTemperature` and `getUnits` throw. The model returns `Failure` with the same message:
  "Invalid temperature unit" or "Invalid conversion type".
- `getUnits` returns an object literal whose key order is its display order.
  The model returns a sequence of `(code, label)` pairs.
- `ConvertByRates` is the formula that `convertLength` and `convertWeight` share, written once over
  any table of positive rates. The laws are proved for that general form and then for each table.

## Model

| member | source | states |
|---|---|---|
| Converter.ParseCategory | src/services/converter.ts:68-90 | exactly the names "length", "weight" and "temperature" are recognised, and each name maps to its own category |
| Converter.ParseCategoryName | src/services/converter.ts:68-90 | recognising a category's name gives that category back |
| Converter.LengthRatesWellFormed | src/services/converter.ts:5-10 | the length table holds exactly cm, m, ft and in; every rate is positive; cm is the only unit with rate 1 |
| Converter.WeightRatesWellFormed | src/services/converter.ts:12-17 | the weight table holds exactly g, kg, lb and oz; every rate is positive; g is the only unit with rate 1 |
| Converter.ConvertByRates | src/services/converter.ts:19-35 | there is a number exactly when both codes are in the table; the result holds as many base units as the input (`r * rate[to] == value * rate[from]`) |
| Converter.ConvertLength | src/services/converter.ts:19-26 | there is a number exactly when both codes are length units; the result and the input are the same number of centimetres |
| Converter.ConvertWeight | src/services/converter.ts:28-35 | there is a number exactly when both codes are weight units; the result and the input are the same number of grams |
| Converter.ToBaseUnit | src/services/converter.ts:19-35 | converting to the base unit (rate 1) gives `value * rate[from]` |
| Converter.ConvertByRatesIdentity | src/services/converter.ts:19-35 | converting a known unit to itself returns the value unchanged |
| Converter.ConvertByRatesCompose | src/services/converter.ts:19-35 | converting a to b and then b to c equals converting a to c |
| Converter.ConvertByRatesRoundTrip | src/services/converter.ts:19-35 | converting a to b and back returns the original value |
| Converter.LengthLaws | src/services/converter.ts:5-26 | for length units: converting to cm multiplies by the rate, identity, round trip and composition |
| Converter.WeightLaws | src/services/converter.ts:12-35 | for weight units: converting to g multiplies by the rate, identity, round trip and composition |
| Converter.ScalingExamples | src/services/converter.ts:5-35 | 1 m is 100 cm; 12 in is exactly 1 ft; 1 kg is 1000 g and between 2.2046 and 2.2047 lb; an unknown code ("xx", "stone") gives no number |
| Converter.FromCelsius | src/services/converter.ts:55-64 | accepts exactly c, f and k; for c it returns the Celsius value unchanged |
| Converter.ToCelsius | src/services/converter.ts:44-53 | accepts exactly c, f and k; FromCelsius in the same unit gives the original reading back |
| Converter.FromCelsiusInverse | src/services/converter.ts:44-64 | ToCelsius undoes FromCelsius for every accepted unit |
| Converter.ToCelsiusInjective | src/services/converter.ts:44-53 | two readings in one unit with the same Celsius value are equal |
| Converter.ConvertTemperature | src/services/converter.ts:37-65 | an unknown source unit fails with "Invalid temperature unit" whatever the target is; with a known source, an unknown target fails with the same message; otherwise the result is the same temperature as the input |
| Converter.TemperatureIdentity | src/services/converter.ts:44-64 | converting a unit to itself is the identity |
| Converter.TemperatureCompose | src/services/converter.ts:44-64 | converting a to b and then b to c equals converting a to c |
| Converter.TemperatureRoundTrip | src/services/converter.ts:44-64 | converting a to b and back returns the original value, e.g. f to c to f and k to c to k |
| Converter.TemperatureExamples | src/services/converter.ts:44-64 | 0 °C is 32 °F, 100 °C is 212 °F, 0 °C is 273.15 K, 100 °C is 373.15 K, 98.6 °F is 37 °C, -40 °F is -40 °C; an unknown unit fails |
| Converter.Codes | src/services/converter.ts:70-88 | the codes of a listing, one per entry, in order |
| Converter.Catalogue | src/services/converter.ts:69-88 | each category's listing names each code once, and names exactly the codes its converter accepts |
| Converter.GetUnits | src/services/converter.ts:67-91 | fails with "Invalid conversion type" exactly for an unrecognised name; otherwise the listing has distinct codes, and they are exactly the codes that category accepts |
| Converter.CatalogueEntries | src/services/converter.ts:67-91 | the listings are exactly ft, m, cm, in / kg, g, lb, oz / c, f, k, in that order and with those labels; "volume" fails |
| Converter.CatalogueMatchesConverters | src/services/converter.ts:5-17 | a pair of codes from a category's listing is exactly a pair that category's converter turns into a number |

## Left out

- IEEE-754 arithmetic. The constants (30.48, 453.592, 28.3495, 273.15, …) and all values are exact reals. No claim is made about rounding artefacts.
- NaN and infinite input values. A value is always a real number.
- Insertion order of the rate tables (cm, m, ft, in). The tables are only looked up, so they are maps.
- Keys inherited from the JavaScript object prototype (for example `"constructor"`). Each table and each listing contains only its listed keys.
- `src/routes/converter.ts` is not part of this model. It is the HTTP handler: request parsing, the category switch that calls the converters, `toFixed` rounding of the result, and JSON error responses.
- `src/index.ts` (server start-up, configuration, static files) and `public/script.js` (browser form, `fetch`, alerts) are not part of this model. Both are I/O.
