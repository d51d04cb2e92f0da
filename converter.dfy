/**
  The unit-conversion service: two constant rate tables (length in
  centimetres, weight in grams), the three converters and the unit
  catalogue. Every value is a Dafny `real`, so the laws below hold exactly;
  the service itself computes in IEEE doubles.
*/
module Converter {
  import opened Wrappers

  // ---------------------------------------------------------------------
  // Categories
  // ---------------------------------------------------------------------

  /** The three conversion categories the service knows. */
  datatype Category = Length | Weight | Temperature

  /** The name by which a caller selects a category. */
  function CategoryName(c: Category): string
  {
    match c
    case Length => "length"
    case Weight => "weight"
    case Temperature => "temperature"
  }

  const CategoryNames: set<string> := {"length", "weight", "temperature"}

  /** The `switch (type)` of getUnits: exactly the three names are recognised. */
  function ParseCategory(name: string): (c: Option<Category>)
    ensures c.Some? <==> name in CategoryNames
    ensures c.Some? ==> CategoryName(c.value) == name
  {
    if name == "length" then Some(Length)
    else if name == "weight" then Some(Weight)
    else if name == "temperature" then Some(Temperature)
    else None
  }

  /** Naming a category and recognising the name gives the category back. */
  lemma ParseCategoryName(c: Category)
    ensures CategoryName(c) in CategoryNames
    ensures ParseCategory(CategoryName(c)) == Some(c)
  {
  }

  // ---------------------------------------------------------------------
  // Rate tables
  // ---------------------------------------------------------------------

  /** How many base units one unit is worth, per unit code. */
  type Rates = map<string, real>

  /** Every rate is strictly positive. */
  predicate ValidRates(rates: Rates)
  {
    forall u :: u in rates ==> rates[u] > 0.0
  }

  /** `base` is the one unit of the table whose rate is 1. */
  predicate IsBaseUnit(rates: Rates, base: string)
  {
    && base in rates
    && forall u :: u in rates ==> (rates[u] == 1.0 <==> u == base)
  }

  const LengthRates: Rates := map["cm" := 1.0, "m" := 100.0, "ft" := 30.48, "in" := 2.54]
  const LengthBase: string := "cm"

  const WeightRates: Rates := map["g" := 1.0, "kg" := 1000.0, "lb" := 453.592, "oz" := 28.3495]
  const WeightBase: string := "g"

  /** The length table holds exactly its four units, all positive, with centimetres as base. */
  lemma LengthRatesWellFormed()
    ensures LengthRates.Keys == {"cm", "m", "ft", "in"}
    ensures ValidRates(LengthRates)
    ensures IsBaseUnit(LengthRates, LengthBase)
  {
  }

  /** The weight table holds exactly its four units, all positive, with grams as base. */
  lemma WeightRatesWellFormed()
    ensures WeightRates.Keys == {"g", "kg", "lb", "oz"}
    ensures ValidRates(WeightRates)
    ensures IsBaseUnit(WeightRates, WeightBase)
  {
  }

  // ---------------------------------------------------------------------
  // Length and weight
  // ---------------------------------------------------------------------

  /**
    Scale `value` from `fromUnit` to `toUnit` through the table's base
    unit. A code missing from the table has no rate, which the service
    turns into NaN rather than an error; here that is `None`.
  */
  function ConvertByRates(rates: Rates, value: real, fromUnit: string, toUnit: string): (r: Option<real>)
    requires ValidRates(rates)
    ensures r.Some? <==> fromUnit in rates && toUnit in rates
    // the result denotes the same quantity of base units as the input
    ensures r.Some? ==> r.value * rates[toUnit] == value * rates[fromUnit]
  {
    if fromUnit in rates && toUnit in rates then
      Some(value * rates[fromUnit] / rates[toUnit])
    else
      None
  }

  /** convertLength: centimetre-based scaling over the length table. */
  function ConvertLength(value: real, fromUnit: string, toUnit: string): (r: Option<real>)
    ensures r.Some? <==> fromUnit in LengthRates && toUnit in LengthRates
    ensures r.Some? ==> r.value * LengthRates[toUnit] == value * LengthRates[fromUnit]
  {
    LengthRatesWellFormed();
    ConvertByRates(LengthRates, value, fromUnit, toUnit)
  }

  /** convertWeight: gram-based scaling over the weight table. */
  function ConvertWeight(value: real, fromUnit: string, toUnit: string): (r: Option<real>)
    ensures r.Some? <==> fromUnit in WeightRates && toUnit in WeightRates
    ensures r.Some? ==> r.value * WeightRates[toUnit] == value * WeightRates[fromUnit]
  {
    WeightRatesWellFormed();
    ConvertByRates(WeightRates, value, fromUnit, toUnit)
  }

  /** Converting to the base unit multiplies by the source unit's rate. */
  lemma ToBaseUnit(rates: Rates, base: string, value: real, u: string)
    requires ValidRates(rates) && IsBaseUnit(rates, base) && u in rates
    ensures ConvertByRates(rates, value, u, base) == Some(value * rates[u])
  {
  }

  /** Converting a known unit to itself changes nothing. */
  lemma ConvertByRatesIdentity(rates: Rates, value: real, u: string)
    requires ValidRates(rates) && u in rates
    ensures ConvertByRates(rates, value, u, u) == Some(value)
  {
  }

  /** Two conversions compose into the direct one: a to b to c is a to c. */
  lemma ConvertByRatesCompose(rates: Rates, value: real, a: string, b: string, c: string)
    requires ValidRates(rates) && a in rates && b in rates && c in rates
    ensures ConvertByRates(rates, ConvertByRates(rates, value, a, b).value, b, c)
         == ConvertByRates(rates, value, a, c)
  {
  }

  /** Converting there and back returns the original value. */
  lemma ConvertByRatesRoundTrip(rates: Rates, value: real, a: string, b: string)
    requires ValidRates(rates) && a in rates && b in rates
    ensures ConvertByRates(rates, ConvertByRates(rates, value, a, b).value, b, a) == Some(value)
  {
    ConvertByRatesCompose(rates, value, a, b, a);
    ConvertByRatesIdentity(rates, value, a);
  }

  /** The laws of the length converter: base unit, identity, round trip, composition. */
  lemma LengthLaws(value: real, a: string, b: string, c: string)
    requires a in LengthRates && b in LengthRates && c in LengthRates
    ensures ConvertLength(value, a, LengthBase) == Some(value * LengthRates[a])
    ensures ConvertLength(value, a, a) == Some(value)
    ensures ConvertLength(ConvertLength(value, a, b).value, b, a) == Some(value)
    ensures ConvertLength(ConvertLength(value, a, b).value, b, c) == ConvertLength(value, a, c)
  {
    LengthRatesWellFormed();
    ToBaseUnit(LengthRates, LengthBase, value, a);
    ConvertByRatesIdentity(LengthRates, value, a);
    ConvertByRatesRoundTrip(LengthRates, value, a, b);
    ConvertByRatesCompose(LengthRates, value, a, b, c);
  }

  /** The laws of the weight converter: base unit, identity, round trip, composition. */
  lemma WeightLaws(value: real, a: string, b: string, c: string)
    requires a in WeightRates && b in WeightRates && c in WeightRates
    ensures ConvertWeight(value, a, WeightBase) == Some(value * WeightRates[a])
    ensures ConvertWeight(value, a, a) == Some(value)
    ensures ConvertWeight(ConvertWeight(value, a, b).value, b, a) == Some(value)
    ensures ConvertWeight(ConvertWeight(value, a, b).value, b, c) == ConvertWeight(value, a, c)
  {
    WeightRatesWellFormed();
    ToBaseUnit(WeightRates, WeightBase, value, a);
    ConvertByRatesIdentity(WeightRates, value, a);
    ConvertByRatesRoundTrip(WeightRates, value, a, b);
    ConvertByRatesCompose(WeightRates, value, a, b, c);
  }

  /** Worked length and weight conversions, including an unknown code. */
  lemma ScalingExamples()
    ensures ConvertLength(1.0, "m", "cm") == Some(100.0)
    ensures ConvertLength(12.0, "in", "ft") == Some(1.0)
    ensures ConvertLength(5.0, "m", "xx") == None
    ensures ConvertWeight(1.0, "kg", "g") == Some(1000.0)
    ensures ConvertWeight(1.0, "kg", "lb").Some?
    ensures 2.2046 < ConvertWeight(1.0, "kg", "lb").value < 2.2047
    ensures ConvertWeight(3.0, "stone", "kg") == None
  {
  }

  // ---------------------------------------------------------------------
  // Temperature
  // ---------------------------------------------------------------------

  const TemperatureUnits: set<string> := {"c", "f", "k"}
  const InvalidTemperatureUnit: string := "Invalid temperature unit"

  /** Express a Celsius temperature in `unit`; ToCelsius undoes it. */
  function FromCelsius(celsius: real, unit: string): (t: Option<real>)
    ensures t.Some? <==> unit in TemperatureUnits
    ensures unit == "c" ==> t == Some(celsius)
  {
    if unit == "c" then Some(celsius)
    else if unit == "f" then Some(celsius * 9.0 / 5.0 + 32.0)
    else if unit == "k" then Some(celsius + 273.15)
    else None
  }

  /** Read a temperature given in `unit` as Celsius; FromCelsius undoes it. */
  function ToCelsius(value: real, unit: string): (c: Option<real>)
    ensures c.Some? <==> unit in TemperatureUnits
    ensures c.Some? ==> FromCelsius(c.value, unit) == Some(value)
  {
    if unit == "c" then Some(value)
    else if unit == "f" then Some((value - 32.0) * 5.0 / 9.0)
    else if unit == "k" then Some(value - 273.15)
    else None
  }

  /** ToCelsius undoes FromCelsius. */
  lemma FromCelsiusInverse(celsius: real, unit: string)
    requires unit in TemperatureUnits
    ensures ToCelsius(FromCelsius(celsius, unit).value, unit) == Some(celsius)
  {
  }

  /** Two readings in one unit that agree in Celsius are the same reading. */
  lemma ToCelsiusInjective(a: real, b: real, unit: string)
    requires unit in TemperatureUnits
    requires ToCelsius(a, unit) == ToCelsius(b, unit)
    ensures a == b
  {
  }

  /**
    convertTemperature: through Celsius. The source unit is checked first;
    either check failing throws "Invalid temperature unit".
  */
  function ConvertTemperature(value: real, fromUnit: string, toUnit: string): (r: Result<real, string>)
    ensures fromUnit !in TemperatureUnits ==> r == Failure(InvalidTemperatureUnit)
    ensures fromUnit in TemperatureUnits && toUnit !in TemperatureUnits ==> r == Failure(InvalidTemperatureUnit)
    ensures r.Success? <==> fromUnit in TemperatureUnits && toUnit in TemperatureUnits
    // the result is the same temperature as the input
    ensures r.Success? ==> ToCelsius(r.value, toUnit) == ToCelsius(value, fromUnit)
  {
    match ToCelsius(value, fromUnit)
    case None => Failure(InvalidTemperatureUnit)
    case Some(celsius) =>
      match FromCelsius(celsius, toUnit)
      case None => Failure(InvalidTemperatureUnit)
      case Some(t) =>
        FromCelsiusInverse(celsius, toUnit);
        Success(t)
  }

  /** Converting a known temperature unit to itself changes nothing. */
  lemma TemperatureIdentity(value: real, u: string)
    requires u in TemperatureUnits
    ensures ConvertTemperature(value, u, u) == Success(value)
  {
  }

  /** Temperature conversions compose: a to b to c is a to c. */
  lemma TemperatureCompose(value: real, a: string, b: string, c: string)
    requires a in TemperatureUnits && b in TemperatureUnits && c in TemperatureUnits
    ensures ConvertTemperature(ConvertTemperature(value, a, b).value, b, c)
         == ConvertTemperature(value, a, c)
  {
  }

  /** Converting a temperature there and back returns the original value. */
  lemma TemperatureRoundTrip(value: real, a: string, b: string)
    requires a in TemperatureUnits && b in TemperatureUnits
    ensures ConvertTemperature(ConvertTemperature(value, a, b).value, b, a) == Success(value)
  {
    TemperatureCompose(value, a, b, a);
    TemperatureIdentity(value, a);
  }

  /** Fixed points of the temperature scales and the body-temperature example. */
  lemma TemperatureExamples()
    ensures ConvertTemperature(0.0, "c", "f") == Success(32.0)
    ensures ConvertTemperature(100.0, "c", "f") == Success(212.0)
    ensures ConvertTemperature(0.0, "c", "k") == Success(273.15)
    ensures ConvertTemperature(100.0, "c", "k") == Success(373.15)
    ensures ConvertTemperature(98.6, "f", "c") == Success(37.0)
    ensures ConvertTemperature(-40.0, "f", "c") == Success(-40.0)
    ensures ConvertTemperature(20.0, "r", "k") == Failure(InvalidTemperatureUnit)
  {
  }

  // ---------------------------------------------------------------------
  // Unit catalogue
  // ---------------------------------------------------------------------

  /** A catalogue entry: a unit code and its display label. */
  type Entry = (string, string)

  const InvalidConversionType: string := "Invalid conversion type"

  /** The codes of a list of entries, in order. */
  function Codes(entries: seq<Entry>): (codes: seq<string>)
    ensures |codes| == |entries|
    ensures forall i :: 0 <= i < |entries| ==> codes[i] == entries[i].0
  {
    if entries == [] then [] else [entries[0].0] + Codes(entries[1..])
  }

  /** No code occurs twice. */
  predicate Distinct(codes: seq<string>)
  {
    forall i, j :: 0 <= i < j < |codes| ==> codes[i] != codes[j]
  }

  /** The unit codes the converter of category `c` accepts. */
  predicate Accepts(c: Category, code: string)
  {
    match c
    case Length => code in LengthRates
    case Weight => code in WeightRates
    case Temperature => code in TemperatureUnits
  }

  /**
    The ordered code-to-label listing of one category. It lists every
    code its converter accepts, and nothing else, each once.
  */
  function Catalogue(c: Category): (entries: seq<Entry>)
    ensures Distinct(Codes(entries))
    ensures forall code :: code in Codes(entries) <==> Accepts(c, code)
  {
    match c
    case Length =>
      var e := [("ft", "Feet (ft)"), ("m", "Meters (m)"), ("cm", "Centimeters (cm)"), ("in", "Inches (in)")];
      assert Codes(e) == ["ft", "m", "cm", "in"];
      e
    case Weight =>
      var e := [("kg", "Kilograms (kg)"), ("g", "Grams (g)"), ("lb", "Pounds (lb)"), ("oz", "Ounces (oz)")];
      assert Codes(e) == ["kg", "g", "lb", "oz"];
      e
    case Temperature =>
      var e := [("c", "Celsius (°C)"), ("f", "Fahrenheit (°F)"), ("k", "Kelvin (K)")];
      assert Codes(e) == ["c", "f", "k"];
      e
  }

  /** getUnits: the catalogue of a named category, or "Invalid conversion type". */
  function GetUnits(name: string): (r: Result<seq<Entry>, string>)
    ensures r.Failure? <==> name !in CategoryNames
    ensures r.Failure? ==> r.error == InvalidConversionType
    ensures r.Success? ==> Distinct(Codes(r.value))
    ensures r.Success? ==> forall code :: code in Codes(r.value) <==> Accepts(ParseCategory(name).value, code)
  {
    match ParseCategory(name)
    case None => Failure(InvalidConversionType)
    case Some(c) => Success(Catalogue(c))
  }

  /** The catalogue lists exactly these entries, in this order. */
  lemma CatalogueEntries()
    ensures GetUnits("length") == Success([("ft", "Feet (ft)"), ("m", "Meters (m)"),
                                           ("cm", "Centimeters (cm)"), ("in", "Inches (in)")])
    ensures GetUnits("weight") == Success([("kg", "Kilograms (kg)"), ("g", "Grams (g)"),
                                           ("lb", "Pounds (lb)"), ("oz", "Ounces (oz)")])
    ensures GetUnits("temperature") == Success([("c", "Celsius (°C)"), ("f", "Fahrenheit (°F)"),
                                                ("k", "Kelvin (K)")])
    ensures GetUnits("volume") == Failure(InvalidConversionType)
  {
  }

  /**
    The catalogue and the converters agree: a pair of listed codes is
    exactly a pair the category's converter turns into a number.
  */
  lemma CatalogueMatchesConverters(value: real, fromUnit: string, toUnit: string)
    ensures ConvertLength(value, fromUnit, toUnit).Some?
        <==> fromUnit in Codes(Catalogue(Length)) && toUnit in Codes(Catalogue(Length))
    ensures ConvertWeight(value, fromUnit, toUnit).Some?
        <==> fromUnit in Codes(Catalogue(Weight)) && toUnit in Codes(Catalogue(Weight))
    ensures ConvertTemperature(value, fromUnit, toUnit).Success?
        <==> fromUnit in Codes(Catalogue(Temperature)) && toUnit in Codes(Catalogue(Temperature))
  {
  }
}
