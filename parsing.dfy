/**
 * Lenient number parsing (`parse_float`, `parse_percent`).
 *
 * Python values reach these helpers untyped; `PyValue` lists the kinds the
 * helpers distinguish. Python's own `float(str)` conversion is not modelled:
 * it is the `parse` parameter, which returns None where `float()` raises.
 */
module Parsing {
  import opened Wrappers
  import opened Strings

  /** The Python values the parsing helpers tell apart. `PyOther` carries `str(value)`. */
  datatype PyValue =
    | PyNone
    | PyNaN
    | PyFloat(f: real)
    | PyInt(i: int)
    | PyBool(b: bool)
    | PyStr(s: string)
    | PyOther(repr: string)

  /** `float(text.replace(",", "").strip())`. */
  function ConvertText(text: string, parse: string -> Option<real>): Option<real> {
    parse(Strip(RemoveChar(text, ',')))
  }

  /**
   * `parse_float`: None for None, "" and NaN; numbers convert exactly;
   * `str(True)` is not a number; text is converted after dropping commas
   * and edge whitespace.
   */
  function ParseFloat(v: PyValue, parse: string -> Option<real>): (r: Option<real>)
    ensures v == PyNone || v == PyStr("") || v == PyNaN ==> r == None
    ensures v.PyBool? ==> r == None
    ensures v.PyFloat? ==> r == Some(v.f)
    ensures v.PyInt? ==> r == Some(v.i as real)
    ensures v.PyStr? && v.s != "" ==> r == parse(Strip(RemoveChar(v.s, ',')))
    ensures v.PyOther? ==> r == parse(Strip(RemoveChar(v.repr, ',')))
  {
    match v
    case PyNone => None
    case PyNaN => None
    case PyFloat(f) => Some(f)
    case PyInt(i) => Some(i as real)
    case PyBool(_) => None
    case PyStr(s) => if s == "" then None else ConvertText(s, parse)
    case PyOther(repr) => ConvertText(repr, parse)
  }

  /**
   * `parse_percent`: None for None and NaN; ints, floats and bools (a bool
   * is an int in Python) become floats; text is converted after dropping
   * `%`, commas and edge whitespace; anything else is None.
   */
  function ParsePercent(v: PyValue, parse: string -> Option<real>): (r: Option<real>)
    ensures v == PyNone || v == PyNaN || v.PyOther? ==> r == None
    ensures v.PyFloat? ==> r == Some(v.f)
    ensures v.PyInt? ==> r == Some(v.i as real)
    ensures v.PyBool? ==> r == Some(if v.b then 1.0 else 0.0)
    ensures v.PyStr? ==> r == parse(Strip(RemoveChar(RemoveChar(v.s, '%'), ',')))
  {
    match v
    case PyNone => None
    case PyNaN => None
    case PyFloat(f) => Some(f)
    case PyInt(i) => Some(i as real)
    case PyBool(b) => Some(if b then 1.0 else 0.0)
    case PyStr(s) => ConvertText(RemoveChar(s, '%'), parse)
    case PyOther(_) => None
  }

  /**
   * On text, `parse_percent` is `parse_float` applied once the percent signs
   * are gone, save that text made only of `%` is handed to `float()` as ""
   * rather than rejected up front.
   */
  lemma PercentTextIsFloatText(s: string, parse: string -> Option<real>)
    requires RemoveChar(s, '%') != ""
    ensures ParsePercent(PyStr(s), parse) == ParseFloat(PyStr(RemoveChar(s, '%')), parse)
    ensures ',' !in Strip(RemoveChar(RemoveChar(s, '%'), ',')) && '%' !in Strip(RemoveChar(RemoveChar(s, '%'), ','))
  {
    StripKeepsCharacters(RemoveChar(RemoveChar(s, '%'), ','), ',');
    StripKeepsCharacters(RemoveChar(RemoveChar(s, '%'), ','), '%');
  }

  /** Stripping never introduces a character that was not there. */
  lemma StripKeepsCharacters(s: string, c: char)
    requires c !in s
    ensures c !in Strip(s)
  {
    var l := TrimLeft(s);
    assert l == s[|s| - |l|..];
    var r := TrimRight(l);
    assert r == l[..|r|];
  }

  /**
   * Text that is already free of commas and edge whitespace parses to the
   * same value as the raw text: the normalisation is idempotent.
   */
  lemma {:induction false} NormalisedTextParsesAlike(s: string, parse: string -> Option<real>)
    ensures ConvertText(Strip(RemoveChar(s, ',')), parse) == ConvertText(s, parse)
  {
    var t := Strip(RemoveChar(s, ','));
    StripKeepsCharacters(RemoveChar(s, ','), ',');
    assert RemoveChar(t, ',') == t;
    StripIsClean(RemoveChar(s, ','));
  }

  /**
   * On values that are not `%`-strings, `parse_percent` and `parse_float`
   * agree, except that `parse_float` maps "" to None outright and rejects bools.
   */
  lemma {:induction false} PercentAgreesWithFloat(v: PyValue, parse: string -> Option<real>)
    requires !v.PyBool? && !v.PyOther? && v != PyStr("")
    requires v.PyStr? ==> '%' !in v.s
    ensures ParsePercent(v, parse) == ParseFloat(v, parse)
  {
    if v.PyStr? {
      assert RemoveChar(v.s, '%') == v.s;
    }
  }
}
