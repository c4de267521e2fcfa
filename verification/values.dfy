/** JavaScript values as they appear in the flat `flags.dcc` record and in a
    submitted sheet form, and the `Number(value)` coercion the sheet applies. */
module Values {

  datatype Option<+T> = None | Some(value: T)

  /** A scalar JavaScript value. Numbers are integers here; `NaN` is the
      number `Number` yields for text that is not a number. */
  datatype Value = Num(n: int) | Str(s: string) | Bool(b: bool) | Null | NaN

  /** A flat object such as `flags.dcc`: field name to value. */
  type Record = map<string, Value>

  /** An entry of a larger host object (roll data, sheet context): a scalar or
      a flat nested object. */
  datatype Entry = Scalar(value: Value) | Group(fields: Record)

  /** `x ?? {}` for a record that may be absent. */
  function OrEmpty(r: Option<Record>): Record
  {
    if r.Some? then r.value else map[]
  }

  predicate IsDigit(c: char)
  {
    '0' <= c <= '9'
  }

  predicate AllDigits(s: string)
  {
    forall i :: 0 <= i < |s| ==> IsDigit(s[i])
  }

  function DigitValue(c: char): nat
    requires IsDigit(c)
  {
    (c as int) - ('0' as int)
  }

  function DigitChar(d: nat): (c: char)
    requires d < 10
    ensures IsDigit(c) && DigitValue(c) == d
  {
    (('0' as int) + d) as char
  }

  /** The value of a string of decimal digits, read most significant first. */
  function DigitsValue(s: string): nat
    requires AllDigits(s)
  {
    if s == [] then 0 else DigitsValue(s[..|s| - 1]) * 10 + DigitValue(s[|s| - 1])
  }

  /** `Number(s)` on a string: the empty string is 0, an optional sign followed
      by decimal digits is that integer, anything else is NaN. */
  function StringToNumber(s: string): (r: Value)
    ensures r.Num? || r.NaN?
    ensures s == "" ==> r == Num(0)
    ensures r.Num? && s != "" ==> s[0] == '-' || s[0] == '+' || IsDigit(s[0])
  {
    if s == [] then Num(0)
    else if |s| > 1 && s[0] == '-' && AllDigits(s[1..]) then Num(0 - DigitsValue(s[1..]) as int)
    else if |s| > 1 && s[0] == '+' && AllDigits(s[1..]) then Num(DigitsValue(s[1..]))
    else if AllDigits(s) then Num(DigitsValue(s))
    else NaN
  }

  /** `Number(v)`: numbers stay, booleans become 1 or 0, null becomes 0,
      strings are parsed, NaN stays NaN. */
  function ToNumber(v: Value): (r: Value)
    ensures r.Num? || r.NaN?
    ensures v.Num? || v.NaN? ==> r == v
    ensures v.Bool? ==> r == Num(if v.b then 1 else 0)
    ensures v == Null ==> r == Num(0)
  {
    match v
    case Num(_) => v
    case NaN => v
    case Bool(b) => Num(if b then 1 else 0)
    case Null => Num(0)
    case Str(s) => StringToNumber(s)
  }

  /** The decimal rendering of a natural number, as `String(n)` gives it
      below 10^21. */
  function NatDigits(n: nat): string
    decreases n
  {
    if n < 10 then [DigitChar(n)] else NatDigits(n / 10) + [DigitChar(n % 10)]
  }

  /** The decimal rendering of an integer, as `String(n)` gives it for
      magnitudes below 10^21. */
  function Decimal(n: int): string
  {
    if n < 0 then "-" + NatDigits(-n) else NatDigits(n)
  }

  lemma {:induction false} NatDigitsValue(n: nat)
    ensures NatDigits(n) != [] && AllDigits(NatDigits(n))
    ensures DigitsValue(NatDigits(n)) == n
    decreases n
  {
    var s := NatDigits(n);
    if n >= 10 {
      NatDigitsValue(n / 10);
      assert s[..|s| - 1] == NatDigits(n / 10);
      assert s[|s| - 1] == DigitChar(n % 10);
      assert AllDigits(s) by {
        forall i | 0 <= i < |s| ensures IsDigit(s[i]) {
          if i < |s| - 1 { assert s[i] == NatDigits(n / 10)[i]; }
        }
      }
    }
  }

  /** `Number` inverts `String` on integers: the text a number field shows
      reads back as the same number. */
  lemma {:induction false} NumberOfDecimal(n: int)
    ensures ToNumber(Str(Decimal(n))) == Num(n)
  {
    var m: nat := if n < 0 then -n else n;
    NatDigitsValue(m);
    if n < 0 {
      var s := Decimal(n);
      assert s[1..] == NatDigits(m);
      assert s[0] == '-';
      assert !AllDigits(s) by { assert !IsDigit(s[0]); }
    }
  }
}
