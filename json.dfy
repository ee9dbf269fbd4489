/** JSON-like values as the handlers see them after `json.loads`, together
    with Python's truthiness and the `int(...)` coercion the handlers apply. */
module Json {

  datatype Option<+T> = None | Some(value: T)

  /** An IEEE 754 double, kept as its bit pattern: the model does no
      floating-point arithmetic. */
  datatype Float = Float(bits: bv64)

  /** A finite Python `Decimal`: (-1)^negative * coefficient * 10^exponent. */
  datatype Decimal = Decimal(negative: bool, coefficient: nat, exponent: int)

  datatype Json =
    | JNull
    | JBool(b: bool)
    | JInt(i: int)
    | JFloat(f: Float)
    | JDecimal(d: Decimal)
    | JStr(s: string)
    | JList(items: seq<Json>)
    | JObj(fields: map<string, Json>)

  /** Python's `bool(v)`: None, False, zero, "" and empty containers are falsy. */
  predicate Truthy(v: Json) {
    match v
    case JNull => false
    case JBool(b) => b
    case JInt(i) => i != 0
    case JFloat(f) => f.bits & 0x7FFF_FFFF_FFFF_FFFF != 0
    case JDecimal(d) => d.coefficient != 0
    case JStr(s) => s != ""
    case JList(xs) => xs != []
    case JObj(m) => m != map[]
  }

  /** Python's `d.get(k)`: an absent key reads as None. */
  function Get(m: map<string, Json>, k: string): Json {
    if k in m then m[k] else JNull
  }

  predicate IsDigit(c: char) {
    '0' <= c <= '9'
  }

  function DigitValue(c: char): nat
    requires IsDigit(c)
  {
    (c as int) - ('0' as int)
  }

  function DigitChar(d: nat): char
    requires d < 10
  {
    ('0' as int + d) as char
  }

  /** The value of a non-empty run of ASCII digits; None for anything else. */
  function ParseDigits(s: string): Option<nat> {
    if s == [] || !IsDigit(s[|s| - 1]) then None
    else if |s| == 1 then Some(DigitValue(s[0]))
    else match ParseDigits(s[..|s| - 1])
      case None => None
      case Some(n) => Some(10 * n + DigitValue(s[|s| - 1]))
  }

  /** `int(s)` for a string: an optional sign followed by decimal digits. */
  function ParseIntText(s: string): Option<int> {
    if |s| > 0 && (s[0] == '+' || s[0] == '-') then
      match ParseDigits(s[1..])
      case None => None
      case Some(n) => Some(if s[0] == '-' then -(n as int) else n as int)
    else
      match ParseDigits(s)
      case None => None
      case Some(n) => Some(n)
  }

  /** `int(v)`, with None where Python raises. */
  function ParseInt(v: Json): Option<int> {
    match v
    case JInt(i) => Some(i)
    case JBool(b) => Some(if b then 1 else 0)
    case JStr(s) => ParseIntText(s)
    case _ => None
  }

  /** `str(n)` for a non-negative integer. */
  function FormatNat(n: nat): string
    decreases n
  {
    if n < 10 then [DigitChar(n)] else FormatNat(n / 10) + [DigitChar(n % 10)]
  }

  /** `str(n)`. */
  function FormatInt(n: int): string {
    if n < 0 then "-" + FormatNat(-n) else FormatNat(n)
  }

  lemma {:induction false} ParseFormatNat(n: nat)
    ensures FormatNat(n) != [] && IsDigit(FormatNat(n)[0])
    ensures ParseDigits(FormatNat(n)) == Some(n)
    decreases n
  {
    if n >= 10 {
      ParseFormatNat(n / 10);
      var s := FormatNat(n);
      assert s[..|s| - 1] == FormatNat(n / 10);
    }
  }

  /** `int(str(n)) == n`: formatting an integer and coercing it back is the identity. */
  lemma ParseFormatRoundTrip(n: int)
    ensures FormatInt(n) != ""
    ensures ParseInt(JStr(FormatInt(n))) == Some(n)
  {
    if n < 0 {
      ParseFormatNat(-n);
      assert FormatInt(n)[1..] == FormatNat(-n);
    } else {
      ParseFormatNat(n);
    }
  }

  lemma {:induction false} ParseDigitsRejects(s: string, i: nat)
    requires i < |s| && !IsDigit(s[i])
    ensures ParseDigits(s) == None
    decreases |s|
  {
    if i < |s| - 1 {
      ParseDigitsRejects(s[..|s| - 1], i);
    }
  }

  /** A string with a character that is neither a digit nor a leading sign
      does not coerce (so "abc" is rejected). */
  lemma ParseIntTextRejects(s: string, i: nat)
    requires i < |s| && !IsDigit(s[i])
    requires i > 0 || (s[0] != '+' && s[0] != '-')
    ensures ParseInt(JStr(s)) == None
  {
    if s[0] == '+' || s[0] == '-' {
      ParseDigitsRejects(s[1..], i - 1);
    } else {
      ParseDigitsRejects(s, i);
    }
  }
}
