/** Shared vocabulary: an optional value, the JavaScript values that request
    bodies, callback payloads and thrown values carry, and character helpers. */
module Common {

  datatype Option<T> = None | Some(value: T)

  /** A JavaScript value as the request layer hands it to a validator.
      A key missing from `JObj` stands for `undefined`. */
  datatype Value =
    | JNull
    | JBool(b: bool)
    | JNum(n: real)
    | JStr(s: string)
    | JDate(time: Option<int>)   // a Date object; None is an Invalid Date
    | JArr(items: seq<Value>)
    | JObj(fields: map<string, Value>)

  /** JavaScript's ToBoolean on a present value. */
  predicate Truthy(v: Value) {
    match v
    case JNull => false
    case JBool(b) => b
    case JNum(n) => n != 0.0
    case JStr(s) => s != ""
    case _ => true
  }

  predicate IsInteger(x: real) {
    x.Floor as real == x
  }

  /** What `z.number().int().positive()` accepts. */
  predicate IsPositiveInt(v: Value) {
    v.JNum? && IsInteger(v.n) && v.n > 0.0
  }

  /** The integer a JavaScript number holds, for numbers that are integers. */
  function IntOf(v: Value): int
    requires v.JNum?
  {
    v.n.Floor
  }

  /** A string whose length lies in `lo..hi`, as `z.string().min(lo).max(hi)`. */
  predicate StringWithin(v: Value, lo: nat, hi: nat) {
    v.JStr? && lo <= |v.s| <= hi
  }

  /** The number a Dafny integer is written as. */
  function Num(i: int): Value {
    JNum(i as real)
  }

  /** The object keeps only the keys of `keys` (`z.object` strips the rest). */
  function Restrict(fields: map<string, Value>, keys: set<string>): (r: map<string, Value>)
    ensures r.Keys == fields.Keys * keys
    ensures forall k :: k in r ==> r[k] == fields[k]
  {
    map k | k in fields && k in keys :: fields[k]
  }

  predicate IsDigit(c: char) {
    '0' <= c <= '9'
  }

  predicate AllDigits(s: string) {
    forall i :: 0 <= i < |s| ==> IsDigit(s[i])
  }

  function DigitValue(c: char): (d: nat)
    requires IsDigit(c)
    ensures d < 10
  {
    c as int - '0' as int
  }

  function DigitChar(d: nat): (c: char)
    requires d < 10
    ensures IsDigit(c) && DigitValue(c) == d
  {
    ('0' as int + d) as char
  }

  lemma DigitRoundTrip(c: char)
    requires IsDigit(c)
    ensures DigitChar(DigitValue(c)) == c
  {
  }

  /** The decimal text of a natural number, as JavaScript's String(n) writes it. */
  function NatToString(n: nat): (s: string)
    ensures |s| > 0 && AllDigits(s)
    decreases n
  {
    if n < 10 then [DigitChar(n)] else NatToString(n / 10) + [DigitChar(n % 10)]
  }
}
