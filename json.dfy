/**
 * JSON values as the pipeline's Python code sees them after `json.loads`, and the
 * three Python observations it makes of them: truthiness, `str()` and `int()`.
 * JSON parsing and serialisation themselves are not modelled: each stage takes
 * them as function parameters.
 */
module Json {
  import opened Base
  import Text

  /** The non-finite floats `json.loads` accepts (`Infinity`, `-Infinity`, `NaN`). */
  datatype NonFinite = PosInf | NegInf | NaN

  /** A decoded JSON value. A finite float carries its value and its Python
      `str()` rendering; arrays and nested objects are carried as `JOther` with
      their rendering and their truthiness: no stage of the pipeline looks
      inside them. */
  datatype Json =
    | JNull
    | JBool(b: bool)
    | JInt(i: int)
    | JFloat(x: real, repr: string)
    | JNonFinite(kind: NonFinite)
    | JStr(s: string)
    | JOther(repr: string, truthy: bool)

  /** A decoded JSON object (a Python dict) by key. */
  type Obj = map<string, Json>

  /** `obj.get(key, None)`: a missing key reads as `None`, i.e. JSON null. */
  function Get(obj: Obj, key: string): (v: Json)
    ensures key !in obj ==> v == JNull
    ensures key in obj ==> v == obj[key]
  {
    if key in obj then obj[key] else JNull
  }

  /** Python truthiness (`if v:`). */
  predicate Truthy(v: Json) {
    match v
    case JNull => false
    case JBool(b) => b
    case JInt(i) => i != 0
    case JFloat(x, _) => x != 0.0
    case JNonFinite(_) => true
    case JStr(s) => s != ""
    case JOther(_, t) => t
  }

  /** Python's `v == True`, which also holds of the integer 1 and the float 1.0. */
  predicate EqualsTrue(v: Json) {
    v == JBool(true) || v == JInt(1) || (v.JFloat? && v.x == 1.0)
  }

  /** Python's `v is True`: only the boolean itself. */
  predicate IsTrue(v: Json) {
    v == JBool(true)
  }

  /** Python's `str(v)`. */
  function Str(v: Json): string {
    match v
    case JNull => "None"
    case JBool(b) => if b then "True" else "False"
    case JInt(i) => Decimal(i)
    case JFloat(_, r) => r
    case JNonFinite(k) => (match k case PosInf => "inf" case NegInf => "-inf" case NaN => "nan")
    case JStr(s) => s
    case JOther(r, _) => r
  }

  function DigitChar(d: nat): char
    requires d < 10
  {
    "0123456789"[d]
  }

  function DigitValue(c: char): nat
    requires IsDigit(c)
  {
    (c as int - '0' as int) as nat
  }

  predicate IsDigit(c: char) {
    '0' <= c <= '9'
  }

  predicate AllDigits(s: string) {
    forall i :: 0 <= i < |s| ==> IsDigit(s[i])
  }

  /** Decimal digits of a natural number, most significant first. */
  function Digits(n: nat): (s: string)
    ensures |s| >= 1 && AllDigits(s)
  {
    if n < 10 then [DigitChar(n)] else Digits(n / 10) + [DigitChar(n % 10)]
  }

  /** Python's `str(i)` for an integer. */
  function Decimal(i: int): string {
    if i < 0 then "-" + Digits(-i) else Digits(i)
  }

  /** The value of a string of decimal digits. */
  function DigitsValue(s: string): nat
    requires |s| >= 1 && AllDigits(s)
  {
    if |s| == 1 then DigitValue(s[0])
    else DigitsValue(s[..|s| - 1]) * 10 + DigitValue(s[|s| - 1])
  }

  /** A numeral Python's `int()` reads: ASCII digits, where a single `_` may
      separate two digits. */
  predicate IsNumeral(s: string) {
    && |s| >= 1 && IsDigit(s[0])
    && forall i :: 0 <= i < |s| ==> IsDigit(s[i]) || Separates(s, i)
  }

  /** Position `i` holds an underscore with a digit right after it. */
  predicate Separates(s: string, i: nat)
    requires i < |s|
  {
    s[i] == '_' && i + 1 < |s| && IsDigit(s[i + 1])
  }

  /** The digits of a numeral, its underscores dropped. */
  function DropUnderscores(s: string): (r: string)
    ensures (forall i :: 0 <= i < |s| ==> IsDigit(s[i]) || s[i] == '_') ==> AllDigits(r)
    ensures |s| >= 1 && IsDigit(s[0]) ==> |r| >= 1
    ensures AllDigits(s) ==> r == s
  {
    if s == [] then []
    else (if s[0] == '_' then [] else [s[0]]) + DropUnderscores(s[1..])
  }

  /** The value of a numeral. */
  function NumeralValue(s: string): nat
    requires IsNumeral(s)
  {
    assert forall i :: 0 <= i < |s| ==> IsDigit(s[i]) || s[i] == '_';
    DigitsValue(DropUnderscores(s))
  }

  /** A plain run of digits is a numeral with its own value. */
  lemma {:induction false} DigitsNumeral(s: string)
    requires |s| >= 1 && AllDigits(s)
    ensures IsNumeral(s) && NumeralValue(s) == DigitsValue(s)
  {
  }

  /** Python's `int(s)` on a string already stripped of surrounding whitespace:
      an optional sign followed by a numeral. */
  function ParseInt(s: string): Option<int> {
    if |s| >= 2 && s[0] == '-' && IsNumeral(s[1..]) then Some(-(NumeralValue(s[1..]) as int))
    else if |s| >= 2 && s[0] == '+' && IsNumeral(s[1..]) then Some(NumeralValue(s[1..]))
    else if IsNumeral(s) then Some(NumeralValue(s))
    else None
  }

  /** Python's `int(x)` on a float: rounds toward zero. */
  function Truncate(x: real): (i: int)
    ensures 0.0 <= x ==> i as real <= x < i as real + 1.0
    ensures x < 0.0 ==> i as real - 1.0 < x <= i as real
  {
    if x >= 0.0 then x.Floor else -((-x).Floor)
  }

  /** Python's `int(v)`; `None` when Python raises (`int(None)`, `int("abc")`,
      `int(float("inf"))`, ...). */
  function IntOf(v: Json): Option<int> {
    match v
    case JBool(b) => Some(if b then 1 else 0)
    case JInt(i) => Some(i)
    case JFloat(x, _) => Some(Truncate(x))
    case JStr(s) => ParseInt(Text.Strip(s))
    case _ => None
  }

  lemma {:induction false} DigitsRoundTrip(n: nat)
    ensures DigitsValue(Digits(n)) == n
  {
    if n >= 10 {
      var s := Digits(n);
      assert s[..|s| - 1] == Digits(n / 10);
      DigitsRoundTrip(n / 10);
    }
  }

  /** `int(str(i)) == i`: the decimal rendering reads back as the same integer. */
  lemma {:induction false} DecimalRoundTrip(i: int)
    ensures ParseInt(Decimal(i)) == Some(i)
  {
    var n: nat := if i < 0 then -i else i;
    DigitsParse(n);
    if i < 0 {
      assert Decimal(i)[1..] == Digits(n);
    }
  }

  /** The digits of `n` form a numeral, starting with a digit, worth `n`. */
  lemma DigitsParse(n: nat)
    ensures var s := Digits(n); IsNumeral(s) && IsDigit(s[0]) && NumeralValue(s) == n
  {
    DigitsNumeral(Digits(n));
    DigitsRoundTrip(n);
  }

  /** `int("1_000") == 1000`: underscores between digits are ignored. */
  lemma {:induction false} GroupedNumeralExample()
    ensures ParseInt("1_000") == Some(1000)
  {
    GroupedNumeralValue();
    assert "1_000"[0] == '1';
  }

  lemma GroupedNumeralValue()
    ensures IsNumeral("1_000") && NumeralValue("1_000") == 1000
  {
    var s := "1_000";
    assert IsNumeral(s) by {
      assert forall i :: 0 <= i < |s| ==> IsDigit(s[i]) || Separates(s, i);
    }
    assert DropUnderscores(s) == "1000" by {
      assert AllDigits("000");
      assert s[1..] == "_000" && s[1..][1..] == "000";
    }
    ThousandValue();
  }

  lemma ThousandValue()
    ensures DigitsValue("1000") == 1000
  {
    assert "1000"[..3] == "100" && "100"[..2] == "10" && "10"[..1] == "1";
  }

  /** `int()` raises on a stray, doubled or trailing underscore. */
  lemma {:induction false} MisplacedUnderscoreFails()
    ensures ParseInt("_1") == None && ParseInt("1__0") == None && ParseInt("1_") == None
  {
    assert !IsNumeral("1__0") by { var t := "1__0"; assert !(IsDigit(t[1]) || Separates(t, 1)); }
    assert !IsNumeral("1_") by { var t := "1_"; assert !(IsDigit(t[1]) || Separates(t, 1)); }
  }

  /** A Python dict built by assignment, in insertion order (the order
      `json.dumps` writes its keys in). */
  type Record = seq<(string, Json)>

  function Keys(rec: Record): (ks: seq<string>)
    ensures |ks| == |rec|
    ensures forall i :: 0 <= i < |rec| ==> ks[i] == rec[i].0
  {
    if rec == [] then [] else [rec[0].0] + Keys(rec[1..])
  }

  predicate Distinct<T(==)>(s: seq<T>) {
    forall i, j :: 0 <= i < j < |s| ==> s[i] != s[j]
  }

  /** `rec[k] = v`: an existing key keeps its place and takes the new value, a
      new key goes at the end. */
  function Put(rec: Record, k: string, v: Json): (r: Record)
    ensures Keys(r) == if k in Keys(rec) then Keys(rec) else Keys(rec) + [k]
  {
    if rec == [] then [(k, v)]
    else if rec[0].0 == k then [(k, v)] + rec[1..]
    else [rec[0]] + Put(rec[1..], k, v)
  }

  /** A record's value for a key, as the dict lookup `rec[k]` sees it. */
  function Lookup(rec: Record, k: string): Option<Json> {
    if rec == [] then None
    else if rec[0].0 == k then Some(rec[0].1)
    else Lookup(rec[1..], k)
  }

  /** After `rec[k] = v`, reading `k` gives `v` and every other key reads as
      before. */
  lemma {:induction false} PutLookup(rec: Record, k: string, v: Json, other: string)
    ensures Lookup(Put(rec, k, v), k) == Some(v)
    ensures other != k ==> Lookup(Put(rec, k, v), other) == Lookup(rec, other)
  {
    if rec != [] && rec[0].0 != k {
      PutLookup(rec[1..], k, v, other);
    }
  }

  /** Assignment keeps a dict's keys distinct. */
  lemma {:induction false} PutDistinct(rec: Record, k: string, v: Json)
    requires Distinct(Keys(rec))
    ensures Distinct(Keys(Put(rec, k, v)))
  {
    var ks := Keys(rec);
    if k !in ks {
      forall i, j | 0 <= i < j < |ks + [k]| ensures (ks + [k])[i] != (ks + [k])[j] {
        if j == |ks| {
          assert (ks + [k])[i] == ks[i];
        } else {
          assert (ks + [k])[i] == ks[i] && (ks + [k])[j] == ks[j];
        }
      }
    }
  }

  /** A lookup finds the first entry holding the key. */
  lemma {:induction false} LookupFirst(rec: Record, i: nat)
    requires i < |rec|
    requires forall j :: 0 <= j < i ==> rec[j].0 != rec[i].0
    ensures Lookup(rec, rec[i].0) == Some(rec[i].1)
  {
    if i > 0 {
      LookupFirst(rec[1..], i - 1);
    }
  }
}
