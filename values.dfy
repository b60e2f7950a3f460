/**
 * Column values, rows and the small string helpers the handlers use to
 * build their messages (Python's `str(int)` and `", ".join`).
 */
module Values {

  datatype Option<+T> = None | Some(value: T)

  /** A float column value. No arithmetic is done on floats, so only its printed form is kept. */
  datatype Float = Float(text: string)

  /** A date or UTC timestamp, kept opaque with its printed form. */
  datatype Moment = Moment(text: string)

  /** The value of one column of a stored row; `Null` is SQL NULL / Python `None`. */
  datatype Value = Null | IntV(i: int) | StrV(s: string) | FloatV(f: Float) | TimeV(t: Moment)

  /** A record as the store holds it: column name to current value. */
  type Row<C> = map<C, Value>

  /** The SQL type of a column, as its `Column(...)` declaration gives it. */
  datatype Kind = IntKind | StrKind | FloatKind | TimeKind
  datatype ColumnType = ColumnType(kind: Kind, nullable: bool)

  /** A value fits a column: NULL only where the column is nullable, otherwise a value of its kind. */
  predicate Conforms(v: Value, t: ColumnType) {
    match v
    case Null => t.nullable
    case IntV(_) => t.kind == IntKind
    case StrV(_) => t.kind == StrKind
    case FloatV(_) => t.kind == FloatKind
    case TimeV(_) => t.kind == TimeKind
  }

  const NullableInt := ColumnType(IntKind, true)
  const NullableStr := ColumnType(StrKind, true)
  const NullableFloat := ColumnType(FloatKind, true)
  const NullableTime := ColumnType(TimeKind, true)

  // Python `Optional[...]` attributes and their column values, both ways.

  function OptInt(o: Option<int>): (v: Value)
    ensures Conforms(v, NullableInt) && (v.Null? <==> o.None?)
  {
    if o.Some? then IntV(o.value) else Null
  }

  function GetOptInt(v: Value): (o: Option<int>)
    ensures Conforms(v, NullableInt) ==> OptInt(o) == v
  {
    if v.IntV? then Some(v.i) else None
  }

  function OptStr(o: Option<string>): (v: Value)
    ensures Conforms(v, NullableStr) && (v.Null? <==> o.None?)
  {
    if o.Some? then StrV(o.value) else Null
  }

  function GetOptStr(v: Value): (o: Option<string>)
    ensures Conforms(v, NullableStr) ==> OptStr(o) == v
  {
    if v.StrV? then Some(v.s) else None
  }

  function OptFloat(o: Option<Float>): (v: Value)
    ensures Conforms(v, NullableFloat) && (v.Null? <==> o.None?)
  {
    if o.Some? then FloatV(o.value) else Null
  }

  function GetOptFloat(v: Value): (o: Option<Float>)
    ensures Conforms(v, NullableFloat) ==> OptFloat(o) == v
  {
    if v.FloatV? then Some(v.f) else None
  }

  function OptTime(o: Option<Moment>): (v: Value)
    ensures Conforms(v, NullableTime) && (v.Null? <==> o.None?)
  {
    if o.Some? then TimeV(o.value) else Null
  }

  function GetOptTime(v: Value): (o: Option<Moment>)
    ensures Conforms(v, NullableTime) ==> OptTime(o) == v
  {
    if v.TimeV? then Some(v.t) else None
  }

  /** The value a row holds in column `c`; `Null` where the row lacks the column. */
  function At<C>(row: Row<C>, c: C): (v: Value)
    ensures c in row ==> v == row[c]
  {
    if c in row then row[c] else Null
  }

  /** The integer a value holds, 0 for any other value. */
  function GetInt(v: Value): (i: int)
    ensures v.IntV? ==> IntV(i) == v
  {
    if v.IntV? then v.i else 0
  }

  function GetStr(v: Value): (s: string)
    ensures v.StrV? ==> StrV(s) == v
  {
    if v.StrV? then v.s else ""
  }

  function GetFloat(v: Value): (f: Float)
    ensures v.FloatV? ==> FloatV(f) == v
  {
    if v.FloatV? then v.f else Float("")
  }

  function GetTime(v: Value): (t: Moment)
    ensures v.TimeV? ==> TimeV(t) == v
  {
    if v.TimeV? then v.t else Moment("")
  }

  /** Python's `str()` of a column value as an f-string renders it. */
  function Show(v: Value): (r: string)
    ensures v.Null? ==> r == "None"
    ensures v.StrV? ==> r == v.s
  {
    match v
    case Null => "None"
    case IntV(i) => IntToString(i)
    case StrV(s) => s
    case FloatV(f) => f.text
    case TimeV(t) => t.text
  }

  predicate IsDigit(c: char) {
    '0' <= c <= '9'
  }

  predicate AllDigits(s: string) {
    forall i :: 0 <= i < |s| ==> IsDigit(s[i])
  }

  function DigitChar(d: int): (c: char)
    requires 0 <= d < 10
    ensures IsDigit(c) && c as int - '0' as int == d
  {
    ('0' as int + d) as char
  }

  /** Decimal digits of `n`, most significant first, without leading zeros. */
  function NatToString(n: nat): (s: string)
    ensures |s| >= 1 && AllDigits(s)
    ensures n >= 10 ==> s[0] != '0'
  {
    if n < 10 then [DigitChar(n)] else NatToString(n / 10) + [DigitChar(n % 10)]
  }

  /** The number a non-empty string of decimal digits denotes. */
  function ParseNat(s: string): nat
    requires AllDigits(s)
  {
    if |s| == 0 then 0
    else ParseNat(s[..|s| - 1]) * 10 + (s[|s| - 1] as int - '0' as int)
  }

  lemma {:induction false} ParseNatToString(n: nat)
    ensures ParseNat(NatToString(n)) == n
  {
    if n >= 10 {
      var s := NatToString(n / 10);
      ParseNatToString(n / 10);
      assert NatToString(n) == s + [DigitChar(n % 10)];
      assert (s + [DigitChar(n % 10)])[..|s|] == s;
    }
  }

  /** Python's `str(n)` for an int: an optional minus sign, then the digits. */
  function IntToString(n: int): (s: string)
    ensures |s| >= 1
    ensures n < 0 <==> s[0] == '-'
    ensures forall i :: 0 < i < |s| ==> IsDigit(s[i])
  {
    if n < 0 then "-" + NatToString(-n) else NatToString(n)
  }

  lemma NatToStringInjective(m: nat, n: nat)
    requires NatToString(m) == NatToString(n)
    ensures m == n
  {
    ParseNatToString(m);
    ParseNatToString(n);
  }

  /** Distinct integers print differently, so a message that embeds an id names exactly that id. */
  lemma IntToStringInjective(a: int, b: int)
    requires IntToString(a) == IntToString(b)
    ensures a == b
  {
    if a < 0 {
      assert b < 0;
      var sa, sb := IntToString(a), IntToString(b);
      assert sa == "-" + NatToString(-a) && sb == "-" + NatToString(-b);
      assert sa[1..] == NatToString(-a) && sb[1..] == NatToString(-b);
      NatToStringInjective(-a, -b);
    } else {
      assert b >= 0;
      NatToStringInjective(a, b);
    }
  }

  /** Length of the run of decimal digits that starts the string. */
  function DigitRun(s: string): (n: nat)
    ensures n <= |s|
  {
    if |s| == 0 || !IsDigit(s[0]) then 0 else 1 + DigitRun(s[1..])
  }

  lemma {:induction false} DigitRunOf(d: string, x: string)
    requires AllDigits(d) && |x| > 0 && !IsDigit(x[0])
    ensures DigitRun(d + x) == |d|
  {
    if d != [] {
      assert (d + x)[1..] == d[1..] + x;
      DigitRunOf(d[1..], x);
    }
  }

  /** Where a printed integer ends when a non-digit follows it. */
  lemma PrintedIntLength(a: int, x: string)
    requires |x| > 0 && !IsDigit(x[0])
    ensures |IntToString(a)| == 1 + DigitRun((IntToString(a) + x)[1..])
  {
    var sa := IntToString(a);
    assert (sa + x)[1..] == sa[1..] + x;
    DigitRunOf(sa[1..], x);
  }

  /**
   * A printed integer followed by text that starts with neither a digit nor
   * a minus sign can be split back uniquely: the integer and the rest are determined.
   */
  lemma IntThenTextUnique(a: int, x: string, b: int, y: string)
    requires |x| > 0 && !IsDigit(x[0]) && |y| > 0 && !IsDigit(y[0])
    requires IntToString(a) + x == IntToString(b) + y
    ensures a == b && x == y
  {
    var sa, sb := IntToString(a), IntToString(b);
    var w := sa + x;
    PrintedIntLength(a, x);
    PrintedIntLength(b, y);
    assert sa == w[..|sa|] == sb;
    IntToStringInjective(a, b);
    assert x == w[|sa|..] == y;
  }

  /** A message `p + str(n) + x` names exactly one `n` when `x` starts with a non-digit. */
  lemma TaggedIntUnique(p: string, a: int, x: string, b: int, y: string)
    requires |x| > 0 && !IsDigit(x[0]) && |y| > 0 && !IsDigit(y[0])
    requires p + IntToString(a) + x == p + IntToString(b) + y
    ensures a == b && x == y
  {
    var w := p + IntToString(a) + x;
    assert w[|p|..] == IntToString(a) + x;
    assert (p + IntToString(b) + y)[|p|..] == IntToString(b) + y;
    IntThenTextUnique(a, x, b, y);
  }

  /**
   * A message `p + str(a) + m + str(b) + x` names exactly one pair `(a, b)`
   * when `m` starts with a non-digit and `x` is empty or starts with one.
   */
  lemma TaggedIntPairUnique(p: string, a: int, m: string, b: int, x: string, c: int, d: int)
    requires |m| > 0 && !IsDigit(m[0]) && (x == "" || !IsDigit(x[0]))
    requires p + IntToString(a) + m + IntToString(b) + x == p + IntToString(c) + m + IntToString(d) + x
    ensures a == c && b == d
  {
    var t1, t2 := m + IntToString(b) + x, m + IntToString(d) + x;
    ConcatAssoc(p + IntToString(a), m + IntToString(b), x);
    ConcatAssoc(p + IntToString(a), m, IntToString(b));
    ConcatAssoc(p + IntToString(c), m + IntToString(d), x);
    ConcatAssoc(p + IntToString(c), m, IntToString(d));
    TaggedIntUnique(p, a, t1, c, t2);
    assert IntToString(a) + t1 == IntToString(c) + t2 by {
      var w := p + IntToString(a) + t1;
      assert w[|p|..] == IntToString(a) + t1;
      assert (p + IntToString(c) + t2)[|p|..] == IntToString(c) + t2;
    }
    IntThenTextUnique(a, t1, c, t2);
    TrailingIntUnique(m, b, x, d);
  }

  lemma ConcatAssoc(u: string, v: string, w: string)
    ensures u + v + w == u + (v + w)
  {
  }

  /** `m + str(b) + x` determines `b` when `x` is empty or starts with a non-digit. */
  lemma TrailingIntUnique(m: string, b: int, x: string, d: int)
    requires x == "" || !IsDigit(x[0])
    requires m + IntToString(b) + x == m + IntToString(d) + x
    ensures b == d
  {
    var t1, t2 := m + IntToString(b) + x, m + IntToString(d) + x;
    assert t1[|m|..] == IntToString(b) + x;
    assert t2[|m|..] == IntToString(d) + x;
    if x == "" {
      assert IntToString(b) + x == IntToString(b) && IntToString(d) + x == IntToString(d);
      IntToStringInjective(b, d);
    } else {
      IntThenTextUnique(b, x, d, x);
    }
  }

  /** Python's `sep.join(parts)`. */
  function Join(parts: seq<string>, sep: string): (r: string)
    ensures parts == [] ==> r == ""
    ensures |parts| == 1 ==> r == parts[0]
  {
    if |parts| == 0 then ""
    else if |parts| == 1 then parts[0]
    else Join(parts[..|parts| - 1], sep) + sep + parts[|parts| - 1]
  }

  predicate EndsWith(s: string, suffix: string) {
    |suffix| <= |s| && s[|s| - |suffix|..] == suffix
  }
}
