/** The numeric conversions the accessors use, over unbounded integers with the
    C++ ranges written out: std::stol, std::stoi, std::stof (restricted to its
    integer part) and `stream >> long`. */
module Numbers {
  import opened Wrappers
  import opened Text

  /** The range of a 64-bit `long` and of a 32-bit `int`. */
  const LongMin: int := -0x8000_0000_0000_0000
  const LongMax: int := 0x7FFF_FFFF_FFFF_FFFF
  const IntMin: int := -0x8000_0000
  const IntMax: int := 0x7FFF_FFFF

  /** `isdigit` in the C locale. */
  predicate IsDigit(c: char)
  {
    '0' <= c <= '9'
  }

  predicate AllDigits(s: string)
  {
    forall k :: 0 <= k < |s| ==> IsDigit(s[k])
  }

  lemma DigitIsNotSpace(c: char)
    requires IsDigit(c)
    ensures !IsSpace(c)
  {
  }

  function DigitValue(c: char): (d: nat)
    requires IsDigit(c)
    ensures d < 10
  {
    c as int - '0' as int
  }

  function DigitChar(d: nat): (c: char)
    requires d < 10
    ensures IsDigit(c) && DigitValue(c) == d
  {
    ('0' as int + d) as char
  }

  /** Length of the run of decimal digits that starts `s`. */
  function DigitsLen(s: string): (n: nat)
    ensures n <= |s|
    ensures AllDigits(s[..n])
    ensures n < |s| ==> !IsDigit(s[n])
  {
    if s == [] || !IsDigit(s[0]) then 0
    else
      var m := DigitsLen(s[1..]);
      assert s[..m + 1] == [s[0]] + s[1..][..m];
      m + 1
  }

  /** `rest` cannot continue a run of digits: it is empty or starts with a
      non-digit. */
  predicate StopsDigits(rest: string)
  {
    rest == [] || !IsDigit(rest[0])
  }

  /** The number a string of decimal digits denotes. */
  function DecimalValue(d: string): nat
    requires AllDigits(d)
  {
    if d == [] then 0 else 10 * DecimalValue(d[..|d| - 1]) + DigitValue(d[|d| - 1])
  }

  /** The shortest decimal spelling of `n`. */
  function DecimalString(n: nat): (s: string)
    ensures s != [] && AllDigits(s)
  {
    if n < 10 then [DigitChar(n)] else DecimalString(n / 10) + [DigitChar(n % 10)]
  }

  /** `t` without the sign character that may start it. */
  function Unsigned(t: string): string
  {
    if |t| > 0 && (t[0] == '+' || t[0] == '-') then t[1..] else t
  }

  /** The integer `strtol(s, &end, 10)` reads before range checking: leading
      whitespace, an optional sign, then the longest run of digits; `None`
      when that run is empty (no conversion). */
  function LeadingInteger(s: string): Option<int>
  {
    if s != [] && IsSpace(s[0]) then LeadingInteger(s[1..]) else SignedInteger(s)
  }

  /** The integer at the very start of `t`: an optional sign, then the
      longest run of digits. */
  function SignedInteger(t: string): Option<int>
  {
    var u := Unsigned(t);
    var n := DigitsLen(u);
    if n == 0 then None
    else
      var magnitude: int := DecimalValue(u[..n]);
      Some(if |t| > 0 && t[0] == '-' then -magnitude else magnitude)
  }

  /** std::stol: the leading integer, `invalid_argument` when there is none,
      `out_of_range` when it does not fit a `long`. */
  function Stol(s: string): (r: Result<int>)
    ensures r.Ok? ==> LongMin <= r.value <= LongMax
    ensures r.Ok? ==> LeadingInteger(s) == Some(r.value)
    ensures r.Ok? <==> LeadingInteger(s).Some? && LongMin <= LeadingInteger(s).value <= LongMax
    ensures r == Err(InvalidArgument) <==> LeadingInteger(s).None?
  {
    match LeadingInteger(s)
    case None => Err(InvalidArgument)
    case Some(v) => if LongMin <= v <= LongMax then Ok(v) else Err(OutOfRange)
  }

  /** std::stoi: std::stol's conversion, then `out_of_range` outside an `int`. */
  function Stoi(s: string): (r: Result<int>)
    ensures r.Ok? ==> IntMin <= r.value <= IntMax && Stol(s) == r
    ensures Stol(s).Err? ==> r == Stol(s)
    ensures Stol(s).Ok? ==> r == if IntMin <= Stol(s).value <= IntMax then Stol(s) else Err(OutOfRange)
  {
    match Stol(s)
    case Err(e) => Err(e)
    case Ok(v) => if IntMin <= v <= IntMax then Ok(v) else Err(OutOfRange)
  }

  /** std::stof restricted to the integer part of its input: `invalid_argument`
      when there is no leading integer. */
  function StofInteger(s: string): (r: Result<int>)
    ensures r.Err? <==> LeadingInteger(s).None?
    ensures r.Ok? ==> LeadingInteger(s) == Some(r.value)
  {
    match LeadingInteger(s)
    case None => Err(InvalidArgument)
    case Some(v) => Ok(v)
  }

  /** `stream >> x` for a `long x`: the leading integer; on failure the
      target is set to 0, and a value out of range saturates to the nearest
      bound (stream failure is not reported to the accessors). */
  function ExtractLong(s: string): (v: int)
    ensures LongMin <= v <= LongMax
    ensures LeadingInteger(s).None? ==> v == 0
    ensures LeadingInteger(s).Some? && LongMin <= LeadingInteger(s).value <= LongMax ==>
              v == LeadingInteger(s).value
    ensures LeadingInteger(s).Some? && LeadingInteger(s).value > LongMax ==> v == LongMax
    ensures LeadingInteger(s).Some? && LeadingInteger(s).value < LongMin ==> v == LongMin
  {
    match LeadingInteger(s)
    case None => 0
    case Some(x) => if x < LongMin then LongMin else if x > LongMax then LongMax else x
  }

  // ---------------------------------------------------------------------
  // Properties

  lemma {:induction false} DecimalValueOfString(n: nat)
    ensures DecimalValue(DecimalString(n)) == n
  {
    if n >= 10 {
      DecimalValueOfString(n / 10);
      var s := DecimalString(n);
      assert s[..|s| - 1] == DecimalString(n / 10);
    }
  }

  lemma DigitsLenOfDigits(d: string, rest: string)
    requires AllDigits(d)
    requires StopsDigits(rest)
    ensures DigitsLen(d + rest) == |d|
    decreases |d|
  {
    if d != [] {
      assert (d + rest)[1..] == d[1..] + rest;
      DigitsLenOfDigits(d[1..], rest);
    }
  }

  /** Conversion stops at the first character that is not a digit
      (`"54321.00"` reads as 54321). */
  lemma LeadingDigits(d: string, rest: string)
    requires d != [] && AllDigits(d)
    requires StopsDigits(rest)
    ensures LeadingInteger(d + rest) == Some(DecimalValue(d))
  {
    var s := d + rest;
    assert IsDigit(d[0]) && s[0] == d[0];
    DigitIsNotSpace(d[0]);
    assert LeadingInteger(s) == SignedInteger(s);
    assert Unsigned(s) == s;
    DigitsLenOfDigits(d, rest);
    assert s[..|d|] == d;
  }

  lemma LeadingNegativeDigits(d: string, rest: string)
    requires d != [] && AllDigits(d)
    requires StopsDigits(rest)
    ensures LeadingInteger("-" + d + rest) == Some(-(DecimalValue(d) as int))
  {
    var m := "-" + d + rest;
    AppendAssoc("-", d, rest);
    assert m == ['-'] + (d + rest);
    SignedNegative(d, rest);
    assert m[0] == '-';
    assert LeadingInteger(m) == SignedInteger(m);
  }

  lemma SignedNegative(d: string, rest: string)
    requires d != [] && AllDigits(d)
    requires StopsDigits(rest)
    ensures SignedInteger(['-'] + (d + rest)) == Some(-(DecimalValue(d) as int))
  {
    var u := d + rest;
    var m := ['-'] + u;
    MinusSign(u);
    DigitsLenOfDigits(d, rest);
    PrefixOfAppend(d, rest);
    SignedIntegerOf(m, u, d);
  }

  lemma MinusSign(u: string)
    ensures (['-'] + u)[0] == '-' && Unsigned(['-'] + u) == u
  {
    assert (['-'] + u)[1..] == u;
  }

  lemma PrefixOfAppend(d: string, rest: string)
    ensures (d + rest)[..|d|] == d
  {
  }

  /** SignedInteger once its digit run `d` is known. */
  lemma SignedIntegerOf(t: string, u: string, d: string)
    requires Unsigned(t) == u && DigitsLen(u) == |d| && d != [] && u[..|d|] == d
    ensures AllDigits(d)
    ensures SignedInteger(t) == Some(if t[0] == '-' then -(DecimalValue(d) as int) else DecimalValue(d))
  {
  }

  /** std::stol reads back the decimal spelling of every non-negative
      number, whatever non-digit text follows, and rejects it as out of range
      exactly when it exceeds a `long`. */
  lemma StolOfDecimal(n: nat, rest: string)
    requires StopsDigits(rest)
    ensures Stol(DecimalString(n) + rest) == if n <= LongMax then Ok(n) else Err(OutOfRange)
  {
    DecimalValueOfString(n);
    LeadingDigits(DecimalString(n), rest);
  }

  /** The same for a negated spelling. */
  lemma StolOfNegativeDecimal(n: nat, rest: string)
    requires StopsDigits(rest)
    ensures Stol("-" + DecimalString(n) + rest) == if n <= -LongMin then Ok(-(n as int)) else Err(OutOfRange)
  {
    var m := "-" + DecimalString(n) + rest;
    var v := -(n as int);
    LeadingNegativeDecimal(n, rest);
    assert LeadingInteger(m) == Some(v);
    StolOfLeadingInteger(m, v);
    assert Stol(m) == if LongMin <= v <= LongMax then Ok(v) else Err(OutOfRange);
    assert (LongMin <= v <= LongMax) == (n <= -LongMin);
  }

  lemma LeadingNegativeDecimal(n: nat, rest: string)
    requires StopsDigits(rest)
    ensures LeadingInteger("-" + DecimalString(n) + rest) == Some(-(n as int))
  {
    var d := DecimalString(n);
    DecimalValueOfString(n);
    LeadingNegativeDigits(d, rest);
  }

  /** std::stol is the range check of the leading integer. */
  lemma StolOfLeadingInteger(s: string, v: int)
    requires LeadingInteger(s) == Some(v)
    ensures Stol(s) == if LongMin <= v <= LongMax then Ok(v) else Err(OutOfRange)
  {
  }

  /** The parse in one step: skip the whole leading run of whitespace, then
      read an optional sign and the longest run of digits. */
  lemma {:induction false} LeadingIntegerMeaning(s: string)
    ensures LeadingInteger(s) == SignedInteger(s[SpaceLen(s)..])
    decreases |s|
  {
    if s != [] && IsSpace(s[0]) {
      LeadingIntegerMeaning(s[1..]);
      assert s[1..][SpaceLen(s[1..])..] == s[SpaceLen(s)..];
    }
  }

  /** Leading whitespace does not change what is read. */
  lemma {:induction false} LeadingIntegerAfterSpace(ws: string, s: string)
    requires AllSpace(ws)
    ensures LeadingInteger(ws + s) == LeadingInteger(s)
  {
    if ws != [] {
      assert (ws + s)[0] == ws[0] && IsSpace(ws[0]);
      assert (ws + s)[1..] == ws[1..] + s;
      assert AllSpace(ws[1..]) by {
        forall k | 0 <= k < |ws[1..]| ensures IsSpace(ws[1..][k]) {
          assert ws[1..][k] == ws[k + 1];
        }
      }
      LeadingIntegerAfterSpace(ws[1..], s);
    } else {
      assert ws + s == s;
    }
  }

  /** std::stoi on a string of digits, as the `Pids` filter passes it: the
      empty string has no conversion, and a value above INT_MAX is out of
      range. */
  lemma StoiOfDigits(d: string)
    requires AllDigits(d)
    ensures d == [] ==> Stoi(d) == Err(InvalidArgument)
    ensures d != [] ==> Stoi(d) == if DecimalValue(d) <= IntMax then Ok(DecimalValue(d)) else Err(OutOfRange)
  {
    if d != [] {
      LeadingDigits(d, "");
      assert d + "" == d;
    }
  }

  /** std::stol("") throws invalid_argument. */
  lemma StolOfEmpty()
    ensures Stol("") == Err(InvalidArgument)
  {
    assert LeadingInteger("") == SignedInteger("");
    assert Unsigned("") == "" && DigitsLen("") == 0;
  }

  // ---------------------------------------------------------------------
  // Sums of conversions

  /** A chain of `acc += conv(v)` over `vs` in order, starting from `acc`:
      the first conversion that throws ends it with that exception. */
  function SumFrom(conv: string -> Result<int>, vs: seq<string>, acc: int): (r: Result<int>)
    ensures r.Err? ==> exists k :: 0 <= k < |vs| && conv(vs[k]) == Err(r.error)
    decreases |vs|
  {
    if vs == [] then Ok(acc)
    else match conv(vs[0])
      case Err(e) => Err(e)
      case Ok(x) =>
        var r := SumFrom(conv, vs[1..], acc + x);
        assert forall k :: 0 < k < |vs| ==> vs[k] == vs[1..][k - 1];
        r
  }

  lemma SumFromCons(conv: string -> Result<int>, vs: seq<string>, acc: int)
    requires vs != []
    ensures SumFrom(conv, vs, acc) ==
              match conv(vs[0])
              case Err(e) => Err(e)
              case Ok(x) => SumFrom(conv, vs[1..], acc + x)
  {
  }

  /** One step of a sum that has reached position `j` of `vs`. */
  lemma SumFromStep(conv: string -> Result<int>, vs: seq<string>, j: nat, acc: int)
    requires j < |vs|
    ensures conv(vs[j]).Err? ==> SumFrom(conv, vs[j..], acc) == Err(conv(vs[j]).error)
    ensures conv(vs[j]).Ok? ==> SumFrom(conv, vs[j..], acc) == SumFrom(conv, vs[j + 1..], acc + conv(vs[j]).value)
  {
    var rest := vs[j..];
    assert rest[0] == vs[j] && rest[1..] == vs[j + 1..];
    SumFromCons(conv, rest, acc);
  }

  /** The same step, for a position known to hold `v`. */
  lemma SumFromAt(conv: string -> Result<int>, vs: seq<string>, j: nat, v: string, acc: int)
    requires j < |vs| && vs[j] == v
    ensures conv(v).Err? ==> SumFrom(conv, vs[j..], acc) == Err(conv(v).error)
    ensures conv(v).Ok? ==> SumFrom(conv, vs[j..], acc) == SumFrom(conv, vs[j + 1..], acc + conv(v).value)
  {
    SumFromStep(conv, vs, j, acc);
  }

  lemma SumFromPrepend(conv: string -> Result<int>, v: string, vs: seq<string>, acc: int)
    ensures SumFrom(conv, [v] + vs, acc) ==
              match conv(v)
              case Err(e) => Err(e)
              case Ok(x) => SumFrom(conv, vs, acc + x)
  {
    assert ([v] + vs)[0] == v && ([v] + vs)[1..] == vs;
    SumFromCons(conv, [v] + vs, acc);
  }

  function Total(xs: seq<int>): int
  {
    if xs == [] then 0 else xs[0] + Total(xs[1..])
  }

  predicate AllConvert(conv: string -> Result<int>, vs: seq<string>)
  {
    forall i :: 0 <= i < |vs| ==> conv(vs[i]).Ok?
  }

  /** The values of conversions that all succeed. */
  function Converted(conv: string -> Result<int>, vs: seq<string>): (xs: seq<int>)
    requires AllConvert(conv, vs)
    ensures |xs| == |vs|
    ensures forall i :: 0 <= i < |vs| ==> conv(vs[i]) == Ok(xs[i])
  {
    seq(|vs|, i requires 0 <= i < |vs| => conv(vs[i]).value)
  }

  /** A sum of conversions succeeds exactly when every conversion does, and is
      then the total of their values; otherwise it fails with the exception of
      the first conversion that fails. */
  lemma {:induction false} SumFromMeaning(conv: string -> Result<int>, vs: seq<string>, acc: int)
    ensures SumFrom(conv, vs, acc).Ok? <==> AllConvert(conv, vs)
    ensures AllConvert(conv, vs) ==> SumFrom(conv, vs, acc) == Ok(acc + Total(Converted(conv, vs)))
    ensures !AllConvert(conv, vs) ==>
              exists k :: 0 <= k < |vs| && conv(vs[k]).Err? && AllConvert(conv, vs[..k]) &&
                          SumFrom(conv, vs, acc) == Err(conv(vs[k]).error)
    decreases |vs|
  {
    if vs != [] {
      var t := vs[1..];
      match conv(vs[0])
      case Err(e) => {
        assert conv(vs[0]).Err? && AllConvert(conv, vs[..0]);
      }
      case Ok(x) => {
        SumFromMeaning(conv, t, acc + x);
        AllConvertCons(conv, vs);
        assert SumFrom(conv, vs, acc) == SumFrom(conv, t, acc + x);
        if AllConvert(conv, vs) {
          ConvertedCons(conv, vs);
        } else {
          var k :| 0 <= k < |t| && conv(t[k]).Err? && AllConvert(conv, t[..k]) &&
                   SumFrom(conv, t, acc + x) == Err(conv(t[k]).error);
          FirstFailureCons(conv, vs, k);
          assert conv(vs[k + 1]).Err? && AllConvert(conv, vs[..k + 1]) &&
                 SumFrom(conv, vs, acc) == Err(conv(vs[k + 1]).error);
        }
      }
    }
  }

  /** Past a first conversion that succeeds, all convert exactly when the
      rest do. */
  lemma AllConvertCons(conv: string -> Result<int>, vs: seq<string>)
    requires vs != [] && conv(vs[0]).Ok?
    ensures AllConvert(conv, vs) <==> AllConvert(conv, vs[1..])
  {
    var t := vs[1..];
    if AllConvert(conv, t) {
      forall i | 0 <= i < |vs| ensures conv(vs[i]).Ok? {
        if i > 0 { assert vs[i] == t[i - 1]; }
      }
    }
    if AllConvert(conv, vs) {
      forall i | 0 <= i < |t| ensures conv(t[i]).Ok? {
        assert t[i] == vs[i + 1];
      }
    }
  }

  lemma ConvertedCons(conv: string -> Result<int>, vs: seq<string>)
    requires vs != [] && AllConvert(conv, vs) && AllConvert(conv, vs[1..])
    ensures Total(Converted(conv, vs)) == conv(vs[0]).value + Total(Converted(conv, vs[1..]))
  {
    assert Converted(conv, vs)[1..] == Converted(conv, vs[1..]);
  }

  /** A first failure at `k` in the rest is a first failure at `k + 1`. */
  lemma FirstFailureCons(conv: string -> Result<int>, vs: seq<string>, k: nat)
    requires vs != [] && conv(vs[0]).Ok? && k < |vs| - 1
    requires conv(vs[1..][k]).Err? && AllConvert(conv, vs[1..][..k])
    ensures vs[k + 1] == vs[1..][k]
    ensures conv(vs[k + 1]).Err? && AllConvert(conv, vs[..k + 1])
  {
    var t := vs[1..];
    var p := vs[..k + 1];
    forall i | 0 <= i < |p| ensures conv(p[i]).Ok? {
      if i > 0 { assert p[i] == t[..k][i - 1]; }
    }
  }

  /** Summing a concatenation is summing the first part, then the second. */
  lemma {:induction false} SumFromAppend(conv: string -> Result<int>, a: seq<string>, b: seq<string>, acc: int)
    ensures SumFrom(conv, a + b, acc) ==
              match SumFrom(conv, a, acc)
              case Err(e) => Err(e)
              case Ok(x) => SumFrom(conv, b, x)
    decreases |a|
  {
    if a == [] {
      assert a + b == b;
    } else {
      assert (a + b)[0] == a[0];
      assert (a + b)[1..] == a[1..] + b;
      match conv(a[0])
      case Err(e) =>
      case Ok(x) => SumFromAppend(conv, a[1..], b, acc + x);
    }
  }

  /** The starting value only shifts a successful sum. */
  lemma {:induction false} SumFromShift(conv: string -> Result<int>, vs: seq<string>, acc: int)
    ensures SumFrom(conv, vs, acc) ==
              match SumFrom(conv, vs, 0)
              case Err(e) => Err(e)
              case Ok(x) => Ok(acc + x)
    decreases |vs|
  {
    if vs != [] {
      match conv(vs[0])
      case Err(e) =>
      case Ok(x) => {
        SumFromShift(conv, vs[1..], acc + x);
        SumFromShift(conv, vs[1..], x);
      }
    }
  }
}
