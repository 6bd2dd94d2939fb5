/**
  Output file numbering (thatcherizer.py:689-699 and 768-770). The directory
  listing is an input: the stems (names without extension) of the regular
  files in the output directory. A stem takes part when it contains "img"
  (the pattern `img_*` searched anywhere), and its characters 4..6 are its
  number. The running maximum starts as the integer 0, and in Python 2 any
  string compares greater than an integer, so the result is the largest
  slice in string order, which `int()` then parses.
*/
module Numbering {
  import opened Wrappers

  /** `re.search("img_*", stem)` succeeds: "img" occurs somewhere in the stem. */
  predicate Matches(stem: string)
  {
    exists i :: 0 <= i && i + 3 <= |stem| && stem[i] == 'i' && stem[i + 1] == 'm' && stem[i + 2] == 'g'
  }

  function Min(a: int, b: int): int
  {
    if a < b then a else b
  }

  /** The Python slice `stem[4:7]`, which is shorter when the stem is. */
  function NumberSlice(stem: string): (s: string)
    ensures |s| <= 3
    ensures |stem| >= 7 ==> s == stem[4..7]
  {
    stem[Min(4, |stem|)..Min(7, |stem|)]
  }

  /** Python's string order `a < b`: by character codes, a proper prefix first. */
  predicate LexLess(a: string, b: string)
    decreases |a|
  {
    if |b| == 0 then false
    else if |a| == 0 then true
    else if a[0] != b[0] then a[0] < b[0]
    else LexLess(a[1..], b[1..])
  }

  /** The running maximum of `get_lastFileNumber`: None while it is still the integer 0. */
  function LastSlice(stems: seq<string>): Option<string>
    decreases |stems|
  {
    if |stems| == 0 then None
    else
      var prev := LastSlice(stems[..|stems| - 1]);
      var stem := stems[|stems| - 1];
      if !Matches(stem) then prev
      else match prev
        case None => Some(NumberSlice(stem))
        case Some(cur) => if LexLess(cur, NumberSlice(stem)) then Some(NumberSlice(stem)) else prev
  }

  predicate IsDigit(c: char)
  {
    '0' <= c <= '9'
  }

  predicate AllDigits(s: string)
  {
    forall i :: 0 <= i < |s| ==> IsDigit(s[i])
  }

  predicate IsThreeDigits(s: string)
  {
    |s| == 3 && AllDigits(s)
  }

  /** The value of a string of decimal digits. */
  function DigitsVal(s: string): nat
    requires AllDigits(s)
    decreases |s|
  {
    if |s| == 0 then 0 else DigitsVal(s[..|s| - 1]) * 10 + (s[|s| - 1] as int - '0' as int)
  }

  function DigitChar(d: nat): (c: char)
    requires d < 10
    ensures IsDigit(c) && c as int - '0' as int == d
  {
    ('0' as int + d) as char
  }

  /** Decimal digits of a natural number, without leading zeros. */
  function NatToStr(n: nat): (s: string)
    ensures |s| > 0 && AllDigits(s) && DigitsVal(s) == n
    decreases n
  {
    if n < 10 then [DigitChar(n)]
    else
      var s := NatToStr(n / 10) + [DigitChar(n % 10)];
      assert s[..|s| - 1] == NatToStr(n / 10);
      s
  }

  /** Python's `str(n)` for an integer. */
  function IntToStr(n: int): string
  {
    if n < 0 then "-" + NatToStr(-n) else NatToStr(n)
  }

  function Zeros(k: nat): (z: string)
    ensures |z| == k && forall i :: 0 <= i < k ==> z[i] == '0'
  {
    seq(k, i => '0')
  }

  /** Python's `s.zfill(width)`: zeros inserted after a leading sign. */
  function ZFill(s: string, width: nat): (z: string)
    ensures |z| == if |s| >= width then |s| else width
  {
    if |s| >= width then s
    else if |s| > 0 && (s[0] == '-' || s[0] == '+') then [s[0]] + Zeros(width - |s|) + s[1..]
    else Zeros(width - |s|) + s
  }

  /**
    `zfill` never shortens, and pads a short string with zeros placed after
    its sign, if it has one, and before everything else.
  */
  lemma ZFillPadsAfterSign(s: string, width: nat)
    ensures |s| >= width ==> ZFill(s, width) == s
    ensures |s| < width ==>
      var z := ZFill(s, width);
      var p := if Signed(s) then 1 else 0;
      var k := width - |s|;
      z[..p] == s[..p] && (forall i :: p <= i < p + k ==> z[i] == '0') && z[p + k..] == s[p..]
  {
  }

  predicate IsSpace(c: char)
  {
    c == ' ' || c == '\t' || c == '\n' || c == '\r' || c == '\U{B}' || c == '\U{C}'
  }

  predicate AllSpace(w: string)
  {
    forall i :: 0 <= i < |w| ==> IsSpace(w[i])
  }

  /** Drops the leading whitespace: what is left does not start with whitespace. */
  function TrimLeft(s: string): (t: string)
    ensures |t| <= |s|
    ensures |t| > 0 ==> !IsSpace(t[0])
    decreases |s|
  {
    if |s| > 0 && IsSpace(s[0]) then TrimLeft(s[1..]) else s
  }

  /** Drops the trailing whitespace: what is left does not end with whitespace. */
  function TrimRight(s: string): (t: string)
    ensures |t| <= |s|
    ensures |t| > 0 ==> !IsSpace(t[|t| - 1])
    decreases |s|
  {
    if |s| > 0 && IsSpace(s[|s| - 1]) then TrimRight(s[..|s| - 1]) else s
  }

  /** `s` with its surrounding whitespace removed, as `int()` first does. */
  function Trim(s: string): string
  {
    TrimRight(TrimLeft(s))
  }

  predicate Signed(t: string)
  {
    |t| > 0 && (t[0] == '-' || t[0] == '+')
  }

  predicate Negative(t: string)
  {
    |t| > 0 && t[0] == '-'
  }

  /** What follows the sign, if there is one. */
  function Unsigned(t: string): string
  {
    if Signed(t) then t[1..] else t
  }

  /** Python's `int(s)`: optional surrounding whitespace, optional sign, then decimal digits. */
  function ParseInt(s: string): (r: Result<int>)
    ensures AllDigits(s) && |s| > 0 ==> r == Ok(DigitsVal(s))
    ensures |s| == 0 ==> r.Err?
    // after trimming, an optional sign must be followed by at least one digit and nothing else
    ensures r.Ok? <==> |Unsigned(Trim(s))| > 0 && AllDigits(Unsigned(Trim(s)))
    ensures r.Ok? ==> var v: int := DigitsVal(Unsigned(Trim(s)));
      r.value == if Negative(Trim(s)) then -v else v
  {
    DigitsTrimmed(s);
    var t := Trim(s);
    var body := Unsigned(t);
    if |body| == 0 || !AllDigits(body) then Err("invalid literal for int()")
    else
      var v: int := DigitsVal(body);
      if Negative(t) then Ok(-v) else Ok(v)
  }

  /** Any whitespace, an optional sign, digits and whitespace again parse to the signed value of the digits. */
  lemma ParseIntOfLiteral(s: string, ws1: string, sign: string, ds: string, ws2: string)
    requires AllSpace(ws1) && AllSpace(ws2) && IsSign(sign)
    requires |ds| > 0 && AllDigits(ds)
    requires s == ws1 + sign + ds + ws2
    ensures var v: int := DigitsVal(ds);
      ParseInt(s) == Ok(if Negative(sign) then -v else v)
  {
    var y := sign + ds;
    Concat4(ws1, sign, ds, ws2);
    SignAndDigits(sign, ds);
    TrimmedLiteral(ws1, y, ws2);
    ParseTrimmed(s, y, ds);
  }

  /** Once trimming leaves an optional sign before the digits `ds`, `int()` answers their signed value. */
  lemma ParseTrimmed(s: string, y: string, ds: string)
    requires Trim(s) == y && Unsigned(y) == ds && |ds| > 0 && AllDigits(ds)
    ensures var v: int := DigitsVal(ds);
      ParseInt(s) == Ok(if Negative(y) then -v else v)
  {
  }

  lemma Concat4(a: string, b: string, c: string, d: string)
    ensures a + b + c + d == a + ((b + c) + d)
  {
  }

  lemma TrimmedLiteral(ws1: string, y: string, ws2: string)
    requires AllSpace(ws1) && AllSpace(ws2) && |y| > 0 && !IsSpace(y[0]) && !IsSpace(y[|y| - 1])
    ensures Trim(ws1 + (y + ws2)) == y
  {
    var x := y + ws2;
    assert x[0] == y[0];
    TrimLeftSpaces(ws1, x);
    TrimRightSpaces(y, ws2);
  }

  /** No sign, or a single '-' or '+'. */
  predicate IsSign(sign: string)
  {
    |sign| <= 1 && (|sign| == 1 ==> sign[0] == '-' || sign[0] == '+')
  }

  lemma SignAndDigits(sign: string, ds: string)
    requires IsSign(sign) && |ds| > 0 && AllDigits(ds)
    ensures var y := sign + ds;
      |y| > 0 && !IsSpace(y[0]) && !IsSpace(y[|y| - 1]) &&
      Unsigned(y) == ds && (Negative(y) <==> Negative(sign))
  {
    var y := sign + ds;
    assert y[|y| - 1] == ds[|ds| - 1];
    if |sign| == 0 {
      assert y == ds;
    } else {
      assert y[1..] == ds;
    }
  }

  /** A plain string of digits is already trimmed and unsigned. */
  lemma DigitsTrimmed(s: string)
    ensures |s| > 0 && AllDigits(s) ==> Trim(s) == s && Unsigned(s) == s && !Negative(s)
  {
    if |s| > 0 && AllDigits(s) {
      assert !IsSpace(s[0]) && !IsSpace(s[|s| - 1]);
      assert TrimLeft(s) == s;
      assert TrimRight(s) == s;
    }
  }

  lemma {:induction false} TrimLeftSpaces(ws: string, x: string)
    requires AllSpace(ws) && (|x| > 0 ==> !IsSpace(x[0]))
    ensures TrimLeft(ws + x) == x
    decreases |ws|
  {
    if |ws| == 0 {
      assert ws + x == x;
    } else {
      assert (ws + x)[1..] == ws[1..] + x;
      TrimLeftSpaces(ws[1..], x);
    }
  }

  lemma {:induction false} TrimRightSpaces(y: string, ws: string)
    requires AllSpace(ws) && (|y| > 0 ==> !IsSpace(y[|y| - 1]))
    ensures TrimRight(y + ws) == y
    decreases |ws|
  {
    if |ws| == 0 {
      assert y + ws == y;
    } else {
      assert (y + ws)[..|y + ws| - 1] == y + ws[..|ws| - 1];
      TrimRightSpaces(y, ws[..|ws| - 1]);
    }
  }

  /** `get_lastFileNumber`: the number of the last run, zero-filled to three characters. */
  function LastFileNumber(stems: seq<string>): Result<string>
  {
    match LastSlice(stems)
    case None => Ok(ZFill(IntToStr(0), 3))
    case Some(t) =>
      match ParseInt(t)
      case Err(m) => Err(m)
      case Ok(n) => Ok(ZFill(IntToStr(n), 3))
  }

  /** `str(int(lastFileNumber) + 1).zfill(3)`: the number of the new run. */
  function NextFileNumber(stems: seq<string>): Result<string>
  {
    match LastFileNumber(stems)
    case Err(m) => Err(m)
    case Ok(last) =>
      match ParseInt(last)
      case Err(m) => Err(m)
      case Ok(n) => Ok(ZFill(IntToStr(n + 1), 3))
  }

  // ---------------------------------------------------------------------
  // Three-digit numbers: string order and numeric order agree.

  function D(c: char): int
  {
    c as int - '0' as int
  }

  lemma ThreeDigitsVal(s: string)
    requires IsThreeDigits(s)
    ensures DigitsVal(s) == 100 * D(s[0]) + 10 * D(s[1]) + D(s[2])
    ensures DigitsVal(s) < 1000
  {
    var s2 := s[..2];
    var s1 := s2[..1];
    assert s[..|s| - 1] == s2 && s2[..|s2| - 1] == s1 && s1[..|s1| - 1] == [];
    assert DigitsVal(s1) == D(s[0]);
    assert DigitsVal(s2) == 10 * D(s[0]) + D(s[1]);
  }

  /** On three-digit strings, Python's string order is the order of their values. */
  lemma {:induction false} LexLessThreeDigits(a: string, b: string)
    requires IsThreeDigits(a) && IsThreeDigits(b)
    ensures LexLess(a, b) <==> DigitsVal(a) < DigitsVal(b)
  {
    ThreeDigitsVal(a);
    ThreeDigitsVal(b);
    var a1, b1 := a[1..], b[1..];
    var a2, b2 := a1[1..], b1[1..];
    assert LexLess(a, b) == if a[0] != b[0] then a[0] < b[0] else LexLess(a1, b1);
    assert LexLess(a1, b1) == if a1[0] != b1[0] then a1[0] < b1[0] else LexLess(a2, b2);
    assert LexLess(a2, b2) == if a2[0] != b2[0] then a2[0] < b2[0] else LexLess(a2[1..], b2[1..]);
    assert LexLess(a2[1..], b2[1..]) == false;
  }

  /** The three-character zero-padded form of a number below 1000. */
  function Pad3(v: nat): (s: string)
    requires v < 1000
    ensures IsThreeDigits(s)
  {
    [DigitChar(v / 100), DigitChar(v / 10 % 10), DigitChar(v % 10)]
  }

  lemma Pad3Val(v: nat)
    requires v < 1000
    ensures DigitsVal(Pad3(v)) == v
  {
    ThreeDigitsVal(Pad3(v));
    assert v == 10 * (v / 10) + v % 10;
    assert v / 10 == 10 * (v / 100) + v / 10 % 10;
  }

  lemma ThreeDigitsArePadded(t: string)
    requires IsThreeDigits(t)
    ensures DigitsVal(t) < 1000 && Pad3(DigitsVal(t)) == t
  {
    ThreeDigitsVal(t);
    var v := DigitsVal(t);
    assert v / 100 == D(t[0]);
    assert v / 10 % 10 == D(t[1]);
    assert v % 10 == D(t[2]);
  }

  /** `str(v).zfill(3)` is the three-digit form for every number below 1000. */
  lemma ZFillIsPad3(v: nat)
    requires v < 1000
    ensures ZFill(IntToStr(v), 3) == Pad3(v)
  {
    if v >= 100 {
      var t := NatToStr(v / 10);
      assert t == NatToStr(v / 10 / 10) + [DigitChar(v / 10 % 10)];
      assert v / 10 / 10 == v / 100;
    } else if v >= 10 {
      assert NatToStr(v) == [DigitChar(v / 10), DigitChar(v % 10)];
      assert v / 100 == 0 && v / 10 % 10 == v / 10;
    }
  }

  // ---------------------------------------------------------------------
  // int() undoes str().zfill(3).

  lemma {:induction false} DigitsValLeadingZeros(k: nat, s: string)
    requires AllDigits(s)
    ensures AllDigits(Zeros(k) + s) && DigitsVal(Zeros(k) + s) == DigitsVal(s)
    decreases |s|
  {
    var z := Zeros(k) + s;
    assert AllDigits(z) by {
      forall i | 0 <= i < |z| ensures IsDigit(z[i]) {
        if i >= k { assert z[i] == s[i - k]; }
      }
    }
    if |s| == 0 {
      assert z == Zeros(k);
      ZerosVal(k);
    } else {
      assert z[..|z| - 1] == Zeros(k) + s[..|s| - 1];
      DigitsValLeadingZeros(k, s[..|s| - 1]);
    }
  }

  lemma {:induction false} ZerosVal(k: nat)
    ensures AllDigits(Zeros(k)) && DigitsVal(Zeros(k)) == 0
  {
    if k > 0 {
      assert Zeros(k)[..k - 1] == Zeros(k - 1);
      ZerosVal(k - 1);
    }
  }

  lemma NoSpaceTrim(s: string)
    requires |s| > 0 && !IsSpace(s[0]) && !IsSpace(s[|s| - 1])
    ensures TrimRight(TrimLeft(s)) == s
  {
  }

  /** Parsing the zero-filled decimal form of any integer gives the integer back. */
  lemma ParseZFillRoundTrip(n: int)
    ensures ParseInt(ZFill(IntToStr(n), 3)) == Ok(n)
  {
    if n >= 0 {
      ParseZFillNonNegative(n);
    } else {
      ParseZFillNegative(n);
    }
  }

  lemma ParseZFillNonNegative(n: nat)
    ensures ParseInt(ZFill(IntToStr(n), 3)) == Ok(n)
  {
    var ds := NatToStr(n);
    var z := ZFill(ds, 3);
    var k := if |ds| < 3 then 3 - |ds| else 0;
    assert z == Zeros(k) + ds;
    DigitsValLeadingZeros(k, ds);
  }

  lemma ParseZFillNegative(n: int)
    requires n < 0
    ensures ParseInt(ZFill(IntToStr(n), 3)) == Ok(n)
  {
    var ds := NatToStr(-n);
    var k := if |ds| + 1 < 3 then 3 - (|ds| + 1) else 0;
    ZFillAfterMinus(ds);
    DigitsValLeadingZeros(k, ds);
    var body := Zeros(k) + ds;
    var z := "-" + body;
    assert z[0] == '-' && z[1..] == body;
    ParseSigned(z, body, -n);
  }

  /** Zero-filling a negative number inserts the zeros after the minus sign. */
  lemma ZFillAfterMinus(ds: string)
    ensures var k := if |ds| + 1 < 3 then 3 - (|ds| + 1) else 0;
      ZFill("-" + ds, 3) == "-" + (Zeros(k) + ds)
  {
    var str := "-" + ds;
    if |str| < 3 {
      assert str[1..] == ds;
    } else {
      assert Zeros(0) + ds == ds;
    }
  }

  /** A minus sign followed by digits of value v parses to -v. */
  lemma ParseSigned(z: string, body: string, v: int)
    requires |body| > 0 && AllDigits(body) && DigitsVal(body) == v
    requires |z| == |body| + 1 && z[0] == '-' && z[1..] == body
    ensures ParseInt(z) == Ok(-v)
  {
    assert z[|z| - 1] == body[|body| - 1];
    NoSpaceTrim(z);
  }

  // ---------------------------------------------------------------------
  // The last number is the numeric maximum when all numbers have three digits.

  /** Every stem that takes part has a three-digit number slice. */
  predicate AllThree(stems: seq<string>)
  {
    forall k :: 0 <= k < |stems| && Matches(stems[k]) ==> IsThreeDigits(NumberSlice(stems[k]))
  }

  function SliceValue(stem: string): nat
  {
    if IsThreeDigits(NumberSlice(stem)) then DigitsVal(NumberSlice(stem)) else 0
  }

  /** Reference definition: the largest number among the stems that take part, 0 if none does. */
  function MaxNumber(stems: seq<string>): (m: nat)
    ensures forall k :: 0 <= k < |stems| && Matches(stems[k]) ==> SliceValue(stems[k]) <= m
    decreases |stems|
  {
    if |stems| == 0 then 0
    else
      var pre := stems[..|stems| - 1];
      var prev := MaxNumber(pre);
      var last := stems[|stems| - 1];
      assert forall k :: 0 <= k < |pre| ==> pre[k] == stems[k];
      if Matches(last) && SliceValue(last) > prev then SliceValue(last) else prev
  }

  lemma {:induction false} LastSliceIsMax(stems: seq<string>)
    requires AllThree(stems)
    ensures LastSlice(stems).None? <==> forall k :: 0 <= k < |stems| ==> !Matches(stems[k])
    ensures LastSlice(stems).None? ==> MaxNumber(stems) == 0
    ensures LastSlice(stems).Some? ==>
      IsThreeDigits(LastSlice(stems).value) && DigitsVal(LastSlice(stems).value) == MaxNumber(stems)
    decreases |stems|
  {
    if |stems| > 0 {
      var n := |stems|;
      var pre := stems[..n - 1];
      assert forall k :: 0 <= k < |pre| ==> pre[k] == stems[k];
      LastSliceIsMax(pre);
      var last := stems[n - 1];
      if Matches(last) {
        assert IsThreeDigits(NumberSlice(last));
        if LastSlice(pre).Some? {
          LexLessThreeDigits(LastSlice(pre).value, NumberSlice(last));
        }
      }
    }
  }

  /**
    `get_lastFileNumber` is the numeric maximum, zero-padded to three digits,
    whenever every number slice that takes part has three digits.
  */
  lemma LastFileNumberIsMax(stems: seq<string>)
    requires AllThree(stems)
    ensures MaxNumber(stems) < 1000
    ensures LastFileNumber(stems) == Ok(Pad3(MaxNumber(stems)))
  {
    LastSliceIsMax(stems);
    match LastSlice(stems)
    case None =>
      ZFillIsPad3(0);
    case Some(t) =>
      ThreeDigitsArePadded(t);
      ZFillIsPad3(DigitsVal(t));
  }

  /** The new run number is one more than the numeric maximum, zero-filled to at least three characters. */
  lemma NextIsMaxPlusOne(stems: seq<string>)
    requires AllThree(stems)
    ensures NextFileNumber(stems) == Ok(ZFill(IntToStr(MaxNumber(stems) + 1), 3))
    ensures ParseInt(NextFileNumber(stems).value) == Ok(MaxNumber(stems) + 1)
    ensures MaxNumber(stems) + 1 < 1000 ==> NextFileNumber(stems) == Ok(Pad3(MaxNumber(stems) + 1))
  {
    var m := MaxNumber(stems);
    LastFileNumberIsMax(stems);
    ZFillIsPad3(m);
    NextFromLast(stems, m);
    ParseZFillRoundTrip(m + 1);
    if m + 1 < 1000 {
      ZFillIsPad3(m + 1);
    }
  }

  lemma NextFromLast(stems: seq<string>, m: int)
    requires LastFileNumber(stems) == Ok(ZFill(IntToStr(m), 3))
    ensures NextFileNumber(stems) == Ok(ZFill(IntToStr(m + 1), 3))
  {
    ParseZFillRoundTrip(m);
  }

  // ---------------------------------------------------------------------
  // Reading the number back after the run's files are saved.

  /** The stem of a file of run `num`: "img_" + num + suffix. */
  function RunStem(num: string, suffix: string): string
  {
    "img_" + num + suffix
  }

  lemma RunStemSlice(num: string, suffix: string)
    requires |num| == 3
    ensures Matches(RunStem(num, suffix)) && NumberSlice(RunStem(num, suffix)) == num
  {
    var st := RunStem(num, suffix);
    assert st[0] == 'i' && st[1] == 'm' && st[2] == 'g';
    assert st[4..7] == num;
  }

  lemma {:induction false} MaxNumberWithRun(stems: seq<string>, num: string, suffixes: seq<string>)
    requires AllThree(stems) && IsThreeDigits(num) && DigitsVal(num) > MaxNumber(stems)
    requires |suffixes| > 0
    ensures var all := stems + seq(|suffixes|, k requires 0 <= k < |suffixes| => RunStem(num, suffixes[k]));
      AllThree(all) && MaxNumber(all) == DigitsVal(num)
    decreases |suffixes|
  {
    var n := |suffixes|;
    var saved := seq(n, k requires 0 <= k < n => RunStem(num, suffixes[k]));
    var all := stems + saved;
    var pre := suffixes[..n - 1];
    var savedPre := seq(n - 1, k requires 0 <= k < n - 1 => RunStem(num, pre[k]));
    var last := RunStem(num, suffixes[n - 1]);
    assert all == (stems + savedPre) + [last];
    RunStemValue(num, suffixes[n - 1]);
    if n > 1 {
      MaxNumberWithRun(stems, num, pre);
    } else {
      assert stems + savedPre == stems;
    }
    MaxNumberSnoc(stems + savedPre, last);
    AllThreeSnoc(stems + savedPre, last);
  }

  /**
    Once the new run's files are saved, `get_lastFileNumber` reads back the
    new run's number, as long as it still has three digits.
  */
  lemma SavedRunIsLast(stems: seq<string>, suffixes: seq<string>)
    requires AllThree(stems) && MaxNumber(stems) + 1 < 1000 && |suffixes| > 0
    ensures var num := Pad3(MaxNumber(stems) + 1);
      LastFileNumber(stems + seq(|suffixes|, k requires 0 <= k < |suffixes| => RunStem(num, suffixes[k]))) == Ok(num)
  {
    var num := Pad3(MaxNumber(stems) + 1);
    Pad3Val(MaxNumber(stems) + 1);
    MaxNumberWithRun(stems, num, suffixes);
    var all := stems + seq(|suffixes|, k requires 0 <= k < |suffixes| => RunStem(num, suffixes[k]));
    LastFileNumberIsMax(all);
  }

  /** Below 1000, the stems of the next run differ from every stem already there, so no file is overwritten. */
  lemma NextRunIsNew(stems: seq<string>, suffix: string)
    requires AllThree(stems) && MaxNumber(stems) + 1 < 1000
    ensures NextFileNumber(stems).Ok?
    ensures RunStem(NextFileNumber(stems).value, suffix) !in stems
  {
    NextIsMaxPlusOne(stems);
    var num := Pad3(MaxNumber(stems) + 1);
    Pad3Val(MaxNumber(stems) + 1);
    RunStemValue(num, suffix);
  }

  /** Appending one stem updates the maximum by that stem alone. */
  lemma MaxNumberSnoc(stems: seq<string>, stem: string)
    ensures MaxNumber(stems + [stem]) ==
      if Matches(stem) && SliceValue(stem) > MaxNumber(stems) then SliceValue(stem) else MaxNumber(stems)
  {
    assert (stems + [stem])[..|stems|] == stems;
  }

  lemma AllThreeSnoc(stems: seq<string>, stem: string)
    requires AllThree(stems) && (Matches(stem) ==> IsThreeDigits(NumberSlice(stem)))
    ensures AllThree(stems + [stem])
  {
    var all := stems + [stem];
    forall k | 0 <= k < |all| && Matches(all[k]) ensures IsThreeDigits(NumberSlice(all[k])) {
      if k < |stems| { assert all[k] == stems[k]; }
    }
  }

  /** A run file's stem with a three-digit number contributes that number. */
  lemma RunStemValue(num: string, suffix: string)
    requires IsThreeDigits(num)
    ensures Matches(RunStem(num, suffix)) && IsThreeDigits(NumberSlice(RunStem(num, suffix)))
    ensures SliceValue(RunStem(num, suffix)) == DigitsVal(num)
  {
    RunStemSlice(num, suffix);
  }

  lemma GapMax(a: string, b: string)
    requires a == RunStem("001", "_orig") && b == RunStem("003", "_thatch")
    ensures MaxNumber([a, b]) == 3 && AllThree([a, b])
  {
    Value001(a);
    Value003(b);
    MaxOfOne(a);
    assert [a] + [b] == [a, b];
    MaxNumberSnoc([a], b);
    AllThreeSnoc([a], b);
  }

  lemma Value001(a: string)
    requires a == RunStem("001", "_orig")
    ensures Matches(a) && IsThreeDigits(NumberSlice(a)) && SliceValue(a) == 1
  {
    ThreeDigitsVal("001");
    RunStemValue("001", "_orig");
  }

  lemma Value003(b: string)
    requires b == RunStem("003", "_thatch")
    ensures Matches(b) && IsThreeDigits(NumberSlice(b)) && SliceValue(b) == 3
  {
    ThreeDigitsVal("003");
    RunStemValue("003", "_thatch");
  }

  /** Files 001 and 003 present: the next run is 004, gaps notwithstanding. */
  lemma NextAfterGap(a: string, b: string)
    requires a == RunStem("001", "_orig") && b == RunStem("003", "_thatch")
    ensures NextFileNumber([a, b]) == Ok("004")
  {
    GapMax(a, b);
    NextIsMaxPlusOne([a, b]);
    Pad3Of4();
  }

  lemma Pad3Of4()
    ensures Pad3(4) == "004"
  {
    assert DigitChar(0) == '0' && DigitChar(4) == '4';
  }

  /** A one-stem listing whose stem has a three-digit number. */
  lemma MaxOfOne(a: string)
    requires Matches(a) && IsThreeDigits(NumberSlice(a))
    ensures MaxNumber([a]) == SliceValue(a) && AllThree([a])
  {
    assert [] + [a] == [a];
    MaxNumberSnoc([], a);
    AllThreeSnoc([], a);
  }

  lemma Value999(a: string)
    requires a == RunStem("999", "_orig")
    ensures Matches(a) && IsThreeDigits(NumberSlice(a)) && SliceValue(a) == 999
  {
    ThreeDigitsVal("999");
    RunStemValue("999", "_orig");
  }

  lemma Value1000(b: string, suffix: string)
    requires b == RunStem("1000", suffix)
    ensures Matches(b) && IsThreeDigits(NumberSlice(b)) && SliceValue(b) == 100
  {
    ThreeDigitsVal("100");
    assert b == RunStem("100", "0" + suffix);
    RunStemValue("100", "0" + suffix);
  }

  lemma Max999(a: string)
    requires a == RunStem("999", "_orig")
    ensures MaxNumber([a]) == 999 && AllThree([a])
  {
    Value999(a);
    MaxOfOne(a);
  }

  lemma Max999With1000(a: string, b: string, c: string)
    requires a == RunStem("999", "_orig")
    requires b == RunStem("1000", "_orig") && c == RunStem("1000", "_thatch")
    ensures MaxNumber([a, b, c]) == 999 && AllThree([a, b, c])
  {
    Max999(a);
    Value1000(b, "_orig");
    Value1000(c, "_thatch");
    assert [a] + [b] == [a, b] && [a, b] + [c] == [a, b, c];
    MaxNumberSnoc([a], b);
    MaxNumberSnoc([a, b], c);
    AllThreeSnoc([a], b);
    AllThreeSnoc([a, b], c);
  }

  lemma NatToStr1000()
    ensures IntToStr(1000) == "1000"
  {
    assert NatToStr(1) == "1";
    assert NatToStr(10) == "10";
    assert NatToStr(100) == "100";
  }

  lemma NextAfter999(a: string)
    requires a == RunStem("999", "_orig")
    ensures NextFileNumber([a]) == Ok("1000")
  {
    Max999(a);
    NextIsMaxPlusOne([a]);
    NatToStr1000();
  }

  lemma LastAfter1000(a: string, b: string, c: string)
    requires a == RunStem("999", "_orig")
    requires b == RunStem("1000", "_orig") && c == RunStem("1000", "_thatch")
    ensures LastFileNumber([a, b, c]) == Ok("999")
  {
    Max999With1000(a, b, c);
    LastFileNumberIsMax([a, b, c]);
    Pad3Of999();
  }

  lemma Pad3Of999()
    ensures Pad3(999) == "999"
  {
    assert DigitChar(9) == '9';
  }

  /**
    As written, the composite and the print job look the number up again
    after the new files are saved. After run 999 the new run is "1000", but
    its files' slice is "100", which sorts below "999": the lookup answers
    "999", so run 1000's composite takes run 999's name.
  */
  lemma CompositeNumberAfter999(a: string, b: string, c: string)
    requires a == RunStem("999", "_orig")
    requires b == RunStem("1000", "_orig") && c == RunStem("1000", "_thatch")
    ensures NextFileNumber([a]) == Ok("1000")
    ensures LastFileNumber([a, b, c]) == Ok("999")
  {
    NextAfter999(a);
    LastAfter1000(a, b, c);
  }

  /** A stem whose number has no zero padding: "img_5" slices to "5". */
  lemma ShortStem(a: string)
    requires a == "img_5"
    ensures Matches(a) && NumberSlice(a) == "5"
  {
    assert a[0] == 'i' && a[1] == 'm' && a[2] == 'g';
    assert NumberSlice(a) == a[4..5];
  }

  lemma LastOfShort(a: string)
    requires a == "img_5"
    ensures LastSlice([a]) == Some("5")
    ensures LastFileNumber([a]) == Ok("005")
  {
    ShortStem(a);
    assert [a][..0] == [];
    assert AllDigits("5") && DigitsVal("5") == 5;
    ZFillIsPad3(5);
    assert DigitChar(0) == '0' && DigitChar(5) == '5';
  }

  lemma NextAfterShort(a: string)
    requires a == "img_5"
    ensures NextFileNumber([a]) == Ok("006")
  {
    LastOfShort(a);
    ZFillIsPad3(5);
    NextFromLast([a], 5);
    ZFillIsPad3(6);
    assert DigitChar(0) == '0' && DigitChar(6) == '6';
  }

  lemma LastAfterShort(a: string, b: string, c: string)
    requires a == "img_5"
    requires b == RunStem("006", "_orig") && c == RunStem("006", "_thatch")
    ensures LastFileNumber([a, b, c]) == Ok("005")
  {
    LastOfShort(a);
    RunStemSlice("006", "_orig");
    RunStemSlice("006", "_thatch");
    assert !LexLess("5", "006");
    assert [a, b][..1] == [a] && [a, b, c][..2] == [a, b];
    assert LastSlice([a, b]) == Some("5");
  }

  /**
    The same re-lookup goes wrong with no overflow when an earlier file's
    number is not zero-padded: after "img_5" the new run is "006", but its
    slice "006" sorts below "5", so the lookup keeps answering "005".
  */
  lemma CompositeNumberAfterShortStem(a: string, b: string, c: string)
    requires a == "img_5"
    requires b == RunStem("006", "_orig") && c == RunStem("006", "_thatch")
    ensures NextFileNumber([a]) == Ok("006")
    ensures LastFileNumber([a, b, c]) == Ok("005")
  {
    NextAfterShort(a);
    LastAfterShort(a, b, c);
  }
}
