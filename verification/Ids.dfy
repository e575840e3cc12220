// Sequence-numbered identifiers: "mission-%03d", "target-%03d", "swarm-%03d" and
// "replay-%03d", and the two ways the services read a number back out of one.
module Ids {

  const MAX_INT64: int := 0x7FFF_FFFF_FFFF_FFFF
  const MIN_INT64: int := -0x8000_0000_0000_0000

  function DigitChar(d: nat): char
    requires d < 10
  {
    '0' + d as char
  }

  predicate IsDigit(c: char) {
    '0' <= c <= '9'
  }

  predicate AllDigits(s: string) {
    forall i :: 0 <= i < |s| ==> IsDigit(s[i])
  }

  /** The base-10 spelling of a natural number, without leading zeros. */
  function Digits(n: nat): (s: string)
    ensures |s| > 0 && AllDigits(s)
  {
    if n < 10 then [DigitChar(n)] else Digits(n / 10) + [DigitChar(n % 10)]
  }

  /** The number a digit string spells. */
  function Value(s: string): nat
    requires AllDigits(s)
  {
    if s == [] then 0 else 10 * Value(s[..|s| - 1]) + (s[|s| - 1] - '0') as nat
  }

  /** Left-pads with zeros up to the width. */
  function ZeroPad(s: string, width: nat): string
    decreases width - |s|
  {
    if |s| < width then ZeroPad("0" + s, width) else s
  }

  /** fmt.Sprintf("%03d", n): the sign counts towards the width. */
  function Sprintf03(n: int): string {
    if n < 0 then "-" + ZeroPad(Digits(-n), 2) else ZeroPad(Digits(n), 3)
  }

  /** fmt.Sprintf(prefix + "-%03d", n) */
  function SequenceID(prefix: string, n: int): string {
    prefix + "-" + Sprintf03(n)
  }

  /** The longest prefix of s made of digits. */
  function LeadingDigits(s: string): (d: string)
    ensures AllDigits(d)
  {
    if s != [] && IsDigit(s[0]) then [s[0]] + LeadingDigits(s[1..]) else []
  }

  function SkipBlanks(s: string): string {
    if s != [] && (s[0] == ' ' || s[0] == '\t') then SkipBlanks(s[1..]) else s
  }

  datatype Option<T> = None | Some(value: T)

  function InInt64(n: int): (o: Option<int>) {
    if MIN_INT64 <= n <= MAX_INT64 then Some(n) else None
  }

  /** The verb %d of fmt.Sscanf: blanks, an optional sign, digits; what follows is not looked at. */
  function ScanInt(s: string): Option<int> {
    var t := SkipBlanks(s);
    var signed := t != [] && (t[0] == '+' || t[0] == '-');
    var digits := LeadingDigits(if signed then t[1..] else t);
    var n: int := Value(digits);
    if digits == [] then None else InInt64(if signed && t[0] == '-' then -n else n)
  }

  /** strconv.Atoi: an optional sign and then digits to the very end. */
  function Atoi(s: string): Option<int> {
    var signed := s != [] && (s[0] == '+' || s[0] == '-');
    var digits := if signed then s[1..] else s;
    if digits == [] || !AllDigits(digits) then None
    else
      var n: int := Value(digits);
      InInt64(if signed && s[0] == '-' then -n else n)
  }

  /** The number written after "<prefix>-", or 0 when the scan fails (fleet.missionSeq). */
  function ScanSequence(prefix: string, id: string): (n: int)
    ensures MIN_INT64 <= n <= MAX_INT64
  {
    var head := prefix + "-";
    if head <= id then
      match ScanInt(id[|head|..]) case Some(n) => n case None => 0
    else 0
  }

  /** strconv.Atoi after strings.TrimPrefix, or 0 when it fails (replay.replaySeq). */
  function TrimSequence(prefix: string, id: string): (n: int)
    ensures MIN_INT64 <= n <= MAX_INT64
  {
    var head := prefix + "-";
    match Atoi(if head <= id then id[|head|..] else id) case Some(n) => n case None => 0
  }

  /** An int64 counter after one more Add(1). */
  function AddOneInt64(n: int): int {
    if n == MAX_INT64 then MIN_INT64 else n + 1
  }

  lemma {:induction false} ValueOfDigits(n: nat)
    ensures Value(Digits(n)) == n
  {
    if n >= 10 {
      ValueOfDigits(n / 10);
      assert Digits(n)[..|Digits(n)| - 1] == Digits(n / 10);
    }
  }

  lemma {:induction false} ValueOfLeadingZero(s: string)
    requires AllDigits(s)
    ensures Value("0" + s) == Value(s)
  {
    if s != [] {
      ValueOfLeadingZero(s[..|s| - 1]);
      assert ("0" + s)[..|s|] == "0" + s[..|s| - 1];
    }
  }

  lemma {:induction false} ValueOfZeroPad(s: string, width: nat)
    requires AllDigits(s)
    ensures AllDigits(ZeroPad(s, width)) && |ZeroPad(s, width)| >= |s|
    ensures Value(ZeroPad(s, width)) == Value(s)
    decreases width - |s|
  {
    if |s| < width {
      ValueOfLeadingZero(s);
      ValueOfZeroPad("0" + s, width);
    }
  }

  lemma {:induction false} LeadingDigitsOfDigits(s: string)
    requires AllDigits(s)
    ensures LeadingDigits(s) == s
  {
    if s != [] {
      LeadingDigitsOfDigits(s[1..]);
    }
  }

  lemma DigitsAreRead(s: string, n: nat)
    requires s != [] && AllDigits(s) && Value(s) == n <= MAX_INT64
    ensures ScanInt(s) == Some(n) && Atoi(s) == Some(n)
  {
    LeadingDigitsOfDigits(s);
    assert IsDigit(s[0]);
    assert SkipBlanks(s) == s;
  }

  lemma PaddedDigits(n: nat)
    ensures Sprintf03(n) != [] && AllDigits(Sprintf03(n)) && Value(Sprintf03(n)) == n
  {
    ValueOfDigits(n);
    ValueOfZeroPad(Digits(n), 3);
  }

  lemma {:induction false} NoLeadingZero(n: nat)
    requires n > 0
    ensures Digits(n)[0] != '0'
  {
    if n >= 10 { NoLeadingZero(n / 10); }
  }

  lemma {:induction false} PaddedWidth(s: string, width: nat)
    ensures |ZeroPad(s, width)| == if |s| < width then width else |s|
    ensures |s| >= width ==> ZeroPad(s, width) == s
    decreases width - |s|
  {
    if |s| < width { PaddedWidth("0" + s, width); }
  }

  /** What the formatter writes is the one string of digits that spells the number, has at least three of them,
      and starts with a zero only to fill up these. */
  lemma NumberIsPadded(n: nat)
    ensures var s := Sprintf03(n);
      AllDigits(s) && Value(s) == n && |s| >= 3 && (|s| > 3 ==> s[0] != '0')
  {
    PaddedDigits(n);
    PaddedWidth(Digits(n), 3);
    if n > 0 { NoLeadingZero(n); }
  }

  lemma {:induction false} LeadingDigitsStop(d: string, rest: string)
    requires AllDigits(d) && (rest != [] ==> !IsDigit(rest[0]))
    ensures LeadingDigits(d + rest) == d
  {
    if d != [] {
      LeadingDigitsStop(d[1..], rest);
      assert (d + rest)[1..] == d[1..] + rest;
    }
  }

  function Signed(sign: string, n: int): int {
    if sign == "-" then -n else n
  }

  lemma ScanUnsigned(d: string, rest: string)
    requires d != [] && AllDigits(d) && (rest != [] ==> !IsDigit(rest[0]))
    ensures ScanInt(d + rest) == InInt64(Value(d))
  {
    LeadingDigitsStop(d, rest);
    var s := d + rest;
    assert IsDigit(s[0]) && SkipBlanks(s) == s;
  }

  lemma ScanSigned(sign: string, d: string, rest: string)
    requires sign == "+" || sign == "-"
    requires d != [] && AllDigits(d) && (rest != [] ==> !IsDigit(rest[0]))
    ensures ScanInt(sign + (d + rest)) == InInt64(Signed(sign, Value(d)))
  {
    LeadingDigitsStop(d, rest);
    var s := sign + (d + rest);
    assert s[0] == sign[0] && s[1..] == d + rest && SkipBlanks(s) == s;
  }

  /** Scanning an identifier takes a sign and digits, and does not mind what follows them; a number that does not
      fit counts as 0. */
  lemma ScanStopsAfterDigits(prefix: string, sign: string, d: string, rest: string)
    requires sign == "" || sign == "+" || sign == "-"
    requires d != [] && AllDigits(d) && (rest != [] ==> !IsDigit(rest[0]))
    ensures var n := Signed(sign, Value(d));
      ScanSequence(prefix, prefix + "-" + (sign + (d + rest))) == if MIN_INT64 <= n <= MAX_INT64 then n else 0
  {
    var head, s := prefix + "-", sign + (d + rest);
    assert (head + s)[|head|..] == s;
    if sign == "" {
      assert s == d + rest;
      ScanUnsigned(d, rest);
    } else {
      ScanSigned(sign, d, rest);
    }
  }

  /** Both readers undo the formatter on every non-negative int64. */
  lemma SequenceRoundTrip(prefix: string, n: nat)
    requires n <= MAX_INT64
    ensures ScanSequence(prefix, SequenceID(prefix, n)) == n
    ensures TrimSequence(prefix, SequenceID(prefix, n)) == n
  {
    var head := prefix + "-";
    PaddedDigits(n);
    DigitsAreRead(Sprintf03(n), n);
    assert SequenceID(prefix, n)[|head|..] == Sprintf03(n);
  }

  /** Different numbers give different identifiers. */
  lemma SequenceInjective(prefix: string, m: nat, n: nat)
    requires SequenceID(prefix, m) == SequenceID(prefix, n)
    ensures m == n
  {
    var head := prefix + "-";
    assert SequenceID(prefix, m)[|head|..] == Sprintf03(m);
    assert SequenceID(prefix, n)[|head|..] == Sprintf03(n);
    PaddedDigits(m);
    PaddedDigits(n);
  }

  /** The identifiers a counter has handed out while it went from 0 to n. */
  ghost predicate Issued(prefix: string, id: string, n: int) {
    exists k: nat :: 1 <= k <= n && id == SequenceID(prefix, k)
  }

  /** The next identifier was never handed out before. */
  lemma NextIsFresh(prefix: string, n: nat)
    ensures !Issued(prefix, SequenceID(prefix, n + 1), n)
  {
    forall k: nat | 1 <= k <= n
      ensures SequenceID(prefix, n + 1) != SequenceID(prefix, k)
    {
      if SequenceID(prefix, n + 1) == SequenceID(prefix, k) {
        SequenceInjective(prefix, n + 1, k);
      }
    }
  }
}
