/**
 The parts of Go's `strings` and `strconv` packages that prefix expansion and the
 ConfigMap parser use, with the round trips that make printed numbers readable back.
 */
module GoStrings {
  import opened GoMath

  predicate IsDigit(c: char) { '0' <= c <= '9' }

  function DigitChar(d: int): char
    requires 0 <= d < 10
  {
    '0' + d as char
  }

  function DigitValue(c: char): int
    requires IsDigit(c)
  {
    c as int - '0' as int
  }

  predicate AllDigits(s: string) { forall i :: 0 <= i < |s| ==> IsDigit(s[i]) }

  function Digits(n: nat): string {
    if n < 10 then [DigitChar(n)] else Digits(n / 10) + [DigitChar(n % 10)]
  }

  function DigitsValue(s: string): nat
    requires AllDigits(s)
  {
    if s == "" then 0 else 10 * DigitsValue(s[..|s| - 1]) + DigitValue(s[|s| - 1])
  }

  /** strconv.Itoa */
  function Itoa(n: int): string {
    if n < 0 then "-" + Digits(-n) else Digits(n)
  }

  /** What strconv.Atoi hands back: a value that is meaningful even beside an error. */
  datatype AtoiResult = AtoiResult(value: Int64, ok: bool)

  /** The digits of a number, behind an optional sign. */
  function Unsigned(s: string): string {
    if |s| > 0 && (s[0] == '-' || s[0] == '+') then s[1..] else s
  }

  /** A decimal number of any size. */
  predicate IsNumeral(s: string) {
    Unsigned(s) != "" && AllDigits(Unsigned(s))
  }

  function NumeralValue(s: string): int
    requires IsNumeral(s)
  {
    if s[0] == '-' then -(DigitsValue(Unsigned(s)) as int) else DigitsValue(Unsigned(s))
  }

  /** The digits a text starts with. */
  function LeadingDigits(s: string): (run: string)
    ensures AllDigits(run) && run <= s
    ensures AllDigits(s) ==> run == s
  {
    if s == "" || !IsDigit(s[0]) then ""
    else
      var rest := LeadingDigits(s[1..]);
      assert s == [s[0]] + s[1..];
      [s[0]] + rest
  }

  /** The digits behind the sign exceed 64 bits, which strconv reports without looking at what follows them. */
  predicate Overflows(s: string) {
    DigitsValue(LeadingDigits(Unsigned(s))) > MAX_UINT64
  }

  /** The bound on the side of the sign. */
  function Bound(s: string): Int64 {
    if |s| > 0 && s[0] == '-' then MIN_INT64 else MAX_INT64
  }

  /**
   strconv.Atoi: an out-of-range number yields the nearest bound, and so does any text whose digits overflow before
   the first character that is none; another syntax error yields 0.
   */
  function Atoi(s: string): AtoiResult {
    if Overflows(s) then AtoiResult(Bound(s), false)
    else if !IsNumeral(s) then AtoiResult(0, false)
    else
      var v := NumeralValue(s);
      if MIN_INT64 <= v <= MAX_INT64 then AtoiResult(v, true) else AtoiResult(Bound(s), false)
  }

  /** strings.Index for a one-character separator. */
  function IndexOf(s: string, c: char): (i: int)
    ensures -1 <= i < |s|
    ensures i == -1 <==> c !in s
    ensures i >= 0 ==> s[i] == c && c !in s[..i]
  {
    if s == "" then -1
    else if s[0] == c then 0
    else
      var rest := IndexOf(s[1..], c);
      assert rest >= 0 ==> s[..rest + 1] == [s[0]] + s[1..][..rest];
      if rest < 0 then -1 else rest + 1
  }

  /** strings.Split for a one-character separator. */
  function Split(s: string, sep: char): (parts: seq<string>)
    ensures |parts| > 0
  {
    var i := IndexOf(s, sep);
    if i < 0 then [s] else [s[..i]] + Split(s[i + 1..], sep)
  }

  lemma {:induction false} DigitsRoundTrip(n: nat)
    ensures AllDigits(Digits(n)) && Digits(n) != ""
    ensures DigitsValue(Digits(n)) == n
  {
    if n >= 10 {
      DigitsRoundTrip(n / 10);
      var front := Digits(n / 10);
      assert Digits(n)[..|front|] == front;
    }
  }

  /** A printed number is a numeral of its own value, whatever its size. */
  lemma ItoaIsNumeral(n: int)
    ensures IsNumeral(Itoa(n)) && NumeralValue(Itoa(n)) == n
  {
    var magnitude: nat := if n < 0 then -n else n;
    DigitsRoundTrip(magnitude);
    var body := Digits(magnitude);
    assert IsDigit(body[0]);
    if n < 0 {
      assert Itoa(n)[1..] == body;
    }
  }

  /** Every number that fits in 64 bits is read back from what Itoa prints; any other saturates. */
  lemma AtoiItoa(n: int)
    ensures MIN_INT64 <= n <= MAX_INT64 ==> Atoi(Itoa(n)) == AtoiResult(n, true)
    ensures n > MAX_INT64 ==> Atoi(Itoa(n)) == AtoiResult(MAX_INT64, false)
    ensures n < MIN_INT64 ==> Atoi(Itoa(n)) == AtoiResult(MIN_INT64, false)
  {
    hide Itoa, DigitsValue;
    ItoaIsNumeral(n);
  }

  lemma {:induction false} LeadingDigitsStop(run: string, rest: string)
    requires AllDigits(run) && (rest == "" || !IsDigit(rest[0]))
    ensures LeadingDigits(run + rest) == run
  {
    if run != "" {
      assert (run + rest)[1..] == run[1..] + rest;
      LeadingDigitsStop(run[1..], rest);
    } else {
      assert run + rest == rest;
    }
  }

  /** Digits beyond 64 bits decide, whatever follows them. */
  lemma OverflowDecides(n: nat, rest: string)
    requires n > MAX_UINT64 && (rest == "" || !IsDigit(rest[0]))
    ensures Atoi(Itoa(n) + rest) == AtoiResult(MAX_INT64, false)
  {
    var s := Itoa(n) + rest;
    DigitsRoundTrip(n);
    assert IsDigit(s[0]);
    LeadingDigitsStop(Itoa(n), rest);
    hide Digits, DigitsValue, IsNumeral;
  }

  /** A text reads as zero with an error exactly when it is no number and its digits do not overflow. */
  lemma ReadsAsZeroIff(s: string)
    ensures !Atoi(s).ok && Atoi(s).value == 0 <==> !IsNumeral(s) && !Overflows(s)
  {
    hide IsNumeral, NumeralValue, Overflows;
  }

  /** Printed numbers contain no separator of the dotted or the CIDR notation. */
  lemma ItoaPlain(n: nat)
    ensures '.' !in Itoa(n) && '/' !in Itoa(n) && Itoa(n) != ""
  {
    DigitsRoundTrip(n);
    forall i | 0 <= i < |Digits(n)| ensures IsDigit(Digits(n)[i]) {}
  }

  /** The first separator ends the first part. */
  lemma IndexOfFirst(head: string, c: char, tail: string)
    requires c !in head
    ensures IndexOf(head + [c] + tail, c) == |head|
  {
    var s := head + [c] + tail;
    var i := IndexOf(s, c);
    assert s[|head|] == c;
    assert forall k :: 0 <= k < |head| ==> s[k] == head[k];
    assert forall k :: 0 <= k < i ==> s[..i][k] == s[k];
    assert forall k :: 0 <= k < i ==> s[..i][k] != c;
  }

  lemma SplitFirst(head: string, sep: char, tail: string)
    requires sep !in head
    ensures Split(head + [sep] + tail, sep) == [head] + Split(tail, sep)
  {
    IndexOfFirst(head, sep, tail);
    var s := head + [sep] + tail;
    assert s[..|head|] == head;
    assert s[|head| + 1..] == tail;
  }

  /** The parts with the separator between them. */
  function Join(parts: seq<string>, sep: char): string {
    if parts == [] then ""
    else if |parts| == 1 then parts[0]
    else parts[0] + [sep] + Join(parts[1..], sep)
  }

  lemma SplitStep(s: string, sep: char) returns (head: string, rest: string)
    requires sep in s
    ensures sep !in head && s == head + [sep] + rest && |rest| < |s|
    ensures Split(s, sep) == [head] + Split(rest, sep)
  {
    var i := IndexOf(s, sep);
    head, rest := s[..i], s[i + 1..];
    assert s == s[..i] + [s[i]] + s[i + 1..];
  }

  /** No part holds a separator, or anything that the text does not. */
  ghost predicate PartsOf(parts: seq<string>, s: string, sep: char) {
    forall k :: 0 <= k < |parts| ==> sep !in parts[k] && forall c :: c in parts[k] ==> c in s
  }

  /** A text is its parts joined again. */
  lemma {:induction false} SplitJoins(s: string, sep: char)
    ensures Join(Split(s, sep), sep) == s && PartsOf(Split(s, sep), s, sep)
    decreases |s|
  {
    if sep in s {
      var head, rest := SplitStep(s, sep);
      SplitJoins(rest, sep);
      hide Split;
      var parts := Split(rest, sep);
      assert ([head] + parts)[1..] == parts;
      forall k | 0 <= k < |parts| + 1
        ensures sep !in ([head] + parts)[k] && forall c :: c in ([head] + parts)[k] ==> c in s
      {
        assert k > 0 ==> ([head] + parts)[k] == parts[k - 1];
      }
    }
  }
}
