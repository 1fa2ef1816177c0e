/** The string operations the rule parsers are made of: splitting at a separator, and decimal
    integers of 64 bits, parsed and printed. */
module Text {
  import opened Wrappers

  // ---------------------------------------------------------------- splitting

  /** The pieces between separators; one empty piece for the empty string. */
  function Split(s: string, sep: char): (pieces: seq<string>)
    ensures pieces != []
  {
    if s == "" then [""]
    else
      var rest := Split(s[1..], sep);
      if s[0] == sep then [""] + rest else [[s[0]] + rest[0]] + rest[1..]
  }

  function Join(pieces: seq<string>, sep: char): string
    requires pieces != []
  {
    if |pieces| == 1 then pieces[0] else pieces[0] + [sep] + Join(pieces[1..], sep)
  }

  /** Splitting loses nothing, and no piece contains the separator. */
  lemma {:induction false} JoinOfSplit(s: string, sep: char)
    ensures Join(Split(s, sep), sep) == s
    ensures forall i :: 0 <= i < |Split(s, sep)| ==> sep !in Split(s, sep)[i]
  {
    if s != "" {
      JoinOfSplit(s[1..], sep);
      var rest := Split(s[1..], sep);
      var pieces := Split(s, sep);
      if s[0] == sep {
        assert pieces[1..] == rest;
        assert Join(pieces, sep) == "" + [sep] + s[1..] == s;
      } else {
        assert pieces[1..] == rest[1..];
        assert Join(pieces, sep) == [s[0]] + Join(rest, sep);
      }
    }
  }

  /** Only one way of cutting a string at the separators exists. */
  lemma {:induction false} SplitOfJoin(pieces: seq<string>, sep: char)
    requires pieces != [] && forall i :: 0 <= i < |pieces| ==> sep !in pieces[i]
    ensures Split(Join(pieces, sep), sep) == pieces
    decreases |pieces|, |pieces[0]|
  {
    var s := Join(pieces, sep);
    if pieces[0] == "" {
      if |pieces| > 1 {
        assert s == [sep] + Join(pieces[1..], sep);
        assert s[1..] == Join(pieces[1..], sep);
        SplitOfJoin(pieces[1..], sep);
      }
    } else {
      var shorter := [pieces[0][1..]] + pieces[1..];
      assert shorter[1..] == pieces[1..];
      assert s[1..] == Join(shorter, sep);
      assert s[0] == pieces[0][0] && s[0] in pieces[0];
      SplitOfJoin(shorter, sep);
      assert [s[0]] + shorter[0] == pieces[0];
      assert [pieces[0]] + pieces[1..] == pieces;
    }
  }

  lemma {:induction false} JoinAvoids(pieces: seq<string>, sep: char, c: char)
    requires pieces != [] && c != sep && forall i :: 0 <= i < |pieces| ==> c !in pieces[i]
    ensures c !in Join(pieces, sep)
    decreases |pieces|
  {
    if |pieces| > 1 {
      JoinAvoids(pieces[1..], sep, c);
    }
  }

  /** One piece is what a string without the separator is. */
  lemma UncutIff(s: string, sep: char)
    ensures |Split(s, sep)| == 1 <==> sep !in s
  {
    JoinOfSplit(s, sep);
    if sep !in s { SplitOfJoin([s], sep); }
  }

  // ---------------------------------------------------------------- decimal integers

  const MAX_INT64 := 0x7fff_ffff_ffff_ffff
  const MIN_INT64 := -0x8000_0000_0000_0000

  predicate IsDigit(c: char) {
    '0' <= c <= '9'
  }

  function DigitValue(c: char): nat
    requires IsDigit(c)
  {
    (c as int) - ('0' as int)
  }

  function DigitChar(d: nat): (c: char)
    requires d < 10
    ensures IsDigit(c) && DigitValue(c) == d
  {
    "0123456789"[d]
  }

  predicate AllDigits(s: string) {
    s != "" && forall i :: 0 <= i < |s| ==> IsDigit(s[i])
  }

  function Value(s: string): nat
    requires AllDigits(s)
  {
    var last := DigitValue(s[|s| - 1]);
    if |s| == 1 then last else 10 * Value(s[..|s| - 1]) + last
  }

  function Digits(n: nat): (s: string)
    ensures AllDigits(s)
  {
    if n < 10 then [DigitChar(n)] else Digits(n / 10) + [DigitChar(n % 10)]
  }

  /** strconv.Atoi and strconv.ParseInt(s, 10, 64): a sign or none, digits, 64-bit range. */
  function Atoi(s: string): Option<int> {
    var body := if s != "" && (s[0] == '+' || s[0] == '-') then s[1..] else s;
    if !AllDigits(body) then None
    else
      var v := if s[0] == '-' then -(Value(body) as int) else Value(body);
      if MIN_INT64 <= v <= MAX_INT64 then Some(v) else None
  }

  /** strconv.FormatInt(n, 10). */
  function Itoa(n: int): string {
    if n < 0 then "-" + Digits(-n) else Digits(n)
  }

  /** The spelling FormatInt produces: no plus sign, no leading zero, no minus zero. */
  predicate Canonical(s: string) {
    if s != "" && s[0] == '-' then PlainDigits(s[1..]) && s[1..] != "0" else PlainDigits(s)
  }

  predicate PlainDigits(s: string) {
    AllDigits(s) && (s[0] != '0' || |s| == 1)
  }

  lemma {:induction false} ValueOfDigits(n: nat)
    ensures Value(Digits(n)) == n && PlainDigits(Digits(n)) && (Digits(n)[0] == '0' <==> n == 0)
  {
    if n >= 10 {
      ValueOfDigits(n / 10);
      assert Digits(n)[..|Digits(n)| - 1] == Digits(n / 10);
      assert Digits(n)[0] == Digits(n / 10)[0];
    }
  }

  lemma {:induction false} DigitsOfValue(s: string)
    requires PlainDigits(s)
    ensures Digits(Value(s)) == s && (Value(s) == 0 <==> s == "0")
    decreases |s|
  {
    var last := DigitValue(s[|s| - 1]);
    assert s[|s| - 1] == DigitChar(last);
    if |s| > 1 {
      var front := s[..|s| - 1];
      DigitsOfValue(front);
      assert front[0] == s[0];
      assert Value(front) > 0;
      assert Value(s) / 10 == Value(front) && Value(s) % 10 == last;
      assert s == front + [DigitChar(last)];
    }
  }

  /** What is parsed: digits after a sign or none, leading zeros and all, if the number fits; and nothing else. */
  lemma AtoiOfSigned(s: string)
    requires AllDigits(s)
    ensures Atoi(s) == Atoi("+" + s) == if Value(s) <= MAX_INT64 then Some(Value(s)) else None
    ensures Atoi("-" + s) == var n: int := Value(s); if -n >= MIN_INT64 then Some(-n) else None
  {
    assert IsDigit(s[0]);
    assert ("+" + s)[1..] == s && ("-" + s)[1..] == s;
  }

  lemma AtoiOfOther(s: string)
    requires !AllDigits(s) && (s == "" || (s[0] != '+' && s[0] != '-') || !AllDigits(s[1..]))
    ensures Atoi(s) == None
  {
  }

  /** A printed number has neither separators nor spaces in it. */
  lemma PrintedIsPlain(n: int, c: char)
    requires !IsDigit(c) && c != '-'
    ensures c !in Itoa(n) && Itoa(n) != ""
  {
  }

  /** Another digit makes ten times the number, and the digit. */
  lemma AppendDigit(s: string, c: char)
    requires AllDigits(s) && IsDigit(c)
    ensures Value([c]) == c as int - '0' as int && Value(s + [c]) == 10 * Value(s) + Value([c])
  {
    assert (s + [c])[..|s|] == s;
  }

  /** Printing and parsing back is the identity on 64-bit integers. */
  lemma AtoiOfItoa(n: int)
    requires MIN_INT64 <= n <= MAX_INT64
    ensures Atoi(Itoa(n)) == Some(n) && Canonical(Itoa(n))
  {
    var d := if n < 0 then -n else n;
    ValueOfDigits(d);
    assert IsDigit(Digits(d)[0]);
    assert ("-" + Digits(d))[1..] == Digits(d);
  }

  /** Parsing and printing back is the identity exactly on the canonical spellings. */
  lemma ItoaOfAtoi(s: string)
    requires Atoi(s).Some?
    ensures Itoa(Atoi(s).value) == s <==> Canonical(s)
  {
    AtoiOfItoa(Atoi(s).value);
    if Canonical(s) {
      if s[0] == '-' {
        DigitsOfValue(s[1..]);
        assert s == "-" + s[1..];
      } else {
        DigitsOfValue(s);
        assert IsDigit(s[0]);
      }
    }
  }
}
