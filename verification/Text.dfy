/**
 The string functions the cron parser leans on: splitting, trimming, and decimal numbers.
 Strings are ASCII.
 */
module Text {
  import opened Tickets

  function Index(s: string, c: char): (i: nat)
    ensures i <= |s| && (i < |s| ==> s[i] == c) && c !in s[..i]
  {
    if s == "" || s[0] == c then 0
    else
      var i := 1 + Index(s[1..], c);
      assert s[..i] == [s[0]] + s[1..][..i - 1];
      i
  }

  /** The only place to cut `a + c + b` at the first `c` is after `a`. */
  lemma IndexOfCut(a: string, c: char, b: string)
    requires c !in a
    ensures Index(a + [c] + b, c) == |a|
  {
    var s := a + [c] + b;
    var i := Index(s, c);
    assert forall k | 0 <= k < |a| :: s[k] == a[k] && a[k] in a;
    assert s[|a|] == c;
    assert forall k | 0 <= k < i :: s[k] == s[..i][k];
  }

  function Split(s: string, c: char): (parts: seq<string>)
    ensures parts != []
    decreases |s|
  {
    var i := Index(s, c);
    if i == |s| then [s] else [s[..i]] + Split(s[i + 1..], c)
  }

  function Join(parts: seq<string>, c: char): string
    requires parts != []
    decreases |parts|
  {
    if |parts| == 1 then parts[0] else parts[0] + [c] + Join(parts[1..], c)
  }

  lemma {:induction false} SplitOfJoin(parts: seq<string>, c: char)
    requires parts != [] && forall i | 0 <= i < |parts| :: c !in parts[i]
    ensures Split(Join(parts, c), c) == parts
    decreases |parts|
  {
    var s := Join(parts, c);
    if |parts| == 1 {
      var i := Index(s, c);
      assert i == |s|;
    } else {
      var rest := Join(parts[1..], c);
      IndexOfCut(parts[0], c, rest);
      SplitOfJoin(parts[1..], c);
      assert s[..|parts[0]|] == parts[0] && s[|parts[0]| + 1..] == rest;
    }
  }

  // ------------------------------------------------------------------ white space and case

  predicate IsSpace(c: char) { c in " \t\n\r\U{0B}\U{0C}" }

  function Lower(s: string): string {
    seq(|s|, i requires 0 <= i < |s| => if 'A' <= s[i] <= 'Z' then s[i] - 'A' + 'a' else s[i])
  }

  function TrimLeft(s: string): string {
    if s != "" && IsSpace(s[0]) then TrimLeft(s[1..]) else s
  }

  function TrimRight(s: string): string {
    if s != "" && IsSpace(s[|s| - 1]) then TrimRight(s[..|s| - 1]) else s
  }

  function Trim(s: string): string { TrimRight(TrimLeft(s)) }

  /** Where the first run of characters that are not white space ends. */
  function WordEnd(s: string): (i: nat)
    ensures i <= |s| && (i < |s| ==> IsSpace(s[i])) && forall k | 0 <= k < i :: !IsSpace(s[k])
  {
    if s == "" || IsSpace(s[0]) then 0 else 1 + WordEnd(s[1..])
  }

  /** The maximal runs of characters that are not white space. */
  function Fields(s: string): (words: seq<string>)
    ensures forall w | w in words :: w != "" && forall k | 0 <= k < |w| :: !IsSpace(w[k])
    decreases |s|
  {
    if s == "" then []
    else if IsSpace(s[0]) then Fields(s[1..])
    else
      var i := WordEnd(s);
      [s[..i]] + Fields(s[i..])
  }

  predicate IsWord(w: string) { w != "" && forall k | 0 <= k < |w| :: !IsSpace(w[k]) }

  /** Words written with one space between them come back. */
  lemma {:induction false} FieldsOfJoin(words: seq<string>)
    requires words != [] && forall i | 0 <= i < |words| :: IsWord(words[i])
    ensures Fields(Join(words, ' ')) == words
    decreases |words|
  {
    var s := Join(words, ' ');
    var w := words[0];
    assert IsWord(w);
    if |words| == 1 {
      var i := WordEnd(s);
      assert s[..i] == s && Fields(s[i..]) == [];
    } else {
      FieldsOfJoin(words[1..]);
      FirstWord(w, Join(words[1..], ' '));
      assert [w] + words[1..] == words;
    }
  }

  lemma FirstWord(w: string, rest: string)
    requires IsWord(w)
    ensures Fields(w + [' '] + rest) == [w] + Fields(rest)
  {
    var s := w + [' '] + rest;
    assert s[0] == w[0];
    WordEndsAt(w, rest);
    SpaceSkipped(rest);
  }

  lemma WordEndsAt(w: string, rest: string)
    requires IsWord(w)
    ensures var s := w + [' '] + rest; WordEnd(s) == |w| && s[..|w|] == w && s[|w|..] == [' '] + rest
  {
    var s := w + [' '] + rest;
    var i := WordEnd(s);
    assert IsSpace(s[|w|]);
    assert forall k | 0 <= k < |w| :: s[k] == w[k];
  }

  lemma SpaceSkipped(rest: string)
    ensures Fields([' '] + rest) == Fields(rest)
  {
    assert ([' '] + rest)[1..] == rest;
  }

  /** A text is what stands before a character, the character, and what stands after it. */
  lemma CutAt(s: string, i: nat)
    requires i < |s|
    ensures s == s[..i] + [s[i]] + s[i + 1..]
  {
  }

  // ------------------------------------------------------------------ decimal numbers

  predicate IsDigit(c: char) { '0' <= c <= '9' }

  predicate AllDigits(s: string) { forall i | 0 <= i < |s| :: IsDigit(s[i]) }

  function Number(s: string): nat
    requires AllDigits(s)
  {
    if s == "" then 0 else 10 * Number(s[..|s| - 1]) + (s[|s| - 1] - '0') as nat
  }

  /** A sign at will, at least one digit, and a value that fits 64 bits. */
  function Atoi(s: string): Option<int> {
    var signed := s != "" && (s[0] == '+' || s[0] == '-');
    var digits := if signed then s[1..] else s;
    if digits == "" || !AllDigits(digits) then None
    else
      var n: int := Number(digits);
      var v := if signed && s[0] == '-' then -n else n;
      if -TWO63 <= v < TWO63 then Some(v) else None
  }

  function Itoa(n: nat): (s: string)
    ensures s != "" && AllDigits(s)
  {
    var last := [('0' as int + n % 10) as char];
    if n < 10 then last else Itoa(n / 10) + last
  }

  lemma {:induction false} NumberOfItoa(n: nat)
    ensures Number(Itoa(n)) == n
  {
    var s := Itoa(n);
    if n < 10 {
      assert s[..|s| - 1] == "";
    } else {
      NumberOfItoa(n / 10);
      assert s[..|s| - 1] == Itoa(n / 10);
    }
  }

  lemma AtoiOfItoa(n: nat)
    requires n < TWO63
    ensures Atoi(Itoa(n)) == Some(n)
  {
    NumberOfItoa(n);
    assert IsDigit(Itoa(n)[0]);
  }

  /** A sign may stand in front; the value must fit 64 bits. */
  lemma AtoiSigned(sign: char, n: nat, v: int)
    requires (sign == '+' && v == n) || (sign == '-' && v + n == 0)
    ensures -TWO63 <= v < TWO63 ==> Atoi([sign] + Itoa(n)) == Some(v)
    ensures !(-TWO63 <= v < TWO63) ==> Atoi([sign] + Itoa(n)) == None
  {
    var digits := Itoa(n);
    NumberOfItoa(n);
    assert ([sign] + digits)[1..] == digits && ([sign] + digits)[0] == sign;
  }

  lemma {:induction false} NumberOfZeros(zeros: string, digits: string)
    requires AllDigits(digits) && forall i | 0 <= i < |zeros| :: zeros[i] == '0'
    ensures AllDigits(zeros + digits) && Number(zeros + digits) == Number(digits)
    decreases |zeros| + |digits|
  {
    var t := zeros + digits;
    if digits != "" {
      var n := |digits| - 1;
      assert t[..|t| - 1] == zeros + digits[..n];
      NumberOfZeros(zeros, digits[..n]);
    } else if zeros != "" {
      assert t[..|t| - 1] == zeros[..|zeros| - 1] + "";
      NumberOfZeros(zeros[..|zeros| - 1], "");
    }
  }

  /** Leading zeros do not matter. */
  lemma AtoiOfZeros(zeros: string, n: nat)
    requires n < TWO63 && forall i | 0 <= i < |zeros| :: zeros[i] == '0'
    ensures Atoi(zeros + Itoa(n)) == Some(n)
  {
    NumberOfItoa(n);
    NumberOfZeros(zeros, Itoa(n));
    assert IsDigit((zeros + Itoa(n))[0]);
  }

  /** Nothing else is a number: not the empty text, not a sign by itself, not a text with any other character. */
  lemma AtoiRefuses(s: string, i: nat)
    requires s in {"", "+", "-"} || (i < |s| && !IsDigit(s[i]) && (i > 0 || (s[i] != '+' && s[i] != '-')))
    ensures Atoi(s) == None
  {
    if 0 < i < |s| { assert s[1..][i - 1] == s[i]; }
  }
}
