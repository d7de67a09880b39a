/**
 The handful of Python `str` and `list` built-ins the predictor relies on:
 `str.isspace` (as used by `strip()` and `split()` with no argument),
 `strip()`, `lower()` restricted to ASCII letters, `split()` and
 `list.count`.
 */
module Text {

  /** Python's whitespace test for one code point (the characters for which
      `str.isspace()` holds: bidirectional class WS, B or S, or category Zs). */
  predicate IsSpace(c: char) {
    var n := c as int;
    (0x09 <= n <= 0x0D) || (0x1C <= n <= 0x20) || n == 0x85 || n == 0xA0
    || n == 0x1680 || (0x2000 <= n <= 0x200A) || n == 0x2028 || n == 0x2029
    || n == 0x202F || n == 0x205F || n == 0x3000
  }

  /** Every character is whitespace (so `not s.strip()` holds in Python). */
  predicate IsBlank(s: string) {
    forall i :: 0 <= i < |s| ==> IsSpace(s[i])
  }

  /** No character is whitespace. */
  predicate HasNoSpace(s: string) {
    forall i :: 0 <= i < |s| ==> !IsSpace(s[i])
  }

  /** Neither end is whitespace: what `strip()` produces. */
  predicate IsStripped(s: string) {
    s == [] || (!IsSpace(s[0]) && !IsSpace(s[|s| - 1]))
  }

  predicate IsAsciiUpper(c: char) {
    'A' <= c <= 'Z'
  }

  /** Number of whitespace characters at the start of `s`. */
  function LeadingSpace(s: string): (n: nat)
    ensures n <= |s|
    ensures IsBlank(s[..n])
    ensures n == |s| || !IsSpace(s[n])
  {
    if s != [] && IsSpace(s[0]) then 1 + LeadingSpace(s[1..]) else 0
  }

  /** Number of whitespace characters at the end of `s`. */
  function TrailingSpace(s: string): (n: nat)
    ensures n <= |s|
    ensures IsBlank(s[|s| - n..])
    ensures n == |s| || !IsSpace(s[|s| - n - 1])
  {
    if s != [] && IsSpace(s[|s| - 1]) then 1 + TrailingSpace(s[..|s| - 1]) else 0
  }

  /** Python's `strip()`: drops the whitespace at both ends. */
  function Trim(s: string): (r: string)
    ensures IsStripped(r)
    ensures |r| <= |s|
    ensures r == [] <==> IsBlank(s)
    ensures IsStripped(s) ==> r == s
  {
    var t := s[LeadingSpace(s)..];
    var r := t[..|t| - TrailingSpace(t)];
    assert r == [] ==> IsBlank(s) by {
      if r == [] {
        assert s == s[..LeadingSpace(s)] + t;
      }
    }
    assert r != [] ==> !IsBlank(s) by {
      if r != [] {
        assert s[LeadingSpace(s)] == r[0];
      }
    }
    r
  }

  /** `strip()` keeps one contiguous piece of its input and drops only
      whitespace on either side of it. */
  lemma TrimDropsOnlyMargins(s: string)
    ensures LeadingSpace(s) + |Trim(s)| <= |s|
    ensures s[LeadingSpace(s)..LeadingSpace(s) + |Trim(s)|] == Trim(s)
    ensures IsBlank(s[..LeadingSpace(s)])
    ensures IsBlank(s[LeadingSpace(s) + |Trim(s)|..])
  {
    var n := LeadingSpace(s);
    var t := s[n..];
    var m := |t| - TrailingSpace(t);
    assert Trim(s) == t[..m];
    assert s[n + m..] == t[m..];
  }

  /** `lower()` on one character; letters outside ASCII are left as they are. */
  function LowerChar(c: char): (r: char)
    ensures !IsAsciiUpper(r)
    ensures IsSpace(r) == IsSpace(c)
    ensures IsAsciiUpper(c) || r == c
  {
    if IsAsciiUpper(c) then (c as int + 32) as char else c
  }

  /** Python's `lower()`, restricted to ASCII case mapping. */
  function Lower(s: string): (r: string)
    ensures |r| == |s|
    ensures forall i :: 0 <= i < |s| ==> r[i] == LowerChar(s[i])
    ensures forall i :: 0 <= i < |r| ==> !IsAsciiUpper(r[i])
  {
    if s == [] then [] else [LowerChar(s[0])] + Lower(s[1..])
  }

  /** Lowercasing keeps whitespace where it was, so a stripped string stays stripped. */
  lemma LowerKeepsShape(s: string)
    ensures IsStripped(Lower(s)) == IsStripped(s)
    ensures IsBlank(Lower(s)) == IsBlank(s)
    ensures HasNoSpace(Lower(s)) == HasNoSpace(s)
  {
    var r := Lower(s);
    assert forall i :: 0 <= i < |s| ==> IsSpace(r[i]) == IsSpace(s[i]);
  }

  /** A string without ASCII capitals is its own lowercase form. */
  lemma LowerOfLowercase(s: string)
    requires forall i :: 0 <= i < |s| ==> !IsAsciiUpper(s[i])
    ensures Lower(s) == s
  {
  }

  /** Lowercasing twice changes nothing more. */
  lemma LowerIdempotent(s: string)
    ensures Lower(Lower(s)) == Lower(s)
  {
    var r := Lower(s);
    assert forall i :: 0 <= i < |r| ==> LowerChar(r[i]) == r[i];
  }

  /** Length of the leading run of non-whitespace characters. */
  function WordEnd(s: string): (k: nat)
    ensures k <= |s|
    ensures HasNoSpace(s[..k])
    ensures k == |s| || IsSpace(s[k])
  {
    if s == [] || IsSpace(s[0]) then 0 else 1 + WordEnd(s[1..])
  }

  /** Python's `split()` with no argument: the maximal runs of non-whitespace,
      in order, with no empty strings. */
  function Words(s: string): (ws: seq<string>)
    ensures forall i :: 0 <= i < |ws| ==> ws[i] != [] && HasNoSpace(ws[i])
    ensures ws == [] <==> IsBlank(s)
    decreases |s|
  {
    var n := LeadingSpace(s);
    if n == |s| then
      assert s[..n] == s;
      []
    else
      var t := s[n..];
      var k := WordEnd(t);
      [t[..k]] + Words(t[k..])
  }

  /** The characters of `s` that are not whitespace, in order. */
  function NonSpace(s: string): (r: string)
    ensures HasNoSpace(r)
    ensures |r| <= |s|
  {
    if s == [] then []
    else if IsSpace(s[0]) then NonSpace(s[1..])
    else [s[0]] + NonSpace(s[1..])
  }

  /** All words run together. */
  function Concat(ws: seq<string>): string {
    if ws == [] then [] else ws[0] + Concat(ws[1..])
  }

  lemma {:induction false} NonSpaceAppend(a: string, b: string)
    ensures NonSpace(a + b) == NonSpace(a) + NonSpace(b)
    decreases |a|
  {
    if a == [] {
      assert a + b == b;
    } else {
      assert (a + b)[1..] == a[1..] + b;
      NonSpaceAppend(a[1..], b);
    }
  }

  lemma {:induction false} NonSpaceOfBlank(s: string)
    requires IsBlank(s)
    ensures NonSpace(s) == []
    decreases |s|
  {
    if s != [] {
      NonSpaceOfBlank(s[1..]);
    }
  }

  lemma {:induction false} NonSpaceOfWord(s: string)
    requires HasNoSpace(s)
    ensures NonSpace(s) == s
    decreases |s|
  {
    if s != [] {
      NonSpaceOfWord(s[1..]);
    }
  }

  /** `split()` loses exactly the whitespace: joining the words back without
      separators gives the non-whitespace characters of the input. */
  lemma {:induction false} WordsKeepNonSpace(s: string)
    ensures Concat(Words(s)) == NonSpace(s)
    decreases |s|
  {
    var n := LeadingSpace(s);
    var t := s[n..];
    assert s == s[..n] + t;
    NonSpaceAppend(s[..n], t);
    NonSpaceOfBlank(s[..n]);
    if n < |s| {
      var k := WordEnd(t);
      assert t == t[..k] + t[k..];
      NonSpaceAppend(t[..k], t[k..]);
      NonSpaceOfWord(t[..k]);
      WordsKeepNonSpace(t[k..]);
    }
  }

  /** On a stripped, non-blank string the first word is the string's leading
      run of non-whitespace: a prefix of it, followed by whitespace or the end. */
  lemma FirstWordIsPrefix(s: string)
    requires IsStripped(s) && !IsBlank(s)
    ensures Words(s) != []
    ensures |Words(s)[0]| <= |s| && s[..|Words(s)[0]|] == Words(s)[0]
    ensures |Words(s)[0]| == |s| || IsSpace(s[|Words(s)[0]|])
  {
    assert LeadingSpace(s) == 0;
    assert s[0..] == s;
  }

  /** A stripped string that `split()` turns into one word is that word. */
  lemma SingleWordIsWhole(s: string)
    requires IsStripped(s) && |Words(s)| == 1
    ensures Words(s)[0] == s
  {
    assert LeadingSpace(s) == 0;
    assert s[0..] == s;
    var k := WordEnd(s);
    var rest := s[k..];
    assert Words(rest) == [];
    assert IsBlank(rest);
    assert k == |s|;
    assert s[..k] == s;
  }

  /** A non-empty string with no whitespace splits into itself. */
  lemma WordWithoutSpace(s: string)
    requires s != [] && HasNoSpace(s)
    ensures Words(s) == [s]
  {
    assert LeadingSpace(s) == 0;
    assert s[0..] == s;
    var k := WordEnd(s);
    assert k == |s|;
    assert s[..k] == s;
    assert s[k..] == [];
  }

  /** LeadingSpace is the one split point with blank before and no
      whitespace right after. */
  lemma {:induction false} LeadingSpaceIs(s: string, m: nat)
    requires m <= |s| && IsBlank(s[..m])
    requires m == |s| || !IsSpace(s[m])
    ensures LeadingSpace(s) == m
  {
    if m > 0 {
      assert IsSpace(s[..m][0]);
      assert s[1..][..m - 1] == s[..m][1..];
      LeadingSpaceIs(s[1..], m - 1);
    }
  }

  /** WordEnd is the one split point with no whitespace before and
      whitespace (or the end) right after. */
  lemma {:induction false} WordEndIs(s: string, m: nat)
    requires m <= |s| && HasNoSpace(s[..m])
    requires m == |s| || IsSpace(s[m])
    ensures WordEnd(s) == m
  {
    if m > 0 {
      assert !IsSpace(s[..m][0]);
      assert s[1..][..m - 1] == s[..m][1..];
      WordEndIs(s[1..], m - 1);
    }
  }

  /** Whitespace in front of a word does not change the split. */
  lemma WordsAfterBlank(p: string, t: string)
    requires IsBlank(p)
    requires t == [] || !IsSpace(t[0])
    ensures Words(p + t) == Words(t)
  {
    var s := p + t;
    var n := LeadingSpace(s);
    assert s[..|p|] == p;
    LeadingSpaceIs(s, |p|);
    assert s[n..] == t;
    assert LeadingSpace(t) == 0;
    assert t[0..] == t;
  }

  /** A word followed by whitespace (or nothing) is split off first. */
  lemma WordsOfWordThen(w: string, rest: string)
    requires w != [] && HasNoSpace(w)
    requires rest == [] || IsSpace(rest[0])
    ensures Words(w + rest) == [w] + Words(rest)
  {
    var s := w + rest;
    assert LeadingSpace(s) == 0;
    assert s[0..] == s;
    var k := WordEnd(s);
    assert s[..|w|] == w;
    WordEndIs(s, |w|);
    assert s[..k] == w;
    assert s[k..] == rest;
  }

  /** A word, one space and more text: the word comes off first. */
  lemma WordThenSpace(w: string, t: string)
    requires w != [] && HasNoSpace(w)
    requires t != [] && !IsSpace(t[0])
    ensures Words(w + " " + t) == [w] + Words(t)
  {
    var space := " ";
    assert w + space + t == w + (space + t);
    WordsOfWordThen(w, space + t);
    WordsAfterBlank(space, t);
  }

  /** Two words joined by one space split back into those two words. */
  lemma TwoWords(a: string, b: string)
    requires a != [] && HasNoSpace(a)
    requires b != [] && HasNoSpace(b)
    ensures !HasNoSpace(a + " " + b)
    ensures Words(a + " " + b) == [a, b]
  {
    assert Words(a + " " + b) == [a, b] by {
      WordWithoutSpace(b);
      WordThenSpace(a, b);
    }
    assert IsSpace((a + " " + b)[|a|]);
  }

  /** Python's `list.count(w)`: how many elements equal `w`. */
  function Count(ws: seq<string>, w: string): (n: nat)
    ensures n == multiset(ws)[w]
    ensures n <= |ws|
    ensures n == 0 <==> w !in ws
  {
    if ws == [] then 0
    else
      assert ws == [ws[0]] + ws[1..];
      (if ws[0] == w then 1 else 0) + Count(ws[1..], w)
  }
}
