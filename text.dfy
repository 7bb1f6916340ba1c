/**
 * The Python string primitives the layout reader is built from: `str.isspace`,
 * `line.split("#", 1)[0]`, `str.strip()`, `str.split()`, `" ".join(...)` and the
 * way a text-mode file yields its lines.
 */
module Text {
  import opened Seqs

  /** `str.isspace()` for one character: what `split()` and `strip()` without arguments treat as white space. */
  predicate IsSpace(c: char)
  {
    || ('\t' <= c <= '\r')
    || ('\U{001C}' <= c <= ' ')
    || c == '\U{0085}' || c == '\U{00A0}' || c == '\U{1680}'
    || ('\U{2000}' <= c <= '\U{200A}')
    || c == '\U{2028}' || c == '\U{2029}' || c == '\U{202F}' || c == '\U{205F}' || c == '\U{3000}'
  }

  predicate AllSpace(s: string)
  {
    forall i | 0 <= i < |s| :: IsSpace(s[i])
  }

  predicate NoSpace(s: string)
  {
    forall i | 0 <= i < |s| :: !IsSpace(s[i])
  }

  /** A token as `str.split()` produces it: non-empty and free of white space. */
  predicate IsWord(t: string)
  {
    t != [] && NoSpace(t)
  }

  /** `s.split("#", 1)[0]`: everything before the first `#`; there is no escape. */
  function BeforeHash(s: string): (r: string)
    ensures |r| <= |s| && r == s[..|r|]
    ensures '#' !in r
    ensures |r| < |s| ==> s[|r|] == '#'
  {
    if s == [] || s[0] == '#' then [] else [s[0]] + BeforeHash(s[1..])
  }

  /** `s.lstrip()`: the suffix left once the leading white space is gone. */
  function TrimStart(s: string): (r: string)
    ensures |r| <= |s| && r == s[|s| - |r|..]
    ensures AllSpace(s[..|s| - |r|])
    ensures r != [] ==> !IsSpace(r[0])
  {
    if s != [] && IsSpace(s[0]) then
      var r := TrimStart(s[1..]);
      DropFirst(s, |r|);
      r
    else s
  }

  /** `s.rstrip()`: the prefix left once the trailing white space is gone. */
  function TrimEnd(s: string): (r: string)
    ensures |r| <= |s| && r == s[..|r|]
    ensures AllSpace(s[|r|..])
    ensures r != [] ==> !IsSpace(r[|r| - 1])
  {
    if s != [] && IsSpace(s[|s| - 1]) then
      var r := TrimEnd(s[..|s| - 1]);
      DropLast(s, |r|);
      r
    else s
  }

  /** `s.strip()`. */
  function Trim(s: string): string
  {
    TrimEnd(TrimStart(s))
  }

  /** The length of the longest prefix of `s` that holds no white space. */
  function WordLength(s: string): (n: nat)
    ensures n <= |s| && NoSpace(s[..n])
    ensures n < |s| ==> IsSpace(s[n])
  {
    if s == [] || IsSpace(s[0]) then 0 else 1 + WordLength(s[1..])
  }

  /** `s.split()`: the maximal runs of non-white-space characters, in order. */
  function Tokens(s: string): (ts: seq<string>)
    ensures forall t | t in ts :: IsWord(t)
    decreases |s|
  {
    var u := TrimStart(s);
    if u == [] then []
    else
      var n := WordLength(u);
      [u[..n]] + Tokens(u[n..])
  }

  /** `" ".join(ts)`. */
  function JoinSpace(ts: seq<string>): string
  {
    if |ts| == 0 then ""
    else if |ts| == 1 then ts[0]
    else ts[0] + " " + JoinSpace(ts[1..])
  }

  function Concat(ss: seq<string>): string
  {
    if ss == [] then "" else ss[0] + Concat(ss[1..])
  }

  /** The characters of `s` that are not white space, in order. */
  function NonSpace(s: string): (r: string)
    ensures NoSpace(r) && |r| <= |s|
  {
    if s == [] then ""
    else if IsSpace(s[0]) then NonSpace(s[1..])
    else [s[0]] + NonSpace(s[1..])
  }

  predicate IsLineBreak(c: char)
  {
    c == '\n' || c == '\r'
  }

  /** The index of the first line break in `s`, or `|s|` if there is none. */
  function LineEnd(s: string): (i: nat)
    ensures i <= |s|
    ensures forall k | 0 <= k < i :: !IsLineBreak(s[k])
    ensures i < |s| ==> IsLineBreak(s[i])
  {
    if s == [] || IsLineBreak(s[0]) then 0 else 1 + LineEnd(s[1..])
  }

  /** No line break before the last character. */
  predicate NoBreakBeforeEnd(l: string)
  {
    forall k | 0 <= k < |l| - 1 :: !IsLineBreak(l[k])
  }

  /**
   * The lines a file opened in text mode yields when iterated: each ends at
   * "\n", "\r" or "\r\n", which reads back as "\n"; a last line without a
   * break is yielded as it is.
   */
  function ReadLines(text: string): (lines: seq<string>)
    ensures forall i | 0 <= i < |lines| :: lines[i] != [] && NoBreakBeforeEnd(lines[i])
    ensures forall i | 0 <= i < |lines| - 1 :: lines[i][|lines[i]| - 1] == '\n'
    ensures forall i | 0 <= i < |lines| :: lines[i][|lines[i]| - 1] == '\n' || !IsLineBreak(lines[i][|lines[i]| - 1])
    decreases |text|
  {
    if text == [] then []
    else
      var i := LineEnd(text);
      if i == |text| then [text]
      else if text[i] == '\r' && i + 1 < |text| && text[i + 1] == '\n' then
        [text[..i] + "\n"] + ReadLines(text[i + 2..])
      else
        [text[..i] + "\n"] + ReadLines(text[i + 1..])
  }

  // ---------------------------------------------------------------------------
  // Lemmas
  // ---------------------------------------------------------------------------

  lemma TrimStartKeeps(s: string)
    requires s != [] && !IsSpace(s[0])
    ensures TrimStart(s) == s
  {
  }

  lemma TrimEndKeeps(s: string)
    requires s != [] && !IsSpace(s[|s| - 1])
    ensures TrimEnd(s) == s
  {
  }

  /** `strip()` keeps one contiguous piece of its input and drops only white space on either side of it. */
  lemma TrimSlice(s: string)
    ensures var r := Trim(s);
      exists i | 0 <= i <= |s| - |r| :: r == s[i..i + |r|] && AllSpace(s[..i]) && AllSpace(s[i + |r|..])
  {
    var u := TrimStart(s);
    var i := |s| - |u|;
    var r := TrimEnd(u);
    StripPieces(s, i, u, r);
  }

  lemma StripPieces(s: string, i: nat, u: string, r: string)
    requires i <= |s| && u == s[i..] && AllSpace(s[..i])
    requires |r| <= |u| && r == u[..|r|] && AllSpace(u[|r|..])
    ensures r == s[i..i + |r|] && AllSpace(s[i + |r|..])
  {
    SliceOfSuffix(s, i, |r|);
  }

  /** `strip()` leaves no white space at either end. */
  lemma TrimEnds(s: string)
    ensures var r := Trim(s);
      r != [] ==> !IsSpace(r[0]) && !IsSpace(r[|r| - 1])
  {
    var u := TrimStart(s);
    var r := TrimEnd(u);
    assert r != [] ==> r[0] == u[0];
  }

  /** A line is blank for `strip()` exactly when `split()` finds no token in it. */
  lemma {:induction false} BlankIffNoTokens(s: string)
    ensures Trim(s) == [] <==> AllSpace(s)
    ensures Tokens(s) == [] <==> AllSpace(s)
  {
    var u := TrimStart(s);
    assert u == [] <==> AllSpace(s) by {
      if u != [] {
        assert s[|s| - |u|] == u[0];
      } else {
        assert s[..|s|] == s;
      }
    }
    if u != [] {
      assert !AllSpace(u) by { assert !IsSpace(u[0]); }
      assert u[0..] == u;
    }
  }

  lemma WordLengthOfWord(w: string, rest: string)
    requires NoSpace(w)
    requires rest == [] || IsSpace(rest[0])
    ensures WordLength(w + rest) == |w|
  {
    if w != [] {
      assert (w + rest)[1..] == w[1..] + rest;
      WordLengthOfWord(w[1..], rest);
    } else {
      assert w + rest == rest;
    }
  }

  lemma TokensAfterSpace(c: char, s: string)
    requires IsSpace(c)
    ensures Tokens([c] + s) == Tokens(s)
  {
    assert ([c] + s)[1..] == s;
    assert TrimStart([c] + s) == TrimStart(s);
  }

  lemma JoinSpaceEnds(ts: seq<string>)
    requires ts != [] && forall t | t in ts :: IsWord(t)
    ensures JoinSpace(ts) != []
    ensures !IsSpace(JoinSpace(ts)[0]) && !IsSpace(JoinSpace(ts)[|JoinSpace(ts)| - 1])
    ensures JoinSpace(ts)[0] == ts[0][0]
  {
    assert ts[0] in ts;
    if |ts| > 1 {
      assert ts[1..][0] == ts[1];
      JoinSpaceEnds(ts[1..]);
      var j := JoinSpace(ts[1..]);
      assert JoinSpace(ts)[|JoinSpace(ts)| - 1] == j[|j| - 1];
    }
  }

  /** Every character of `" ".join(ts)` is a space or a character of one of the tokens. */
  lemma {:induction false} JoinSpaceChars(ts: seq<string>, c: char)
    requires c in JoinSpace(ts)
    ensures c == ' ' || exists t | t in ts :: c in t
  {
    if |ts| == 1 {
      assert ts[0] in ts;
    } else if |ts| > 1 {
      var j := JoinSpace(ts[1..]);
      assert JoinSpace(ts) == ts[0] + " " + j;
      if c in ts[0] {
        assert ts[0] in ts;
      } else if c != ' ' {
        assert c in j;
        JoinSpaceChars(ts[1..], c);
        var t :| t in ts[1..] && c in t;
        assert t in ts;
      }
    }
  }

  /** A word splits into itself alone. */
  lemma TokensOfWord(w: string)
    requires IsWord(w)
    ensures Tokens(w) == [w]
  {
    TrimStartKeeps(w);
    WordLengthOfWord(w, []);
    assert w + [] == w;
    assert w[..|w|] == w && w[|w|..] == [];
  }

  /** White space after a prefix that already holds some does not move where that prefix's word ends. */
  lemma {:induction false} WordLengthBeforeSpace(a: string, c: char, b: string)
    requires IsSpace(c)
    ensures WordLength(a + [c] + b) == WordLength(a)
  {
    if a == [] {
      assert (a + [c] + b)[0] == c;
    } else if !IsSpace(a[0]) {
      assert (a + [c] + b)[1..] == a[1..] + [c] + b;
      WordLengthBeforeSpace(a[1..], c, b);
    }
  }

  /** A line that starts with a word splits into that word and the split of what follows it. */
  lemma TokensOfWordStart(s: string)
    requires s != [] && !IsSpace(s[0])
    ensures Tokens(s) == [s[..WordLength(s)]] + Tokens(s[WordLength(s)..])
  {
    TrimStartKeeps(s);
  }

  /** `split()` cuts at white space: a white-space character splits a line into what comes before and after it. */
  lemma {:induction false} TokensSplitAtSpace(a: string, c: char, b: string)
    requires IsSpace(c)
    ensures Tokens(a + [c] + b) == Tokens(a) + Tokens(b)
    decreases |a|
  {
    if a == [] {
      assert a + [c] + b == [c] + b;
      assert Tokens(a) == [];
      TokensAfterSpace(c, b);
    } else if IsSpace(a[0]) {
      TokensSplitAfterSpace(a, c, b);
    } else {
      TokensSplitAfterWord(a, c, b);
    }
  }

  lemma {:induction false} TokensSplitAfterWord(a: string, c: char, b: string)
    requires IsSpace(c) && a != [] && !IsSpace(a[0])
    ensures Tokens(a + [c] + b) == Tokens(a) + Tokens(b)
    decreases |a|, 0
  {
    var rest := [c] + b;
    var s := a + rest;
    assert a + [c] + b == s;
    var n := WordLength(a);
    TokensOfWordStart(s);
    TokensOfWordStart(a);
    WordLengthBeforeSpace(a, c, b);
    SliceOfAppend(a, rest, n);
    assert a[n..] + rest == a[n..] + [c] + b;
    TokensSplitAtSpace(a[n..], c, b);
    var w, t1, t2 := a[..n], Tokens(a[n..]), Tokens(b);
    assert Tokens(s) == [w] + (t1 + t2);
    assert Tokens(a) == [w] + t1;
    AppendAssoc([w], t1, t2);
  }

  lemma {:induction false} TokensSplitAfterSpace(a: string, c: char, b: string)
    requires IsSpace(c) && a != [] && IsSpace(a[0])
    ensures Tokens(a + [c] + b) == Tokens(a) + Tokens(b)
    decreases |a|, 0
  {
    assert a + [c] + b == [a[0]] + (a[1..] + [c] + b);
    assert a == [a[0]] + a[1..];
    TokensAfterSpace(a[0], a[1..] + [c] + b);
    TokensAfterSpace(a[0], a[1..]);
    TokensSplitAtSpace(a[1..], c, b);
  }

  /** Round trip: `" ".join(ts).split() == ts` whenever every token is a word. */
  lemma {:induction false} TokensOfJoin(ts: seq<string>)
    requires forall t | t in ts :: IsWord(t)
    ensures Tokens(JoinSpace(ts)) == ts
  {
    if |ts| == 0 {
    } else if |ts| == 1 {
      assert ts[0] in ts;
      TokensOfWord(ts[0]);
    } else {
      var w := ts[0];
      assert w in ts;
      var j := JoinSpace(ts[1..]);
      assert JoinSpace(ts) == w + [' '] + j;
      TokensSplitAtSpace(w, ' ', j);
      TokensOfWord(w);
      TokensOfJoin(ts[1..]);
    }
  }

  lemma NonSpaceAppend(a: string, b: string)
    ensures NonSpace(a + b) == NonSpace(a) + NonSpace(b)
  {
    if a == [] {
      assert a + b == b;
    } else {
      assert (a + b)[1..] == a[1..] + b;
      NonSpaceAppend(a[1..], b);
    }
  }

  lemma NonSpaceOfSpace(s: string)
    requires AllSpace(s)
    ensures NonSpace(s) == []
  {
    if s != [] {
      NonSpaceOfSpace(s[1..]);
    }
  }

  lemma NonSpaceOfWord(s: string)
    requires NoSpace(s)
    ensures NonSpace(s) == s
  {
    if s != [] {
      NonSpaceOfWord(s[1..]);
    }
  }

  /** `strip()` removes only white space. */
  lemma NonSpaceOfTrim(s: string)
    ensures NonSpace(Trim(s)) == NonSpace(s)
  {
    NonSpaceOfTrimStart(s);
    NonSpaceOfTrimEnd(TrimStart(s));
  }

  lemma NonSpaceOfTrimStart(s: string)
    ensures NonSpace(TrimStart(s)) == NonSpace(s)
  {
    var u := TrimStart(s);
    var w := s[..|s| - |u|];
    assert s == w + u;
    NonSpaceAppend(w, u);
    NonSpaceOfSpace(w);
  }

  lemma NonSpaceOfTrimEnd(u: string)
    ensures NonSpace(TrimEnd(u)) == NonSpace(u)
  {
    var v := TrimEnd(u);
    var w := u[|v|..];
    assert u == v + w;
    NonSpaceAppend(v, w);
    NonSpaceOfSpace(w);
    assert NonSpace(v) + "" == NonSpace(v);
  }

  /** `split()` drops exactly the white space: the tokens, glued together, are the non-space characters in order. */
  lemma {:induction false} TokensCoverNonSpace(s: string)
    ensures Concat(Tokens(s)) == NonSpace(s)
    decreases |s|
  {
    var u := TrimStart(s);
    NonSpaceOfTrimStart(s);
    if u != [] {
      var n := WordLength(u);
      var ts := Tokens(u[n..]);
      TokensCoverNonSpace(u[n..]);
      assert Tokens(s) == [u[..n]] + ts;
      assert ([u[..n]] + ts)[1..] == ts;
      NonSpaceOfSplit(u, n);
    }
  }

  /** A word followed by the rest: the word keeps all its characters. */
  lemma NonSpaceOfSplit(u: string, n: nat)
    requires n <= |u| && NoSpace(u[..n])
    ensures NonSpace(u) == u[..n] + NonSpace(u[n..])
  {
    assert u == u[..n] + u[n..];
    NonSpaceAppend(u[..n], u[n..]);
    NonSpaceOfWord(u[..n]);
  }

  /** A complete line, with no line break before its final "\n", reads back as itself followed by what comes after it. */
  lemma ReadLinesCons(l: string, rest: string)
    requires |l| > 0 && l[|l| - 1] == '\n' && NoBreakBeforeEnd(l)
    ensures ReadLines(l + rest) == [l] + ReadLines(rest)
  {
    var text := l + rest;
    var i := LineEnd(text);
    assert forall k | 0 <= k < |l| - 1 :: text[k] == l[k];
    assert text[|l| - 1] == '\n';
    assert i == |l| - 1;
    assert text[..i] + "\n" == l;
    assert text[i + 1..] == rest;
  }

  /** Reading back text made of complete lines, none holding a line break before its final "\n", gives those lines. */
  lemma {:induction false} ReadLinesOfConcat(lines: seq<string>)
    requires forall l | l in lines :: |l| > 0 && l[|l| - 1] == '\n' && NoBreakBeforeEnd(l)
    ensures ReadLines(Concat(lines)) == lines
  {
    if lines != [] {
      assert lines[0] in lines;
      assert forall l | l in lines[1..] :: l in lines;
      ReadLinesCons(lines[0], Concat(lines[1..]));
      ReadLinesOfConcat(lines[1..]);
    }
  }

}
