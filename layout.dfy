/**
 * The layout file reader, `ProcessLayout`: every line loses its comment and
 * surrounding white space, blank lines are skipped, and the rest is split
 * into elements whose first one, the entry type, fixes how many elements
 * the line must have.
 */
module Layout {
  import opened Options
  import opened Text
  import opened Numbers
  import opened Seqs

  /** The number of elements each entry type allows, the type itself included. */
  const VALID_LENS: map<string, seq<nat>> := map[
    "file" := [6, 7],
    "dir" := [5],
    "nod" := [8],
    "slink" := [6],
    "pipe" := [5],
    "sock" := [5]
  ]

  /** What `ProcessLayout` yields: a known type, an allowed count, and elements that are words without `#`. */
  predicate ValidRecord(elements: seq<string>)
  {
    && |elements| > 0
    && elements[0] in VALID_LENS
    && |elements| in VALID_LENS[elements[0]]
    && forall t | t in elements :: IsWord(t) && '#' !in t
  }

  /** Every yielded record has five to eight elements: exactly five for `dir`, exactly six for `slink`. */
  lemma RecordShape(r: seq<string>)
    requires ValidRecord(r)
    ensures 5 <= |r| <= 8
    ensures r[0] == "dir" ==> |r| == 5
    ensures r[0] == "slink" ==> |r| == 6
  {
  }

  /** The two ValueErrors `ProcessLayout` raises; `line` is the line after comment removal and `strip()`. */
  datatype LayoutError =
    | UnknownType(etype: string, line: string)
    | WrongArity(wanted: seq<nat>, got: nat, line: string)
  {
    /** The text of the ValueError: it ends with the offending line. */
    function Message(): (m: string)
      ensures |m| > |line| && m[|m| - |line|..] == line
    {
      match this
      case UnknownType(etype, line) =>
        "Invalid line: unknown type \"" + etype + "\":\n" + line
      case WrongArity(wanted, got, line) =>
        "Invalid line: wanted " + (if wanted == [] then "()" else TupleRepr(wanted))
        + " elements; got " + Decimal(got) + ":\n" + line
    }
  }

  datatype LineParse = Blank | Malformed(error: LayoutError) | Entry(elements: seq<string>)

  /** `line.split("#", 1)[0].strip()`. */
  function Content(line: string): string
  {
    Trim(BeforeHash(line))
  }

  /** One pass of the loop in `ProcessLayout`: skip the line, raise, or yield its elements. */
  function ParseLine(line: string): (p: LineParse)
    ensures p.Blank? <==> AllSpace(BeforeHash(line))
    ensures p.Entry? ==> ValidRecord(p.elements)
  {
    var text := Content(line);
    BlankIffNoTokens(BeforeHash(line));
    if text == [] then Blank
    else
      BlankIffNoTokens(text);
      assert !AllSpace(text) by { assert !IsSpace(text[0]); }
      var elements := Tokens(text);
      var etype := elements[0];
      if etype !in VALID_LENS then Malformed(UnknownType(etype, text))
      else if |elements| !in VALID_LENS[etype] then Malformed(WrongArity(VALID_LENS[etype], |elements|, text))
      else
        ContentHasNoHash(line);
        TokensKeepChars(text);
        Entry(elements)
  }

  /** What the generator yields before it stops, and the error it stops with, if any. */
  datatype Parsed = Parsed(records: seq<seq<string>>, error: Option<LayoutError>)

  /**
   * The generator over lines already classified: blank lines are skipped,
   * the first malformed line stops it with its error, and every other line
   * is yielded in turn.
   */
  function Collect(ps: seq<LineParse>): (p: Parsed)
    ensures |p.records| <= |ps|
    ensures forall r | r in p.records :: Entry(r) in ps
  {
    if ps == [] then Parsed([], None)
    else
      var rest := Collect(ps[1..]);
      assert forall q | q in ps[1..] :: q in ps;
      match ps[0]
      case Blank => rest
      case Malformed(e) => Parsed([], Some(e))
      case Entry(r) => Parsed([r] + rest.records, rest.error)
  }

  /** Every line of the file, classified on its own. */
  function ParseLines(lines: seq<string>): (ps: seq<LineParse>)
    ensures |ps| == |lines|
  {
    seq(|lines|, i requires 0 <= i < |lines| => ParseLine(lines[i]))
  }

  /** `ProcessLayout` over the lines of a layout file, in file order. */
  function ProcessLayout(lines: seq<string>): (p: Parsed)
    ensures forall r | r in p.records :: ValidRecord(r)
    ensures |p.records| <= |lines|
  {
    var ps := ParseLines(lines);
    assert forall r | Entry(r) in ps :: ValidRecord(r) by {
      forall r | Entry(r) in ps
        ensures ValidRecord(r)
      {
        var i :| 0 <= i < |ps| && ps[i] == Entry(r);
        assert ParseLine(lines[i]) == Entry(r);
      }
    }
    Collect(ps)
  }

  /** The line a record is written back as: its elements joined by single spaces, then a newline. */
  function Serialise(r: seq<string>): (l: string)
    ensures |l| > 0 && l[|l| - 1] == '\n'
  {
    JoinSpace(r) + "\n"
  }

  function SerialiseAll(rs: seq<seq<string>>): (lines: seq<string>)
    ensures |lines| == |rs|
    ensures forall i | 0 <= i < |rs| :: lines[i] == Serialise(rs[i])
  {
    if rs == [] then [] else [Serialise(rs[0])] + SerialiseAll(rs[1..])
  }

  // ---------------------------------------------------------------------------
  // Lemmas
  // ---------------------------------------------------------------------------

  lemma ContentHasNoHash(line: string)
    ensures '#' !in Content(line)
  {
    var b := BeforeHash(line);
    var u := TrimStart(b);
    assert forall c | c in u :: c in b;
    var v := TrimEnd(u);
    assert forall c | c in v :: c in u;
  }

  /** Every character of a token comes from the text it was split from. */
  lemma {:induction false} TokensKeepChars(s: string)
    ensures forall t, c | t in Tokens(s) && c in t :: c in s
    decreases |s|
  {
    var u := TrimStart(s);
    if u != [] {
      var n := WordLength(u);
      TokensKeepChars(u[n..]);
      assert forall c | c in u[..n] :: c in s;
      assert forall c | c in u[n..] :: c in s;
    }
  }

  /** A yielded record's elements, glued together, are exactly the non-white-space text before the first `#`. */
  lemma EntryIsCommentFreeText(line: string)
    requires ParseLine(line).Entry?
    ensures Concat(ParseLine(line).elements) == NonSpace(BeforeHash(line))
  {
    EntryElements(line);
    TokensCoverNonSpace(Content(line));
    NonSpaceOfTrim(BeforeHash(line));
  }

  lemma EntryElements(line: string)
    requires ParseLine(line).Entry?
    ensures ParseLine(line).elements == Tokens(Content(line))
  {
    var text := Content(line);
    assert text != [];
  }

  /** A line whose first element is not a known type raises the unknown-type ValueError, whatever follows. */
  lemma UnknownTypeRejected(line: string)
    requires Tokens(Content(line)) != [] && Tokens(Content(line))[0] !in VALID_LENS
    ensures ParseLine(line) == Malformed(UnknownType(Tokens(Content(line))[0], Content(line)))
  {
    BlankIffNoTokens(Content(line));
  }

  /** A known type with a disallowed count raises the arity ValueError carrying the allowed counts, the count and the line. */
  lemma WrongArityRejected(line: string)
    requires var ts := Tokens(Content(line));
      ts != [] && ts[0] in VALID_LENS && |ts| !in VALID_LENS[ts[0]]
    ensures var ts := Tokens(Content(line));
      ParseLine(line) == Malformed(WrongArity(VALID_LENS[ts[0]], |ts|, Content(line)))
  {
    BlankIffNoTokens(Content(line));
  }

  lemma CollectOne(p: LineParse)
    ensures Collect([p]) == match p
      case Blank => Parsed([], None)
      case Malformed(e) => Parsed([], Some(e))
      case Entry(r) => Parsed([r], None)
  {
    assert [p][1..] == [];
    if p.Entry? {
      assert [p.elements] + [] == [p.elements];
    }
  }

  lemma ParseLinesOne(line: string)
    ensures ParseLines([line]) == [ParseLine(line)]
  {
  }

  /** Blank lines yield nothing; a malformed line stops the generator; an entry is yielded in its place. */
  lemma ProcessLayoutOfLine(line: string)
    ensures ProcessLayout([line]) == match ParseLine(line)
      case Blank => Parsed([], None)
      case Malformed(e) => Parsed([], Some(e))
      case Entry(r) => Parsed([r], None)
  {
    ParseLinesOne(line);
    CollectOne(ParseLine(line));
  }

  lemma {:induction false} CollectAppend(a: seq<LineParse>, b: seq<LineParse>)
    ensures Collect(a + b) ==
      if Collect(a).error.Some? then Collect(a)
      else Parsed(Collect(a).records + Collect(b).records, Collect(b).error)
  {
    if a == [] {
      assert a + b == b;
    } else {
      assert (a + b)[0] == a[0];
      assert (a + b)[1..] == a[1..] + b;
      CollectAppend(a[1..], b);
      if a[0].Entry? {
        var ra, rb := Collect(a[1..]).records, Collect(b).records;
        assert [a[0].elements] + (ra + rb) == ([a[0].elements] + ra) + rb;
      }
    }
  }

  lemma ParseLinesAppend(a: seq<string>, b: seq<string>)
    ensures ParseLines(a + b) == ParseLines(a) + ParseLines(b)
  {
    var l, r := ParseLines(a + b), ParseLines(a) + ParseLines(b);
    forall i | 0 <= i < |l|
      ensures l[i] == r[i]
    {
      if i < |a| {
        assert (a + b)[i] == a[i];
      } else {
        assert (a + b)[i] == b[i - |a|];
      }
    }
  }

  /** File order: the records of `a + b` are those of `a` then those of `b`, unless `a` already raised. */
  lemma ProcessLayoutAppend(a: seq<string>, b: seq<string>)
    ensures ProcessLayout(a + b) ==
      if ProcessLayout(a).error.Some? then ProcessLayout(a)
      else Parsed(ProcessLayout(a).records + ProcessLayout(b).records, ProcessLayout(b).error)
  {
    ParseLinesAppend(a, b);
    CollectAppend(ParseLines(a), ParseLines(b));
  }

  /** Reading one more line: it is skipped, it raises, or its elements are yielded after the earlier ones. */
  lemma ProcessLayoutStep(layout: seq<string>, i: nat)
    requires i < |layout| && ProcessLayout(layout[..i]).error == None
    ensures var p := ParseLine(layout[i]);
      var before := ProcessLayout(layout[..i]);
      ProcessLayout(layout[..i + 1]) ==
        if p.Blank? then before
        else if p.Malformed? then Parsed(before.records, Some(p.error))
        else Parsed(before.records + [p.elements], None)
  {
    var done, line := layout[..i], layout[i];
    PrefixStep(layout, i);
    ParseLinesStep(done, line);
    CollectStep(ParseLines(done), ParseLine(line));
  }

  lemma ParseLinesStep(done: seq<string>, line: string)
    ensures ParseLines(done + [line]) == ParseLines(done) + [ParseLine(line)]
  {
    ParseLinesAppend(done, [line]);
    ParseLinesOne(line);
  }

  lemma CollectStep(ps: seq<LineParse>, p: LineParse)
    requires Collect(ps).error == None
    ensures var before := Collect(ps);
      Collect(ps + [p]) ==
        if p.Blank? then before
        else if p.Malformed? then Parsed(before.records, Some(p.error))
        else Parsed(before.records + [p.elements], None)
  {
    CollectAppend(ps, [p]);
    CollectOne(p);
    var before := Collect(ps).records;
    assert before + [] == before;
  }

  /** Once the lines read so far have raised, the rest of the file is never read. */
  lemma ProcessLayoutStop(layout: seq<string>, n: nat)
    requires n <= |layout| && ProcessLayout(layout[..n]).error.Some?
    ensures ProcessLayout(layout) == ProcessLayout(layout[..n])
  {
    var done, rest := layout[..n], layout[n..];
    ProcessLayoutAppend(done, rest);
    assert done + rest == layout;
  }

  lemma ProcessLayoutWhole(layout: seq<string>)
    ensures ProcessLayout(layout[..|layout|]) == ProcessLayout(layout)
  {
    assert layout[..|layout|] == layout;
  }

  /** Round trip: a record written as its line parses back to the same elements. */
  lemma SerialiseRoundTrip(r: seq<string>)
    requires ValidRecord(r)
    ensures ParseLine(Serialise(r)) == Entry(r)
  {
    var j := JoinSpace(r);
    var s := j + "\n";
    JoinSpaceEnds(r);
    assert '#' !in j by {
      if '#' in j {
        JoinSpaceChars(r, '#');
      }
    }
    assert '#' !in s;
    assert BeforeHash(s) == s;
    TrimStartKeeps(s);
    assert s[..|s| - 1] == j;
    assert TrimEnd(s) == TrimEnd(j);
    TrimEndKeeps(j);
    assert Content(s) == j;
    TokensOfJoin(r);
  }

  /** Written lines hold no line break before their final newline. */
  lemma SerialisedLineShape(r: seq<string>)
    requires ValidRecord(r)
    ensures var l := Serialise(r);
      |l| > 0 && l[|l| - 1] == '\n' && NoBreakBeforeEnd(l)
  {
    var j := JoinSpace(r);
    forall k | 0 <= k < |j|
      ensures !IsLineBreak(j[k])
    {
      var c := j[k];
      JoinSpaceChars(r, c);
      if c != ' ' {
        var t :| t in r && c in t;
        var i :| 0 <= i < |t| && t[i] == c;
        assert IsWord(t);
      }
    }
    assert (j + "\n")[..|j|] == j;
  }

  /** Parsing lines that were written as records gives back those records, and no error. */
  lemma {:induction false} ProcessSerialised(rs: seq<seq<string>>)
    requires forall r | r in rs :: ValidRecord(r)
    ensures ProcessLayout(SerialiseAll(rs)) == Parsed(rs, None)
  {
    var ps := ParseLines(SerialiseAll(rs));
    forall i | 0 <= i < |rs|
      ensures ps[i] == Entry(rs[i])
    {
      assert rs[i] in rs;
      SerialiseRoundTrip(rs[i]);
    }
    CollectEntries(ps, rs);
  }

  lemma {:induction false} CollectEntries(ps: seq<LineParse>, rs: seq<seq<string>>)
    requires |ps| == |rs| && forall i | 0 <= i < |rs| :: ps[i] == Entry(rs[i])
    ensures Collect(ps) == Parsed(rs, None)
  {
    if rs != [] {
      CollectEntries(ps[1..], rs[1..]);
      assert rs == [rs[0]] + rs[1..];
    }
  }
}
