/**
 * The filter mode: every record whose type is neither `dir` nor `slink`
 * (the entries make mode creates) is appended to the output file, one line
 * per record, in layout order.
 */
module Filter {
  import opened Options
  import opened Text
  import opened Layout
  import opened Seqs

  /** The records filter mode writes: any but `dir` and `slink`. */
  predicate Kept(r: seq<string>)
  {
    |r| > 0 && r[0] != "dir" && r[0] != "slink"
  }

  /** The kept records, in their original order. */
  function KeptRecords(rs: seq<seq<string>>): (ks: seq<seq<string>>)
    ensures forall k | k in ks :: Kept(k) && k in rs
    ensures |ks| <= |rs|
  {
    if rs == [] then []
    else
      var rest := KeptRecords(rs[1..]);
      assert forall k | k in rest :: k in rs;
      if Kept(rs[0]) then [rs[0]] + rest else rest
  }

  /** The text filter mode appends for these records. */
  function Emitted(rs: seq<seq<string>>): string
  {
    Concat(SerialiseAll(KeptRecords(rs)))
  }

  /** The output file, opened for appending. */
  class OutputFile {
    var content: string

    constructor (existing: string)
      ensures content == existing
    {
      content := existing;
    }

    /** `f.write(s)` on a file opened with mode "a". */
    method Write(s: string)
      modifies this
      ensures content == old(content) + s
    {
      content := content + s;
    }
  }

  /** What filter mode writes for one line of the layout file. */
  function LineOutput(p: LineParse): string
  {
    if p.Entry? && Kept(p.elements) then JoinSpace(p.elements) + "\n" else ""
  }

  /**
   * The `filter` branch of `main`: records are written as the generator
   * yields them, so what precedes a malformed line stays written.
   */
  method Filter(layout: seq<string>, output: OutputFile) returns (error: Option<LayoutError>)
    modifies output
    ensures output.content == old(output.content) + Emitted(ProcessLayout(layout).records)
    ensures error == ProcessLayout(layout).error
  {
    var i := 0;
    while i < |layout|
      invariant 0 <= i <= |layout|
      invariant ProcessLayout(layout[..i]).error == None
      invariant output.content == old(output.content) + Emitted(ProcessLayout(layout[..i]).records)
    {
      StepError(layout, i);
      StepOutput(layout, i);
      AppendAssoc(old(output.content), Emitted(ProcessLayout(layout[..i]).records), LineOutput(ParseLine(layout[i])));
      var stop := FilterLine(layout[i], output);
      if stop.Some? {
        ProcessLayoutStop(layout, i + 1);
        return stop;
      }
      i := i + 1;
    }
    ProcessLayoutWhole(layout);
    return None;
  }

  /** One pass of the loop: parse the line, raise if it is malformed, otherwise write it when it is kept. */
  method FilterLine(line: string, output: OutputFile) returns (stop: Option<LayoutError>)
    modifies output
    ensures stop == if ParseLine(line).Malformed? then Some(ParseLine(line).error) else None
    ensures output.content == old(output.content) + LineOutput(ParseLine(line))
  {
    var parsed := ParseLine(line);
    if parsed.Malformed? {
      return Some(parsed.error);
    }
    if parsed.Entry? {
      var elements := parsed.elements;
      if elements[0] != "dir" && elements[0] != "slink" {
        output.Write(JoinSpace(elements) + "\n");
      }
    }
    return None;
  }

  // ---------------------------------------------------------------------------
  // Lemmas
  // ---------------------------------------------------------------------------

  /** One more line: the generator raises on it exactly when it is malformed. */
  lemma StepError(layout: seq<string>, i: nat)
    requires i < |layout| && ProcessLayout(layout[..i]).error == None
    ensures var p := ParseLine(layout[i]);
      var after := ProcessLayout(layout[..i + 1]);
      && (p.Malformed? ==> after.error == Some(p.error))
      && (!p.Malformed? ==> after.error == None)
  {
    ProcessLayoutStep(layout, i);
  }

  /** One more line: filter writes what it writes for that line after what it wrote before. */
  lemma StepOutput(layout: seq<string>, i: nat)
    requires i < |layout| && ProcessLayout(layout[..i]).error == None
    ensures var before := Emitted(ProcessLayout(layout[..i]).records);
      var after := Emitted(ProcessLayout(layout[..i + 1]).records);
      && after == before + LineOutput(ParseLine(layout[i]))
      && (!ParseLine(layout[i]).Entry? ==> after == before)
  {
    var p := ParseLine(layout[i]);
    var before := ProcessLayout(layout[..i]).records;
    var after := ProcessLayout(layout[..i + 1]).records;
    assert p.Entry? ==> after == before + [p.elements] by { ProcessLayoutStep(layout, i); }
    assert !p.Entry? ==> after == before by { ProcessLayoutStep(layout, i); }
    if p.Entry? {
      assert Emitted(after) == Emitted(before) + Emitted([p.elements]) by {
        EmittedAppend(before, [p.elements]);
      }
      EmittedOne(p.elements);
      assert Emitted(before) + "" == Emitted(before);
    } else {
      assert Emitted(before) + "" == Emitted(before);
    }
  }

  lemma {:induction false} KeptRecordsAppend(a: seq<seq<string>>, b: seq<seq<string>>)
    ensures KeptRecords(a + b) == KeptRecords(a) + KeptRecords(b)
  {
    if a == [] {
      assert a + b == b;
    } else {
      assert (a + b)[0] == a[0];
      assert (a + b)[1..] == a[1..] + b;
      KeptRecordsAppend(a[1..], b);
      if Kept(a[0]) {
        assert [a[0]] + (KeptRecords(a[1..]) + KeptRecords(b)) == ([a[0]] + KeptRecords(a[1..])) + KeptRecords(b);
      }
    }
  }

  lemma {:induction false} SerialiseAllAppend(a: seq<seq<string>>, b: seq<seq<string>>)
    ensures SerialiseAll(a + b) == SerialiseAll(a) + SerialiseAll(b)
  {
    if a == [] {
      assert a + b == b;
    } else {
      assert (a + b)[1..] == a[1..] + b;
      SerialiseAllAppend(a[1..], b);
    }
  }

  lemma {:induction false} ConcatAppend(a: seq<string>, b: seq<string>)
    ensures Concat(a + b) == Concat(a) + Concat(b)
  {
    if a == [] {
      assert a + b == b;
    } else {
      assert (a + b)[1..] == a[1..] + b;
      ConcatAppend(a[1..], b);
    }
  }

  /** Appending records appends their output: the filter streams. */
  lemma EmittedAppend(a: seq<seq<string>>, b: seq<seq<string>>)
    ensures Emitted(a + b) == Emitted(a) + Emitted(b)
  {
    KeptRecordsAppend(a, b);
    SerialiseAllAppend(KeptRecords(a), KeptRecords(b));
    ConcatAppend(SerialiseAll(KeptRecords(a)), SerialiseAll(KeptRecords(b)));
  }

  /** One record is written as its space-joined elements and a newline exactly when it is not a `dir` or `slink`. */
  lemma EmittedOne(r: seq<string>)
    ensures Emitted([r]) == if Kept(r) then JoinSpace(r) + "\n" else ""
  {
    assert [r][1..] == [];
    if Kept(r) {
      assert KeptRecords([r]) == [r];
      assert SerialiseAll([r]) == [Serialise(r)];
      assert Concat([Serialise(r)]) == Serialise(r) + Concat([]);
    } else {
      assert KeptRecords([r]) == [];
    }
  }

  /**
   * A layout with a `dir`, a `slink`, a `file` and a `pipe` record, in that
   * order, filters to the `file` line followed by the `pipe` line.
   */
  lemma FilterExample(d: seq<string>, s: seq<string>, f: seq<string>, p: seq<string>)
    requires ValidRecord(d) && d[0] == "dir"
    requires ValidRecord(s) && s[0] == "slink"
    requires ValidRecord(f) && f[0] == "file"
    requires ValidRecord(p) && p[0] == "pipe"
    ensures Emitted([d, s, f, p]) == Serialise(f) + Serialise(p)
  {
    EmittedAppend([d], [s, f, p]);
    EmittedAppend([s], [f, p]);
    EmittedAppend([f], [p]);
    assert [d] + [s, f, p] == [d, s, f, p];
    assert [s] + [f, p] == [s, f, p];
    assert [f] + [p] == [f, p];
    EmittedOne(d);
    EmittedOne(s);
    EmittedOne(f);
    EmittedOne(p);
  }

  lemma {:induction false} KeptRecordsOfKept(rs: seq<seq<string>>)
    requires forall r | r in rs :: Kept(r)
    ensures KeptRecords(rs) == rs
  {
    if rs != [] {
      assert rs[0] in rs;
      assert forall r | r in rs[1..] :: r in rs;
      KeptRecordsOfKept(rs[1..]);
    }
  }

  /** The output file reads back as one line per kept record. */
  lemma ReadEmitted(rs: seq<seq<string>>)
    requires forall r | r in rs :: ValidRecord(r)
    ensures ReadLines(Emitted(rs)) == SerialiseAll(KeptRecords(rs))
  {
    var lines := SerialiseAll(KeptRecords(rs));
    forall l | l in lines
      ensures |l| > 0 && l[|l| - 1] == '\n' && NoBreakBeforeEnd(l)
    {
      var i :| 0 <= i < |lines| && lines[i] == l;
      SerialisedLineShape(KeptRecords(rs)[i]);
    }
    ReadLinesOfConcat(lines);
  }

  /**
   * Round trip: reading what filter wrote (into an empty file) gives back the
   * kept records with no error, and filtering them again writes the same text.
   */
  lemma RefilterReproduces(layout: seq<string>)
    ensures var out := Emitted(ProcessLayout(layout).records);
      && ProcessLayout(ReadLines(out)) == Parsed(KeptRecords(ProcessLayout(layout).records), None)
      && Emitted(ProcessLayout(ReadLines(out)).records) == out
  {
    var ks := KeptRecords(ProcessLayout(layout).records);
    ReadEmitted(ProcessLayout(layout).records);
    ProcessSerialised(ks);
    KeptRecordsOfKept(ks);
  }
}
