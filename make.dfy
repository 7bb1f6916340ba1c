/**
 * The make mode over an abstract file system. A `dir` record creates a
 * directory under the output root, with any missing ancestors, and sets its
 * mode; a `slink` record creates its parent directories and a symbolic link,
 * replacing whatever link was there; every other record changes nothing.
 * Processing stops at the first record that fails, or at the first malformed
 * line, whichever the loop reaches first.
 */
module Make {
  import opened Options
  import opened Numbers
  import opened Paths
  import opened Layout
  import opened Seqs

  /** The only mode a link record may carry: 0o755. */
  const LINK_MODE := 0x1ED
  /** `os.chmod` converts its mode to a C `int`. */
  const INT_MIN := -0x8000_0000
  const INT_MAX := 0x7FFF_FFFF
  /** `chmod(2)` keeps the permission, set-id and sticky bits: the mode modulo 0o10000. */
  const MODE_BITS := 0x1000

  /** What a file-system call raised. */
  datatype OsError =
    | ModeOverflow(mode: int)       // `os.chmod` raised OverflowError
    | NoSuchPath(path: string)      // FileNotFoundError
    | NotADirectory(path: string)   // a link stands where a directory is needed
    | IsADirectory(path: string)    // `os.unlink` refused to remove a directory

  /** Why one record failed, in place of the exception Python raises. */
  datatype Cause =
    | OwnershipMismatch             // the `assert` on owner, group (and link mode) failed
    | InvalidMode(token: string)    // `int(mode, 8)` raised ValueError
    | Os(error: OsError)            // a file-system call raised

  /** Why make stopped: a malformed layout line, or a record and the reason it failed. */
  datatype Failure =
    | BadLine(error: LayoutError)
    | Rejected(etype: string, fields: seq<string>, cause: Cause)

  /**
   * The part of the file system make touches, keyed by canonical path (see
   * `Canon`): directories with their mode, and symbolic links with their
   * literal target. Links are never followed.
   */
  datatype Fs = Fs(dirs: map<string, int>, links: map<string, string>)
  {
    /** No path is both a directory and a link. */
    predicate Valid()
    {
      forall p | p in dirs :: p !in links
    }

    /**
     * `os.makedirs(path, exist_ok=True)`: the empty path does not exist, a
     * link where a directory is needed fails, and otherwise every missing
     * directory from the top down to `path` is created with `newDirMode`.
     */
    function MakeDirs(path: string, newDirMode: int): (o: Outcome<OsError>)
      ensures o.failure.None? <==> Canon(path) != [] && forall d | d in Chain(Canon(path)) :: d !in links
      ensures o.failure.Some? ==> o.fs == this
      ensures o.failure == None || o.failure == Some(NoSuchPath(path)) || o.failure == Some(NotADirectory(path))
      ensures Valid() ==> o.fs.Valid()
      ensures dirs.Keys <= o.fs.dirs.Keys && links.Keys <= o.fs.links.Keys
      ensures o.failure.None? ==>
        && o.fs.links == links
        && (forall d | d in Chain(Canon(path)) :: d in o.fs.dirs)
        && (forall d | d in dirs :: d in o.fs.dirs && o.fs.dirs[d] == dirs[d])
        && (forall d | d in o.fs.dirs && d !in dirs :: d in Chain(Canon(path)) && o.fs.dirs[d] == newDirMode)
    {
      var p := Canon(path);
      if p == [] then Outcome(this, Some(NoSuchPath(path)))
      else if exists d | d in Chain(p) :: d in links then Outcome(this, Some(NotADirectory(path)))
      else Outcome(Fs(dirs + map d | d in Chain(p) && d !in dirs :: newDirMode, links), None)
    }

    /**
     * `os.chmod(path, mode)`: a mode outside the C `int` range overflows
     * before the path is looked at; only a directory can change mode here,
     * since links do not resolve.
     */
    function Chmod(path: string, mode: int): (o: Outcome<OsError>)
      ensures o.failure.None? <==> INT_MIN <= mode <= INT_MAX && Canon(path) in dirs
      ensures o.failure.Some? ==> o.fs == this
      ensures o.failure == None || o.failure == Some(ModeOverflow(mode)) || o.failure == Some(NoSuchPath(path))
      ensures Valid() ==> o.fs.Valid()
      ensures dirs.Keys <= o.fs.dirs.Keys && links.Keys <= o.fs.links.Keys
      ensures o.failure.None? ==>
        && o.fs.links == links
        && o.fs.dirs.Keys == dirs.Keys
        && o.fs.dirs[Canon(path)] == mode % MODE_BITS
        && (forall d | d in dirs && d != Canon(path) :: o.fs.dirs[d] == dirs[d])
    {
      if mode < INT_MIN || mode > INT_MAX then Outcome(this, Some(ModeOverflow(mode)))
      else
        var p := Canon(path);
        if p !in dirs then Outcome(this, Some(NoSuchPath(path)))
        else Outcome(Fs(dirs[p := mode % MODE_BITS], links), None)
    }

    /**
     * The `symlink` helper: make `path` a link to `target`. The link's
     * ancestors must be directories; an entry already at `path` is removed
     * first, and removing a directory fails.
     */
    function Symlink(target: string, path: string): (o: Outcome<OsError>)
      ensures o.failure.None? <==>
        && Canon(path) != []
        && (forall d | d in Ancestors(Canon(path)) :: d in dirs && d !in links)
        && Canon(path) !in dirs
      ensures o.failure.Some? ==> o.fs == this
      ensures o.failure == None || o.failure == Some(NoSuchPath(path)) || o.failure == Some(NotADirectory(path)) || o.failure == Some(IsADirectory(path))
      ensures Valid() ==> o.fs.Valid()
      ensures dirs.Keys <= o.fs.dirs.Keys && links.Keys <= o.fs.links.Keys
      ensures o.failure.None? ==>
        && o.fs.dirs == dirs
        && o.fs.links.Keys == links.Keys + {Canon(path)}
        && o.fs.links[Canon(path)] == target
        && (forall q | q in links && q != Canon(path) :: o.fs.links[q] == links[q])
    {
      var p := Canon(path);
      if p == [] then Outcome(this, Some(NoSuchPath(path)))
      else if exists d | d in Ancestors(p) :: d in links then Outcome(this, Some(NotADirectory(path)))
      else if exists d | d in Ancestors(p) :: d !in dirs then Outcome(this, Some(NoSuchPath(path)))
      else if p in dirs then Outcome(this, Some(IsADirectory(path)))
      else Outcome(Fs(dirs, links[p := target]), None)
    }

    /** A `dir` record, fields `path mode uid gid`: owner first, then the mode, then makedirs and chmod. */
    function ApplyDir(root: string, newDirMode: int, fields: seq<string>): (o: Outcome<Cause>)
      requires |fields| == 4
      ensures Valid() ==> o.fs.Valid()
      ensures dirs.Keys <= o.fs.dirs.Keys && links.Keys <= o.fs.links.Keys
    {
      var path, mode, uid, gid := fields[0], fields[1], fields[2], fields[3];
      if uid != "0" || gid != "0" then Outcome(this, Some(OwnershipMismatch))
      else
        var m := ParseOctal(mode);
        if m.None? then Outcome(this, Some(InvalidMode(mode)))
        else
          var full := Staged(root, path);
          var made := MakeDirs(full, newDirMode);
          Raised(if made.failure.Some? then made else made.fs.Chmod(full, m.value))
    }

    /** A `slink` record, fields `path target mode uid gid`: the mode first, then owner and mode, then makedirs and symlink. */
    function ApplySlink(root: string, newDirMode: int, fields: seq<string>): (o: Outcome<Cause>)
      requires |fields| == 5
      ensures Valid() ==> o.fs.Valid()
      ensures dirs.Keys <= o.fs.dirs.Keys && links.Keys <= o.fs.links.Keys
    {
      var path, target, mode, uid, gid := fields[0], fields[1], fields[2], fields[3], fields[4];
      var m := ParseOctal(mode);
      if m.None? then Outcome(this, Some(InvalidMode(mode)))
      else if uid != "0" || gid != "0" || m.value != LINK_MODE then Outcome(this, Some(OwnershipMismatch))
      else
        var full := Staged(root, path);
        var made := MakeDirs(Dirname(full), newDirMode);
        Raised(if made.failure.Some? then made else made.fs.Symlink(target, full))
    }

    /** One pass of the `try` block for a yielded record: `elements.pop(0)` is the type, the rest its fields. */
    function Apply(root: string, newDirMode: int, elements: seq<string>): (o: Outcome<Cause>)
      requires ValidRecord(elements)
      ensures Valid() ==> o.fs.Valid()
      ensures dirs.Keys <= o.fs.dirs.Keys && links.Keys <= o.fs.links.Keys
    {
      var etype, fields := elements[0], elements[1..];
      if etype == "dir" then ApplyDir(root, newDirMode, fields)
      else if etype == "slink" then ApplySlink(root, newDirMode, fields)
      else Outcome(this, None)
    }

    /** The records in order, stopping at the first that fails; those before it keep their effects. */
    function Records(root: string, newDirMode: int, rs: seq<seq<string>>): (o: Outcome<Failure>)
      requires forall r | r in rs :: ValidRecord(r)
      ensures o.failure.Some? ==> o.failure.value.Rejected?
      decreases |rs|
    {
      if rs == [] then Outcome(this, None)
      else
        assert rs[0] in rs;
        assert forall r | r in rs[1..] :: r in rs;
        var step := Apply(root, newDirMode, rs[0]);
        if step.failure.Some? then Outcome(step.fs, Some(Rejected(rs[0][0], rs[0][1..], step.failure.value)))
        else step.fs.Records(root, newDirMode, rs[1..])
    }

    /** The `make` branch: the records the generator yields, then the ValueError it raises, if the records got that far. */
    function Run(root: string, newDirMode: int, layout: seq<string>): (o: Outcome<Failure>)
      ensures var parsed := ProcessLayout(layout);
        var done := Records(root, newDirMode, parsed.records);
        && o.fs == done.fs
        && (o.failure.None? <==> parsed.error.None? && done.failure.None?)
        && (o.failure.Some? && o.failure.value.BadLine? ==> done.failure.None? && parsed.error == Some(o.failure.value.error))
        && (o.failure.Some? && o.failure.value.Rejected? ==> o.failure == done.failure)
    {
      var parsed := ProcessLayout(layout);
      var done := Records(root, newDirMode, parsed.records);
      if done.failure.None? && parsed.error.Some? then Outcome(done.fs, Some(BadLine(parsed.error.value)))
      else done
    }
  }

  /** The state after an operation, and why it stopped if it did. */
  datatype Outcome<E> = Outcome(fs: Fs, failure: Option<E>)

  /** An error a file-system call raised, as the cause of a record's failure. */
  function Raised(o: Outcome<OsError>): (r: Outcome<Cause>)
    ensures r.fs == o.fs
    ensures r.failure.None? <==> o.failure.None?
    ensures r.failure.Some? ==> r.failure.value == Os(o.failure.value)
  {
    Outcome(o.fs, if o.failure.Some? then Some(Os(o.failure.value)) else None)
  }

  /** The directories `os.makedirs` needs for `p`: `p` and its ancestors. */
  function Chain(p: string): set<string>
  {
    Ancestors(p) + {p}
  }

  /** `os.path.join(root, path.lstrip("/"))`: where a record's path lands under the output root. */
  function Staged(root: string, path: string): (r: string)
    ensures var rel := LstripSlash(path);
      && |root| + |rel| <= |r| <= |root| + |rel| + 1
      && r[..|root|] == root && r[|r| - |rel|..] == rel
      && (|r| == |root| + |rel| + 1 <==> root != [] && root[|root| - 1] != '/')
      && (|r| == |root| + |rel| + 1 ==> r[|root|] == '/')
  {
    JoinPath(root, LstripSlash(path))
  }

  /** A `dir` record as the generator yields it: type, path, mode, owner, group. */
  predicate DirRecord(r: seq<string>)
  {
    ValidRecord(r) && r[0] == "dir" && |r| == 5
  }

  /** A `slink` record as the generator yields it: type, path, target, mode, owner, group. */
  predicate SlinkRecord(r: seq<string>)
  {
    ValidRecord(r) && r[0] == "slink" && |r| == 6
  }

  /**
   * The output tree make works on. `os.makedirs` creates directories with
   * mode 0o777 less the process umask; that mode is fixed for the run.
   */
  class Tree {
    var dirs: map<string, int>
    var links: map<string, string>
    const newDirMode: int

    function State(): Fs
      reads this
    {
      Fs(dirs, links)
    }

    constructor (fs: Fs, newDirMode: int)
      ensures State() == fs && this.newDirMode == newDirMode
    {
      dirs := fs.dirs;
      links := fs.links;
      this.newDirMode := newDirMode;
    }

    method MakeDirs(path: string) returns (error: Option<OsError>)
      modifies this
      ensures Outcome(State(), error) == old(State()).MakeDirs(path, newDirMode)
    {
      var p := Canon(path);
      if p == [] {
        return Some(NoSuchPath(path));
      }
      if exists d | d in Chain(p) :: d in links {
        return Some(NotADirectory(path));
      }
      dirs := dirs + map d | d in Chain(p) && d !in dirs :: newDirMode;
      return None;
    }

    method Chmod(path: string, mode: int) returns (error: Option<OsError>)
      modifies this
      ensures Outcome(State(), error) == old(State()).Chmod(path, mode)
    {
      if mode < INT_MIN || mode > INT_MAX {
        return Some(ModeOverflow(mode));
      }
      var p := Canon(path);
      if p !in dirs {
        return Some(NoSuchPath(path));
      }
      dirs := dirs[p := mode % MODE_BITS];
      return None;
    }

    /** `symlink(target, path)`: try to create the link; if the name is taken, unlink it and create the link again. */
    method Symlink(target: string, path: string) returns (error: Option<OsError>)
      modifies this
      ensures Outcome(State(), error) == old(State()).Symlink(target, path)
    {
      var p := Canon(path);
      if p == [] {
        return Some(NoSuchPath(path));
      }
      if exists d | d in Ancestors(p) :: d in links {
        return Some(NotADirectory(path));
      }
      if exists d | d in Ancestors(p) :: d !in dirs {
        return Some(NoSuchPath(path));
      }
      if p in dirs || p in links {
        if p in dirs {
          return Some(IsADirectory(path));
        }
        ghost var held := links;
        links := links - {p};
        assert links[p := target] == held[p := target];
      }
      links := links[p := target];
      return None;
    }

    /** The body of make's loop for one record. */
    method Apply(root: string, elements: seq<string>) returns (cause: Option<Cause>)
      requires ValidRecord(elements)
      modifies this
      ensures Outcome(State(), cause) == old(State()).Apply(root, newDirMode, elements)
    {
      var etype, fields := elements[0], elements[1..];
      if etype == "dir" {
        var path, mode, uid, gid := fields[0], fields[1], fields[2], fields[3];
        if uid != "0" || gid != "0" {
          return Some(OwnershipMismatch);
        }
        var m := ParseOctal(mode);
        if m.None? {
          return Some(InvalidMode(mode));
        }
        var full := Staged(root, path);
        var error := MakeDirs(full);
        if error.None? {
          error := Chmod(full, m.value);
        }
        cause := if error.Some? then Some(Os(error.value)) else None;
      } else if etype == "slink" {
        var path, target, mode, uid, gid := fields[0], fields[1], fields[2], fields[3], fields[4];
        var m := ParseOctal(mode);
        if m.None? {
          return Some(InvalidMode(mode));
        }
        if uid != "0" || gid != "0" || m.value != LINK_MODE {
          return Some(OwnershipMismatch);
        }
        var full := Staged(root, path);
        var error := MakeDirs(Dirname(full));
        if error.None? {
          error := Symlink(target, full);
        }
        cause := if error.Some? then Some(Os(error.value)) else None;
      } else {
        cause := None;
      }
    }

    /**
     * The `make` branch of `main`: each record is applied as soon as the
     * generator yields it, so a malformed line only stops make once every
     * record before it has been applied.
     */
    method Make(root: string, layout: seq<string>) returns (failure: Option<Failure>)
      modifies this
      ensures Outcome(State(), failure) == old(State()).Run(root, newDirMode, layout)
    {
      var i := 0;
      while i < |layout|
        invariant 0 <= i <= |layout|
        invariant ProcessLayout(layout[..i]).error == None
        invariant old(State()).Records(root, newDirMode, ProcessLayout(layout[..i]).records) == Outcome(State(), None)
      {
        ghost var before := State();
        RunStep(old(State()), root, newDirMode, layout, i, before);
        var parsed := ParseLine(layout[i]);
        if parsed.Malformed? {
          RunMalformed(old(State()), root, newDirMode, layout, i, before);
          return Some(BadLine(parsed.error));
        }
        if parsed.Entry? {
          var elements := parsed.elements;
          var cause := Apply(root, elements);
          if cause.Some? {
            RunRejected(old(State()), root, newDirMode, layout, i, before);
            return Some(Rejected(elements[0], elements[1..], cause.value));
          }
        }
        i := i + 1;
      }
      RunWhole(old(State()), root, newDirMode, layout, State());
      return None;
    }
  }

  // ---------------------------------------------------------------------------
  // The loop of make against `Run`
  // ---------------------------------------------------------------------------

  lemma {:induction false} RecordsAppend(fs: Fs, root: string, newDirMode: int, a: seq<seq<string>>, b: seq<seq<string>>)
    requires forall r | r in a :: ValidRecord(r)
    requires forall r | r in b :: ValidRecord(r)
    ensures forall r | r in a + b :: ValidRecord(r)
    ensures var first := fs.Records(root, newDirMode, a);
      fs.Records(root, newDirMode, a + b) ==
        if first.failure.Some? then first else first.fs.Records(root, newDirMode, b)
    decreases |a|
  {
    if a != [] {
      assert (a + b)[0] == a[0];
      assert (a + b)[1..] == a[1..] + b;
      assert a[0] in a;
      assert forall r | r in a[1..] :: r in a;
      var step := fs.Apply(root, newDirMode, a[0]);
      if step.failure.None? {
        RecordsAppend(step.fs, root, newDirMode, a[1..], b);
      }
    } else {
      assert a + b == b;
    }
  }

  lemma RecordsOne(fs: Fs, root: string, newDirMode: int, r: seq<string>)
    requires ValidRecord(r)
    ensures var step := fs.Apply(root, newDirMode, r);
      fs.Records(root, newDirMode, [r]) ==
        if step.failure.Some? then Outcome(step.fs, Some(Rejected(r[0], r[1..], step.failure.value)))
        else Outcome(step.fs, None)
  {
    assert [r][0] == r;
    assert [r][1..] == [];
  }

  /** A layout split where its prefix raised nothing: the records are those of the two parts, in order. */
  lemma LayoutSplit(layout: seq<string>, n: nat)
    requires n <= |layout| && ProcessLayout(layout[..n]).error == None
    ensures ProcessLayout(layout).records == ProcessLayout(layout[..n]).records + ProcessLayout(layout[n..]).records
  {
    var done, rest := layout[..n], layout[n..];
    ProcessLayoutAppend(done, rest);
    assert done + rest == layout;
  }

  /** One more line of the loop of make, before its record is applied. */
  lemma RunStep(fs: Fs, root: string, newDirMode: int, layout: seq<string>, i: nat, cur: Fs)
    requires i < |layout| && ProcessLayout(layout[..i]).error == None
    requires fs.Records(root, newDirMode, ProcessLayout(layout[..i]).records) == Outcome(cur, None)
    ensures var p := ParseLine(layout[i]);
      var after := ProcessLayout(layout[..i + 1]);
      && (p.Blank? ==> after.error == None && fs.Records(root, newDirMode, after.records) == Outcome(cur, None))
      && (p.Entry? ==> ValidRecord(p.elements) && after.error == None)
      && (p.Entry? ==>
            var step := cur.Apply(root, newDirMode, p.elements);
            step.failure.None? ==> fs.Records(root, newDirMode, after.records) == Outcome(step.fs, None))
  {
    var p := ParseLine(layout[i]);
    var recs := ProcessLayout(layout[..i]).records;
    ProcessLayoutStep(layout, i);
    if p.Entry? {
      RecordsAppend(fs, root, newDirMode, recs, [p.elements]);
      RecordsOne(cur, root, newDirMode, p.elements);
    }
  }

  /** A malformed line stops make after every record before it was applied. */
  lemma RunMalformed(fs: Fs, root: string, newDirMode: int, layout: seq<string>, i: nat, cur: Fs)
    requires i < |layout| && ProcessLayout(layout[..i]).error == None
    requires fs.Records(root, newDirMode, ProcessLayout(layout[..i]).records) == Outcome(cur, None)
    requires ParseLine(layout[i]).Malformed?
    ensures fs.Run(root, newDirMode, layout) == Outcome(cur, Some(BadLine(ParseLine(layout[i]).error)))
  {
    ProcessLayoutStep(layout, i);
    ProcessLayoutStop(layout, i + 1);
  }

  /** A record that fails stops make: nothing after it is read or applied. */
  lemma RunRejected(fs: Fs, root: string, newDirMode: int, layout: seq<string>, i: nat, cur: Fs)
    requires i < |layout| && ProcessLayout(layout[..i]).error == None
    requires fs.Records(root, newDirMode, ProcessLayout(layout[..i]).records) == Outcome(cur, None)
    requires ParseLine(layout[i]).Entry?
    requires ValidRecord(ParseLine(layout[i]).elements)
    requires cur.Apply(root, newDirMode, ParseLine(layout[i]).elements).failure.Some?
    ensures var r := ParseLine(layout[i]).elements;
      var step := cur.Apply(root, newDirMode, r);
      fs.Run(root, newDirMode, layout) == Outcome(step.fs, Some(Rejected(r[0], r[1..], step.failure.value)))
  {
    var r := ParseLine(layout[i]).elements;
    var recs := ProcessLayout(layout[..i]).records;
    ProcessLayoutStep(layout, i);
    LayoutSplit(layout, i + 1);
    var rest := ProcessLayout(layout[i + 1..]).records;
    RecordsAppend(fs, root, newDirMode, recs, [r]);
    RecordsOne(cur, root, newDirMode, r);
    RecordsAppend(fs, root, newDirMode, recs + [r], rest);
  }

  /** Every line read without a failure: make ends where the records leave the tree. */
  lemma RunWhole(fs: Fs, root: string, newDirMode: int, layout: seq<string>, cur: Fs)
    requires ProcessLayout(layout[..|layout|]).error == None
    requires fs.Records(root, newDirMode, ProcessLayout(layout[..|layout|]).records) == Outcome(cur, None)
    ensures fs.Run(root, newDirMode, layout) == Outcome(cur, None)
  {
    ProcessLayoutWhole(layout);
  }

  // ---------------------------------------------------------------------------
  // One record
  // ---------------------------------------------------------------------------

  /** Records other than `dir` and `slink` are left to later build steps: make ignores them. */
  lemma OtherTypesIgnored(fs: Fs, root: string, newDirMode: int, r: seq<string>)
    requires ValidRecord(r) && r[0] != "dir" && r[0] != "slink"
    ensures fs.Apply(root, newDirMode, r) == Outcome(fs, None)
  {
  }

  lemma DirFieldsChecksFirst(fs: Fs, root: string, newDirMode: int, fields: seq<string>)
    requires |fields| == 4
    ensures var o := fs.ApplyDir(root, newDirMode, fields);
      && (o.failure == Some(OwnershipMismatch) <==> fields[2] != "0" || fields[3] != "0")
      && (o.failure == Some(InvalidMode(fields[1])) <==>
            fields[2] == "0" && fields[3] == "0" && ParseOctal(fields[1]).None?)
      && (o.failure == Some(OwnershipMismatch) || o.failure == Some(InvalidMode(fields[1])) ==> o.fs == fs)
  {
    if fields[2] == "0" && fields[3] == "0" && ParseOctal(fields[1]).Some? {
      var full := Staged(root, fields[0]);
      var made := fs.MakeDirs(full, newDirMode);
      if made.failure.None? {
        var o := made.fs.Chmod(full, ParseOctal(fields[1]).value);
      }
    }
  }

  /**
   * A `dir` record checks its owner and group before it parses its mode, and
   * both before it touches the tree: either failure leaves the tree as it was.
   */
  lemma DirChecksFirst(fs: Fs, root: string, newDirMode: int, r: seq<string>)
    requires DirRecord(r)
    ensures var o := fs.Apply(root, newDirMode, r);
      && (o.failure == Some(OwnershipMismatch) <==> r[3] != "0" || r[4] != "0")
      && (o.failure == Some(InvalidMode(r[2])) <==> r[3] == "0" && r[4] == "0" && ParseOctal(r[2]).None?)
      && (o.failure == Some(OwnershipMismatch) || o.failure == Some(InvalidMode(r[2])) ==> o.fs == fs)
  {
    var fields := r[1..];
    assert fields[1] == r[2] && fields[2] == r[3] && fields[3] == r[4];
    assert fs.Apply(root, newDirMode, r) == fs.ApplyDir(root, newDirMode, fields);
    DirFieldsChecksFirst(fs, root, newDirMode, fields);
  }

  lemma SlinkFieldsChecksFirst(fs: Fs, root: string, newDirMode: int, fields: seq<string>)
    requires |fields| == 5
    ensures var o := fs.ApplySlink(root, newDirMode, fields);
      && (o.failure == Some(InvalidMode(fields[2])) <==> ParseOctal(fields[2]).None?)
      && (o.failure == Some(OwnershipMismatch) <==>
            ParseOctal(fields[2]).Some? &&
            (fields[3] != "0" || fields[4] != "0" || ParseOctal(fields[2]).value != LINK_MODE))
      && (o.failure == Some(OwnershipMismatch) || o.failure == Some(InvalidMode(fields[2])) ==> o.fs == fs)
  {
    if ParseOctal(fields[2]) == Some(LINK_MODE) && fields[3] == "0" && fields[4] == "0" {
      var full := Staged(root, fields[0]);
      var made := fs.MakeDirs(Dirname(full), newDirMode);
      if made.failure.None? {
        var o := made.fs.Symlink(fields[1], full);
      }
    }
  }

  /**
   * A `slink` record parses its mode before it checks owner, group and mode
   * together, and both before it touches the tree.
   */
  lemma SlinkChecksFirst(fs: Fs, root: string, newDirMode: int, r: seq<string>)
    requires SlinkRecord(r)
    ensures var o := fs.Apply(root, newDirMode, r);
      && (o.failure == Some(InvalidMode(r[3])) <==> ParseOctal(r[3]).None?)
      && (o.failure == Some(OwnershipMismatch) <==>
            ParseOctal(r[3]).Some? && (r[4] != "0" || r[5] != "0" || ParseOctal(r[3]).value != LINK_MODE))
      && (o.failure == Some(OwnershipMismatch) || o.failure == Some(InvalidMode(r[3])) ==> o.fs == fs)
  {
    var fields := r[1..];
    assert fields[2] == r[3] && fields[3] == r[4] && fields[4] == r[5];
    assert fs.Apply(root, newDirMode, r) == fs.ApplySlink(root, newDirMode, fields);
    SlinkFieldsChecksFirst(fs, root, newDirMode, fields);
  }

  /** A `slink` record owned by root may spell its mode `755`, `0755` or `0o755`: each passes both checks. */
  lemma LinkModeSpellings(fs: Fs, root: string, newDirMode: int, r: seq<string>)
    requires SlinkRecord(r) && r[4] == "0" && r[5] == "0"
    requires r[3] == "755" || r[3] == "0755" || r[3] == "0o755"
    ensures var o := fs.Apply(root, newDirMode, r);
      o.failure != Some(OwnershipMismatch) && o.failure != Some(InvalidMode(r[3]))
  {
    LinkModeParses(r[3]);
    SlinkChecksFirst(fs, root, newDirMode, r);
  }

  /**
   * A `dir` record succeeds exactly when its checks pass, its mode fits a C
   * `int` and no link stands on the way to its path; it then leaves that
   * directory, and every directory above it, in place with the record's mode
   * on the directory itself.
   */
  lemma DirEffect(fs: Fs, root: string, newDirMode: int, r: seq<string>)
    requires DirRecord(r)
    ensures var o := fs.Apply(root, newDirMode, r);
      var p := Canon(Staged(root, r[1]));
      && (o.failure.None? <==>
            && r[3] == "0" && r[4] == "0" && ParseOctal(r[2]).Some?
            && INT_MIN <= ParseOctal(r[2]).value <= INT_MAX
            && p != [] && forall d | d in Chain(p) :: d !in fs.links)
      && (o.failure.None? ==>
            && o.fs.links == fs.links
            && (forall d | d in Chain(p) :: d in o.fs.dirs)
            && o.fs.dirs[p] == ParseOctal(r[2]).value % MODE_BITS
            && (forall d | d in fs.dirs && d != p :: d in o.fs.dirs && o.fs.dirs[d] == fs.dirs[d])
            && (forall d | d in o.fs.dirs && d !in fs.dirs :: d in Chain(p)))
  {
    var fields := r[1..];
    assert fields[0] == r[1] && fields[1] == r[2] && fields[2] == r[3] && fields[3] == r[4];
    assert fs.Apply(root, newDirMode, r) == fs.ApplyDir(root, newDirMode, fields);
    if r[3] == "0" && r[4] == "0" && ParseOctal(r[2]).Some? {
      var full := Staged(root, r[1]);
      var made := fs.MakeDirs(full, newDirMode);
      if made.failure.None? {
        assert Canon(full) in Chain(Canon(full));
        assert Canon(full) in made.fs.dirs;
      }
    }
  }

  /**
   * A `slink` record that succeeds leaves a link at its path with the
   * record's target, whatever link was there before, and the directories
   * above it; no other link changes and no directory changes mode.
   */
  lemma SlinkEffect(fs: Fs, root: string, newDirMode: int, r: seq<string>)
    requires SlinkRecord(r)
    ensures var o := fs.Apply(root, newDirMode, r);
      var full := Staged(root, r[1]);
      var p, q := Canon(full), Canon(Dirname(full));
      o.failure.None? ==>
        && ParseOctal(r[3]) == Some(LINK_MODE) && r[4] == "0" && r[5] == "0"
        && o.fs.links.Keys == fs.links.Keys + {p}
        && o.fs.links[p] == r[2]
        && (forall l | l in fs.links && l != p :: o.fs.links[l] == fs.links[l])
        && p != [] && q != []
        && (forall d | d in Chain(q) :: d in o.fs.dirs)
        && (forall d | d in Ancestors(p) :: d in o.fs.dirs)
        && (forall d | d in fs.dirs :: d in o.fs.dirs && o.fs.dirs[d] == fs.dirs[d])
        && (forall d | d in o.fs.dirs && d !in fs.dirs :: d in Chain(q) && o.fs.dirs[d] == newDirMode)
        && p !in o.fs.dirs
  {
    var fields := r[1..];
    assert fields[0] == r[1] && fields[1] == r[2] && fields[2] == r[3] && fields[3] == r[4] && fields[4] == r[5];
    assert fs.Apply(root, newDirMode, r) == fs.ApplySlink(root, newDirMode, fields);
  }

  /**
   * Processing stops at the first record that fails: the outcome is that
   * record's rejection, over the tree the records before it left.
   */
  lemma RecordsFailFast(fs: Fs, root: string, newDirMode: int, rs: seq<seq<string>>, k: nat)
    requires forall r | r in rs :: ValidRecord(r)
    requires k < |rs|
    requires fs.Records(root, newDirMode, rs[..k]).failure.None?
    requires fs.Records(root, newDirMode, rs[..k]).fs.Apply(root, newDirMode, rs[k]).failure.Some?
    ensures var step := fs.Records(root, newDirMode, rs[..k]).fs.Apply(root, newDirMode, rs[k]);
      fs.Records(root, newDirMode, rs) == Outcome(step.fs, Some(Rejected(rs[k][0], rs[k][1..], step.failure.value)))
  {
    var done, rest := rs[..k], rs[k..];
    assert forall r | r in done :: r in rs;
    assert forall r | r in rest :: r in rs;
    RecordsAppend(fs, root, newDirMode, done, rest);
    SplitJoin(rs, k);
    var t := fs.Records(root, newDirMode, done).fs;
    assert t.Records(root, newDirMode, rest) == fs.Records(root, newDirMode, rs);
    assert rest[0] == rs[k];
  }

  // ---------------------------------------------------------------------------
  // Running make twice
  // ---------------------------------------------------------------------------

  /** What a record leaves behind once it has taken effect: the mode of its directory or the target of its link. */
  function Written(root: string, r: seq<string>): Fs
  {
    if |r| == 5 && r[0] == "dir" && ParseOctal(r[2]).Some? then
      Fs(map[Canon(Staged(root, r[1])) := ParseOctal(r[2]).value % MODE_BITS], map[])
    else if |r| == 6 && r[0] == "slink" then Fs(map[], map[Canon(Staged(root, r[1])) := r[2]])
    else Fs(map[], map[])
  }

  /** The entries of `w` written over `t`. */
  function Overlay(t: Fs, w: Fs): Fs
  {
    Fs(t.dirs + w.dirs, t.links + w.links)
  }

  /** What the records leave behind together: where two write the same path, the later one wins. */
  function Writes(root: string, rs: seq<seq<string>>): Fs
  {
    if rs == [] then Fs(map[], map[])
    else Overlay(Writes(root, rs[..|rs| - 1]), Written(root, rs[|rs| - 1]))
  }

  /** Every path `w` writes already holds that value in `t`. */
  predicate Agrees(w: Fs, t: Fs)
  {
    && (forall k | k in w.dirs :: k in t.dirs && t.dirs[k] == w.dirs[k])
    && (forall k | k in w.links :: k in t.links && t.links[k] == w.links[k])
  }

  /**
   * `r` would succeed on `t` without creating anything: its checks pass and
   * the directories it needs, and for a link the link itself, are there.
   */
  predicate Ready(t: Fs, root: string, r: seq<string>)
  {
    if |r| == 5 && r[0] == "dir" then
      && r[3] == "0" && r[4] == "0" && ParseOctal(r[2]).Some?
      && INT_MIN <= ParseOctal(r[2]).value <= INT_MAX
      && DirsReady(t, Canon(Staged(root, r[1])))
    else if |r| == 6 && r[0] == "slink" then
      var full := Staged(root, r[1]);
      && ParseOctal(r[3]) == Some(LINK_MODE) && r[4] == "0" && r[5] == "0"
      && DirsReady(t, Canon(Dirname(full)))
      && LinkReady(t, Canon(full))
    else true
  }

  /** `p` and every directory above it are directories of `t`. */
  predicate DirsReady(t: Fs, p: string)
  {
    p != [] && forall d | d in Chain(p) :: d in t.dirs
  }

  /** `p` is a link of `t` and every directory above it is a directory of `t`. */
  predicate LinkReady(t: Fs, p: string)
  {
    p != [] && p in t.links && forall d | d in Ancestors(p) :: d in t.dirs
  }

  /** `os.makedirs` on a path whose directories all exist changes nothing. */
  lemma MakeDirsReady(t: Fs, path: string, newDirMode: int)
    requires t.Valid() && DirsReady(t, Canon(path))
    ensures t.MakeDirs(path, newDirMode) == Outcome(t, None)
  {
    var made := t.MakeDirs(path, newDirMode);
    assert made.failure.None?;
    assert made.fs.dirs == t.dirs;
  }

  /** `os.chmod` of an existing directory sets its mode and nothing else. */
  lemma ChmodReady(t: Fs, path: string, mode: int)
    requires INT_MIN <= mode <= INT_MAX && Canon(path) in t.dirs
    ensures t.Chmod(path, mode) == Outcome(Fs(t.dirs[Canon(path) := mode % MODE_BITS], t.links), None)
  {
  }

  /** Relinking an existing link under existing directories only changes its target. */
  lemma SymlinkReady(t: Fs, target: string, path: string)
    requires t.Valid() && LinkReady(t, Canon(path))
    ensures t.Symlink(target, path) == Outcome(Fs(t.dirs, t.links[Canon(path) := target]), None)
  {
    var p := Canon(path);
    assert !exists d | d in Ancestors(p) :: d in t.links;
    assert !exists d | d in Ancestors(p) :: d !in t.dirs;
  }

  lemma OverlayAssociates(t: Fs, a: Fs, b: Fs)
    ensures Overlay(Overlay(t, a), b) == Overlay(t, Overlay(a, b))
  {
    assert (t.dirs + a.dirs) + b.dirs == t.dirs + (a.dirs + b.dirs);
    assert (t.links + a.links) + b.links == t.links + (a.links + b.links);
  }

  /** Writing what `t` already holds changes nothing. */
  lemma OverlayAgreed(t: Fs, w: Fs)
    requires Agrees(w, t)
    ensures Overlay(t, w) == t
  {
    assert t.dirs + w.dirs == t.dirs;
    assert t.links + w.links == t.links;
  }

  /** A ready `dir` record on a consistent tree only sets the mode of its directory. */
  lemma ApplyReadyDir(t: Fs, root: string, newDirMode: int, r: seq<string>)
    requires t.Valid() && DirRecord(r) && Ready(t, root, r)
    ensures var p := Canon(Staged(root, r[1]));
      t.Apply(root, newDirMode, r) == Outcome(Fs(t.dirs[p := ParseOctal(r[2]).value % MODE_BITS], t.links), None)
  {
    RecordShape(r);
    var fields := r[1..];
    var full := Staged(root, r[1]);
    assert fields[0] == r[1] && fields[1] == r[2] && fields[2] == r[3] && fields[3] == r[4];
    assert t.Apply(root, newDirMode, r) == t.ApplyDir(root, newDirMode, fields);
    MakeDirsReady(t, full, newDirMode);
    assert Canon(full) in Chain(Canon(full));
    ChmodReady(t, full, ParseOctal(r[2]).value);
  }

  /** A ready `slink` record on a consistent tree only sets the target of its link. */
  lemma ApplyReadySlink(t: Fs, root: string, newDirMode: int, r: seq<string>)
    requires t.Valid() && SlinkRecord(r) && Ready(t, root, r)
    ensures var p := Canon(Staged(root, r[1]));
      t.Apply(root, newDirMode, r) == Outcome(Fs(t.dirs, t.links[p := r[2]]), None)
  {
    RecordShape(r);
    var fields := r[1..];
    var full := Staged(root, r[1]);
    assert fields[0] == r[1] && fields[1] == r[2] && fields[2] == r[3] && fields[3] == r[4] && fields[4] == r[5];
    assert t.Apply(root, newDirMode, r) == t.ApplySlink(root, newDirMode, fields);
    MakeDirsReady(t, Dirname(full), newDirMode);
    SymlinkReady(t, r[2], full);
  }

  lemma OverlayDir(t: Fs, p: string, v: int)
    ensures Overlay(t, Fs(map[p := v], map[])) == Fs(t.dirs[p := v], t.links)
  {
    assert t.dirs + map[p := v] == t.dirs[p := v];
    assert t.links + map[] == t.links;
  }

  lemma OverlayLink(t: Fs, p: string, target: string)
    ensures Overlay(t, Fs(map[], map[p := target])) == Fs(t.dirs, t.links[p := target])
  {
    assert t.dirs + map[] == t.dirs;
    assert t.links + map[p := target] == t.links[p := target];
  }

  lemma OverlayNothing(t: Fs)
    ensures Overlay(t, Fs(map[], map[])) == t
  {
    assert t.dirs + map[] == t.dirs;
    assert t.links + map[] == t.links;
  }

  /** What writing a record's value over a tree amounts to. */
  lemma OverlayWritten(t: Fs, root: string, r: seq<string>)
    ensures Overlay(t, Written(root, r)) ==
      if |r| == 5 && r[0] == "dir" && ParseOctal(r[2]).Some? then
        Fs(t.dirs[Canon(Staged(root, r[1])) := ParseOctal(r[2]).value % MODE_BITS], t.links)
      else if |r| == 6 && r[0] == "slink" then Fs(t.dirs, t.links[Canon(Staged(root, r[1])) := r[2]])
      else t
  {
    if |r| == 5 && r[0] == "dir" && ParseOctal(r[2]).Some? {
      OverlayDir(t, Canon(Staged(root, r[1])), ParseOctal(r[2]).value % MODE_BITS);
    } else if |r| == 6 && r[0] == "slink" {
      OverlayLink(t, Canon(Staged(root, r[1])), r[2]);
    } else {
      OverlayNothing(t);
    }
  }

  /** A ready record on a consistent tree only rewrites the value at its own path. */
  lemma ApplyReady(t: Fs, root: string, newDirMode: int, r: seq<string>)
    requires t.Valid() && ValidRecord(r) && Ready(t, root, r)
    ensures t.Apply(root, newDirMode, r) == Outcome(Overlay(t, Written(root, r)), None)
  {
    OverlayWritten(t, root, r);
    if r[0] == "dir" {
      ApplyReadyDir(t, root, newDirMode, r);
    } else if r[0] == "slink" {
      ApplyReadySlink(t, root, newDirMode, r);
    }
  }

  /** A record that succeeds is ready afterwards, has written its value, and changed no other value. */
  lemma ApplyShape(t: Fs, root: string, newDirMode: int, r: seq<string>)
    requires ValidRecord(r) && t.Apply(root, newDirMode, r).failure.None?
    ensures var u := t.Apply(root, newDirMode, r).fs;
      var w := Written(root, r);
      && Ready(u, root, r)
      && Agrees(w, u)
      && (forall k | k in t.dirs && k !in w.dirs :: k in u.dirs && u.dirs[k] == t.dirs[k])
      && (forall k | k in t.links && k !in w.links :: k in u.links && u.links[k] == t.links[k])
  {
    RecordShape(r);
    if r[0] == "dir" {
      ApplyShapeDir(t, root, newDirMode, r);
    } else if r[0] == "slink" {
      ApplyShapeSlink(t, root, newDirMode, r);
    } else {
      OtherTypesIgnored(t, root, newDirMode, r);
      assert Written(root, r) == Fs(map[], map[]);
    }
  }

  lemma ApplyShapeDir(t: Fs, root: string, newDirMode: int, r: seq<string>)
    requires DirRecord(r) && t.Apply(root, newDirMode, r).failure.None?
    ensures var u := t.Apply(root, newDirMode, r).fs;
      var w := Written(root, r);
      && Ready(u, root, r)
      && Agrees(w, u)
      && (forall k | k in t.dirs && k !in w.dirs :: k in u.dirs && u.dirs[k] == t.dirs[k])
      && (forall k | k in t.links && k !in w.links :: k in u.links && u.links[k] == t.links[k])
  {
    RecordShape(r);
    DirEffect(t, root, newDirMode, r);
    var p := Canon(Staged(root, r[1]));
    assert Written(root, r) == Fs(map[p := ParseOctal(r[2]).value % MODE_BITS], map[]);
    assert DirsReady(t.Apply(root, newDirMode, r).fs, p);
  }

  lemma ApplyShapeSlink(t: Fs, root: string, newDirMode: int, r: seq<string>)
    requires SlinkRecord(r) && t.Apply(root, newDirMode, r).failure.None?
    ensures var u := t.Apply(root, newDirMode, r).fs;
      var w := Written(root, r);
      && Ready(u, root, r)
      && Agrees(w, u)
      && (forall k | k in t.dirs && k !in w.dirs :: k in u.dirs && u.dirs[k] == t.dirs[k])
      && (forall k | k in t.links && k !in w.links :: k in u.links && u.links[k] == t.links[k])
  {
    RecordShape(r);
    SlinkEffect(t, root, newDirMode, r);
    var full := Staged(root, r[1]);
    var p := Canon(full);
    var u := t.Apply(root, newDirMode, r).fs;
    assert Written(root, r) == Fs(map[], map[p := r[2]]);
    assert DirsReady(u, Canon(Dirname(full)));
    assert LinkReady(u, p);
  }

  /** Readiness only asks for paths to be there, so it survives everything make adds. */
  lemma ReadyGrows(t: Fs, u: Fs, root: string, r: seq<string>)
    requires ValidRecord(r) && Ready(t, root, r)
    requires t.dirs.Keys <= u.dirs.Keys && t.links.Keys <= u.links.Keys
    ensures Ready(u, root, r)
  {
  }

  /** Writing a ready record's value adds no path. */
  lemma WrittenKeys(t: Fs, root: string, r: seq<string>)
    requires ValidRecord(r) && Ready(t, root, r)
    ensures Overlay(t, Written(root, r)).dirs.Keys == t.dirs.Keys
    ensures Overlay(t, Written(root, r)).links.Keys == t.links.Keys
  {
    RecordShape(r);
    OverlayWritten(t, root, r);
    var p := Canon(Staged(root, r[1]));
    if r[0] == "dir" && ParseOctal(r[2]).Some? {
      assert p in Chain(p);
      UpdateKeys(t.dirs, p, ParseOctal(r[2]).value % MODE_BITS);
    } else if r[0] == "slink" {
      UpdateKeys(t.links, p, r[2]);
    }
  }

  lemma UpdateKeys<V>(m: map<string, V>, k: string, v: V)
    requires k in m
    ensures m[k := v].Keys == m.Keys
  {
  }

  /** Replaying records that are all ready writes their values and adds no path. */
  lemma {:induction false} ReplayReady(t: Fs, root: string, newDirMode: int, rs: seq<seq<string>>)
    requires t.Valid()
    requires forall r | r in rs :: ValidRecord(r) && Ready(t, root, r)
    ensures t.Records(root, newDirMode, rs) == Outcome(Overlay(t, Writes(root, rs)), None)
    ensures Overlay(t, Writes(root, rs)).dirs.Keys == t.dirs.Keys
    ensures Overlay(t, Writes(root, rs)).links.Keys == t.links.Keys
    decreases |rs|
  {
    if rs == [] {
      assert t.dirs + map[] == t.dirs;
      assert t.links + map[] == t.links;
    } else {
      var init, last := rs[..|rs| - 1], rs[|rs| - 1];
      SplitLast(rs);
      assert forall r | r in init :: r in rs;
      assert last in rs;
      ReplayReady(t, root, newDirMode, init);
      var u := Overlay(t, Writes(root, init));
      assert u.Valid();
      RecordsAppend(t, root, newDirMode, init, [last]);
      ReadyGrows(t, u, root, last);
      ApplyReady(u, root, newDirMode, last);
      RecordsOne(u, root, newDirMode, last);
      WrittenKeys(u, root, last);
      OverlayAssociates(t, Writes(root, init), Written(root, last));
    }
  }

  /** One more record over a tree that already holds what the earlier ones wrote. */
  lemma AgreesStep(w: Fs, t: Fs, u: Fs, x: Fs)
    requires Agrees(w, t) && Agrees(x, u)
    requires forall k | k in t.dirs && k !in x.dirs :: k in u.dirs && u.dirs[k] == t.dirs[k]
    requires forall k | k in t.links && k !in x.links :: k in u.links && u.links[k] == t.links[k]
    ensures Agrees(Overlay(w, x), u)
  {
  }

  /**
   * After a run of records that all succeeded, every one of them is ready and
   * the tree holds what they wrote, the later record winning on a shared path.
   */
  lemma {:induction false} RecordsSettle(fs: Fs, root: string, newDirMode: int, rs: seq<seq<string>>)
    requires forall r | r in rs :: ValidRecord(r)
    requires fs.Records(root, newDirMode, rs).failure.None?
    ensures var s := fs.Records(root, newDirMode, rs).fs;
      && (fs.Valid() ==> s.Valid())
      && (forall r | r in rs :: Ready(s, root, r))
      && Agrees(Writes(root, rs), s)
    decreases |rs|
  {
    if rs != [] {
      var init, last := rs[..|rs| - 1], rs[|rs| - 1];
      SplitLast(rs);
      assert forall r | r in init :: r in rs;
      assert last in rs;
      RecordsAppend(fs, root, newDirMode, init, [last]);
      var t := fs.Records(root, newDirMode, init);
      RecordsSettle(fs, root, newDirMode, init);
      RecordsOne(t.fs, root, newDirMode, last);
      var s := t.fs.Apply(root, newDirMode, last).fs;
      ApplyShape(t.fs, root, newDirMode, last);
      forall r | r in init
        ensures Ready(s, root, r)
      {
        ReadyGrows(t.fs, s, root, r);
      }
      AgreesStep(Writes(root, init), t.fs, s, Written(root, last));
    }
  }

  /** Idempotence: replaying records that all succeeded, over the tree they left, leaves it as it is. */
  lemma RecordsIdempotent(fs: Fs, root: string, newDirMode: int, rs: seq<seq<string>>)
    requires fs.Valid()
    requires forall r | r in rs :: ValidRecord(r)
    requires fs.Records(root, newDirMode, rs).failure.None?
    ensures var s := fs.Records(root, newDirMode, rs).fs;
      s.Records(root, newDirMode, rs) == Outcome(s, None)
  {
    var s := fs.Records(root, newDirMode, rs).fs;
    RecordsSettle(fs, root, newDirMode, rs);
    ReplayReady(s, root, newDirMode, rs);
    OverlayAgreed(s, Writes(root, rs));
  }

  /** Running make a second time with the same layout, over a tree a successful run left, changes nothing. */
  lemma MakeIdempotent(fs: Fs, root: string, newDirMode: int, layout: seq<string>)
    requires fs.Valid() && fs.Run(root, newDirMode, layout).failure.None?
    ensures var s := fs.Run(root, newDirMode, layout).fs;
      s.Run(root, newDirMode, layout) == Outcome(s, None)
  {
    RecordsIdempotent(fs, root, newDirMode, ProcessLayout(layout).records);
  }

  /** One record applied twice in a row does what it did once. */
  lemma ApplyIdempotent(fs: Fs, root: string, newDirMode: int, r: seq<string>)
    requires fs.Valid() && ValidRecord(r) && fs.Apply(root, newDirMode, r).failure.None?
    ensures var s := fs.Apply(root, newDirMode, r).fs;
      s.Apply(root, newDirMode, r) == Outcome(s, None)
  {
    var s := fs.Apply(root, newDirMode, r).fs;
    ApplyShape(fs, root, newDirMode, r);
    ApplyReady(s, root, newDirMode, r);
    OverlayAgreed(s, Written(root, r));
  }

  /**
   * Last writer wins for links: after a run that succeeds, the path of the
   * last record, a `slink`, holds its target, whatever earlier records wrote
   * at that path.
   */
  lemma LastLinkWins(fs: Fs, root: string, newDirMode: int, rs: seq<seq<string>>)
    requires forall r | r in rs :: ValidRecord(r)
    requires rs != [] && SlinkRecord(rs[|rs| - 1])
    requires fs.Records(root, newDirMode, rs).failure.None?
    ensures var b := rs[|rs| - 1];
      var p := Canon(Staged(root, b[1]));
      var s := fs.Records(root, newDirMode, rs).fs;
      p in s.links && s.links[p] == b[2]
  {
    var b := rs[|rs| - 1];
    RecordsSettle(fs, root, newDirMode, rs);
    var p := Canon(Staged(root, b[1]));
    OverlayWritten(Writes(root, rs[..|rs| - 1]), root, b);
    assert p in Writes(root, rs).links && Writes(root, rs).links[p] == b[2];
  }

  /**
   * Last writer wins for modes: after a run that succeeds, the path of the
   * last record, a `dir`, holds its mode (kept to its permission bits),
   * whatever earlier records set there.
   */
  lemma LastModeWins(fs: Fs, root: string, newDirMode: int, rs: seq<seq<string>>)
    requires forall r | r in rs :: ValidRecord(r)
    requires rs != [] && DirRecord(rs[|rs| - 1])
    requires fs.Records(root, newDirMode, rs).failure.None?
    ensures var b := rs[|rs| - 1];
      var p := Canon(Staged(root, b[1]));
      var s := fs.Records(root, newDirMode, rs).fs;
      ParseOctal(b[2]).Some? && p in s.dirs && s.dirs[p] == ParseOctal(b[2]).value % MODE_BITS
  {
    var b := rs[|rs| - 1];
    RecordsSettle(fs, root, newDirMode, rs);
    assert b in rs;
    var p := Canon(Staged(root, b[1]));
    OverlayWritten(Writes(root, rs[..|rs| - 1]), root, b);
    assert p in Writes(root, rs).dirs && Writes(root, rs).dirs[p] == ParseOctal(b[2]).value % MODE_BITS;
  }
}
