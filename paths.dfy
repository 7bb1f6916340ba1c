/**
 * Path strings as the make mode builds them (`str.lstrip("/")`,
 * `os.path.join`, `os.path.dirname`) and as the kernel identifies them:
 * repeated slashes are one separator and a trailing slash names the same
 * entry. `.` and `..` components are not resolved.
 */
module Paths {
  import opened Seqs

  predicate AllSlash(s: string)
  {
    forall i | 0 <= i < |s| :: s[i] == '/'
  }

  /** `s.lstrip("/")`. */
  function LstripSlash(s: string): (r: string)
    ensures |r| <= |s| && r == s[|s| - |r|..]
    ensures AllSlash(s[..|s| - |r|])
    ensures r != [] ==> r[0] != '/'
  {
    if s != [] && s[0] == '/' then
      var r := LstripSlash(s[1..]);
      LstripStep(s, r);
      r
    else s
  }

  /** One more leading slash: what `lstrip` keeps of the rest is what it keeps of the whole. */
  lemma LstripStep(s: string, r: string)
    requires s != [] && s[0] == '/' && |r| < |s|
    requires r == s[1..][|s| - 1 - |r|..] && AllSlash(s[1..][..|s| - 1 - |r|])
    ensures r == s[|s| - |r|..] && AllSlash(s[..|s| - |r|])
  {
    DropFirst(s, |r|);
  }

  /** `s.rstrip("/")`. */
  function RstripSlash(s: string): (r: string)
    ensures |r| <= |s| && r == s[..|r|]
    ensures AllSlash(s[|r|..])
    ensures r != [] ==> r[|r| - 1] != '/'
  {
    if s != [] && s[|s| - 1] == '/' then
      var r := RstripSlash(s[..|s| - 1]);
      DropLast(s, |r|);
      r
    else s
  }

  /** `os.path.join(a, b)` on POSIX. */
  function JoinPath(a: string, b: string): (r: string)
    ensures b != [] && b[0] == '/' ==> r == b
    ensures (b == [] || b[0] != '/') ==> |a| <= |r| && r[..|a|] == a
    ensures |b| <= |r| && r[|r| - |b|..] == b
    ensures (b == [] || b[0] != '/') ==>
      && (|r| == |a| + |b| || |r| == |a| + |b| + 1)
      && (|r| == |a| + |b| + 1 <==> a != [] && a[|a| - 1] != '/')
      && (|r| == |a| + |b| + 1 ==> r[|a|] == '/')
  {
    if b != [] && b[0] == '/' then b
    else if a == [] || a[|a| - 1] == '/' then a + b
    else a + "/" + b
  }

  /** `p.rfind("/") + 1`: where the last component of `p` starts. */
  function BaseStart(p: string): (i: nat)
    ensures i <= |p|
    ensures '/' !in p[i..]
    ensures i > 0 ==> p[i - 1] == '/'
  {
    if p == [] then 0
    else if p[|p| - 1] == '/' then |p|
    else BaseStart(p[..|p| - 1])
  }

  /** `os.path.dirname(p)`: `p` up to its last slash, trailing slashes dropped unless it is all slashes. */
  function Dirname(p: string): (r: string)
    ensures |r| <= BaseStart(p) && r == p[..|r|]
    ensures AllSlash(p[|r|..BaseStart(p)])
    ensures AllSlash(p[..BaseStart(p)]) ==> r == p[..BaseStart(p)]
    ensures !AllSlash(p[..BaseStart(p)]) ==> r != [] && r[|r| - 1] != '/'
  {
    var head := p[..BaseStart(p)];
    if head != [] && !AllSlash(head) then RstripSlash(head) else head
  }

  /** No two slashes in a row. */
  predicate NoDoubleSlash(p: string)
  {
    |p| < 2 || (!(p[0] == '/' && p[1] == '/') && NoDoubleSlash(p[1..]))
  }

  /** No empty component and no trailing slash: the form in which the model records paths. */
  predicate IsCanonical(p: string)
  {
    NoDoubleSlash(p) && (|p| > 1 ==> p[|p| - 1] != '/')
  }

  /** `p` with every run of slashes collapsed to one. */
  function Squash(p: string): (r: string)
    ensures |r| <= |p|
    ensures p != [] ==> r != [] && r[0] == p[0] && r[|r| - 1] == p[|p| - 1]
    ensures NoDoubleSlash(r)
  {
    if |p| >= 2 && p[0] == '/' && p[1] == '/' then Squash(p[1..])
    else if p == [] then []
    else [p[0]] + Squash(p[1..])
  }

  /** The canonical name of the entry `p` refers to. */
  function Canon(p: string): (r: string)
    ensures IsCanonical(r)
    ensures r == [] <==> p == []
  {
    var c := Squash(p);
    if |c| > 1 && c[|c| - 1] == '/' then
      DropLastKeepsSingleSlashes(c);
      c[..|c| - 1]
    else c
  }

  lemma {:induction false} DropLastKeepsSingleSlashes(c: string)
    requires NoDoubleSlash(c) && |c| > 1
    ensures NoDoubleSlash(c[..|c| - 1])
    ensures !(c[|c| - 2] == '/' && c[|c| - 1] == '/')
  {
    if |c| > 2 {
      DropLastKeepsSingleSlashes(c[1..]);
      assert c[1..][..|c| - 2] == c[..|c| - 1][1..];
    }
  }

  /** The directories `os.makedirs` must find or create above `p`: every prefix that ends just before a slash. */
  function Ancestors(p: string): set<string>
  {
    set i | 0 < i < |p| && p[i] == '/' :: p[..i]
  }

  // ---------------------------------------------------------------------------
  // Lemmas
  // ---------------------------------------------------------------------------

  /** A string with no empty component keeps its slashes and other characters under `Squash`. */
  lemma {:induction false} SquashKeeps(p: string)
    requires NoDoubleSlash(p)
    ensures Squash(p) == p
  {
    if p != [] {
      SquashKeeps(p[1..]);
      assert p == [p[0]] + p[1..];
    }
  }

  /** Canonicalising is idempotent: a name the model records is its own canonical name. */
  lemma CanonOfCanonical(p: string)
    requires IsCanonical(p)
    ensures Canon(p) == p
  {
    SquashKeeps(p);
  }

  /** Appending one character to `p` either merges into a final slash or is kept. */
  lemma {:induction false} SquashSnoc(p: string, c: char)
    ensures p != [] && p[|p| - 1] == '/' && c == '/' ==> Squash(p + [c]) == Squash(p)
    ensures !(p != [] && p[|p| - 1] == '/' && c == '/') ==> Squash(p + [c]) == Squash(p) + [c]
  {
    if p != [] {
      assert (p + [c])[1..] == p[1..] + [c];
      SquashSnoc(p[1..], c);
    }
  }

  /** A trailing slash names the same entry: `Canon(p + "/") == Canon(p)`. */
  lemma CanonTrailingSlash(p: string)
    requires p != []
    ensures Canon(p + "/") == Canon(p)
  {
    SquashSnoc(p, '/');
  }

  lemma {:induction false} SquashMerge(a: string, b: string)
    ensures Squash(a + "//" + b) == Squash(a + "/" + b)
  {
    if a == [] {
      assert a + "//" + b == ['/'] + ("/" + b);
      assert a + "/" + b == "/" + b;
      assert (['/'] + ("/" + b))[1..] == "/" + b;
    } else {
      assert (a + "//" + b)[1..] == a[1..] + "//" + b;
      assert (a + "/" + b)[1..] == a[1..] + "/" + b;
      SquashMerge(a[1..], b);
    }
  }

  /** Two slashes in a row separate no more than one does: `Canon(a + "//" + b) == Canon(a + "/" + b)`. */
  lemma CanonMergesSlashes(a: string, b: string)
    ensures Canon(a + "//" + b) == Canon(a + "/" + b)
  {
    SquashMerge(a, b);
  }

  /** `p` with its slashes removed: the characters of its component names, in order. */
  function Unslashed(p: string): (r: string)
    ensures '/' !in r && |r| <= |p|
  {
    if p == [] then "" else if p[0] == '/' then Unslashed(p[1..]) else [p[0]] + Unslashed(p[1..])
  }

  lemma {:induction false} UnslashedAppend(a: string, b: string)
    ensures Unslashed(a + b) == Unslashed(a) + Unslashed(b)
  {
    if a == [] {
      assert a + b == b;
    } else {
      assert (a + b)[1..] == a[1..] + b;
      UnslashedAppend(a[1..], b);
    }
  }

  lemma {:induction false} UnslashedOfSquash(p: string)
    ensures Unslashed(Squash(p)) == Unslashed(p)
  {
    if p != [] {
      UnslashedOfSquash(p[1..]);
    }
  }

  /** Canonicalising removes only slashes: every other character of the path is kept, in order. */
  lemma CanonKeepsNames(p: string)
    ensures Unslashed(Canon(p)) == Unslashed(p)
  {
    var c := Squash(p);
    UnslashedOfSquash(p);
    if |c| > 1 && c[|c| - 1] == '/' {
      assert c == c[..|c| - 1] + "/";
      UnslashedAppend(c[..|c| - 1], "/");
    }
  }
}
