/** A file system with an instance directory in it: writing files there, and walking it to load them back. */
module FileTree {
  import opened Paths
  import opened Requests

  // -------------------------------------------------------------------- strings

  /** Byte-wise order of names, as sort.Strings has it. */
  predicate Less(a: string, b: string) {
    b != "" && (a == "" || a[0] < b[0] || (a[0] == b[0] && Less(a[1..], b[1..])))
  }

  lemma {:induction false} LessTrans(a: string, b: string, c: string)
    requires Less(a, b) && Less(b, c)
    ensures Less(a, c)
  {
    if a != "" && a[0] == b[0] && b[0] == c[0] {
      LessTrans(a[1..], b[1..], c[1..]);
    }
  }

  lemma {:induction false} LessTotal(a: string, b: string)
    ensures Less(a, b) || a == b || Less(b, a)
    ensures !(Less(a, b) && Less(b, a)) && !Less(a, a)
  {
    if a != "" && b != "" && a[0] == b[0] {
      LessTotal(a[1..], b[1..]);
      LessTotal(a[1..], a[1..]);
      assert a == [a[0]] + a[1..] && b == [b[0]] + b[1..];
    } else if a != "" {
      LessTotal(a[1..], a[1..]);
    }
  }

  /** Component-wise order of relative paths. */
  predicate PathLess(a: Path, b: Path) {
    b != [] && (a == [] || Less(a[0], b[0]) || (a[0] == b[0] && PathLess(a[1..], b[1..])))
  }

  /** The strings part first at this place, and the one has the smaller character there. */
  predicate PartsAt(a: string, b: string, k: nat) {
    k < |a| && k < |b| && a[..k] == b[..k] && a[k] < b[k]
  }

  /** With equal heads, sequences agree up to a place exactly when their tails agree up to the place before. */
  lemma PrefixOfTails<T>(a: seq<T>, b: seq<T>, k: nat)
    requires 0 < k <= |a| && k <= |b| && a[0] == b[0]
    ensures a[..k] == b[..k] <==> a[1..][..k - 1] == b[1..][..k - 1]
  {
    assert a[..k] == [a[0]] + a[1..][..k - 1];
    assert b[..k] == [b[0]] + b[1..][..k - 1];
  }

  /** One name comes before another when it is a proper prefix or has the smaller character where they first part. */
  lemma {:induction false} LessExactly(a: string, b: string)
    ensures Less(a, b) <==> a < b || exists k: nat :: PartsAt(a, b, k)
  {
    if a != "" && b != "" && a[0] == b[0] {
      LessExactly(a[1..], b[1..]);
      assert a == [a[0]] + a[1..] && b == [a[0]] + b[1..];
      if k: nat :| PartsAt(a[1..], b[1..], k) {
        PrefixOfTails(a, b, k + 1);
        assert PartsAt(a, b, k + 1);
      }
      if k: nat :| PartsAt(a, b, k) {
        PrefixOfTails(a, b, k);
        assert PartsAt(a[1..], b[1..], k - 1);
      }
    } else if a != "" && b != "" {
      assert a[0] < b[0] ==> PartsAt(a, b, 0);
      assert forall k: nat :: PartsAt(a, b, k) ==> k == 0 || a[..k][0] == b[..k][0];
    }
  }

  predicate PathPartsAt(a: Path, b: Path, k: nat) {
    k < |a| && k < |b| && a[..k] == b[..k] && Less(a[k], b[k])
  }

  /** So with paths, component by component. */
  lemma {:induction false} PathLessExactly(a: Path, b: Path)
    ensures PathLess(a, b) <==> a < b || exists k: nat :: PathPartsAt(a, b, k)
  {
    if a != [] && b != [] && a[0] == b[0] {
      LessTotal(a[0], a[0]);
      PathLessExactly(a[1..], b[1..]);
      assert a == [a[0]] + a[1..] && b == [a[0]] + b[1..];
      if k: nat :| PathPartsAt(a[1..], b[1..], k) {
        PrefixOfTails(a, b, k + 1);
        assert PathPartsAt(a, b, k + 1);
      }
      if k: nat :| PathPartsAt(a, b, k) {
        assert k > 0;
        PrefixOfTails(a, b, k);
        assert PathPartsAt(a[1..], b[1..], k - 1);
      }
    } else if a != [] && b != [] {
      assert Less(a[0], b[0]) ==> PathPartsAt(a, b, 0);
      assert forall k: nat :: PathPartsAt(a, b, k) ==> k == 0 || a[..k][0] == b[..k][0];
    }
  }

  /** filepath.Dir of a clean relative path. */
  function Parent(p: Path): string {
    if |p| <= 1 then "." else Join(p[..|p| - 1])
  }

  // ----------------------------------------------------------------------- trees

  datatype Node = FileNode(contents: string) | DirNode(entries: Entries)

  /** The entries of a directory in the order of their names. */
  datatype Entries = Nil | Cons(name: string, node: Node, rest: Entries)

  function Get(es: Entries, name: string): Option<Node> {
    match es
    case Nil => None
    case Cons(next, node, rest) => if next == name then Some(node) else Get(rest, name)
  }

  function Set(es: Entries, name: string, node: Node): Entries {
    match es
    case Nil => Cons(name, node, Nil)
    case Cons(next, m, rest) =>
      if next == name then Cons(name, node, rest)
      else if Less(name, next) then Cons(name, node, es)
      else Cons(next, m, Set(rest, name, node))
  }

  /** The contents of the file at a path. */
  function Find(n: Node, p: Path): Option<string>
    decreases |p|
  {
    match n
    case FileNode(contents) => if p == [] then Some(contents) else None
    case DirNode(entries) =>
      if p == [] then None
      else
        var child := Get(entries, p[0]);
        if child.None? then None else Find(child.value, p[1..])
  }

  predicate IsDir(n: Node, p: Path)
    decreases |p|
  {
    n.DirNode? && (p == [] ||
      var child := Get(n.entries, p[0]); child.Some? && IsDir(child.value, p[1..]))
  }

  /** os.MkdirAll: makes every missing directory; None where a file is in the way. */
  function MakeDirs(n: Node, p: Path): Option<Node>
    decreases |p|
  {
    match n
    case FileNode(_) => None
    case DirNode(entries) =>
      if p == [] then Some(n)
      else
        var child := Get(entries, p[0]);
        var made := MakeDirs(if child.None? then DirNode(Nil) else child.value, p[1..]);
        if made.None? then None else Some(DirNode(Set(entries, p[0], made.value)))
  }

  /** ioutil.WriteFile: None where the parent is not a directory or the path is one. */
  function Put(n: Node, p: Path, contents: string): Option<Node>
    decreases |p|
  {
    match n
    case FileNode(_) => if p == [] then Some(FileNode(contents)) else None
    case DirNode(entries) =>
      if p == [] then None
      else
        var child := Get(entries, p[0]);
        if child.None? && |p| > 1 then None
        else
          var put := Put(if child.None? then FileNode(contents) else child.value, p[1..], contents);
          if put.None? then None else Some(DirNode(Set(entries, p[0], put.value)))
  }

  type Listing = seq<(Path, string)>

  function Prepend(name: string, l: Listing): (r: Listing)
    ensures |r| == |l|
    ensures forall i :: 0 <= i < |l| ==> r[i] == ([name] + l[i].0, l[i].1)
  {
    seq(|l|, i requires 0 <= i < |l| => ([name] + l[i].0, l[i].1))
  }

  /** The files met by filepath.Walk, in order, with their paths relative to the start. */
  function Walk(n: Node): Listing {
    match n
    case FileNode(contents) => [([], contents)]
    case DirNode(entries) => WalkIn(entries)
  }

  function WalkIn(es: Entries): Listing {
    match es
    case Nil => []
    case Cons(name, node, rest) => Prepend(name, Walk(node)) + WalkIn(rest)
  }

  predicate Above(name: string, es: Entries) {
    match es
    case Nil => true
    case Cons(next, _, rest) => Less(name, next) && Above(name, rest)
  }

  /** Entries are strictly sorted by name at every level. */
  predicate Ordered(n: Node) {
    match n
    case FileNode(_) => true
    case DirNode(entries) => OrderedIn(entries)
  }

  predicate OrderedIn(es: Entries) {
    match es
    case Nil => true
    case Cons(name, node, rest) => Above(name, rest) && Ordered(node) && OrderedIn(rest)
  }

  // --------------------------------------------------------------- writing laws

  lemma {:induction false} SetGets(es: Entries, name: string, node: Node, other: string)
    ensures Get(Set(es, name, node), other) == if other == name then Some(node) else Get(es, other)
  {
    if es.Cons? {
      SetGets(es.rest, name, node, other);
    }
  }

  lemma {:induction false} AboveLess(a: string, b: string, es: Entries)
    requires Less(a, b) && Above(b, es)
    ensures Above(a, es)
  {
    match es
    case Nil =>
    case Cons(next, _, rest) =>
      LessTrans(a, b, next);
      AboveLess(a, b, rest);
  }

  lemma {:induction false} SetAbove(floor: string, es: Entries, name: string, node: Node)
    requires Above(floor, es) && Less(floor, name)
    ensures Above(floor, Set(es, name, node))
  {
    if es.Cons? {
      SetAbove(floor, es.rest, name, node);
    }
  }

  lemma {:induction false} SetOrdered(es: Entries, name: string, node: Node)
    requires OrderedIn(es) && Ordered(node)
    ensures OrderedIn(Set(es, name, node))
  {
    match es
    case Nil =>
    case Cons(next, _, rest) =>
      LessTotal(name, next);
      if Less(name, next) {
        AboveLess(name, next, rest);
      } else if name != next {
        SetOrdered(rest, name, node);
        SetAbove(next, rest, name, node);
      }
  }

  lemma {:induction false} GetOrdered(es: Entries, name: string)
    requires OrderedIn(es) && Get(es, name).Some?
    ensures Ordered(Get(es, name).value)
  {
    if es.name != name {
      GetOrdered(es.rest, name);
    }
  }

  /** MkdirAll works exactly where no file is on the way, adds just the directories on it and no file. */
  lemma {:induction false} MakeDirsLaws(n: Node, p: Path, q: Path)
    ensures MakeDirs(n, p).None? ==> exists k :: 0 <= k <= |p| && Find(n, p[..k]).Some?
    ensures MakeDirs(n, p).Some? ==> MakeDirs(n, p).value.DirNode?
    ensures MakeDirs(n, p).Some? ==> (q <= p ==> Find(n, q).None?)
    ensures MakeDirs(n, p).Some? ==> Find(MakeDirs(n, p).value, q) == Find(n, q)
    ensures MakeDirs(n, p).Some? ==> (IsDir(MakeDirs(n, p).value, q) <==> IsDir(n, q) || q <= p)
    ensures MakeDirs(n, p).Some? && Ordered(n) ==> Ordered(MakeDirs(n, p).value)
    decreases |p|
  {
    if n.FileNode? {
      assert p[..0] == [] && Find(n, p[..0]).Some?;
    } else if p != [] {
      var child := Get(n.entries, p[0]);
      var sub := if child.None? then DirNode(Nil) else child.value;
      MakeDirsLaws(sub, p[1..], if q == [] then [] else q[1..]);
      if MakeDirs(sub, p[1..]).None? {
        var k :| 0 <= k <= |p[1..]| && Find(sub, p[1..][..k]).Some?;
        assert p[..k + 1][0] == p[0] && p[..k + 1][1..] == p[1..][..k];
        assert Find(n, p[..k + 1]).Some?;
      } else {
        var made := MakeDirs(sub, p[1..]).value;
        if q != [] {
          SetGets(n.entries, p[0], made, q[0]);
          PrefixTail(q, p);
        }
        if Ordered(n) {
          if child.Some? {
            GetOrdered(n.entries, p[0]);
          }
          SetOrdered(n.entries, p[0], made);
        }
      }
    }
  }

  lemma PrefixTail(q: Path, p: Path)
    requires q != [] && p != []
    ensures q <= p <==> q[0] == p[0] && q[1..] <= p[1..]
  {
    assert q == [q[0]] + q[1..] && p == [p[0]] + p[1..];
  }

  /** WriteFile works exactly inside a directory and off one, and changes what is found there alone. */
  lemma {:induction false} PutLaws(n: Node, p: Path, contents: string, q: Path)
    requires p != []
    ensures Put(n, p, contents).Some? <==> IsDir(n, p[..|p| - 1]) && !IsDir(n, p)
    ensures Put(n, p, contents).Some? ==>
              Find(Put(n, p, contents).value, q) == if q == p then Some(contents) else Find(n, q)
    ensures Put(n, p, contents).Some? ==> (IsDir(Put(n, p, contents).value, q) <==> IsDir(n, q))
    ensures Put(n, p, contents).Some? && Ordered(n) ==> Ordered(Put(n, p, contents).value)
    decreases |p|
  {
    if n.DirNode? {
      var child := Get(n.entries, p[0]);
      var front := p[..|p| - 1];
      if |p| > 1 {
        assert front[0] == p[0] && front[1..] == p[1..][..|p[1..]| - 1];
        if child.Some? {
          PutLaws(child.value, p[1..], contents, if q == [] then [] else q[1..]);
        }
      }
      if Put(n, p, contents).Some? {
        var put := Put(if child.None? then FileNode(contents) else child.value, p[1..], contents).value;
        if q != [] {
          SetGets(n.entries, p[0], put, q[0]);
          assert q == [q[0]] + q[1..] && p == [p[0]] + p[1..];
        }
        if Ordered(n) {
          if child.Some? {
            GetOrdered(n.entries, p[0]);
          }
          SetOrdered(n.entries, p[0], put);
        }
      }
    }
  }

  // --------------------------------------------------------------- walking laws

  predicate Sorted(l: Listing) {
    forall i, j :: 0 <= i < j < |l| ==> PathLess(l[i].0, l[j].0)
  }

  /** Every path of the listing starts with a name above the given one. */
  predicate StartsAbove(name: string, l: Listing) {
    forall i :: 0 <= i < |l| ==> l[i].0 != [] && Less(name, l[i].0[0])
  }

  lemma {:induction false} WalkInAbove(name: string, es: Entries)
    requires Above(name, es)
    ensures StartsAbove(name, WalkIn(es))
  {
    match es
    case Nil =>
    case Cons(next, node, rest) =>
      WalkInAbove(name, rest);
      var a: Listing, b: Listing := Prepend(next, Walk(node)), WalkIn(rest);
      forall i | 0 <= i < |a + b| ensures (a + b)[i].0 != [] && Less(name, (a + b)[i].0[0]) {
        if i >= |a| {
          assert (a + b)[i] == b[i - |a|];
        }
      }
  }

  lemma PrependSorted(name: string, l: Listing)
    requires Sorted(l)
    ensures Sorted(Prepend(name, l))
  {
    var r := Prepend(name, l);
    forall i, j | 0 <= i < j < |r| ensures PathLess(r[i].0, r[j].0) {
      assert r[i].0[1..] == l[i].0 && r[j].0[1..] == l[j].0;
    }
  }

  /** A walk lists the files in strict component-wise order, so each once. */
  lemma {:induction false} WalkSorted(n: Node)
    requires Ordered(n)
    ensures Sorted(Walk(n))
    decreases n, 1
  {
    if n.DirNode? {
      WalkInSorted(n.entries);
    }
  }

  lemma {:induction false} WalkInSorted(es: Entries)
    requires OrderedIn(es)
    ensures Sorted(WalkIn(es))
    decreases es, 0
  {
    match es
    case Nil =>
    case Cons(name, node, rest) =>
      WalkSorted(node);
      WalkInSorted(rest);
      PrependSorted(name, Walk(node));
      WalkInAbove(name, rest);
      var a: Listing, b: Listing := Prepend(name, Walk(node)), WalkIn(rest);
      forall i, j | 0 <= i < j < |a + b| ensures PathLess((a + b)[i].0, (a + b)[j].0) {
        if j < |a| {
          assert (a + b)[i] == a[i] && (a + b)[j] == a[j];
        } else if i < |a| {
          assert (a + b)[i] == a[i] && (a + b)[j] == b[j - |a|];
        } else {
          assert (a + b)[i] == b[i - |a|] && (a + b)[j] == b[j - |a|];
        }
      }
  }

  /** A walk lists exactly the files that can be found. */
  lemma {:induction false} WalkFinds(n: Node, p: Path, contents: string)
    requires Ordered(n)
    ensures (p, contents) in Walk(n) <==> Find(n, p) == Some(contents)
    decreases n, 1
  {
    match n
    case FileNode(c) =>
    case DirNode(entries) =>
      if p == [] {
        WalkInNonEmptyPaths(entries);
      } else {
        WalkInFinds(entries, p, contents);
      }
  }

  lemma {:induction false} WalkInNonEmptyPaths(es: Entries)
    ensures forall x :: x in WalkIn(es) ==> x.0 != []
  {
    match es
    case Nil =>
    case Cons(name, node, rest) => WalkInNonEmptyPaths(rest);
  }

  lemma PrependMember(name: string, l: Listing, p: Path, contents: string)
    requires p != []
    ensures (p, contents) in Prepend(name, l) <==> p[0] == name && (p[1..], contents) in l
  {
    var r := Prepend(name, l);
    if i :| 0 <= i < |r| && r[i] == (p, contents) {
      assert p[1..] == l[i].0;
      assert l[i] == (p[1..], contents);
    }
    if p[0] == name && (p[1..], contents) in l {
      var i :| 0 <= i < |l| && l[i] == (p[1..], contents);
      assert p == [name] + p[1..];
      assert r[i] == (p, contents);
    }
  }

  lemma {:induction false} AboveMissing(name: string, es: Entries)
    requires Above(name, es)
    ensures Get(es, name).None?
  {
    if es.Cons? {
      LessTotal(name, es.name);
      AboveMissing(name, es.rest);
    }
  }

  lemma {:induction false} WalkInFinds(es: Entries, p: Path, contents: string)
    requires OrderedIn(es) && p != []
    ensures (p, contents) in WalkIn(es) <==> Find(DirNode(es), p) == Some(contents)
    decreases es, 0
  {
    match es
    case Nil =>
    case Cons(name, node, rest) =>
      PrependMember(name, Walk(node), p, contents);
      WalkFinds(node, p[1..], contents);
      WalkInFinds(rest, p, contents);
      AboveMissing(name, rest);
  }

  /** What stands at a path. */
  function NodeAt(n: Node, p: Path): Option<Node>
    decreases |p|
  {
    if p == [] then Some(n)
    else if n.FileNode? then None
    else
      var child := Get(n.entries, p[0]);
      if child.None? then None else NodeAt(child.value, p[1..])
  }

  lemma {:induction false} NodeAtLaws(n: Node, base: Path, p: Path)
    requires NodeAt(n, base).Some?
    ensures Find(NodeAt(n, base).value, p) == Find(n, base + p)
    ensures IsDir(NodeAt(n, base).value, p) <==> IsDir(n, base + p)
    ensures Ordered(n) ==> Ordered(NodeAt(n, base).value)
    decreases |base|
  {
    if base == [] {
      assert base + p == p;
    } else {
      NodeAtLaws(Get(n.entries, base[0]).value, base[1..], p);
      assert (base + p)[1..] == base[1..] + p;
      if Ordered(n) {
        GetOrdered(n.entries, base[0]);
      }
    }
  }

  lemma {:induction false} DirStands(n: Node, base: Path)
    requires IsDir(n, base)
    ensures NodeAt(n, base).Some? && NodeAt(n, base).value.DirNode?
    decreases |base|
  {
    if base != [] {
      DirStands(Get(n.entries, base[0]).value, base[1..]);
    }
  }

  lemma {:induction false} FoundIsNoDirectory(n: Node, p: Path)
    requires Find(n, p).Some?
    ensures !IsDir(n, p)
    decreases |p|
  {
    if p != [] {
      FoundIsNoDirectory(Get(n.entries, p[0]).value, p[1..]);
    }
  }

  lemma {:induction false} IsDirAbove(n: Node, p: Path, q: Path)
    requires IsDir(n, p) && q <= p
    ensures IsDir(n, q)
    decreases |p|
  {
    if q != [] {
      IsDirAbove(Get(n.entries, p[0]).value, p[1..], q[1..]);
    }
  }

  // ------------------------------------------------------- resolving while writing

  /** os.MkdirAll below a directory: every directory that the steps pass through is made. */
  function MakeAll(n: Node, at: Path, steps: Path): Option<Node>
    decreases |steps|
  {
    var made := MakeDirs(n, at);
    if made.None? || steps == [] then made else MakeAll(made.value, Step(at, steps[0]), steps[1..])
  }

  /** Opening a file below a directory: all on the way must be directories, and the last step must name an entry. */
  function WriteAt(n: Node, at: Path, steps: Path, contents: string): Option<Node>
    requires steps != []
    decreases |steps|
  {
    if !IsDir(n, at) then None
    else if |steps| > 1 then WriteAt(n, Step(at, steps[0]), steps[1..], contents)
    else if steps[0] in {"", ".", ".."} then None
    else Put(n, at + [steps[0]], contents)
  }

  lemma {:induction false} MakeAllLaws(n: Node, at: Path, steps: Path, q: Path)
    requires MakeAll(n, at, steps).Some?
    ensures var m := MakeAll(n, at, steps).value;
            && m.DirNode? && Find(m, q) == Find(n, q) && (IsDir(n, q) ==> IsDir(m, q)) && IsDir(m, at)
            && (Ordered(n) ==> Ordered(m))
    decreases |steps|
  {
    var made := MakeDirs(n, at).value;
    MakeDirsLaws(n, at, q);
    MakeDirsLaws(n, at, at);
    if steps != [] {
      MakeAllLaws(made, Step(at, steps[0]), steps[1..], q);
      MakeAllLaws(made, Step(at, steps[0]), steps[1..], at);
    }
  }

  /** A write that works is a write at the path that the steps resolve to. */
  lemma {:induction false} WriteAtResolved(n: Node, at: Path, steps: Path, contents: string)
    requires steps != [] && WriteAt(n, at, steps, contents).Some?
    ensures Resolve(at, steps) != [] && WriteAt(n, at, steps, contents) == Put(n, Resolve(at, steps), contents)
    decreases |steps|
  {
    if |steps| > 1 {
      WriteAtResolved(n, Step(at, steps[0]), steps[1..], contents);
    } else {
      assert Resolve(at, steps) == Resolve(at + [steps[0]], steps[1..]) == at + [steps[0]];
    }
  }

  ghost predicate NoFileOn(n: Node, p: Path) {
    forall q :: q <= p ==> Find(n, q).None?
  }

  lemma MakeDirsWorks(n: Node, p: Path)
    ensures MakeDirs(n, p).Some? <==> NoFileOn(n, p)
  {
    MakeDirsLaws(n, p, []);
    if MakeDirs(n, p).None? {
      var k :| 0 <= k <= |p| && Find(n, p[..k]).Some?;
      assert p[..k] <= p;
    } else {
      forall q | q <= p ensures Find(n, q).None? {
        MakeDirsLaws(n, p, q);
      }
    }
  }

  /** Where the first k steps lead. */
  function After(at: Path, steps: Path, k: nat): Path
    requires k <= |steps|
  {
    Resolve(at, steps[..k])
  }

  lemma AfterTail(at: Path, steps: Path, k: nat)
    requires 0 < k <= |steps|
    ensures After(at, steps, k) == After(Step(at, steps[0]), steps[1..], k - 1)
  {
    assert steps[..k][1..] == steps[1..][..k - 1];
  }

  /** The directory is on the way of the steps, or leads to a place on it. */
  ghost predicate OnTheWay(at: Path, steps: Path, q: Path) {
    exists k: nat :: k <= |steps| && q <= After(at, steps, k)
  }

  lemma OnTheWayTail(at: Path, steps: Path, q: Path)
    ensures steps == [] ==> (OnTheWay(at, steps, q) <==> q <= at)
    ensures steps != [] ==> (OnTheWay(at, steps, q) <==> q <= at || OnTheWay(Step(at, steps[0]), steps[1..], q))
  {
    assert After(at, steps, 0) == at;
    if steps != [] {
      var next, rest := Step(at, steps[0]), steps[1..];
      if OnTheWay(at, steps, q) && !(q <= at) {
        var k: nat :| k <= |steps| && q <= After(at, steps, k);
        AfterTail(at, steps, k);
        assert q <= After(next, rest, k - 1);
      }
      if OnTheWay(next, rest, q) {
        var k: nat :| k <= |rest| && q <= After(next, rest, k);
        AfterTail(at, steps, k + 1);
        assert q <= After(at, steps, k + 1);
      }
    }
  }

  /** For any steps, dots included: each place on the way is made a directory and nothing else, unless a file is there. */
  lemma {:induction false} MakeAllExactly(n: Node, at: Path, steps: Path, q: Path)
    ensures MakeAll(n, at, steps).Some? <==> forall r :: OnTheWay(at, steps, r) ==> Find(n, r).None?
    ensures MakeAll(n, at, steps).Some? ==> (IsDir(MakeAll(n, at, steps).value, q) <==> IsDir(n, q) || OnTheWay(at, steps, q))
    decreases |steps|
  {
    var made := MakeDirs(n, at);
    MakeDirsWorks(n, at);
    MakeDirsLaws(n, at, q);
    forall r ensures made.Some? ==> Find(made.value, r) == Find(n, r) {
      MakeDirsLaws(n, at, r);
    }
    forall r
      ensures steps == [] ==> (OnTheWay(at, steps, r) <==> r <= at)
      ensures steps != [] ==> (OnTheWay(at, steps, r) <==> r <= at || OnTheWay(Step(at, steps[0]), steps[1..], r))
    {
      OnTheWayTail(at, steps, r);
    }
    if made.Some? && steps != [] {
      MakeAllExactly(made.value, Step(at, steps[0]), steps[1..], q);
    }
  }

  /** Every step before the last leads to a directory, and so does the start. */
  ghost predicate Passable(n: Node, at: Path, steps: Path) {
    forall k: nat :: k < |steps| ==> IsDir(n, After(at, steps, k))
  }

  lemma PassableTail(n: Node, at: Path, steps: Path)
    requires steps != []
    ensures Passable(n, at, steps) <==> IsDir(n, at) && Passable(n, Step(at, steps[0]), steps[1..])
  {
    assert After(at, steps, 0) == at;
    var next, rest := Step(at, steps[0]), steps[1..];
    if Passable(n, at, steps) {
      forall k: nat | k < |rest| ensures IsDir(n, After(next, rest, k)) {
        AfterTail(at, steps, k + 1);
        assert IsDir(n, After(at, steps, k + 1));
      }
    }
    if IsDir(n, at) && Passable(n, next, rest) {
      forall k: nat | k < |steps| ensures IsDir(n, After(at, steps, k)) {
        if k > 0 {
          AfterTail(at, steps, k);
          assert IsDir(n, After(next, rest, k - 1));
        }
      }
    }
  }

  /** Opening a file for writing works just when every step before the last leads to a directory and the last names a place that is none. */
  lemma {:induction false} WriteAtExactly(n: Node, at: Path, steps: Path, contents: string)
    requires steps != []
    ensures WriteAt(n, at, steps, contents).Some? <==>
              Passable(n, at, steps) && steps[|steps| - 1] !in {"", ".", ".."} && !IsDir(n, Resolve(at, steps))
    decreases |steps|
  {
    PassableTail(n, at, steps);
    if |steps| > 1 {
      WriteAtExactly(n, Step(at, steps[0]), steps[1..], contents);
    } else if steps[0] !in {"", ".", ".."} {
      assert Resolve(at, steps) == Resolve(at + [steps[0]], steps[1..]) == at + [steps[0]];
      PutLaws(n, at + [steps[0]], contents, []);
      assert (at + [steps[0]])[..|at|] == at;
    }
  }

  /** Along real names nothing but the directories of the path is made. */
  lemma {:induction false} MakeAllReal(n: Node, at: Path, steps: Path, q: Path)
    requires Real(steps)
    ensures MakeAll(n, at, steps).Some? <==> NoFileOn(n, at + steps)
    ensures MakeAll(n, at, steps).Some? ==>
              (IsDir(MakeAll(n, at, steps).value, q) <==> IsDir(n, q) || q <= at + steps)
    decreases |steps|
  {
    MakeDirsWorks(n, at);
    MakeDirsLaws(n, at, q);
    if steps == [] {
      assert at + steps == at;
    } else {
      assert RealName(steps[0]);
      var next, rest := at + [steps[0]], steps[1..];
      assert next + rest == at + steps;
      PrefixThrough(at, steps, q);
      if NoFileOn(n, at) {
        var made := MakeDirs(n, at).value;
        MakeAllReal(made, next, rest, q);
        forall r ensures Find(made, r) == Find(n, r) {
          MakeDirsLaws(n, at, r);
        }
      } else {
        var r :| r <= at && Find(n, r).Some?;
        PrefixThrough(at, steps, r);
      }
    }
  }

  lemma PrefixThrough(at: Path, steps: Path, q: Path)
    ensures q <= at ==> q <= at + steps
  {
    if q <= at {
      assert q == at[..|q|] == (at + steps)[..|q|];
    }
  }

  /** Along real names a write works exactly where its parent is a directory and it is none. */
  lemma {:induction false} WriteAtReal(n: Node, at: Path, steps: Path, contents: string)
    requires steps != [] && Real(steps) && IsDir(n, (at + steps)[..|at| + |steps| - 1])
    ensures WriteAt(n, at, steps, contents) == Put(n, at + steps, contents)
    decreases |steps|
  {
    assert RealName(steps[0]);
    var parent := (at + steps)[..|at| + |steps| - 1];
    assert at == parent[..|at|];
    IsDirAbove(n, parent, at);
    if |steps| > 1 {
      assert at + steps == (at + [steps[0]]) + steps[1..];
      WriteAtReal(n, at + [steps[0]], steps[1..], contents);
    } else {
      assert at + steps == at + [steps[0]];
    }
  }

  // ------------------------------------------------------- saving an Instance

  /** One turn of the updater's loop: make the directory, then write the file. */
  function SaveFile(n: Node, base: Path, f: File): Option<Node> {
    var made := MakeAll(n, base, Split(f.directory));
    if made.None? then None else WriteAt(made.value, base, Split(f.name), f.contents)
  }

  function SaveAll(n: Node, base: Path, files: seq<File>): Option<Node> {
    if files == [] then Some(n)
    else
      var before := SaveAll(n, base, files[..|files| - 1]);
      if before.None? then None else SaveFile(before.value, base, files[|files| - 1])
  }

  /** What the last write to a path among these files left there. */
  function Last(n: Node, base: Path, files: seq<File>, p: Path): Option<string> {
    if files == [] then Find(n, p)
    else
      var f := files[|files| - 1];
      if p == FilePath(base, f.name) then Some(f.contents) else Last(n, base, files[..|files| - 1], p)
  }

  lemma SaveFileLaws(n: Node, base: Path, f: File, q: Path)
    requires SaveFile(n, base, f).Some?
    ensures var m := SaveFile(n, base, f).value;
            && Find(m, q) == (if q == FilePath(base, f.name) then Some(f.contents) else Find(n, q))
            && IsDir(m, base) && (Ordered(n) ==> Ordered(m))
  {
    var made := MakeAll(n, base, Split(f.directory)).value;
    MakeAllLaws(n, base, Split(f.directory), q);
    WriteAtResolved(made, base, Split(f.name), f.contents);
    PutLaws(made, FilePath(base, f.name), f.contents, q);
    PutLaws(made, FilePath(base, f.name), f.contents, base);
  }

  /** Saved files hold what was last written to them, and every other file of the file system is as it was. */
  lemma {:induction false} SaveFinds(n: Node, base: Path, files: seq<File>, p: Path)
    requires SaveAll(n, base, files).Some?
    ensures Find(SaveAll(n, base, files).value, p) == Last(n, base, files, p)
    ensures files != [] ==> IsDir(SaveAll(n, base, files).value, base)
    ensures Ordered(n) ==> Ordered(SaveAll(n, base, files).value)
    decreases |files|
  {
    if files != [] {
      var front := files[..|files| - 1];
      SaveFinds(n, base, front, p);
      SaveFileLaws(SaveAll(n, base, front).value, base, files[|files| - 1], p);
    }
  }

  // ------------------------------------------------------ loading an Instance

  datatype Loaded = NoManifest | Unreadable | Instance(yaml: string, files: seq<File>)

  /** A walked file as the loader describes it. */
  function Described(x: (Path, string)): File {
    File(Join(x.0), Parent(x.0), x.1)
  }

  function LoadFiles(l: Listing): seq<File> {
    if l == [] then []
    else
      var f := Described(l[|l| - 1]);
      LoadFiles(l[..|l| - 1]) + if f.name == KUSTOMIZATION_FILE_NAME then [] else [f]
  }

  /** Loading what stands at an instance directory's path. */
  function Load(dir: Node): Loaded {
    var manifest := [KUSTOMIZATION_FILE_NAME];
    if dir.FileNode? || IsDir(dir, manifest) then Unreadable
    else if Find(dir, manifest).None? then NoManifest
    else Instance(Find(dir, manifest).value, LoadFiles(Walk(dir)))
  }

  /** Component-wise order of the names. */
  predicate InWalkOrder(files: seq<File>) {
    forall i, j :: 0 <= i < j < |files| ==> PathLess(Split(files[i].name), Split(files[j].name))
  }

  lemma {:induction false} PathLessIrreflexive(p: Path)
    ensures !PathLess(p, p)
  {
    if p != [] {
      LessTotal(p[0], p[0]);
      PathLessIrreflexive(p[1..]);
    }
  }

  predicate RealPaths(l: Listing) {
    forall i :: 0 <= i < |l| ==> l[i].0 != [] && Real(l[i].0)
  }

  /** The name is a path of real names, and the directory is its parent. */
  predicate Canonical(f: File) {
    Real(Split(f.name)) && f.directory == Parent(Split(f.name))
  }

  /** A directory and a name in it make a file name. */
  predicate IsEntryOf(name: string, dir: string, entry: string) {
    '/' !in entry && name == dir + "/" + entry
  }

  lemma {:induction false} JoinSnoc(p: Path, c: string)
    requires p != []
    ensures Join(p + [c]) == Join(p) + "/" + c
  {
    if |p| == 1 {
      assert (p + [c])[1..] == [c];
    } else {
      assert (p + [c])[1..] == p[1..] + [c];
      JoinSnoc(p[1..], c);
      assert p[0] + "/" + (Join(p[1..]) + "/" + c) == (p[0] + "/" + Join(p[1..])) + "/" + c;
    }
  }

  lemma LastSlashUnique(name: string, dir: string, entry: string, dir': string, entry': string)
    requires IsEntryOf(name, dir, entry) && IsEntryOf(name, dir', entry')
    ensures dir == dir'
  {
    assert name[|dir|] == '/' && name[|dir'|] == '/';
    assert forall i :: |dir| < i < |name| ==> name[i] == entry[i - |dir| - 1];
    assert forall i :: |dir'| < i < |name| ==> name[i] == entry'[i - |dir'| - 1];
    assert dir == name[..|dir|] && dir' == name[..|dir'|];
  }

  /** A file of a real name is canonical just when its directory is what stands before the last slash of the name, or ".". */
  lemma CanonicalExactly(f: File)
    requires Real(Split(f.name))
    ensures Canonical(f) <==> if '/' in f.name then exists entry :: IsEntryOf(f.name, f.directory, entry) else f.directory == "."
  {
    var p := Split(f.name);
    SplitSlashless(f.name);
    JoinSplit(f.name);
    if |p| > 1 {
      var front, last := p[..|p| - 1], p[|p| - 1];
      assert p == front + [last];
      JoinSnoc(front, last);
      assert IsEntryOf(f.name, Join(front), last);
      assert f.name[|Join(front)|] == '/';
      if entry :| IsEntryOf(f.name, f.directory, entry) {
        LastSlashUnique(f.name, f.directory, entry, Join(front), last);
      }
    }
  }

  /** A file that loading can give back as it was saved. */
  predicate Restorable(f: File) {
    Canonical(f) && f.name != KUSTOMIZATION_FILE_NAME
  }

  lemma DescribedFrom(f: File, x: (Path, string))
    requires x.0 != [] && Real(x.0)
    ensures f == Described(x) <==> Canonical(f) && (Split(f.name), f.contents) == x
  {
    forall i | 0 <= i < |x.0| ensures '/' !in x.0[i] {
      assert RealName(x.0[i]);
    }
    SplitJoin(x.0);
    JoinSplit(f.name);
  }

  lemma {:induction false} LoadedFrom(l: Listing, f: File)
    requires RealPaths(l)
    ensures f in LoadFiles(l) <==> Restorable(f) && (Split(f.name), f.contents) in l
  {
    if l != [] {
      var front, x := l[..|l| - 1], l[|l| - 1];
      LoadedFrom(front, f);
      DescribedFrom(f, x);
      assert l == front + [x];
    }
  }

  lemma {:induction false} LoadedInOrder(l: Listing)
    requires Sorted(l) && RealPaths(l)
    ensures InWalkOrder(LoadFiles(l))
  {
    if l != [] {
      var front, x := l[..|l| - 1], l[|l| - 1];
      LoadedInOrder(front);
      DescribedFrom(Described(x), x);
      var before := LoadFiles(front);
      forall i | 0 <= i < |before| ensures PathLess(Split(before[i].name), x.0) {
        LoadedFrom(front, before[i]);
        BeforeLast(l, (Split(before[i].name), before[i].contents));
      }
    }
  }

  lemma BeforeLast(l: Listing, y: (Path, string))
    requires Sorted(l) && l != [] && y in l[..|l| - 1]
    ensures PathLess(y.0, l[|l| - 1].0)
  {
    var j :| 0 <= j < |l| - 1 && l[j] == y;
  }

  /**
   * What loading makes of any directory of real names: it reads the manifest unless that is a directory, and
   * gives just the other files there are, by name, parent and contents, in walk order.
   */
  lemma LoadExactly(dir: Node)
    requires Ordered(dir) && forall p :: Find(dir, p).Some? ==> Real(p)
    ensures Load(dir).Instance? <==> Find(dir, ["kustomization.yaml"]).Some?
    ensures Load(dir).Unreadable? <==> !IsDir(dir, []) || IsDir(dir, ["kustomization.yaml"])
    ensures Load(dir).Instance? ==>
              && Find(dir, ["kustomization.yaml"]) == Some(Load(dir).yaml) && InWalkOrder(Load(dir).files)
              && forall f :: f in Load(dir).files <==> Restorable(f) && Find(dir, Split(f.name)) == Some(f.contents)
  {
    if dir.DirNode? {
      if Find(dir, [KUSTOMIZATION_FILE_NAME]).Some? {
        FoundIsNoDirectory(dir, [KUSTOMIZATION_FILE_NAME]);
      }
      var l := Walk(dir);
      WalkSorted(dir);
      WalkInNonEmptyPaths(dir.entries);
      forall i | 0 <= i < |l| ensures l[i].0 != [] && Real(l[i].0) {
        assert (l[i].0, l[i].1) in l;
        WalkFinds(dir, l[i].0, l[i].1);
      }
      LoadedInOrder(l);
      forall f ensures f in LoadFiles(l) <==> Restorable(f) && Find(dir, Split(f.name)) == Some(f.contents) {
        LoadedFrom(l, f);
        WalkFinds(dir, Split(f.name), f.contents);
      }
    }
  }

  // -------------------------------------------------------------- round trip

  /** The directory can be made, and nothing stands in it yet. */
  ghost predicate Vacant(n: Node, base: Path) {
    && Ordered(n) && NoFileOn(n, base)
    && forall p :: p != [] ==> Find(n, base + p).None? && !IsDir(n, base + p)
  }

  predicate DistinctNames(files: seq<File>) {
    forall i, j :: 0 <= i < j < |files| ==> files[i].name != files[j].name
  }

  lemma {:induction false} CountDistinct(files: seq<File>, f: File)
    requires DistinctNames(files)
    ensures multiset(files)[f] == if f in files then 1 else 0
  {
    if files != [] {
      var front := files[..|files| - 1];
      assert files == front + [files[|files| - 1]];
      CountDistinct(front, f);
    }
  }

  lemma CountRepeated(files: seq<File>, i: nat, j: nat)
    requires i < j < |files| && files[i] == files[j]
    ensures multiset(files)[files[i]] >= 2
  {
    assert files == files[..j] + files[j..];
    assert files[i] in files[..j] && files[i] in files[j..];
    assert multiset(files) == multiset(files[..j]) + multiset(files[j..]);
  }

  lemma WalkOrderIsDistinct(files: seq<File>)
    requires InWalkOrder(files)
    ensures DistinctNames(files)
  {
    forall i, j | 0 <= i < j < |files| ensures files[i].name != files[j].name {
      PathLessIrreflexive(Split(files[i].name));
    }
  }

  lemma SameMultiset(a: seq<File>, b: seq<File>)
    requires DistinctNames(a)
    ensures multiset(a) == multiset(b) <==> DistinctNames(b) && forall f :: f in a <==> f in b
  {
    if DistinctNames(b) && forall f :: f in a <==> f in b {
      forall f ensures multiset(a)[f] == multiset(b)[f] {
        CountDistinct(a, f);
        CountDistinct(b, f);
      }
    }
    if multiset(a) == multiset(b) {
      forall f ensures f in a <==> f in b {
        assert f in multiset(a) <==> f in multiset(b);
      }
      forall i, j | 0 <= i < j < |b| ensures b[i].name != b[j].name {
        if b[i].name == b[j].name {
          assert b[i] in a && b[j] in a;
          CountRepeated(b, i, j);
          CountDistinct(a, b[i]);
        }
      }
    }
  }

  /** A path below the directory that holds something was written under one of the names. */
  lemma {:induction false} LastWriter(n: Node, base: Path, files: seq<File>, p: Path) returns (i: nat)
    requires Find(n, p).None? && Last(n, base, files, p).Some?
    ensures i < |files| && p == FilePath(base, files[i].name) && Last(n, base, files, p) == Some(files[i].contents)
  {
    i := |files| - 1;
    if p != FilePath(base, files[i].name) {
      i := LastWriter(n, base, files[..i], p);
    }
  }

  lemma {:induction false} LastOfDistinct(n: Node, base: Path, files: seq<File>, i: nat)
    requires i < |files|
    requires forall j :: 0 <= j < |files| && j != i ==> FilePath(base, files[j].name) != FilePath(base, files[i].name)
    ensures Last(n, base, files, FilePath(base, files[i].name)) == Some(files[i].contents)
  {
    if i < |files| - 1 {
      LastOfDistinct(n, base, files[..|files| - 1], i);
    }
  }

  lemma {:induction false} LastExists(n: Node, base: Path, files: seq<File>, i: nat)
    requires i < |files|
    ensures Last(n, base, files, FilePath(base, files[i].name)).Some?
  {
    if i < |files| - 1 {
      LastExists(n, base, files[..|files| - 1], i);
    }
  }

  lemma RealSuffix(base: Path, p: Path)
    requires Real(base + p)
    ensures Real(p)
  {
    forall i | 0 <= i < |p| ensures RealName(p[i]) {
      assert (base + p)[|base| + i] == p[i];
    }
  }

  /** What was walked after a save into a vacant directory has real paths. */
  lemma WalkedReal(n: Node, base: Path, files: seq<File>, p: Path)
    requires Real(base) && Vacant(n, base) && SaveAll(n, base, files).Some? && files != []
    requires Find(SaveAll(n, base, files).value, base + p).Some?
    ensures p != [] && Real(p)
  {
    var tree := SaveAll(n, base, files).value;
    SaveFinds(n, base, files, base + p);
    if p == [] {
      assert base + p == base;
      FoundIsNoDirectory(tree, base);
    }
    var i := LastWriter(n, base, files, base + p);
    FilePathIsReal(base, files[i].name);
    RealSuffix(base, p);
  }

  /** What a save into a vacant directory loads as: the restorable files that a last write left, in walk order. */
  lemma LoadAfterSave(n: Node, base: Path, whole: seq<File>)
    requires Real(base) && Vacant(n, base) && SaveAll(n, base, whole).Some?
    requires whole != [] && FilePath(base, whole[0].name) == ManifestPath(base)
    ensures NodeAt(SaveAll(n, base, whole).value, base).Some?
    ensures var r := Load(NodeAt(SaveAll(n, base, whole).value, base).value);
            && r.Instance? && InWalkOrder(r.files)
            && Last(n, base, whole, ManifestPath(base)) == Some(r.yaml)
            && forall f :: f in r.files <==>
                 Restorable(f) && Last(n, base, whole, base + Split(f.name)) == Some(f.contents)
  {
    var tree := SaveAll(n, base, whole).value;
    SaveFinds(n, base, whole, ManifestPath(base));
    DirStands(tree, base);
    var dir := NodeAt(tree, base).value;
    NodeAtLaws(tree, base, [KUSTOMIZATION_FILE_NAME]);
    LastExists(n, base, whole, 0);
    FoundIsNoDirectory(tree, ManifestPath(base));
    var l := Walk(dir);
    WalkSorted(dir);
    forall i | 0 <= i < |l| ensures l[i].0 != [] && Real(l[i].0) {
      WalkFinds(dir, l[i].0, l[i].1);
      assert (l[i].0, l[i].1) in l;
      NodeAtLaws(tree, base, l[i].0);
      WalkedReal(n, base, whole, l[i].0);
    }
    LoadedInOrder(l);
    forall f ensures f in LoadFiles(l) <==> Restorable(f) && Last(n, base, whole, base + Split(f.name)) == Some(f.contents) {
      LoadedFrom(l, f);
      WalkFinds(dir, Split(f.name), f.contents);
      NodeAtLaws(tree, base, Split(f.name));
      SaveFinds(n, base, whole, base + Split(f.name));
    }
  }

  lemma CanonicalPath(base: Path, f: File)
    requires Canonical(f)
    ensures FilePath(base, f.name) == base + Split(f.name)
  {
    ResolveReal(base, Split(f.name));
  }

  /** The file that a request's manifest is written to. */
  predicate IsManifest(m: File) {
    Canonical(m) && Split(m.name) == [KUSTOMIZATION_FILE_NAME]
  }

  /**
   * The round trip: a save into a vacant directory loads back as the same manifest and the same
   * files, in walk order, exactly when the names are distinct and every file is restorable.
   */
  lemma RoundTripExactly(n: Node, base: Path, m: File, files: seq<File>)
    ensures Real(base) && Vacant(n, base) && IsManifest(m) && SaveAll(n, base, [m] + files).Some? ==>
              && NodeAt(SaveAll(n, base, [m] + files).value, base).Some?
              && var r := Load(NodeAt(SaveAll(n, base, [m] + files).value, base).value);
              && r.Instance? && InWalkOrder(r.files)
              && (r.yaml == m.contents && multiset(r.files) == multiset(files) <==>
                  DistinctNames(files) && forall f :: f in files ==> Restorable(f))
  {
    if Real(base) && Vacant(n, base) && IsManifest(m) && SaveAll(n, base, [m] + files).Some? {
      CanonicalPath(base, m);
      LoadAfterSave(n, base, [m] + files);
      var r := Load(NodeAt(SaveAll(n, base, [m] + files).value, base).value);
      WalkOrderIsDistinct(r.files);
      SameMultiset(r.files, files);
      if DistinctNames(files) && forall f :: f in files ==> Restorable(f) {
        RestorableComesBack(n, base, m, files);
      }
    }
  }

  lemma RestorableComesBack(n: Node, base: Path, m: File, files: seq<File>)
    requires Real(base) && Vacant(n, base) && IsManifest(m) && SaveAll(n, base, [m] + files).Some?
    requires DistinctNames(files) && forall f :: f in files ==> Restorable(f)
    ensures var tree := SaveAll(n, base, [m] + files).value;
            && NodeAt(tree, base).Some? && Load(NodeAt(tree, base).value).Instance?
            && Load(NodeAt(tree, base).value).yaml == m.contents
            && forall f :: f in Load(NodeAt(tree, base).value).files <==> f in files
  {
    var whole := [m] + files;
    CanonicalPath(base, m);
    LoadAfterSave(n, base, whole);
    ManifestName(m);
    WholeIsCanonical(m, files);
    LastIsMember(n, base, whole, m);
    forall f | Restorable(f)
      ensures Last(n, base, whole, base + Split(f.name)) == Some(f.contents) <==> f in files
    {
      LastIsMember(n, base, whole, f);
    }
  }

  lemma ManifestName(m: File)
    requires IsManifest(m)
    ensures m.name == KUSTOMIZATION_FILE_NAME
  {
    JoinSplit(m.name);
  }

  predicate AllCanonical(files: seq<File>) {
    forall f :: f in files ==> Canonical(f)
  }

  lemma WholeIsCanonical(m: File, files: seq<File>)
    requires Canonical(m) && DistinctNames(files)
    requires forall f :: f in files ==> Canonical(f) && f.name != m.name
    ensures AllCanonical([m] + files) && DistinctNames([m] + files)
  {
    assert forall i :: 0 <= i < |files| ==> files[i] in files;
  }

  lemma SamePathSameName(base: Path, f: File, g: File)
    requires Canonical(f) && Canonical(g)
    ensures FilePath(base, f.name) == FilePath(base, g.name) <==> f.name == g.name
  {
    CanonicalPath(base, f);
    CanonicalPath(base, g);
    JoinSplit(f.name);
    JoinSplit(g.name);
    assert (base + Split(f.name))[|base|..] == Split(f.name) && (base + Split(g.name))[|base|..] == Split(g.name);
  }

  /** Under distinct canonical names, what was last written are the files themselves. */
  lemma LastIsMember(n: Node, base: Path, files: seq<File>, f: File)
    requires Vacant(n, base) && DistinctNames(files) && AllCanonical(files) && Canonical(f)
    ensures Last(n, base, files, base + Split(f.name)) == Some(f.contents) <==> f in files
  {
    CanonicalPath(base, f);
    if f in files {
      var i :| 0 <= i < |files| && files[i] == f;
      forall j | 0 <= j < |files| && j != i ensures FilePath(base, files[j].name) != FilePath(base, f.name) {
        assert files[j] in files;
        SamePathSameName(base, files[j], f);
      }
      LastOfDistinct(n, base, files, i);
    }
    if Last(n, base, files, base + Split(f.name)) == Some(f.contents) {
      var i := LastWriter(n, base, files, base + Split(f.name));
      assert files[i] in files;
      SamePathSameName(base, f, files[i]);
    }
  }

  // ------------------------------------------------------------ when saving works

  function NamePaths(files: seq<File>): (ps: seq<Path>)
    ensures |ps| == |files| && forall i :: 0 <= i < |files| ==> ps[i] == Split(files[i].name)
  {
    seq(|files|, i requires 0 <= i < |files| => Split(files[i].name))
  }

  lemma PathsStep(files: seq<File>)
    requires files != []
    ensures NamePaths(files) == NamePaths(files[..|files| - 1]) + [Split(files[|files| - 1].name)]
  {
  }

  /** Some path lies strictly below q. */
  predicate Within(ps: seq<Path>, q: Path) {
    exists i :: 0 <= i < |ps| && q < ps[i]
  }

  /** No path lies strictly below another one. */
  predicate NoClash(ps: seq<Path>) {
    forall i :: 0 <= i < |ps| ==> !Within(ps, ps[i])
  }

  lemma WithinStep(ps: seq<Path>, p: Path, q: Path)
    ensures Within(ps + [p], q) <==> Within(ps, q) || q < p
  {
    var all := ps + [p];
    if i :| 0 <= i < |ps| && q < ps[i] {
      assert all[i] == ps[i];
    }
    assert all[|ps|] == p;
  }

  lemma ClashStep(ps: seq<Path>, p: Path)
    ensures NoClash(ps + [p]) <==> NoClash(ps) && !Within(ps, p) && forall q :: q < p ==> q !in ps
  {
    var all := ps + [p];
    assert all[|ps|] == p;
    forall q ensures Within(all, q) <==> Within(ps, q) || q < p {
      WithinStep(ps, p, q);
    }
    if NoClash(all) {
      forall q | q in ps ensures !Within(ps, q) && !(q < p) {
        var i :| 0 <= i < |ps| && ps[i] == q;
        assert all[i] == q && !Within(all, all[i]);
      }
      assert !Within(all, all[|ps|]);
    } else {
      var i :| 0 <= i < |all| && Within(all, all[i]);
      assert i < |ps| ==> all[i] == ps[i] && ps[i] in ps;
    }
  }

  lemma BelowIsWithin(p: Path, q: Path)
    requires p != []
    ensures q < p <==> q <= p[..|p| - 1]
  {
    var front := p[..|p| - 1];
    if q < p {
      assert q == p[..|q|] == front[..|q|];
    }
    if q <= front {
      assert q == front[..|q|] == p[..|q|];
    }
  }

  ghost predicate NoFileAbove(n: Node, p: Path) {
    forall q :: q < p ==> Find(n, q).None?
  }

  lemma OnIsAbove(n: Node, p: Path)
    requires p != []
    ensures NoFileOn(n, p[..|p| - 1]) <==> NoFileAbove(n, p)
  {
    if NoFileOn(n, p[..|p| - 1]) {
      forall q | q < p ensures Find(n, q).None? {
        BelowIsWithin(p, q);
      }
    }
    if NoFileAbove(n, p) {
      forall q | q <= p[..|p| - 1] ensures Find(n, q).None? {
        BelowIsWithin(p, q);
      }
    }
  }

  /** A canonical file can be saved unless its path is a directory or a file stands above it. */
  lemma SaveFileWorks(n: Node, base: Path, f: File, q: Path)
    requires Canonical(f)
    ensures var p := base + Split(f.name);
            && (SaveFile(n, base, f).Some? <==> !IsDir(n, p) && NoFileAbove(n, p))
            && (SaveFile(n, base, f).Some? ==> (IsDir(SaveFile(n, base, f).value, q) <==> IsDir(n, q) || q < p))
  {
    var p := base + Split(f.name);
    var parent := p[..|p| - 1];
    OnIsAbove(n, p);
    BelowIsWithin(p, q);
    ParentMade(n, base, f, parent, q);
    var made := MakeAll(n, base, Split(f.directory));
    if made.Some? {
      ParentMade(n, base, f, parent, p);
      ParentMade(n, base, f, parent, parent);
      WriteAtReal(made.value, base, Split(f.name), f.contents);
      PutLaws(made.value, p, f.contents, q);
    }
  }

  /** A canonical file's directory is its parent: just the directories above the file are made. */
  lemma ParentMade(n: Node, base: Path, f: File, parent: Path, q: Path)
    requires Canonical(f) && parent == (base + Split(f.name))[..|base| + |Split(f.name)| - 1]
    ensures var made := MakeAll(n, base, Split(f.directory));
            && (made.Some? <==> NoFileOn(n, parent))
            && (made.Some? ==> (IsDir(made.value, q) <==> IsDir(n, q) || q <= parent))
  {
    var steps := Split(f.name);
    var front := steps[..|steps| - 1];
    assert parent == base + front;
    if |steps| == 1 {
      SplitPlain(".");
      assert base + front == base;
      DotMade(n, base, q);
    } else {
      forall i | 0 <= i < |front| ensures RealName(front[i]) && '/' !in front[i] {
        assert RealName(steps[i]);
      }
      SplitJoin(front);
      MakeAllReal(n, base, front, q);
    }
  }

  lemma DotMade(n: Node, base: Path, q: Path)
    ensures var made := MakeAll(n, base, ["."]);
            && (made.Some? <==> NoFileOn(n, base))
            && (made.Some? ==> (IsDir(made.value, q) <==> IsDir(n, q) || q <= base))
  {
    MakeDirsWorks(n, base);
    MakeDirsLaws(n, base, q);
    if MakeDirs(n, base).Some? {
      var m := MakeDirs(n, base).value;
      assert MakeAll(n, base, ["."]) == MakeAll(m, base, []) == MakeDirs(m, base);
      forall r ensures Find(m, r) == Find(n, r) {
        MakeDirsLaws(n, base, r);
      }
      MakeDirsWorks(m, base);
      MakeDirsLaws(m, base, q);
    }
  }

  /** The directories made below the instance directory are those that the files stand in. */
  lemma {:induction false} SaveDirs(n: Node, base: Path, files: seq<File>, q: Path)
    requires Vacant(n, base) && AllCanonical(files) && SaveAll(n, base, files).Some? && q != []
    ensures IsDir(SaveAll(n, base, files).value, base + q) <==> Within(NamePaths(files), q)
    decreases |files|
  {
    if files != [] {
      var front, f := files[..|files| - 1], files[|files| - 1];
      assert f in files;
      PathsStep(files);
      var before := SaveAll(n, base, front).value;
      SaveDirs(n, base, front, q);
      WithinStep(NamePaths(front), Split(f.name), q);
      SaveFileWorks(before, base, f, base + q);
      PrefixBelow(base, q, Split(f.name));
    }
  }

  lemma PrefixBelow(base: Path, q: Path, p: Path)
    ensures base + q < base + p <==> q < p
  {
    if base + q < base + p {
      assert q == (base + q)[|base|..] == (base + p)[..|base| + |q|][|base|..] == p[..|q|];
    }
    if q < p {
      assert base + q == base + p[..|q|] == (base + p)[..|base| + |q|];
    }
  }

  /** Canonical files can all be saved into a vacant directory exactly when no file stands where another needs a directory. */
  lemma {:induction false} SaveSucceeds(n: Node, base: Path, files: seq<File>)
    requires Vacant(n, base) && AllCanonical(files)
    ensures SaveAll(n, base, files).Some? <==> NoClash(NamePaths(files))
    decreases |files|
  {
    if files != [] {
      var front, f := files[..|files| - 1], files[|files| - 1];
      var p := Split(f.name);
      assert f in files;
      PathsStep(files);
      SaveSucceeds(n, base, front);
      ClashStep(NamePaths(front), p);
      if SaveAll(n, base, front).Some? {
        SaveDirs(n, base, front, p);
        SaveFileWorks(SaveAll(n, base, front).value, base, f, []);
        NothingAbove(n, base, front, p);
      }
    }
  }

  lemma NothingAbove(n: Node, base: Path, files: seq<File>, p: Path)
    requires Vacant(n, base) && AllCanonical(files) && SaveAll(n, base, files).Some? && p != []
    ensures NoFileAbove(SaveAll(n, base, files).value, base + p) <==> forall q :: q < p ==> q !in NamePaths(files)
  {
    var t := SaveAll(n, base, files).value;
    forall q ensures Find(t, base + q).Some? <==> q in NamePaths(files) {
      SaveFinds(n, base, files, base + q);
      FoundIffNamed(n, base, files, q);
      assert q == [] ==> base + q == base;
    }
    if NoFileAbove(t, base + p) {
      forall q | q < p ensures q !in NamePaths(files) {
        PrefixBelow(base, q, p);
      }
    }
    if forall q :: q < p ==> q !in NamePaths(files) {
      forall x | x < base + p ensures Find(t, x).None? {
        if base <= x {
          assert x == base + x[|base|..];
          PrefixBelow(base, x[|base|..], p);
        } else {
          SaveFinds(n, base, files, x);
          NotWrittenAbove(n, base, files, x);
          PrefixesMeet(base, p, x);
        }
      }
    }
  }

  lemma PrefixesMeet(base: Path, p: Path, x: Path)
    requires x <= base + p
    ensures x <= base || base <= x
  {
    if |x| <= |base| {
      assert x == (base + p)[..|x|] == base[..|x|];
    } else {
      assert base == (base + p)[..|base|] == x[..|base|];
    }
  }

  lemma {:induction false} NotWrittenAbove(n: Node, base: Path, files: seq<File>, x: Path)
    requires AllCanonical(files) && !(base < x)
    ensures Last(n, base, files, x) == Find(n, x)
  {
    if files != [] {
      var f := files[|files| - 1];
      assert f in files;
      CanonicalPath(base, f);
      NotWrittenAbove(n, base, files[..|files| - 1], x);
    }
  }

  lemma FoundIffNamed(n: Node, base: Path, files: seq<File>, q: Path)
    requires Vacant(n, base) && AllCanonical(files)
    ensures Last(n, base, files, base + q).Some? <==> q in NamePaths(files)
  {
    assert Find(n, base + q).None? by {
      assert q == [] ==> base + q == base;
    }
    if Last(n, base, files, base + q).Some? {
      var i := LastWriter(n, base, files, base + q);
      assert files[i] in files;
      CanonicalPath(base, files[i]);
      assert (base + q)[|base|..] == q && (base + Split(files[i].name))[|base|..] == Split(files[i].name);
      assert NamePaths(files)[i] == q;
    }
    if q in NamePaths(files) {
      var i :| 0 <= i < |files| && NamePaths(files)[i] == q;
      assert files[i] in files;
      CanonicalPath(base, files[i]);
      LastExists(n, base, files, i);
    }
  }

  /** Distinct restorable files are all saved and come back just when none of them clash. */
  lemma TreeRoundTrip(n: Node, base: Path, m: File, files: seq<File>)
    ensures var saved := SaveAll(n, base, [m] + files);
            Real(base) && Vacant(n, base) && IsManifest(m) && DistinctNames(files)
            && (forall f :: f in files ==> Restorable(f)) ==>
              if NoClash(NamePaths([m] + files)) then
                saved.Some? && NodeAt(saved.value, base).Some?
                && var r := Load(NodeAt(saved.value, base).value);
                r.Instance? && r.yaml == m.contents && multiset(r.files) == multiset(files) && InWalkOrder(r.files)
              else saved.None?
  {
    if Real(base) && Vacant(n, base) && IsManifest(m) && DistinctNames(files) && forall f :: f in files ==> Restorable(f) {
      ManifestName(m);
      WholeIsCanonical(m, files);
      SaveSucceeds(n, base, [m] + files);
      RoundTripExactly(n, base, m, files);
    }
  }

  /** The walk's order is not the order of the names as strings. */
  lemma WalkOrderIsNotStringOrder()
    ensures PathLess(Split("a/x"), Split("a-b")) && Less("a-b", "a/x")
  {
    SplitJoin(["a", "x"]);
    SplitJoin(["a-b"]);
  }

  // ------------------------------------------------- the adapter's own loops

  lemma SaveAllStep(n: Node, base: Path, files: seq<File>, k: nat)
    requires k < |files|
    ensures SaveAll(n, base, files[..k + 1])
         == if SaveAll(n, base, files[..k]).None? then None else SaveFile(SaveAll(n, base, files[..k]).value, base, files[k])
  {
    assert files[..k + 1][..k] == files[..k];
  }

  lemma {:induction false} SaveAllFails(n: Node, base: Path, files: seq<File>, k: nat)
    requires k <= |files| && SaveAll(n, base, files[..k]).None?
    ensures SaveAll(n, base, files).None?
    decreases |files|
  {
    if k < |files| {
      assert files[..|files| - 1][..k] == files[..k];
      SaveAllFails(n, base, files[..|files| - 1], k);
    } else {
      assert files[..k] == files;
    }
  }

  /** The tree after the first k files. */
  function SaveFirst(n: Node, base: Path, files: seq<File>, k: nat): Option<Node>
    requires k <= |files|
  {
    if k == 0 then Some(n)
    else
      var before := SaveFirst(n, base, files, k - 1);
      if before.None? then None else SaveFile(before.value, base, files[k - 1])
  }

  lemma {:induction false} SaveFirstIsSaveAll(n: Node, base: Path, files: seq<File>, k: nat)
    requires k <= |files|
    ensures SaveFirst(n, base, files, k) == SaveAll(n, base, files[..k])
  {
    if k > 0 {
      SaveFirstIsSaveAll(n, base, files, k - 1);
      SaveAllStep(n, base, files, k - 1);
    }
  }

  /** The files read as they were left by just the first k of the writes. */
  ghost predicate HoldsPrefix(before: Node, base: Path, files: seq<File>, k: nat, now: Node)
    requires k <= |files|
  {
    SaveAll(before, base, files[..k]).Some? && forall p :: Find(now, p) == Last(before, base, files[..k], p)
  }

  /** No file differs between the trees, though one may have more directories. */
  ghost predicate SameFiles(n: Node, m: Node) {
    forall p :: Find(n, p) == Find(m, p)
  }

  /** A failed turn leaves the writes before it, and at most some new directories. */
  lemma FailedTurn(before: Node, base: Path, files: seq<File>, k: nat, t: Node, now: Node)
    requires k < |files| && SaveFirst(before, base, files, k) == Some(t) && SaveFile(t, base, files[k]).None?
    requires SameFiles(t, now)
    ensures SaveAll(before, base, files).None? && HoldsPrefix(before, base, files, k, now)
  {
    SaveFirstIsSaveAll(before, base, files, k);
    SaveFirstIsSaveAll(before, base, files, k + 1);
    SaveAllFails(before, base, files, k + 1);
    forall p ensures Find(now, p) == Last(before, base, files[..k], p) {
      SaveFinds(before, base, files[..k], p);
    }
  }

  lemma MakeAllSameFiles(n: Node, at: Path, steps: Path)
    requires MakeAll(n, at, steps).Some?
    ensures SameFiles(n, MakeAll(n, at, steps).value)
  {
    forall p ensures Find(n, p) == Find(MakeAll(n, at, steps).value, p) {
      MakeAllLaws(n, at, steps, p);
    }
  }

  /** A file system with the path of one instance directory. */
  class InstanceDir {
    var tree: Node
    const base: Path

    constructor (tree: Node, base: Path)
      ensures this.tree == tree && this.base == base
    {
      this.tree, this.base := tree, base;
    }

    /** Makes a directory and all that lead to it; no file changes even if it fails. */
    method MkdirAll(directory: string) returns (ok: bool)
      modifies this`tree
      ensures MakeAll(old(tree), base, Split(directory)) == if ok then Some(tree) else None
      ensures SameFiles(old(tree), tree)
    {
      var made := MakeAll(tree, base, Split(directory));
      ok := made.Some?;
      if ok {
        MakeAllSameFiles(tree, base, Split(directory));
        tree := made.value;
      }
    }

    method WriteFile(name: string, contents: string) returns (ok: bool)
      modifies this`tree
      ensures WriteAt(old(tree), base, Split(name), contents) == if ok then Some(tree) else None
      ensures !ok ==> tree == old(tree)
    {
      var put := WriteAt(tree, base, Split(name), contents);
      ok := put.Some?;
      if ok {
        tree := put.value;
      }
    }

    method SaveOne(f: File) returns (ok: bool)
      modifies this`tree
      ensures SaveFile(old(tree), base, f) == if ok then Some(tree) else None
      ensures !ok ==> SameFiles(old(tree), tree)
    {
      ok := MkdirAll(f.directory);
      if ok {
        ok := WriteFile(f.name, f.contents);
      }
    }

    /**
     * Writes the manifest of the request's yaml, then each file; a collision stops it with just the
     * first k writes in place.
     */
    method WriteInstance(manifest: File, files: seq<File>) returns (ok: bool, ghost k: nat)
      modifies this`tree
      ensures SaveAll(old(tree), base, [manifest] + files) == if ok then Some(tree) else None
      ensures !ok ==> k <= |files| && HoldsPrefix(old(tree), base, [manifest] + files, k, tree)
    {
      ghost var whole, before := [manifest] + files, tree;
      k := 0;
      ok := SaveOne(manifest);
      if !ok {
        FailedTurn(before, base, whole, k, before, tree);
        return;
      }
      k := 1;
      var i := 0;
      while i < |files|
        invariant k == i + 1 <= |whole|
        invariant ok && SaveFirst(before, base, whole, k) == Some(tree)
      {
        ghost var t := tree;
        ok := SaveOne(files[i]);
        if !ok {
          FailedTurn(before, base, whole, k, t, tree);
          return;
        }
        i, k := i + 1, k + 1;
      }
      SaveFirstIsSaveAll(before, base, whole, k);
      assert whole[..k] == whole;
    }

    /** Reads the manifest, then walks the directory and keeps every other file. */
    method LoadInstance() returns (r: Loaded)
      ensures r == if NodeAt(tree, base).None? then NoManifest else Load(NodeAt(tree, base).value)
    {
      var dir := NodeAt(tree, base);
      if dir.None? {
        return NoManifest;
      }
      var manifest := [KUSTOMIZATION_FILE_NAME];
      if dir.value.FileNode? || IsDir(dir.value, manifest) {
        return Unreadable;
      }
      var contents := Find(dir.value, manifest);
      if contents.None? {
        return NoManifest;
      }
      var walked := Walk(dir.value);
      var files := [];
      var i := 0;
      while i < |walked|
        invariant 0 <= i <= |walked|
        invariant files == LoadFiles(walked[..i])
      {
        var relativePath := Join(walked[i].0);
        assert walked[..i + 1][..i] == walked[..i];
        if relativePath != KUSTOMIZATION_FILE_NAME {
          files := files + [File(relativePath, Parent(walked[i].0), walked[i].1)];
        }
        i := i + 1;
      }
      assert walked[..|walked|] == walked;
      r := Instance(contents.value, files);
    }
  }
}
