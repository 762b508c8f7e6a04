/** Names as paths of components, and the path that a name given below a directory resolves to. */
module Paths {

  type Path = seq<string>

  /** The components of a slash-separated name. */
  function Split(s: string): (p: Path)
    ensures p != []
  {
    if s == "" then [""]
    else
      var rest := Split(s[1..]);
      if s[0] == '/' then [""] + rest else [[s[0]] + rest[0]] + rest[1..]
  }

  function Join(p: Path): string {
    if p == [] then "" else if |p| == 1 then p[0] else p[0] + "/" + Join(p[1..])
  }

  /** One component further: empty and "." stay, ".." climbs (and stays at the root), a name descends. */
  function Step(at: Path, c: string): Path {
    if c == "" || c == "." then at
    else if c == ".." then if at == [] then [] else at[..|at| - 1]
    else at + [c]
  }

  /** Where a path leads from a directory. */
  function Resolve(at: Path, steps: Path): Path
    decreases |steps|
  {
    if steps == [] then at else Resolve(Step(at, steps[0]), steps[1..])
  }

  /** filepath.Join of a directory and a name. */
  function FilePath(dir: Path, name: string): Path {
    Resolve(dir, Split(name))
  }

  /** A component that names an entry of a directory. */
  predicate RealName(c: string) {
    c != "" && c != "." && c != ".." && '/' !in c
  }

  predicate Real(p: Path) {
    forall i :: 0 <= i < |p| ==> RealName(p[i])
  }

  // ---------------------------------------------------------- splitting and joining

  lemma Regroup(a: string, b: string, c: string, d: string)
    ensures a + (b + c + d) == (a + b) + c + d
  {
  }

  lemma JoinPrefix(c: string, p: Path)
    requires p != []
    ensures Join([c + p[0]] + p[1..]) == c + Join(p)
  {
    if |p| > 1 {
      assert ([c + p[0]] + p[1..])[1..] == p[1..];
      Regroup(c, p[0], "/", Join(p[1..]));
    }
  }

  lemma JoinSlash(p: Path)
    requires p != []
    ensures Join([""] + p) == "/" + Join(p)
  {
    assert ([""] + p)[1..] == p;
  }

  lemma {:induction false} JoinSplit(s: string)
    ensures Join(Split(s)) == s
  {
    if s != "" {
      var rest := Split(s[1..]);
      JoinSplit(s[1..]);
      JoinSlash(rest);
      JoinPrefix([s[0]], rest);
      assert s == [s[0]] + s[1..];
    }
  }

  lemma {:induction false} SplitSlashless(s: string)
    ensures forall i :: 0 <= i < |Split(s)| ==> '/' !in Split(s)[i]
  {
    if s != "" {
      SplitSlashless(s[1..]);
    }
  }

  lemma SplitStep(s: string)
    requires s != "" && s[0] != '/'
    ensures Split(s) == [[s[0]] + Split(s[1..])[0]] + Split(s[1..])[1..]
  {
  }

  lemma {:induction false} SplitPrefix(c: string, s: string)
    requires '/' !in c
    ensures Split(c + s) == [c + Split(s)[0]] + Split(s)[1..]
  {
    if c == "" {
      assert c + s == s;
      assert c + Split(s)[0] == Split(s)[0];
    } else {
      SplitPrefix(c[1..], s);
      SplitStep(c + s);
      assert (c + s)[1..] == c[1..] + s;
      assert c + Split(s)[0] == [c[0]] + (c[1..] + Split(s)[0]);
    }
  }

  lemma SplitPlain(c: string)
    requires '/' !in c
    ensures Split(c) == [c]
  {
    SplitPrefix(c, "");
    assert c + "" == c;
  }

  lemma {:induction false} SplitJoin(p: Path)
    requires p != [] && forall i :: 0 <= i < |p| ==> '/' !in p[i]
    ensures Split(Join(p)) == p
  {
    if |p| == 1 {
      SplitPlain(p[0]);
    } else {
      SplitJoin(p[1..]);
      var tail := "/" + Join(p[1..]);
      assert tail[1..] == Join(p[1..]);
      SplitPrefix(p[0], tail);
      assert Join(p) == p[0] + tail;
      assert p[0] + "" == p[0];
    }
  }

  // ------------------------------------------------------------------- resolving

  /** A path of real names leads where it says. */
  lemma {:induction false} ResolveReal(at: Path, steps: Path)
    requires Real(steps)
    ensures Resolve(at, steps) == at + steps
    decreases |steps|
  {
    if steps == [] {
      assert at + steps == at;
    } else {
      assert RealName(steps[0]);
      ResolveReal(at + [steps[0]], steps[1..]);
      assert at + [steps[0]] + steps[1..] == at + steps;
    }
  }

  lemma {:induction false} ResolveIsReal(at: Path, steps: Path)
    requires Real(at) && forall i :: 0 <= i < |steps| ==> '/' !in steps[i]
    ensures Real(Resolve(at, steps))
    decreases |steps|
  {
    if steps != [] {
      ResolveIsReal(Step(at, steps[0]), steps[1..]);
    }
  }

  /** Resolving a name below a directory ends at a path of real names. */
  lemma FilePathIsReal(dir: Path, name: string)
    requires Real(dir)
    ensures Real(FilePath(dir, name))
  {
    SplitSlashless(name);
    ResolveIsReal(dir, Split(name));
  }

  /** A name that is a real path of its own leads there, and to no other place of the directory. */
  lemma FilePathOfReal(dir: Path, p: Path)
    requires p != [] && Real(p)
    ensures FilePath(dir, Join(p)) == dir + p
  {
    forall i | 0 <= i < |p| ensures '/' !in p[i] {
      assert RealName(p[i]);
    }
    SplitJoin(p);
    ResolveReal(dir, p);
  }

  /** The first component of a name is one step, and the rest goes on from there. */
  lemma FilePathThrough(dir: Path, c: string, rest: string)
    requires '/' !in c
    ensures FilePath(dir, c + "/" + rest) == FilePath(Step(dir, c), rest)
  {
    var tail := "/" + rest;
    assert tail[1..] == rest;
    SplitPrefix(c, tail);
    assert c + "/" + rest == c + tail && c + "" == c;
    assert Split(tail) == [""] + Split(rest);
    assert Split(c + tail) == [c] + Split(rest);
  }

  lemma FilePathPlain(dir: Path, c: string)
    requires '/' !in c
    ensures FilePath(dir, c) == Step(dir, c)
  {
    SplitPlain(c);
    var none := [c][1..];
    assert none == [] && Resolve(Step(dir, c), none) == Step(dir, c);
  }

  /** Empty and dot components do not count. */
  lemma DotsDoNotCount(dir: Path, rest: string)
    ensures FilePath(dir, "") == FilePath(dir, ".") == dir
    ensures FilePath(dir, "/" + rest) == FilePath(dir, "./" + rest) == FilePath(dir, rest)
  {
    FilePathPlain(dir, "");
    FilePathPlain(dir, ".");
    FilePathThrough(dir, "", rest);
    FilePathThrough(dir, ".", rest);
    assert "" + "/" + rest == "/" + rest && "." + "/" + rest == "./" + rest;
  }

  /** Two dots do not climb out of the root. */
  lemma RootIsTop(rest: string)
    ensures FilePath([], "../" + rest) == FilePath([], rest)
  {
    FilePathThrough([], "..", rest);
    assert ".." + "/" + rest == "../" + rest;
  }

  /** A name descends, and two dots behind it climb back. */
  lemma NamesDescend(dir: Path, c: string, rest: string)
    requires RealName(c)
    ensures FilePath(dir, c) == dir + [c] && FilePath(dir, c + "/" + rest) == FilePath(dir + [c], rest)
    ensures FilePath(dir + [c], "..") == dir && FilePath(dir + [c], "../" + rest) == FilePath(dir, rest)
    ensures FilePath(dir, c + "/" + ("../" + rest)) == FilePath(dir, rest)
  {
    FilePathPlain(dir, c);
    FilePathPlain(dir + [c], "..");
    FilePathThrough(dir, c, rest);
    FilePathThrough(dir + [c], "..", rest);
    FilePathThrough(dir, c, "../" + rest);
    assert ".." + "/" + rest == "../" + rest;
    assert (dir + [c])[..|dir|] == dir;
  }
}
