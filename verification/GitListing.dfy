/** The git getter: loads the instance directories in order, or just the one asked for. */
module GitListing {
  import opened Requests
  import opened FileTree
  import Paging

  datatype Listed = Listed(name: string, yaml: string, files: seq<File>)

  /** Loads one directory; None is an error. A directory without a manifest is an error only when it was asked for. */
  function LoadOne(name: string, dir: Node, required: bool): Option<seq<Listed>> {
    match Load(dir)
    case Unreadable => None
    case NoManifest => if required then None else Some([])
    case Instance(yaml, files) => Some([Listed(name, yaml, files)])
  }

  function Append(a: Option<seq<Listed>>, b: Option<seq<Listed>>): Option<seq<Listed>> {
    if a.None? || b.None? then None else Some(a.value + b.value)
  }

  /** All instances of a directory listing. */
  function LoadAll(es: Entries): Option<seq<Listed>> {
    match es
    case Nil => Some([])
    case Cons(name, node, rest) =>
      Append(LoadEntry(name, node), LoadAll(rest))
  }

  /** The one instance asked for, or nothing when there is no such directory. */
  function LoadNamed(es: Entries, name: string): Option<seq<Listed>> {
    match es
    case Nil => Some([])
    case Cons(next, node, rest) =>
      if node.DirNode? && next == name then LoadOne(name, node, true) else LoadNamed(rest, name)
  }

  lemma AppendAssociates(a: Option<seq<Listed>>, b: Option<seq<Listed>>, c: Option<seq<Listed>>)
    ensures Append(a, Append(b, c)) == Append(Append(a, b), c)
  {
    if a.Some? && b.Some? && c.Some? {
      assert a.value + (b.value + c.value) == a.value + b.value + c.value;
    }
  }

  /** What one entry contributes to a listing. */
  function LoadEntry(name: string, node: Node): Option<seq<Listed>> {
    if node.DirNode? then LoadOne(name, node, false) else Some([])
  }

  class GitGetter {
    var instances: seq<Listed>

    constructor ()
      ensures instances == []
    {
      instances := [];
    }

    method LoadInstance(name: string, dir: Node, required: bool) returns (ok: bool)
      modifies this
      ensures ok <==> LoadOne(name, dir, required).Some?
      ensures instances == old(instances) + if ok then LoadOne(name, dir, required).value else []
    {
      var inDir := new InstanceDir(dir, []);
      var loaded := inDir.LoadInstance();
      match loaded
      case Unreadable => ok := false;
      case NoManifest => ok := !required;
      case Instance(yaml, files) =>
        instances := instances + [Listed(name, yaml, files)];
        ok := true;
    }

    /** The entries of the instances directory, sorted by name; a page is cut unless one name was asked for. */
    method Run(es: Entries, name: string, start: Paging.int32, stop: Paging.int32) returns (ok: bool)
      requires instances == []
      requires name == "" && LoadAll(es).Some? ==>
                 Paging.Listable(LoadAll(es).value) && Paging.Page(LoadAll(es).value, start, stop).Some?
      modifies this
      ensures var whole := if name == "" then LoadAll(es) else LoadNamed(es, name);
              && (ok <==> whole.Some?)
              && (ok ==> instances == if name == "" then Paging.Page(whole.value, start, stop).value else whole.value)
    {
      if name != "" {
        ok := RunNamed(es, name);
        return;
      }
      ok := RunAll(es);
      if ok {
        CutToPage(start, stop);
      }
    }

    method RunAll(es: Entries) returns (ok: bool)
      requires instances == []
      modifies this
      ensures ok <==> LoadAll(es).Some?
      ensures ok ==> instances == LoadAll(es).value
    {
      var cur := es;
      assert LoadAll(es).Some? ==> [] + LoadAll(es).value == LoadAll(es).value;
      while cur.Cons?
        invariant LoadAll(es) == Append(Some(instances), LoadAll(cur))
        decreases cur
      {
        AppendAssociates(Some(instances), LoadEntry(cur.name, cur.node), LoadAll(cur.rest));
        assert instances + [] == instances;
        if cur.node.DirNode? {
          ok := LoadInstance(cur.name, cur.node, false);
          if !ok {
            return;
          }
        }
        cur := cur.rest;
      }
      assert instances + [] == instances;
      ok := true;
    }

    method CutToPage(start: Paging.int32, stop: Paging.int32)
      requires Paging.Listable(instances) && Paging.Page(instances, start, stop).Some?
      modifies this
      ensures Some(instances) == Paging.Page(old(instances), start, stop)
    {
      var length := |instances| as Paging.int32;
      var indexStart, indexStop := Paging.ConvertStartStopToSliceIndexes(start, stop, length);
      if indexStop == 0 {
        instances := instances[indexStart as int..];
      } else {
        instances := instances[indexStart as int..indexStop as int];
      }
    }

    method RunNamed(es: Entries, name: string) returns (ok: bool)
      requires instances == []
      modifies this
      ensures ok <==> LoadNamed(es, name).Some?
      ensures ok ==> instances == LoadNamed(es, name).value
    {
      var cur := es;
      while cur.Cons?
        invariant instances == [] && LoadNamed(es, name) == LoadNamed(cur, name)
        decreases cur
      {
        if cur.node.DirNode? && cur.name == name {
          ok := LoadInstance(cur.name, cur.node, true);
          return;
        }
        cur := cur.rest;
      }
      ok := true;
    }
  }

  // ------------------------------------------------------------------- laws

  predicate Holds(es: Entries, x: Listed) {
    var dir := Get(es, x.name);
    dir.Some? && dir.value.DirNode? && Load(dir.value) == Instance(x.yaml, x.files)
  }

  lemma {:induction false} LoadedNamesAbove(floor: string, es: Entries, x: Listed)
    requires Above(floor, es) && LoadAll(es).Some? && x in LoadAll(es).value
    ensures Less(floor, x.name)
  {
    if x in LoadAll(es.rest).value {
      LoadedNamesAbove(floor, es.rest, x);
    }
  }

  /** A listing names every directory that holds a manifest, and nothing else. */
  lemma {:induction false} ListedExactly(es: Entries, x: Listed)
    requires OrderedIn(es) && LoadAll(es).Some?
    ensures x in LoadAll(es).value <==> Holds(es, x)
  {
    match es
    case Nil =>
    case Cons(name, node, rest) =>
      ListedExactly(rest, x);
      AboveMissing(name, rest);
  }

  /** A listing is strictly sorted by name, so each instance is in it once. */
  lemma {:induction false} ListedInOrder(es: Entries)
    requires OrderedIn(es) && LoadAll(es).Some?
    ensures forall i, j :: 0 <= i < j < |LoadAll(es).value| ==> Less(LoadAll(es).value[i].name, LoadAll(es).value[j].name)
  {
    match es
    case Nil =>
    case Cons(name, node, rest) =>
      ListedInOrder(rest);
      forall x | x in LoadAll(rest).value ensures Less(name, x.name) {
        LoadedNamesAbove(name, rest, x);
      }
  }

  predicate UnreadableAt(es: Entries, name: string) {
    var dir := Get(es, name);
    dir.Some? && dir.value.DirNode? && Load(dir.value).Unreadable?
  }

  /** A listing fails exactly when some directory's manifest cannot be read. */
  lemma {:induction false} ListingFailsExactly(es: Entries)
    requires OrderedIn(es)
    ensures LoadAll(es).None? <==> exists name :: UnreadableAt(es, name)
  {
    match es
    case Nil =>
    case Cons(name, node, rest) =>
      ListingFailsExactly(rest);
      AboveMissing(name, rest);
      assert UnreadableAt(es, name) <==> node.DirNode? && Load(node).Unreadable?;
      forall n | n != name ensures UnreadableAt(es, n) <==> UnreadableAt(rest, n) {
      }
      assert !UnreadableAt(rest, name);
  }

  /**
   * Asking for one name finds what the listing has of it; it fails where the listing does on that
   * directory, and also where the listing passes over a directory without a manifest.
   */
  lemma {:induction false} NamedAgreesWithListing(es: Entries, name: string)
    requires OrderedIn(es)
    ensures LoadNamed(es, name).None? <==>
              && Get(es, name).Some? && Get(es, name).value.DirNode?
              && !Load(Get(es, name).value).Instance?
    ensures LoadNamed(es, name).Some? && LoadAll(es).Some? ==>
              |LoadNamed(es, name).value| <= 1
              && forall x :: x in LoadNamed(es, name).value <==> x.name == name && x in LoadAll(es).value
  {
    match es
    case Nil =>
    case Cons(next, node, rest) =>
      NamedAgreesWithListing(rest, name);
      AboveMissing(next, rest);
      forall x | LoadAll(es).Some? ensures x in LoadAll(es).value <==> Holds(es, x) {
        ListedExactly(es, x);
      }
      forall x | LoadAll(rest).Some? ensures x in LoadAll(rest).value <==> Holds(rest, x) {
        ListedExactly(rest, x);
      }
  }
}
