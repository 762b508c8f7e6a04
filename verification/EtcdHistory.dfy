/** What whole runs of the etcd machine guarantee: no lost update, nothing stored unvalidated, partial commits. */
module EtcdHistory {
  import opened Paths
  import opened Requests
  import opened Keys
  import opened EtcdMachine
  import opened EtcdInvariant

  // ---------------------------------------------------------------- the write log

  /** The manifest of a name after the logged writes. */
  function Replay(first: Option<string>, log: seq<Event>, name: string): Option<string> {
    if log == [] then first
    else if log[|log| - 1].name == name then log[|log| - 1].after
    else Replay(first, log[..|log| - 1], name)
  }

  function StoredYaml(s: Sys, name: string): Option<string> {
    YamlAt(s.env.kv, name)
  }

  /** An event is the first write of one request that reached its commit. */
  predicate EventMatches(reqs: seq<Request>, s: Sys, e: Event)
    requires |s.procs| == |reqs|
  {
    && e.request < |reqs|
    && s.procs[e.request].committed
    && e.name == reqs[e.request].name
    && e.before == YamlOf(s.procs[e.request].base)
    && e.after == if reqs[e.request].kind.Apply? then Some(s.procs[e.request].yaml) else None
  }

  ghost predicate LogMatches(reqs: seq<Request>, s: Sys)
    requires |s.procs| == |reqs|
  {
    && (forall k :: 0 <= k < |s.log| ==> EventMatches(reqs, s, s.log[k]))
    && (forall k, l :: 0 <= k < l < |s.log| ==> s.log[k].request != s.log[l].request)
    && (forall i :: 0 <= i < |reqs| && s.procs[i].committed ==> exists k :: 0 <= k < |s.log| && s.log[k].request == i)
  }

  /** The log explains the store, and each event found what the events before it had left. */
  ghost predicate LogExplains(names: set<string>, first: map<string, string>, s: Sys) {
    && (forall n :: n in names ==> StoredYaml(s, n) == Replay(YamlAt(first, n), s.log, n))
    && (forall k :: 0 <= k < |s.log| ==> s.log[k].before == Replay(YamlAt(first, s.log[k].name), s.log[..k], s.log[k].name))
  }

  ghost predicate HistoryInv(reqs: seq<Request>, names: set<string>, first: map<string, string>, s: Sys) {
    Inv(reqs, names, s) && LogMatches(reqs, s) && LogExplains(names, first, s)
  }

  /** Only the first write of a commit turns a request into a committed one, and it is logged. */
  lemma CommittedStep(me: nat, r: Request, p: Proc, v: View, c: Choice, reply: Reply)
    requires ProcInv(me, r, p, v) && !p.pc.Done?
    ensures var q := NextProc(r, p, v, c, reply);
            && (p.committed ==> q.committed && q.base == p.base && q.yaml == p.yaml && q.validated == p.validated)
            && if p.pc.Commit? && !c.FailBefore? then !p.committed && q.committed && q.base == v.entry && q.yaml == p.yaml
               else q.committed == p.committed
  {
  }

  /** How a step may change a request's history: nothing, or its one event is logged. */
  predicate HistoryStep(reqs: seq<Request>, s: Sys, t: Sys, i: nat, added: seq<Event>)
    requires |s.procs| == |t.procs| == |reqs| && i < |reqs|
  {
    var p, q := s.procs[i], t.procs[i];
    && t.procs == s.procs[i := q]
    && t.log == s.log + added
    && (p.committed ==> added == [] && q.committed && q.base == p.base && q.yaml == p.yaml)
    && (added == [] ==> q.committed == p.committed)
    && (added != [] ==> |added| == 1 && added[0].request == i && EventMatches(reqs, t, added[0]))
  }

  lemma LogMatchesExtend(reqs: seq<Request>, s: Sys, t: Sys, i: nat, added: seq<Event>)
    requires |s.procs| == |t.procs| == |reqs| && i < |reqs|
    requires LogMatches(reqs, s) && HistoryStep(reqs, s, t, i, added)
    ensures LogMatches(reqs, t)
  {
    forall k | 0 <= k < |t.log| ensures EventMatches(reqs, t, t.log[k]) {
      if k < |s.log| {
        assert EventMatches(reqs, s, s.log[k]);
      }
    }
    forall j | 0 <= j < |reqs| && t.procs[j].committed
      ensures exists k :: 0 <= k < |t.log| && t.log[k].request == j
    {
      if j == i && added != [] {
        assert t.log[|s.log|].request == i;
      } else {
        var k :| 0 <= k < |s.log| && s.log[k].request == j;
        assert t.log[k].request == j;
      }
    }
  }

  lemma LogMatchesStep(reqs: seq<Request>, names: set<string>, s: Sys, i: nat, c: Choice)
    requires Inv(reqs, names, s) && LogMatches(reqs, s) && Enabled(reqs, s, Act(i, c))
    ensures LogMatches(reqs, Next(reqs, s, Act(i, c)))
  {
    var t := Next(reqs, s, Act(i, c));
    HistoryStepOfAct(reqs, names, s, i, c);
    LogMatchesExtend(reqs, s, t, i, Logged(reqs[i], i, s.env, s.procs[i], c));
  }

  lemma HistoryStepOfAct(reqs: seq<Request>, names: set<string>, s: Sys, i: nat, c: Choice)
    requires Inv(reqs, names, s) && Enabled(reqs, s, Act(i, c))
    ensures HistoryStep(reqs, s, Next(reqs, s, Act(i, c)), i, Logged(reqs[i], i, s.env, s.procs[i], c))
  {
    assert ProcInv(i, reqs[i], s.procs[i], ViewOf(s.env, reqs[i]));
    var v, reply := StepSeen(i, reqs[i], s.procs[i], s.env, c);
    CommittedStep(i, reqs[i], s.procs[i], v, c, reply);
  }

  /** The manifest of a name after a step of a request. */
  lemma StoredYamlStep(r: Request, p: Proc, kv: map<string, string>, c: Choice, n: string)
    requires '/' !in r.name && '/' !in n && (r.name <= n ==> r.name == n)
    requires FilesOf(kv, r.name) != map[] ==> InstanceKey(r.name) in kv
    ensures YamlAt(KvStep(r, p, kv, c), n)
         == if p.pc.Commit? && !c.FailBefore? && r.name == n then (if r.kind.Apply? then Some(p.yaml) else None)
            else YamlAt(kv, n)
  {
    if n == r.name {
      OwnEntry(r, p, kv, c);
    } else {
      OtherEntry(r, p, kv, c, n);
    }
  }

  lemma LogExplainsExtend(names: set<string>, first: map<string, string>, s: Sys, t: Sys, added: seq<Event>)
    requires LogExplains(names, first, s)
    requires t.log == s.log + added && |added| <= 1
    requires added != [] ==> added[0].name in names && added[0].before == StoredYaml(s, added[0].name)
    requires YamlsFollow(names, s.env.kv, t.env.kv, added)
    ensures LogExplains(names, first, t)
  {
    if added == [] {
      assert t.log == s.log;
    } else {
      EventExplained(names, first, s, t, added[0]);
    }
  }

  lemma EventExplained(names: set<string>, first: map<string, string>, s: Sys, t: Sys, e: Event)
    requires LogExplains(names, first, s) && t.log == s.log + [e]
    requires e.name in names && e.before == StoredYaml(s, e.name)
    requires forall n :: n in names ==> StoredYaml(t, n) == if e.name == n then e.after else StoredYaml(s, n)
    ensures LogExplains(names, first, t)
  {
    assert t.log[..|s.log|] == s.log && t.log[|s.log|] == e;
    forall k | 0 <= k < |t.log|
      ensures t.log[k].before == Replay(YamlAt(first, t.log[k].name), t.log[..k], t.log[k].name)
    {
      if k < |s.log| {
        assert t.log[..k] == s.log[..k];
      } else {
        assert t.log[..k] == s.log;
      }
    }
  }

  /** The manifests of all names after a step, seen through what it logs. */
  ghost predicate YamlsFollow(names: set<string>, kv: map<string, string>, kv': map<string, string>, added: seq<Event>) {
    forall n :: n in names ==>
      YamlAt(kv', n) == if added != [] && added[0].name == n then added[0].after else YamlAt(kv, n)
  }

  lemma YamlsStep(names: set<string>, i: nat, r: Request, p: Proc, e: Env, c: Choice)
    requires CleanNames(names) && r.name in names && NoOrphanFiles(e.kv, names)
    ensures YamlsFollow(names, e.kv, KvStep(r, p, e.kv, c), Logged(r, i, e, p, c))
  {
    var kv', added := KvStep(r, p, e.kv, c), Logged(r, i, e, p, c);
    forall n | n in names
      ensures YamlAt(kv', n) == if added != [] && added[0].name == n then added[0].after else YamlAt(e.kv, n)
    {
      CleanPair(names, r.name, n);
      StoredYamlStep(r, p, e.kv, c, n);
    }
  }

  lemma NextKv(reqs: seq<Request>, s: Sys, i: nat, c: Choice)
    requires |s.procs| == |reqs| && Enabled(reqs, s, Act(i, c))
    ensures Next(reqs, s, Act(i, c)).env.kv == KvStep(reqs[i], s.procs[i], s.env.kv, c)
  {
    KvStepServed(i, reqs[i], s.procs[i], s.env, c);
  }

  lemma LogExplainsStep(reqs: seq<Request>, names: set<string>, first: map<string, string>, s: Sys, i: nat, c: Choice)
    requires |s.procs| == |reqs| && Enabled(reqs, s, Act(i, c)) && reqs[i].name in names
    requires LogExplains(names, first, s)
    requires YamlsFollow(names, s.env.kv, Next(reqs, s, Act(i, c)).env.kv, Logged(reqs[i], i, s.env, s.procs[i], c))
    ensures LogExplains(names, first, Next(reqs, s, Act(i, c)))
  {
    LogExplainsExtend(names, first, s, Next(reqs, s, Act(i, c)), Logged(reqs[i], i, s.env, s.procs[i], c));
  }

  lemma HistoryInvStep(reqs: seq<Request>, names: set<string>, first: map<string, string>, s: Sys, a: Action)
    requires CleanRequests(reqs, names) && HistoryInv(reqs, names, first, s) && Enabled(reqs, s, a)
    ensures HistoryInv(reqs, names, first, Next(reqs, s, a))
  {
    InvStep(reqs, names, s, a);
    match a
    case Act(i, c) =>
      LogMatchesStep(reqs, names, s, i, c);
      NextKv(reqs, s, i, c);
      YamlsStep(names, i, reqs[i], s.procs[i], s.env, c);
      LogExplainsStep(reqs, names, first, s, i, c);
    case Expire(l) => ExpireKeepsHistory(reqs, names, first, s, l);
  }

  lemma ExpireKeepsHistory(reqs: seq<Request>, names: set<string>, first: map<string, string>, s: Sys, l: string)
    requires |s.procs| == |reqs| && LogMatches(reqs, s) && LogExplains(names, first, s) && Enabled(reqs, s, Expire(l))
    ensures LogMatches(reqs, Next(reqs, s, Expire(l))) && LogExplains(names, first, Next(reqs, s, Expire(l)))
  {
    var t := Next(reqs, s, Expire(l));
    forall k | 0 <= k < |t.log| ensures EventMatches(reqs, t, t.log[k]) {
      assert EventMatches(reqs, s, s.log[k]);
    }
    LogExplainsExtend(names, first, s, t, []);
  }

  lemma {:induction false} HistoryReachable(
    reqs: seq<Request>, names: set<string>, s: Sys, trace: seq<Action>)
    requires CleanRequests(reqs, names) && Initial(reqs, names, s) && Legal(reqs, s, trace)
    ensures HistoryInv(reqs, names, s.env.kv, Exec(reqs, s, trace))
  {
    if trace == [] {
      InvInitially(reqs, names, s);
    } else {
      var init := trace[..|trace| - 1];
      HistoryReachable(reqs, names, s, init);
      HistoryInvStep(reqs, names, s.env.kv, Exec(reqs, s, init), trace[|trace| - 1]);
    }
  }

  // ------------------------------------------------------------- no lost update

  /** The one event of a request that has written. */
  lemma EventOf(reqs: seq<Request>, s: Sys, i: nat) returns (k: nat)
    requires |s.procs| == |reqs| && LogMatches(reqs, s) && i < |reqs| && s.procs[i].committed
    ensures k < |s.log| && s.log[k].request == i && EventMatches(reqs, s, s.log[k])
    ensures forall l :: 0 <= l < |s.log| && s.log[l].request == i ==> l == k
  {
    k :| k < |s.log| && s.log[k].request == i;
  }

  /** A successful request wrote exactly once, and what it overwrote or removed is the old instance it named. */
  lemma NoLostUpdate(reqs: seq<Request>, names: set<string>, s: Sys, trace: seq<Action>, i: nat) returns (k: nat)
    requires CleanRequests(reqs, names) && Initial(reqs, names, s) && Legal(reqs, s, trace) && i < |reqs|
    ensures var log, p := Exec(reqs, s, trace).log, Exec(reqs, s, trace).procs[i];
            p.pc.Done? && p.outcome.Ok? ==>
            && k < |log| && log[k].request == i && log[k].name == reqs[i].name
            && (forall l :: 0 <= l < |log| && log[l].request == i ==> l == k)
            && log[k].before == Replay(YamlAt(s.env.kv, reqs[i].name), log[..k], reqs[i].name)
            && (reqs[i].oldInstance.Some? ==> log[k].before == Some(reqs[i].oldInstance.value.yaml))
            && (reqs[i].kind.Apply? ==> log[k].after == Some(reqs[i].yaml))
            && (reqs[i].kind.Delete? ==> log[k].before.Some? && log[k].after.None?)
  {
    HistoryReachable(reqs, names, s, trace);
    var t := Exec(reqs, s, trace);
    assert ProcInv(i, reqs[i], t.procs[i], ViewOf(t.env, reqs[i]));
    k := 0;
    if t.procs[i].pc.Done? && t.procs[i].outcome.Ok? {
      k := EventOf(reqs, t, i);
    }
  }

  /** The manifest a replay ends with was left by the last writer of the name, at or after any given writer. */
  lemma {:induction false} LastWriter(first: Option<string>, log: seq<Event>, name: string, k: nat) returns (m: nat)
    requires k < |log| && log[k].name == name
    ensures k <= m < |log| && log[m].name == name && log[m].after == Replay(first, log, name)
  {
    if log[|log| - 1].name == name {
      m := |log| - 1;
    } else {
      m := LastWriter(first, log[..|log| - 1], name, k);
    }
  }

  /**
   * Two successes that named the same old manifest for one instance: from the first one's write on
   * and before the second's, some write of that instance put that manifest back.
   */
  lemma SameOldTwice(reqs: seq<Request>, names: set<string>, s: Sys, trace: seq<Action>, k: nat, l: nat)
    returns (m: nat)
    requires CleanRequests(reqs, names) && Initial(reqs, names, s) && Legal(reqs, s, trace)
    ensures var log := Exec(reqs, s, trace).log;
            k < l < |log| && log[k].name == log[l].name && log[k].before == log[l].before ==>
              k <= m < l && log[m].name == log[k].name && log[m].after == log[k].before
  {
    HistoryReachable(reqs, names, s, trace);
    var t := Exec(reqs, s, trace);
    m := k;
    if k < l < |t.log| && t.log[k].name == t.log[l].name && t.log[k].before == t.log[l].before {
      m := PutBackBetween(names, s.env.kv, t, k, l);
    }
  }

  lemma PutBackBetween(names: set<string>, first: map<string, string>, t: Sys, k: nat, l: nat) returns (m: nat)
    requires LogExplains(names, first, t) && k < l < |t.log|
    requires t.log[k].name == t.log[l].name && t.log[k].before == t.log[l].before
    ensures k <= m < l && t.log[m].name == t.log[k].name && t.log[m].after == t.log[k].before
  {
    m := LastWriter(YamlAt(first, t.log[l].name), t.log[..l], t.log[l].name, k);
  }

  // ------------------------------------------------- validated, stored, removed

  /** The last file whose name resolves to the manifest's path, if there is one, has the manifest's contents. */
  predicate Unshadowed(dir: Path, yaml: string, files: seq<File>) {
    forall k :: 0 <= k < |files| && LastAtPath(dir, files, |files|, k) && FilePath(dir, files[k].name) == ManifestPath(dir)
      ==> files[k].contents == yaml
  }

  lemma DiskYamlExact(dir: Path, yaml: string, files: seq<File>)
    ensures DiskYaml(dir, yaml, files, |files|) == yaml <==> Unshadowed(dir, yaml, files)
  {
    var n := |files|;
    var k := WrittenByLast(dir, yaml, files, n, ManifestPath(dir));
    forall j: nat | LastAtPath(dir, files, n, j) && FilePath(dir, files[j].name) == ManifestPath(dir)
      ensures files[j].contents == DiskYaml(dir, yaml, files, n)
    {
      LastAtPathWritten(dir, yaml, files, n, j);
    }
  }

  lemma CommittedManifest(me: nat, r: Request, p: Proc, v: View)
    requires ProcInv(me, r, p, v) && p.committed && p.validated.Some?
    ensures Accepted(r, p) && ManifestPath(r.Dir()) in p.validated.value
    ensures r.kind.Delete? ==> YamlOf(p.base) == Some(p.yaml)
    ensures p.validated.value[ManifestPath(r.Dir())] == p.yaml <==> Unshadowed(r.Dir(), p.yaml, r.files)
  {
    DiskYamlExact(r.Dir(), p.yaml, r.files);
    assert r.Dir() < ManifestPath(r.Dir());
  }

  /** In every reachable state a request at its commit, or past it, has had a tool look exactly when kubectl is on, or kustomize for an Apply. */
  lemma ToolRunsExactly(reqs: seq<Request>, names: set<string>, s: Sys, trace: seq<Action>, i: nat)
    requires CleanRequests(reqs, names) && Initial(reqs, names, s) && Legal(reqs, s, trace) && i < |reqs|
    ensures var r, p := reqs[i], Exec(reqs, s, trace).procs[i];
            p.pc.Commit? || p.committed ==>
              (p.validated.Some? <==> r.server.kubectl || (r.kind.Apply? && r.server.kustomize))
  {
    InvInitially(reqs, names, s);
    Reachable(reqs, names, s, trace);
    LookedOf(reqs, names, Exec(reqs, s, trace), i);
  }

  lemma LookedOf(reqs: seq<Request>, names: set<string>, s: Sys, i: nat)
    requires Inv(reqs, names, s) && i < |reqs|
    ensures s.procs[i].pc.Commit? || s.procs[i].committed ==> ToolLooked(reqs[i], s.procs[i])
  {
    assert ProcInv(i, reqs[i], s.procs[i], ViewOf(s.env, reqs[i]));
    if s.procs[i].pc.Commit? || s.procs[i].committed {
      LookedAt(i, reqs[i], s.procs[i], ViewOf(s.env, reqs[i]));
    }
  }

  lemma LookedAt(me: nat, r: Request, p: Proc, v: View)
    requires ProcInv(me, r, p, v) && (p.pc.Commit? || p.committed)
    ensures ToolLooked(r, p)
  {
  }

  /**
   * With a tool on, the manifest a committed request stored (Apply) or removed (Delete) is the one
   * its tool accepted exactly when no file of the request shadows it on disk.
   */
  lemma ValidatedIsCommitted(reqs: seq<Request>, names: set<string>, s: Sys, trace: seq<Action>, i: nat) returns (k: nat)
    requires CleanRequests(reqs, names) && Initial(reqs, names, s) && Legal(reqs, s, trace) && i < |reqs|
    ensures var t, manifest := Exec(reqs, s, trace), ManifestPath(reqs[i].Dir());
            var toolOn := reqs[i].server.kubectl || (reqs[i].kind.Apply? && reqs[i].server.kustomize);
            toolOn && t.procs[i].committed ==>
            && k < |t.log| && t.log[k].request == i
            && t.procs[i].validated.Some? && manifest in t.procs[i].validated.value
            && (Some(t.procs[i].validated.value[manifest]) == (if reqs[i].kind.Apply? then t.log[k].after else t.log[k].before)
                <==> Unshadowed(reqs[i].Dir(), t.procs[i].yaml, reqs[i].files))
  {
    HistoryReachable(reqs, names, s, trace);
    var t := Exec(reqs, s, trace);
    assert ProcInv(i, reqs[i], t.procs[i], ViewOf(t.env, reqs[i]));
    k := 0;
    if t.procs[i].validated.Some? && t.procs[i].committed {
      k := EventOf(reqs, t, i);
      CommittedManifest(i, reqs[i], t.procs[i], ViewOf(t.env, reqs[i]));
    }
  }

  /** A request whose file resolves to the manifest: the tool accepts "b" while "a" is stored. */
  lemma ShadowedManifest(server: Server, name: string)
    ensures var r := Request(Apply, server, name, "a", None, [File("./" + KUSTOMIZATION_FILE_NAME, ".", "b")]);
            DiskYaml(r.Dir(), r.yaml, r.files, |r.files|) == "b" && !Unshadowed(r.Dir(), r.yaml, r.files)
  {
    var file := File("./" + KUSTOMIZATION_FILE_NAME, ".", "b");
    var dir := FilePath(server.dir, name);
    DotSlash(dir, KUSTOMIZATION_FILE_NAME, file.name);
    assert Writes(dir, "a", [file], 1) == Writes(dir, "a", [file], 0)[ManifestPath(dir) := "b"];
    DiskYamlExact(dir, "a", [file]);
  }

  lemma DotSlash(dir: Path, name: string, file: string)
    requires RealName(name) && file == "./" + name
    ensures FilePath(dir, file) == dir + [name]
  {
    var steps := [".", name];
    SplitJoin(steps);
    assert steps[1..] == [name] && Join(steps) == "." + "/" + Join([name]);
    assert file == Join(steps);
    assert Resolve(dir, steps) == Resolve(dir, [name]);
    assert Real([name]);
    ResolveReal(dir, [name]);
  }

  // --------------------------------------------------- the rest of the directory

  /** The k-th file is the last of its name, so it is the one that stays stored under that name. */
  predicate LastOfName(files: seq<File>, k: nat) {
    k < |files| && forall j :: k < j < |files| ==> files[j].name != files[k].name
  }

  lemma LastOfNameExists(files: seq<File>, j: nat) returns (k: nat)
    requires j < |files|
    ensures j <= k && LastOfName(files, k) && files[k].name == files[j].name
    decreases |files| - j
  {
    if l :| j < l < |files| && files[l].name == files[j].name {
      k := LastOfNameExists(files, l);
    } else {
      k := j;
    }
  }

  predicate SameAtPath(dir: Path, f: File, g: File) {
    FilePath(dir, f.name) == FilePath(dir, g.name) ==> f.contents == g.contents
  }

  /** A file is stored with the contents it has on disk. */
  predicate StoredAsOnDisk(dir: Path, yaml: string, stored: map<string, string>, files: seq<File>, f: File) {
    && f.name in AddFiles(stored, files, |files|)
    && FilePath(dir, f.name) in Writes(dir, yaml, files, |files|)
    && AddFiles(stored, files, |files|)[f.name] == Writes(dir, yaml, files, |files|)[FilePath(dir, f.name)]
  }

  lemma StoredByLast(stored: map<string, string>, files: seq<File>, i: nat) returns (j: nat)
    requires i < |files|
    ensures LastOfName(files, j) && files[j].name == files[i].name
    ensures files[i].name in AddFiles(stored, files, |files|)
    ensures AddFiles(stored, files, |files|)[files[i].name] == files[j].contents
  {
    j := LastOfNameExists(files, i);
    LastFileWins(stored, files, |files|, j);
  }

  lemma OnDiskByLast(dir: Path, yaml: string, files: seq<File>, i: nat) returns (k: nat)
    requires i < |files|
    ensures LastOfName(files, k) && FilePath(dir, files[k].name) == FilePath(dir, files[i].name)
    ensures FilePath(dir, files[i].name) in Writes(dir, yaml, files, |files|)
    ensures Writes(dir, yaml, files, |files|)[FilePath(dir, files[i].name)] == files[k].contents
  {
    k := LastAtPathExists(dir, files, i);
    LastAtPathWritten(dir, yaml, files, |files|, k);
  }

  /** All files are stored as the tool had them on disk exactly when different names for one path come with the same contents. */
  lemma FilesOnDiskExactly(dir: Path, yaml: string, stored: map<string, string>, files: seq<File>)
    ensures (forall f :: f in files ==> StoredAsOnDisk(dir, yaml, stored, files, f)) <==>
              forall j: nat, k: nat :: LastOfName(files, j) && LastOfName(files, k) ==> SameAtPath(dir, files[j], files[k])
  {
    if forall f :: f in files ==> StoredAsOnDisk(dir, yaml, stored, files, f) {
      forall j: nat, k: nat | LastOfName(files, j) && LastOfName(files, k) ensures SameAtPath(dir, files[j], files[k]) {
        assert files[j] in files && files[k] in files;
        LastFileWins(stored, files, |files|, j);
        LastFileWins(stored, files, |files|, k);
      }
    } else {
      var f :| f in files && !StoredAsOnDisk(dir, yaml, stored, files, f);
      var i :| 0 <= i < |files| && files[i] == f;
      var j := StoredByLast(stored, files, i);
      var k := OnDiskByLast(dir, yaml, files, i);
      assert !SameAtPath(dir, files[j], files[k]);
    }
  }

  lemma LastAtPathExists(dir: Path, files: seq<File>, j: nat) returns (k: nat)
    requires j < |files|
    ensures LastAtPath(dir, files, |files|, k) && FilePath(dir, files[k].name) == FilePath(dir, files[j].name)
    decreases |files| - j
  {
    if l :| j < l < |files| && FilePath(dir, files[l].name) == FilePath(dir, files[j].name) {
      k := LastAtPathExists(dir, files, l);
    } else {
      k := j;
    }
  }

  /**
   * In a whole run, the directory contents that the tool of a committed request accepted hold every
   * file of the request that resolves below the directory, as its last write left it.
   */
  lemma ValidatedFiles(reqs: seq<Request>, names: set<string>, s: Sys, trace: seq<Action>, i: nat, k: nat)
    requires CleanRequests(reqs, names) && Initial(reqs, names, s) && Legal(reqs, s, trace) && i < |reqs|
    ensures var r, p := reqs[i], Exec(reqs, s, trace).procs[i];
            var toolOn := r.server.kubectl || (r.kind.Apply? && r.server.kustomize);
            toolOn && p.committed && LastAtPath(r.Dir(), r.files, |r.files|, k)
            && r.Dir() < FilePath(r.Dir(), r.files[k].name) ==>
              && p.validated.Some? && FilePath(r.Dir(), r.files[k].name) in p.validated.value
              && p.validated.value[FilePath(r.Dir(), r.files[k].name)] == r.files[k].contents
  {
    InvInitially(reqs, names, s);
    Reachable(reqs, names, s, trace);
    var r, t := reqs[i], Exec(reqs, s, trace);
    var p := t.procs[i];
    assert ProcInv(i, r, p, ViewOf(t.env, r));
    if p.committed && LastAtPath(r.Dir(), r.files, |r.files|, k) {
      LastAtPathWritten(r.Dir(), p.yaml, r.files, |r.files|, k);
    }
  }

  /** Different names for one path: the tool has "y" on disk for a file that is stored with "x". */
  lemma TwoNamesOnePath(dir: Path, yaml: string, stored: map<string, string>)
    ensures var files := [File("a", ".", "x"), File("./a", ".", "y")];
            && files[0] in files && !StoredAsOnDisk(dir, yaml, stored, files, files[0])
            && "a" in AddFiles(stored, files, 2) && AddFiles(stored, files, 2)["a"] == "x"
            && FilePath(dir, "a") in Writes(dir, yaml, files, 2) && Writes(dir, yaml, files, 2)[FilePath(dir, "a")] == "y"
  {
    var files := [File("a", ".", "x"), File("./a", ".", "y")];
    DotSlash(dir, "a", "./a");
    assert Real(["a"]) && Join(["a"]) == "a";
    FilePathOfReal(dir, ["a"]);
    assert AddFiles(stored, files, 2) == AddFiles(stored, files, 1)["./a" := "y"];
    assert AddFiles(stored, files, 1) == AddFiles(stored, files, 0)["a" := "x"];
    assert Writes(dir, yaml, files, 2) == Writes(dir, yaml, files, 1)[dir + ["a"] := "y"];
  }

  /** The place that a step writes, if it takes effect. */
  function PlaceWritten(r: Request, p: Proc, c: Choice): set<Place> {
    if c.FailBefore? then {}
    else
      match p.pc
      case WriteYaml => {ManifestPlace(r)}
      case WriteFile(k) => if k < |r.files| then {FilePlace(r, r.files[k].name)} else {}
      case _ => {}
  }

  /** The places written in a run. */
  function PlacesWritten(reqs: seq<Request>, s: Sys, trace: seq<Action>): set<Place>
    requires |s.procs| == |reqs| && Legal(reqs, s, trace)
  {
    if trace == [] then {}
    else
      var init, a := trace[..|trace| - 1], trace[|trace| - 1];
      PlacesWritten(reqs, s, init)
      + if a.Act? then PlaceWritten(reqs[a.i], Exec(reqs, s, init).procs[a.i], a.c) else {}
  }

  lemma DiskPlacesStep(reqs: seq<Request>, s: Sys, a: Action)
    requires |s.procs| == |reqs| && Enabled(reqs, s, a)
    ensures Next(reqs, s, a).env.disk.Keys
         == s.env.disk.Keys + if a.Act? then PlaceWritten(reqs[a.i], s.procs[a.i], a.c) else {}
  {
    if a.Act? {
      DiskStepServed(a.i, reqs[a.i], s.procs[a.i], s.env, a.c);
    }
  }

  /** A disk holds what it held at first and what any request has written since: nothing is ever taken off it. */
  lemma {:induction false} DiskPlaces(reqs: seq<Request>, s: Sys, trace: seq<Action>)
    requires |s.procs| == |reqs| && Legal(reqs, s, trace)
    ensures Exec(reqs, s, trace).env.disk.Keys == s.env.disk.Keys + PlacesWritten(reqs, s, trace)
  {
    if trace != [] {
      var init, a := trace[..|trace| - 1], trace[|trace| - 1];
      DiskPlaces(reqs, s, init);
      DiskPlacesStep(reqs, Exec(reqs, s, init), a);
    }
  }

  /** No file at first, and none written in the run so far by anyone, is below the request's directory but is not one of its own. */
  ghost predicate NoLeftovers(reqs: seq<Request>, s: Sys, trace: seq<Action>, r: Request, w: map<Path, string>)
    requires |s.procs| == |reqs| && Legal(reqs, s, trace)
  {
    forall place :: place in s.env.disk.Keys + PlacesWritten(reqs, s, trace) && IsBelow(place, r) ==> place.path in w
  }

  predicate IsBelow(place: Place, r: Request) {
    place.server == r.server.id && r.Dir() < place.path
  }

  /**
   * In a whole run, what a tool accepts is just what its request wrote exactly when no initial file
   * and no file that any request wrote on that disk before is left over below the directory.
   */
  lemma LeftoversSeen(reqs: seq<Request>, names: set<string>, s: Sys, trace: seq<Action>, i: nat)
    requires CleanRequests(reqs, names) && Initial(reqs, names, s) && Legal(reqs, s, trace) && i < |reqs|
    ensures var r, t := reqs[i], Exec(reqs, s, trace);
            var w := Writes(r.Dir(), t.procs[i].yaml, r.files, |r.files|);
            var toolOn := r.server.kubectl || (r.kind.Apply? && r.server.kustomize);
            t.procs[i].pc.Tool? && toolOn && (forall p :: p in w ==> r.Dir() < p) ==>
              && Enabled(reqs, t, Act(i, Succeed))
              && (Next(reqs, t, Act(i, Succeed)).procs[i].validated == Some(w) <==> NoLeftovers(reqs, s, trace, r, w))
  {
    InvInitially(reqs, names, s);
    Reachable(reqs, names, s, trace);
    DiskPlaces(reqs, s, trace);
    AtTool(reqs, names, Exec(reqs, s, trace), i);
  }

  lemma AtTool(reqs: seq<Request>, names: set<string>, s: Sys, i: nat)
    requires Inv(reqs, names, s) && i < |reqs|
    ensures var r := reqs[i];
            var w := Writes(r.Dir(), s.procs[i].yaml, r.files, |r.files|);
            s.procs[i].pc.Tool? && r.RunsTool() && (forall p :: p in w ==> r.Dir() < p) ==>
              && Enabled(reqs, s, Act(i, Succeed))
              && (Next(reqs, s, Act(i, Succeed)).procs[i].validated == Some(w) <==>
                  forall place :: place in s.env.disk.Keys && IsBelow(place, r) ==> place.path in w)
  {
    var r, p := reqs[i], s.procs[i];
    assert ProcInv(i, r, p, ViewOf(s.env, r));
    if p.pc.Tool? && r.RunsTool() {
      WrittenAtTool(i, r, p, ViewOf(s.env, r));
      ToolSees(s.env.disk, r, OnDisk(s.env.disk, r));
      ToolRecords(i, r, p, s.env);
      var w := Writes(r.Dir(), p.yaml, r.files, |r.files|);
      if forall t :: t in w ==> r.Dir() < t {
        SeenExactly(s.env.disk, r, w);
      }
    }
  }

  lemma WrittenAtTool(me: nat, r: Request, p: Proc, v: View)
    requires ProcInv(me, r, p, v) && p.pc.Tool?
    ensures Includes(v.onDisk, Writes(r.Dir(), p.yaml, r.files, |r.files|))
  {
  }

  lemma ToolRecords(me: nat, r: Request, p: Proc, e: Env)
    requires p.pc.Tool? && r.RunsTool()
    ensures CanServe(e, NextCall(r, p), Succeed)
    ensures ProcStep(r, e, me, p, Succeed).validated == Some(Below(e.disk, r.server.id, r.Dir()))
  {
    assert Serve(e, me, NextCall(r, p), Succeed).1 == Built(Below(e.disk, r.server.id, r.Dir()));
  }

  lemma SeenExactly(disk: map<Place, string>, r: Request, w: map<Path, string>)
    requires SeenBelow(r.Dir(), Below(disk, r.server.id, r.Dir()), w) && forall t :: t in w ==> r.Dir() < t
    ensures Below(disk, r.server.id, r.Dir()) == w <==>
              forall place :: place in disk.Keys && IsBelow(place, r) ==> place.path in w
  {
    var seen := Below(disk, r.server.id, r.Dir());
    forall place | place in disk.Keys && IsBelow(place, r) ensures place.path in seen {
    }
    forall t | t in seen ensures Place(r.server.id, t) in disk.Keys && IsBelow(Place(r.server.id, t), r) {
    }
  }

  predicate Loaded(pc: Pc) {
    pc.WriteYaml? || pc.WriteFile? || pc.Tool? || pc.Commit?
  }

  lemma LoadedLocal(me: nat, r: Request, p: Proc, v: View)
    requires ProcInv(me, r, p, v) && r.kind.Delete? && Loaded(p.pc)
    ensures YamlOf(v.entry) == Some(p.yaml)
    ensures r.oldInstance.Some? ==> p.yaml == r.oldInstance.value.yaml
    ensures p.pc.Tool? ==> Includes(v.onDisk, Writes(r.Dir(), p.yaml, r.files, |r.files|))
  {
  }

  /** From the locked read to the range delete, the stored manifest is the loaded one, and on disk it is written with the request's files. */
  lemma LoadedManifestHolds(reqs: seq<Request>, names: set<string>, s: Sys, trace: seq<Action>, i: nat)
    requires CleanRequests(reqs, names) && Initial(reqs, names, s) && Legal(reqs, s, trace) && i < |reqs|
    ensures var r, t := reqs[i], Exec(reqs, s, trace);
            r.kind.Delete? && Loaded(t.procs[i].pc) ==>
            && StoredYaml(t, r.name) == Some(t.procs[i].yaml)
            && (r.oldInstance.Some? ==> t.procs[i].yaml == r.oldInstance.value.yaml)
            && (t.procs[i].pc.Tool? ==> Includes(OnDisk(t.env.disk, r), Writes(r.Dir(), t.procs[i].yaml, r.files, |r.files|)))
  {
    InvInitially(reqs, names, s);
    Reachable(reqs, names, s, trace);
    var t := Exec(reqs, s, trace);
    if reqs[i].kind.Delete? && Loaded(t.procs[i].pc) {
      LoadedLocal(i, reqs[i], t.procs[i], ViewOf(t.env, reqs[i]));
    }
  }

  /** What a request's outcome says of it, in every reachable state. */
  lemma OutcomeAfter(reqs: seq<Request>, names: set<string>, s: Sys, trace: seq<Action>, i: nat)
    requires CleanRequests(reqs, names) && Initial(reqs, names, s) && Legal(reqs, s, trace) && i < |reqs|
    ensures OutcomeFacts(reqs[i], Exec(reqs, s, trace).procs[i])
  {
    InvInitially(reqs, names, s);
    Reachable(reqs, names, s, trace);
    OutcomeOf(reqs, names, Exec(reqs, s, trace), i);
  }

  lemma OutcomeOf(reqs: seq<Request>, names: set<string>, s: Sys, i: nat)
    requires Inv(reqs, names, s) && i < |reqs|
    ensures OutcomeFacts(reqs[i], s.procs[i])
  {
    assert ProcInv(i, reqs[i], s.procs[i], ViewOf(s.env, reqs[i]));
  }

  /** The "expected one key-value set" answer goes only to a Delete without an old instance whose key left before it had the lock. */
  lemma UnexpectedCountOnlyUnguarded(reqs: seq<Request>, names: set<string>, s: Sys, trace: seq<Action>, i: nat)
    requires CleanRequests(reqs, names) && Initial(reqs, names, s) && Legal(reqs, s, trace) && i < |reqs|
    ensures Exec(reqs, s, trace).procs[i].outcome.UnexpectedCount? ==>
              reqs[i].kind.Delete? && reqs[i].oldInstance.None? && !Exec(reqs, s, trace).procs[i].committed
  {
    OutcomeAfter(reqs, names, s, trace, i);
  }

  // ------------------------------------------------------- refusals never write

  /** A step that changes the key space belongs to a request that is committed afterwards. */
  lemma WriterIsCommitted(reqs: seq<Request>, names: set<string>, s: Sys, i: nat, c: Choice)
    requires Inv(reqs, names, s) && Enabled(reqs, s, Act(i, c))
    ensures Next(reqs, s, Act(i, c)).env.kv != s.env.kv ==> Next(reqs, s, Act(i, c)).procs[i].committed
  {
    var r, p := reqs[i], s.procs[i];
    assert ProcInv(i, r, p, ViewOf(s.env, r));
    KvStepServed(i, r, p, s.env, c);
    var v, reply := StepSeen(i, r, p, s.env, c);
    CommittedStep(i, r, p, v, c, reply);
  }

  lemma CommittedStays(reqs: seq<Request>, s: Sys, a: Action, i: nat)
    requires i < |reqs| == |s.procs| && Enabled(reqs, s, a)
    ensures s.procs[i].committed ==> Next(reqs, s, a).procs[i].committed
  {
    if a.Act? && a.i == i {
      var v, reply := StepSeen(i, reqs[i], s.procs[i], s.env, a.c);
      CommittedKept(reqs[i], s.procs[i], v, a.c, reply);
    }
  }

  lemma CommittedKept(r: Request, p: Proc, v: View, c: Choice, reply: Reply)
    ensures p.committed ==> NextProc(r, p, v, c, reply).committed
  {
  }

  lemma {:induction false} PrefixLegal(reqs: seq<Request>, s: Sys, trace: seq<Action>, k: nat)
    requires |s.procs| == |reqs| && Legal(reqs, s, trace) && k <= |trace|
    ensures Legal(reqs, s, trace[..k])
    ensures k < |trace| ==> Enabled(reqs, Exec(reqs, s, trace[..k]), trace[k])
                            && Legal(reqs, s, trace[..k + 1])
                            && Exec(reqs, s, trace[..k + 1]) == Next(reqs, Exec(reqs, s, trace[..k]), trace[k])
    decreases |trace|
  {
    if k == |trace| {
      assert trace[..k] == trace;
    } else {
      var init := trace[..|trace| - 1];
      if k < |init| {
        PrefixLegal(reqs, s, init, k);
        assert init[..k] == trace[..k] && init[..k + 1] == trace[..k + 1] && init[k] == trace[k];
      } else {
        assert trace[..k] == init && trace[..k + 1] == trace;
      }
    }
  }

  lemma {:induction false} CommittedForGood(reqs: seq<Request>, s: Sys, before: seq<Action>, after: seq<Action>, i: nat)
    requires i < |reqs| == |s.procs| && Legal(reqs, s, before) && Legal(reqs, s, before + after)
    ensures Exec(reqs, s, before).procs[i].committed ==> Exec(reqs, s, before + after).procs[i].committed
  {
    if after == [] {
      assert before + after == before;
    } else {
      var n := |after| - 1;
      assert (before + after)[..|before + after| - 1] == before + after[..n];
      CommittedForGood(reqs, s, before, after[..n], i);
      CommittedStays(reqs, Exec(reqs, s, before + after[..n]), after[n], i);
    }
  }

  /** Along a whole run, a request that ends refused (by the name check, a comparison or the tool) never touched the store. */
  lemma RefusedNeverWrites(reqs: seq<Request>, names: set<string>, s: Sys, before: seq<Action>, i: nat, c: Choice, after: seq<Action>)
    requires CleanRequests(reqs, names) && Initial(reqs, names, s) && i < |reqs|
    requires Legal(reqs, s, before + [Act(i, c)] + after)
    ensures Legal(reqs, s, before) && Legal(reqs, s, before + [Act(i, c)])
    ensures var outcome := Exec(reqs, s, before + [Act(i, c)] + after).procs[i].outcome;
            !outcome.Ok? && !outcome.Failed? ==>
              Exec(reqs, s, before + [Act(i, c)]).env.kv == Exec(reqs, s, before).env.kv
  {
    var a := Act(i, c);
    PrefixLegal(reqs, s, before + [a] + after, |before|);
    assert (before + [a] + after)[..|before|] == before;
    assert (before + [a] + after)[..|before| + 1] == before + [a];
    CommittedForGood(reqs, s, before + [a], after, i);
    OutcomeAfter(reqs, names, s, before + [a] + after, i);
    InvInitially(reqs, names, s);
    Reachable(reqs, names, s, before);
    WriterIsCommitted(reqs, names, Exec(reqs, s, before), i, c);
  }

  // ---------------------------------------------------------- partial commits

  /** Of the first k files of one name, the last one wins over the others and over what was stored. */
  lemma {:induction false} LastFileWins(stored: map<string, string>, files: seq<File>, k: nat, j: nat)
    requires j < k <= |files|
    requires forall l :: j < l < k ==> files[l].name != files[j].name
    ensures files[j].name in AddFiles(stored, files, k)
    ensures AddFiles(stored, files, k)[files[j].name] == files[j].contents
  {
    if j < k - 1 {
      LastFileWins(stored, files, k - 1, j);
    }
  }

  /** A stored file that the request does not name stays as it was, and no other file appears. */
  lemma {:induction false} OtherFilesKept(stored: map<string, string>, files: seq<File>, k: nat, name: string)
    requires k <= |files|
    requires forall j :: 0 <= j < k ==> files[j].name != name
    ensures name in AddFiles(stored, files, k) <==> name in stored
    ensures name in stored ==> AddFiles(stored, files, k)[name] == stored[name]
  {
    if k > 0 {
      OtherFilesKept(stored, files, k - 1, name);
    }
  }

  /** The entry of an Apply that has put its manifest and then its first k files over the entry it found. */
  function PartialEntry(r: Request, base: Option<Entry>, k: nat): Option<Entry>
    requires k <= |r.files|
  {
    Some(Entry(r.yaml, AddFiles(EntryFiles(base), r.files, k)))
  }

  /** How an Apply may leave its entry: untouched, or with a prefix of its puts applied, all of them on success. */
  ghost predicate LeavesPrefix(r: Request, entry: Option<Entry>, q: Proc, entry': Option<Entry>) {
    || (q.outcome.Failed? && !q.committed && entry' == entry)
    || (q.committed && exists k: nat ::
          k <= |r.files| && entry' == PartialEntry(r, q.base, k) && (q.outcome.Ok? ==> k == |r.files|))
  }

  lemma LocalPrefix(me: nat, r: Request, p: Proc, v: View, c: Choice, reply: Reply)
    requires ProcInv(me, r, p, v) && Possible(r, p, v, c) && Fits(r, p, v, c, reply)
    requires r.kind.Apply? && (p.pc.Commit? || p.pc.PutFile?) && NextProc(r, p, v, c, reply).pc.Cleaning?
    ensures LeavesPrefix(r, v.entry, NextProc(r, p, v, c, reply), EntryStep(r, p, v.entry, c))
  {
    var q, entry' := NextProc(r, p, v, c, reply), EntryStep(r, p, v.entry, c);
    if p.pc.Commit? && c.FailAfter? {
      assert entry' == PartialEntry(r, q.base, 0);
    } else if p.pc.PutFile? {
      if c.FailAfter? && p.pc.k < |r.files| {
        assert entry' == PartialEntry(r, q.base, p.pc.k + 1);
      } else {
        assert entry' == PartialEntry(r, q.base, p.pc.k);
      }
    }
  }

  /**
   * When the commit of an Apply is over, whatever ran beside it, the instance's entry is the one its
   * first put found with a prefix of its puts applied, and with all of them on success.
   */
  lemma CommitLeavesPrefix(reqs: seq<Request>, names: set<string>, s: Sys, trace: seq<Action>, i: nat, c: Choice)
    requires CleanRequests(reqs, names) && Initial(reqs, names, s) && Legal(reqs, s, trace) && i < |reqs|
    ensures var r, t := reqs[i], Exec(reqs, s, trace);
            r.kind.Apply? && (t.procs[i].pc.Commit? || t.procs[i].pc.PutFile?) && Enabled(reqs, t, Act(i, c)) ==>
              var u := Next(reqs, t, Act(i, c));
              u.procs[i].pc.Cleaning? ==>
                LeavesPrefix(r, EntryOf(t.env.kv, r.name), u.procs[i], EntryOf(u.env.kv, r.name))
  {
    InvInitially(reqs, names, s);
    Reachable(reqs, names, s, trace);
    var r, t := reqs[i], Exec(reqs, s, trace);
    var p := t.procs[i];
    if r.kind.Apply? && (p.pc.Commit? || p.pc.PutFile?) && Enabled(reqs, t, Act(i, c)) {
      EndedCommit(reqs, names, t, i, c);
    }
  }

  lemma EndedCommit(reqs: seq<Request>, names: set<string>, s: Sys, i: nat, c: Choice)
    requires CleanRequests(reqs, names) && Inv(reqs, names, s) && Enabled(reqs, s, Act(i, c))
    requires reqs[i].kind.Apply? && (s.procs[i].pc.Commit? || s.procs[i].pc.PutFile?)
    ensures var r, t := reqs[i], Next(reqs, s, Act(i, c));
            t.procs[i].pc.Cleaning? ==>
              LeavesPrefix(r, EntryOf(s.env.kv, r.name), t.procs[i], EntryOf(t.env.kv, r.name))
  {
    var r, p := reqs[i], s.procs[i];
    assert ProcInv(i, r, p, ViewOf(s.env, r));
    if Next(reqs, s, Act(i, c)).procs[i].pc.Cleaning? {
      var v, reply := StepSeen(i, r, p, s.env, c);
      LocalPrefix(i, r, p, v, c, reply);
      KvStepServed(i, r, p, s.env, c);
      OwnEntry(r, p, s.env.kv, c);
    }
  }

  /** Along a whole run the entry of an instance changes only by steps of requests for that very instance. */
  lemma OthersPreserved(reqs: seq<Request>, names: set<string>, s: Sys, trace: seq<Action>, a: Action, n: string)
    requires CleanRequests(reqs, names) && Initial(reqs, names, s) && Legal(reqs, s, trace)
    ensures var t := Exec(reqs, s, trace);
            n in names && Enabled(reqs, t, a) && EntryOf(Next(reqs, t, a).env.kv, n) != EntryOf(t.env.kv, n)
            ==> a.Act? && reqs[a.i].name == n
  {
    InvInitially(reqs, names, s);
    Reachable(reqs, names, s, trace);
    var t := Exec(reqs, s, trace);
    if a.Act? && Enabled(reqs, t, a) && n in names && reqs[a.i].name != n {
      KvStepServed(a.i, reqs[a.i], t.procs[a.i], t.env, a.c);
      OtherEntry(reqs[a.i], t.procs[a.i], t.env.kv, a.c, n);
    }
  }
}
