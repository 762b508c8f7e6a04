/**
 * The etcd adapter's own code, in the shape of the source: objects whose methods make one remote
 * call after the other while other requests act in between. Every method is proved to move its
 * request through the machine, so what is proved of the machine's runs holds of this code.
 */
module EtcdAdapter {
  import opened Requests
  import opened Keys
  import opened EtcdMachine
  import opened EtcdInvariant
  import opened EtcdHistory
  import opened EtcdAnswers
  import Cleanup

  /** Equal up to the history variables. */
  predicate SameControl(p: Proc, q: Proc) {
    p.pc == q.pc && p.yaml == q.yaml && p.cleanups == q.cleanups && p.outcome == q.outcome
  }

  /** The k-th recorded action leads from the k-th recorded state to the next. */
  ghost predicate StepAt(reqs: seq<Request>, states: seq<Sys>, trace: seq<Action>, k: nat) {
    && k < |trace| && k + 1 < |states|
    && |states[k].procs| == |reqs| && Enabled(reqs, states[k], trace[k])
    && states[k + 1] == Next(reqs, states[k], trace[k])
  }

  ghost predicate Recorded(reqs: seq<Request>, states: seq<Sys>, trace: seq<Action>) {
    && |states| == |trace| + 1
    && |states[0].procs| == |reqs|
    && forall k: nat {:trigger StepAt(reqs, states, trace, k)} :: k < |trace| ==> StepAt(reqs, states, trace, k)
  }

  lemma RecordedSnoc(reqs: seq<Request>, states: seq<Sys>, trace: seq<Action>, a: Action, t: Sys)
    requires Recorded(reqs, states, trace) && |states[|trace|].procs| == |reqs|
    requires Enabled(reqs, states[|trace|], a) && t == Next(reqs, states[|trace|], a)
    ensures Recorded(reqs, states + [t], trace + [a])
  {
    forall k: nat | k < |trace| + 1 ensures StepAt(reqs, states + [t], trace + [a], k) {
      if k < |trace| {
        assert StepAt(reqs, states, trace, k);
      }
    }
  }

  /** A recorded run is a legal trace of the machine. */
  lemma {:induction false} RecordedIsRun(reqs: seq<Request>, states: seq<Sys>, trace: seq<Action>)
    requires Recorded(reqs, states, trace)
    ensures Legal(reqs, states[0], trace) && Exec(reqs, states[0], trace) == states[|trace|]
    decreases |trace|
  {
    if trace != [] {
      var n := |trace| - 1;
      forall k: nat {:trigger StepAt(reqs, states[..n + 1], trace[..n], k)} | k < n
        ensures StepAt(reqs, states[..n + 1], trace[..n], k)
      {
        assert StepAt(reqs, states, trace, k);
      }
      RecordedIsRun(reqs, states[..n + 1], trace[..n]);
      assert StepAt(reqs, states, trace, n);
    }
  }

  /** From a place of the trace on, some call of one request has failed. */
  ghost predicate SomeFails(trace: seq<Action>, from: nat, me: nat) {
    exists k :: from <= k < |trace| && trace[k].Act? && trace[k].i == me && !trace[k].c.Succeed?
  }

  /** The trace is another with one call of one request at its end, before which only others acted. */
  ghost predicate OneCall(before: seq<Action>, after: seq<Action>, me: nat, failed: bool) {
    && |before| < |after| && before == after[..|before|]
    && after[|after| - 1].Act? && after[|after| - 1].i == me && (failed <==> !after[|after| - 1].c.Succeed?)
    && forall k :: |before| <= k < |after| - 1 ==> after[k].Act? ==> after[k].i != me
  }

  lemma FailsOrNot(before: seq<Action>, after: seq<Action>, from: nat, me: nat, failed: bool)
    requires OneCall(before, after, me, failed) && from <= |before|
    ensures SomeFails(after, from, me) <==> SomeFails(before, from, me) || failed
  {
    forall k | 0 <= k < |before| ensures after[k] == before[k] {
    }
    if SomeFails(before, from, me) {
      var k :| from <= k < |before| && before[k].Act? && before[k].i == me && !before[k].c.Succeed?;
      assert after[k] == before[k];
    }
  }

  /** The store, the disks and all the requests at work on them, with the run that led to the present state. */
  class World {
    const reqs: seq<Request>
    ghost const names: set<string>
    ghost const first: Sys
    var sys: Sys
    ghost var states: seq<Sys>
    ghost var trace: seq<Action>

    constructor (reqs: seq<Request>, ghost names: set<string>, sys: Sys)
      requires CleanRequests(reqs, names) && Initial(reqs, names, sys)
      ensures Valid() && Sound() && this.sys == sys && this.reqs == reqs && this.names == names && first == sys
    {
      this.reqs, this.names, this.first, this.sys, this.states, this.trace := reqs, names, sys, sys, [sys], [];
    }

    /** The run started before any request had, with clean names. */
    ghost predicate Sound() {
      CleanRequests(reqs, names) && Initial(reqs, names, first)
    }

    ghost predicate Valid()
      reads this
    {
      Recorded(reqs, states, trace) && states[0] == first && states[|trace|] == sys
    }

    /** A request about to make a call. */
    ghost predicate Ready(me: nat, call: Call)
      reads this
    {
      me < |reqs| == |sys.procs| && !sys.procs[me].pc.Done? && call == NextCall(reqs[me], sys.procs[me])
    }

    method Take(a: Action)
      requires Valid() && |sys.procs| == |reqs| && Enabled(reqs, sys, a)
      modifies this
      ensures Valid() && sys == Next(reqs, old(sys), a)
      ensures states == old(states) + [sys] && trace == old(trace) + [a]
    {
      sys := Next(reqs, sys, a);
      RecordedSnoc(reqs, states, trace, a, sys);
      states, trace := states + [sys], trace + [a];
    }

    /** Any number of steps of other requests. */
    method Others(me: nat)
      requires Valid() && me < |reqs| == |sys.procs|
      modifies this
      ensures Valid() && |sys.procs| == |reqs| && sys.procs[me] == old(sys.procs[me])
      ensures |old(trace)| <= |trace| && old(trace) == trace[..|old(trace)|]
      ensures forall k :: |old(trace)| <= k < |trace| ==> trace[k].Act? ==> trace[k].i != me
    {
      var n: int := *;
      while n > 0
        invariant Valid() && |sys.procs| == |reqs| && sys.procs[me] == old(sys.procs[me])
        invariant |old(trace)| <= |trace| && old(trace) == trace[..|old(trace)|]
        invariant forall k :: |old(trace)| <= k < |trace| ==> trace[k].Act? ==> trace[k].i != me
        decreases n
      {
        n := n - 1;
        var a: Action := *;
        if Enabled(reqs, sys, a) && (a.Act? ==> a.i != me) {
          Take(a);
        }
      }
    }

    /** One call of one request; others act first, then it succeeds or fails. */
    method Perform(me: nat, call: Call) returns (reply: Reply)
      requires Valid() && Ready(me, call)
      modifies this
      ensures Valid() && |sys.procs| == |reqs|
      ensures SameControl(sys.procs[me], Resume(reqs[me], old(sys.procs[me]), reply))
      ensures call.Internal? ==> !reply.Error?
      ensures reply.Error? || ReplyFits(call, reply)
      ensures OneCall(old(trace), trace, me, reply.Error?)
    {
      Others(me);
      var c: Choice := *;
      if !CanServe(sys.env, call, c) {
        c := if call.AcquireLock? then FailBefore else Succeed;
      }
      reply := Serve(sys.env, me, call, c).1;
      Take(Act(me, c));
    }
  }

  /** The kind of answer each call gets. */
  predicate ReplyFits(call: Call, reply: Reply) {
    match call
    case KeyExists(_) => reply.Present?
    case Get(_) => reply.Fetched?
    case RunTool(_, _) => reply.Built?
    case _ => reply.Ack?
  }

  /** What Init, the tool step and Commit report: nil or an error. */
  type Result = Option<Outcome>

  /** The part that updater and deleter share: their request, its place in the world, their cleanup functions. */
  class StoreClient {
    const world: World
    const me: nat
    const r: Request
    var yaml: string
    var cleanupFuncs: seq<Release>

    constructor (world: World, me: nat)
      requires world.Valid() && me < |world.reqs|
      ensures this.world == world && this.me == me && r == world.reqs[me] && yaml == r.yaml && cleanupFuncs == []
    {
      this.world, this.me, this.r := world, me, world.reqs[me];
      this.yaml, this.cleanupFuncs := world.reqs[me].yaml, [];
    }

    /** The object's variables are those of the machine's request. */
    ghost predicate Tracks()
      reads this, world
    {
      && world.Valid() && me < |world.reqs| == |world.sys.procs| && r == world.reqs[me]
      && yaml == world.sys.procs[me].yaml && cleanupFuncs == world.sys.procs[me].cleanups
    }

    ghost function At(): Pc
      requires Tracks()
      reads this, world
    {
      world.sys.procs[me].pc
    }

    /** The request has stopped with an outcome and only its cleanup is left. */
    ghost predicate Stopped(outcome: Outcome)
      reads this, world
    {
      Tracks() && At().Cleaning? && world.sys.procs[me].outcome == outcome
    }

    method OldInstanceEqualsCurrentInstanceIfSet() returns (err: Result)
      requires Tracks() && At() == (if r.oldInstance.Some? then CheckExists else if r.kind.Delete? then Load else WriteYaml)
      modifies this, world
      ensures err.None? ==> Tracks() && At() == if r.kind.Delete? then Load else WriteYaml
      ensures err.Some? ==> Stopped(err.value)
    {
      if r.oldInstance.None? {
        return None;
      }
      var reply := world.Perform(me, KeyExists(InstanceKey(r.name)));
      if reply.Error? {
        return Some(Failed);
      }
      if !reply.present {
        return Some(InstanceNoExist);
      }
      reply := world.Perform(me, Get(InstanceKey(r.name)));
      if reply.Error? {
        return Some(Failed);
      }
      if reply.value.None? {
        return Some(UnexpectedCount);
      }
      if reply.value.value != r.oldInstance.value.yaml {
        return Some(OldDiffers);
      }
      return None;
    }

    /** The loop of an updater's commit. */
    method PutFiles() returns (err: Result)
      requires Tracks() && At() == PutFile(0)
      modifies world
      ensures Stopped(if err.None? then Ok else Failed)
      ensures err.Some? ==> err.value.Failed?
    {
      var k := 0;
      while k < |r.files|
        invariant k <= |r.files| && Tracks() && At() == PutFile(k)
      {
        var reply := world.Perform(me, Put(FileKey(InstanceKey(r.name), r.files[k].name), r.files[k].contents));
        if reply.Error? {
          return Some(Failed);
        }
        k := k + 1;
      }
      var _ := world.Perform(me, Internal);
      return None;
    }

    /** Takes the lock and registers its three releases; a session whose lock failed is closed. */
    method TakeLock() returns (err: Result)
      requires Tracks() && At().Lock?
      modifies this, world
      ensures err.None? ==> Tracks() && At() == if r.oldInstance.Some? then CheckExists else if r.kind.Delete? then Load else WriteYaml
      ensures err.Some? ==> Stopped(err.value)
      ensures cleanupFuncs == old(cleanupFuncs) + if err.None? then [CancelContext, CloseSession, Unlock] else []
    {
      var reply := world.Perform(me, AcquireLock(InstanceKey(r.name)));
      if reply.Error? {
        reply := world.Perform(me, RunRelease(CloseSession, InstanceKey(r.name)));
        return Some(Failed);
      }
      cleanupFuncs := cleanupFuncs + [CancelContext];
      cleanupFuncs := cleanupFuncs + [CloseSession];
      cleanupFuncs := cleanupFuncs + [Unlock];
      return None;
    }

    /** Makes the instance directory and writes the manifest and then every file of the request. */
    method WriteFiles() returns (err: Result)
      requires Tracks() && At().WriteYaml?
      modifies world
      ensures err.None? ==> Tracks() && At().Tool?
      ensures err.Some? ==> Stopped(err.value)
    {
      var reply := world.Perform(me, WriteLocal(ManifestPlace(r), yaml));
      if reply.Error? {
        return Some(Failed);
      }
      var k := 0;
      while k < |r.files|
        invariant k <= |r.files| && Tracks() && At() == WriteFile(k)
      {
        reply := world.Perform(me, WriteLocal(FilePlace(r, r.files[k].name), r.files[k].contents));
        if reply.Error? {
          return Some(Failed);
        }
        k := k + 1;
      }
      reply := world.Perform(me, Internal);
      return None;
    }

    /** Builds the local files when a tool is switched on; its refusal goes through Cancel unchanged. */
    method BuildIfEnabled() returns (err: Result)
      requires Tracks() && At().Tool?
      modifies world
      ensures err.None? ==> Tracks() && At() == Pc.Commit
      ensures err.Some? ==> Stopped(err.value)
    {
      if r.RunsTool() {
        var reply := world.Perform(me, RunTool(r.server.id, r.Dir()));
        if reply.Error? {
          return Some(ToolRejected);
        }
      } else {
        var reply := world.Perform(me, Internal);
      }
      return None;
    }

    /** Runs the function registered last among those that have not run. */
    method RunOne(release: Release) returns (failed: bool)
      requires world.Valid() && me < |world.reqs| == |world.sys.procs| && r == world.reqs[me]
      requires var p := world.sys.procs[me];
               p.pc.Cleaning? && p.cleanups != [] && release == p.cleanups[|p.cleanups| - 1]
      modifies world
      ensures world.Valid() && |world.reqs| == |world.sys.procs|
      ensures var p, q := old(world.sys.procs[me]), world.sys.procs[me];
              && q.pc.Cleaning? && q.cleanups == p.cleanups[..|p.cleanups| - 1]
              && q.outcome == p.outcome && q.yaml == p.yaml
      ensures OneCall(old(world.trace), world.trace, me, failed)
    {
      var reply := world.Perform(me, RunRelease(release, InstanceKey(r.name)));
      failed := reply.Error?;
    }

    /** Runs the deferred functions in reverse order of registration; errors are only reported. */
    method RunCleanupFuncs() returns (isError: bool)
      requires Tracks() && At().Cleaning?
      modifies this, world
      ensures Tracks() && At().Done? && cleanupFuncs == []
      ensures world.sys.procs[me].outcome == old(world.sys.procs[me].outcome)
      ensures |old(world.trace)| <= |world.trace| && old(world.trace) == world.trace[..|old(world.trace)|]
      ensures isError <==> SomeFails(world.trace, |old(world.trace)|, me)
    {
      ghost var was := cleanupFuncs;
      var funcs := new Release[|cleanupFuncs|](i requires 0 <= i < |cleanupFuncs| reads this => cleanupFuncs[i]);
      assert funcs[..] == was;
      Cleanup.ReverseSlice(funcs);
      isError := RunAll(funcs, was);
      ghost var before := world.trace;
      Leave();
      FailsOrNot(before, world.trace, |old(world.trace)|, me, false);
      cleanupFuncs := [];
    }

    /** The loop over the reversed functions. */
    method RunAll(funcs: array<Release>, ghost was: seq<Release>) returns (isError: bool)
      requires world.Valid() && me < |world.reqs| == |world.sys.procs| && r == world.reqs[me]
      requires funcs[..] == Cleanup.Reverse(was)
      requires world.sys.procs[me].pc.Cleaning? && world.sys.procs[me].cleanups == was
      modifies world
      ensures world.Valid() && |world.reqs| == |world.sys.procs|
      ensures SameControl(world.sys.procs[me], old(world.sys.procs[me]).(cleanups := []))
      ensures |old(world.trace)| <= |world.trace| && old(world.trace) == world.trace[..|old(world.trace)|]
      ensures isError <==> SomeFails(world.trace, |old(world.trace)|, me)
    {
      Cleanup.ReverseLength(was);
      isError := false;
      var k := 0;
      while k < funcs.Length
        invariant k <= funcs.Length == |was| && funcs[..] == Cleanup.Reverse(was)
        invariant world.Valid() && |world.reqs| == |world.sys.procs|
        invariant SameControl(world.sys.procs[me], old(world.sys.procs[me]).(cleanups := was[..|was| - k]))
        invariant |old(world.trace)| <= |world.trace| && old(world.trace) == world.trace[..|old(world.trace)|]
        invariant isError <==> SomeFails(world.trace, |old(world.trace)|, me)
      {
        Cleanup.ReverseAt(was, k);
        assert was[..|was| - k][..|was| - k - 1] == was[..|was| - k - 1];
        ghost var before := world.trace;
        var failed := RunOne(funcs[k]);
        FailsOrNot(before, world.trace, |old(world.trace)|, me, failed);
        if failed {
          isError := true;
        }
        k := k + 1;
      }
    }

    /** Nothing is left to run: the request is done. */
    method Leave()
      requires world.Valid() && me < |world.reqs| == |world.sys.procs| && r == world.reqs[me]
      requires world.sys.procs[me].pc.Cleaning? && world.sys.procs[me].cleanups == []
      modifies world
      ensures world.Valid() && |world.reqs| == |world.sys.procs|
      ensures var p, q := old(world.sys.procs[me]), world.sys.procs[me];
              q.pc.Done? && q.cleanups == [] && q.outcome == p.outcome && q.yaml == p.yaml
      ensures OneCall(old(world.trace), world.trace, me, false)
    {
      var _ := world.Perform(me, Internal);
    }
  }

  class EtcdUpdater {
    const client: StoreClient

    constructor (world: World, me: nat)
      requires world.Valid() && me < |world.reqs|
      ensures fresh(client) && client.world == world && client.me == me && client.r == world.reqs[me]
      ensures client.yaml == client.r.yaml && client.cleanupFuncs == []
    {
      client := new StoreClient(world, me);
    }

    method Init() returns (err: Result)
      requires client.Tracks() && client.r.kind.Apply? && client.At().Client?
      modifies client, client.world
      ensures err.None? ==> client.Tracks() && client.At().Tool?
      ensures err.Some? ==> client.Stopped(err.value)
    {
      var reply := client.world.Perform(client.me, NewClient);
      if reply.Error? {
        return Some(Failed);
      }
      client.cleanupFuncs := client.cleanupFuncs + [CloseClient];
      err := client.TakeLock();
      if err.Some? {
        return;
      }
      err := client.OldInstanceEqualsCurrentInstanceIfSet();
      if err.Some? {
        return;
      }
      err := client.WriteFiles();
    }

    /** One put of the manifest, then one put a file. */
    method Commit() returns (err: Result)
      requires client.Tracks() && client.r.kind.Apply? && client.At() == Pc.Commit
      modifies client.world
      ensures client.Stopped(if err.None? then Ok else err.value)
      ensures err.Some? ==> err.value.Failed?
    {
      var reply := client.world.Perform(client.me, Put(InstanceKey(client.r.name), client.yaml));
      if reply.Error? {
        return Some(Failed);
      }
      err := client.PutFiles();
    }
  }

  class EtcdDeleter {
    const client: StoreClient

    constructor (world: World, me: nat)
      requires world.Valid() && me < |world.reqs|
      ensures fresh(client) && client.world == world && client.me == me && client.r == world.reqs[me]
      ensures client.yaml == client.r.yaml && client.cleanupFuncs == []
    {
      client := new StoreClient(world, me);
    }

    method Init() returns (err: Result)
      requires client.Tracks() && client.r.kind.Delete? && client.At().Client?
      modifies client, client.world
      ensures err.None? ==> client.Tracks() && client.At().Tool?
      ensures err.Some? ==> client.Stopped(err.value)
    {
      var reply := client.world.Perform(client.me, NewClient);
      if reply.Error? {
        return Some(Failed);
      }
      client.cleanupFuncs := client.cleanupFuncs + [CloseClient];
      reply := client.world.Perform(client.me, KeyExists(InstanceKey(client.r.name)));
      if reply.Error? {
        return Some(Failed);
      }
      if !reply.present {
        return Some(NoKey);
      }
      err := client.TakeLock();
      if err.Some? {
        return;
      }
      err := client.OldInstanceEqualsCurrentInstanceIfSet();
      if err.Some? {
        return;
      }
      err := LoadManifest();
      if err.Some? {
        return;
      }
      err := client.WriteFiles();
    }

    /** Reads the stored manifest into the instance. */
    method LoadManifest() returns (err: Result)
      requires client.Tracks() && client.At().Load?
      modifies client, client.world
      ensures err.None? ==> client.Tracks() && client.At().WriteYaml?
      ensures err.Some? ==> client.Stopped(err.value)
    {
      var reply := client.world.Perform(client.me, Get(InstanceKey(client.r.name)));
      if reply.Error? {
        return Some(Failed);
      }
      if reply.value.None? {
        return Some(UnexpectedCount);
      }
      client.yaml := reply.value.value;
      return None;
    }

    method Commit() returns (err: Result)
      requires client.Tracks() && client.r.kind.Delete? && client.At() == Pc.Commit
      modifies client.world
      ensures client.Stopped(if err.None? then Ok else err.value)
      ensures err.Some? ==> err.value.Failed?
    {
      var reply := client.world.Perform(client.me, DeletePrefix(client.r.name));
      if reply.Error? {
        return Some(Failed);
      }
      return None;
    }
  }

  /** The request's answer is the machine's, and a success wrote exactly once, over the old instance it named. */
  ghost predicate Answered(world: World, me: nat, err: Result)
    reads world
  {
    && world.Valid() && me < |world.reqs| == |world.sys.procs|
    && world.sys.procs[me].pc.Done?
    && world.sys.procs[me].outcome == (if err.None? then Ok else err.value)
  }

  method NamesEquate(world: World, me: nat) returns (err: Result)
    requires world.Valid() && me < |world.reqs| == |world.sys.procs| && world.sys.procs[me] == NewProc(world.reqs[me])
    modifies world
    ensures world.Valid() && |world.reqs| == |world.sys.procs|
    ensures var p := world.sys.procs[me];
            if err.None? then p.pc.Client? && p.yaml == world.reqs[me].yaml && p.cleanups == []
            else err == Some(NameMismatch) && Answered(world, me, err)
  {
    var r := world.reqs[me];
    var reply := world.Perform(me, Internal);
    if r.oldInstance.Some? {
      if r.name != r.oldInstance.value.name {
        reply := world.Perform(me, Internal);
        return Some(NameMismatch);
      }
    }
    return None;
  }

  /** Creates or updates an instance; on success the old instance is not sent back. */
  method Apply(world: World, me: nat) returns (err: Result, oldInstance: Option<OldInstance>)
    requires world.Valid() && me < |world.reqs| == |world.sys.procs| && world.sys.procs[me] == NewProc(world.reqs[me])
    requires world.reqs[me].kind.Apply?
    modifies world
    ensures Answered(world, me, err)
    ensures oldInstance == if err.None? then None else world.reqs[me].oldInstance
  {
    oldInstance := world.reqs[me].oldInstance;
    err := NamesEquate(world, me);
    if err.Some? {
      return;
    }
    var updater := new EtcdUpdater(world, me);
    err := updater.Init();
    if err.None? {
      err := updater.client.BuildIfEnabled();
    }
    if err.None? {
      err := updater.Commit();
    }
    if err.None? {
      oldInstance := None;
    }
    var _ := updater.client.RunCleanupFuncs();
  }

  /** Deletes an instance; on success the old instance is not sent back. */
  method Delete(world: World, me: nat) returns (err: Result, oldInstance: Option<OldInstance>)
    requires world.Valid() && me < |world.reqs| == |world.sys.procs| && world.sys.procs[me] == NewProc(world.reqs[me])
    requires world.reqs[me].kind.Delete?
    modifies world
    ensures Answered(world, me, err)
    ensures oldInstance == if err.None? then None else world.reqs[me].oldInstance
  {
    oldInstance := world.reqs[me].oldInstance;
    err := NamesEquate(world, me);
    if err.Some? {
      return;
    }
    var deleter := new EtcdDeleter(world, me);
    err := deleter.Init();
    if err.None? {
      err := deleter.client.BuildIfEnabled();
    }
    if err.None? {
      err := deleter.Commit();
    }
    if err.None? {
      oldInstance := None;
    }
    var _ := deleter.client.RunCleanupFuncs();
  }

  /**
   * What a caller may conclude from a nil error of Apply or Delete, whatever ran beside it: its
   * manifest was written (or the stored one removed) exactly once, over the old instance it named.
   */
  lemma SuccessMeans(world: World, me: nat) returns (k: nat)
    requires world.Sound() && Answered(world, me, None)
    ensures var log, r := world.sys.log, world.reqs[me];
            && k < |log| && log[k].request == me && log[k].name == r.name
            && (forall l :: 0 <= l < |log| && log[l].request == me ==> l == k)
            && (r.oldInstance.Some? ==> log[k].before == Some(r.oldInstance.value.yaml))
            && (r.kind.Apply? ==> log[k].after == Some(r.yaml))
            && (r.kind.Delete? ==> log[k].before.Some? && log[k].after.None?)
  {
    RecordedIsRun(world.reqs, world.states, world.trace);
    k := NoLostUpdate(world.reqs, world.names, world.first, world.trace, me);
  }

  /**
   * What a caller may conclude from an error: the call at which the request stopped found or met just the
   * reason for it, and it is a failure exactly when one of the request's own calls before its cleanup failed.
   */
  lemma ErrorMeans(world: World, me: nat, err: Outcome) returns (k: nat)
    requires world.Sound() && Answered(world, me, Some(err))
    ensures Legal(world.reqs, world.first, world.trace)
    ensures AnsweredAt(world.reqs, world.first, world.trace, me, k, err)
    ensures Failure(err) <==> Faulted(world.reqs, world.first, world.trace, me)
  {
    RecordedIsRun(world.reqs, world.states, world.trace);
    k := AnswerHasReason(world.reqs, world.names, world.first, world.trace, me);
    FailuresShow(world.reqs, world.names, world.first, world.trace, me);
  }
}
