/** Releasing what a request registered: reversed in place, then run one by one, errors collected. */
module Cleanup {

  function Reverse<T>(s: seq<T>): (r: seq<T>) {
    if s == [] then [] else Reverse(s[1..]) + [s[0]]
  }

  lemma {:induction false} ReverseAt<T>(s: seq<T>, k: nat)
    requires k < |s|
    ensures |Reverse(s)| == |s| && Reverse(s)[k] == s[|s| - 1 - k]
  {
    if |s| > 1 {
      ReverseAt(s[1..], if k < |s| - 1 then k else 0);
    }
  }

  lemma {:induction false} ReverseLength<T>(s: seq<T>)
    ensures |Reverse(s)| == |s|
  {
    if s != [] {
      ReverseLength(s[1..]);
    }
  }

  /** Swaps from the middle outwards, as far as the first and last element. */
  method ReverseSlice<T>(funcs: array<T>)
    modifies funcs
    ensures funcs[..] == Reverse(old(funcs[..]))
  {
    var n := funcs.Length;
    var i := n / 2 - 1;
    while i >= 0
      invariant -1 <= i <= n / 2 - 1
      invariant forall k :: 0 <= k <= i || n - 1 - i <= k < n ==> funcs[k] == old(funcs[k])
      invariant forall k :: i < k < n - 1 - i ==> funcs[k] == old(funcs[n - 1 - k])
    {
      var opp := n - 1 - i;
      funcs[i], funcs[opp] := funcs[opp], funcs[i];
      i := i - 1;
    }
    ghost var was := old(funcs[..]);
    ReverseLength(was);
    forall k | 0 <= k < n ensures funcs[..][k] == Reverse(was)[k] {
      ReverseAt(was, k);
    }
    assert funcs[..] == Reverse(was);
  }

  /** What a cleanup function stands for, and whether it will report an error. */
  datatype Func<+R> = Func(resource: R, fails: bool)

  predicate AnyFails<R>(funcs: seq<Func<R>>) {
    exists k :: 0 <= k < |funcs| && funcs[k].fails
  }

  /** A state-store object with its deferred functions; ran is the history of those that have run. */
  class Releaser<R> {
    var cleanupFuncs: seq<Func<R>>
    var ran: seq<Func<R>>

    constructor ()
      ensures cleanupFuncs == [] && ran == []
    {
      cleanupFuncs, ran := [], [];
    }

    method Register(f: Func<R>)
      modifies this
      ensures cleanupFuncs == old(cleanupFuncs) + [f] && ran == old(ran)
    {
      cleanupFuncs := cleanupFuncs + [f];
    }

    /** Runs everything registered, last first, whatever fails, and forgets it. */
    method RunCleanupFuncs() returns (isError: bool)
      modifies this
      ensures ran == old(ran) + Reverse(old(cleanupFuncs))
      ensures cleanupFuncs == []
      ensures isError <==> AnyFails(old(cleanupFuncs))
    {
      ghost var was := cleanupFuncs;
      isError := false;
      var funcs := new Func<R>[|cleanupFuncs|](i requires 0 <= i < |cleanupFuncs| reads this => cleanupFuncs[i]);
      assert funcs[..] == was;
      ReverseSlice(funcs);
      ReverseLength(was);
      var k := 0;
      while k < funcs.Length
        invariant k <= funcs.Length && funcs[..] == Reverse(was)
        invariant ran == old(ran) + Reverse(was)[..k]
        invariant isError <==> AnyFails(Reverse(was)[..k])
      {
        assert Reverse(was)[..k + 1] == Reverse(was)[..k] + [funcs[k]];
        ran := ran + [funcs[k]];
        AnyFailsSnoc(Reverse(was)[..k], funcs[k]);
        if funcs[k].fails {
          isError := true;
        }
        k := k + 1;
      }
      assert Reverse(was)[..k] == Reverse(was);
      ReverseFails(was);
      cleanupFuncs := [];
    }

    /** However often it is called, everything registered before runs once, in the same order. */
    method RunRepeatedly(times: nat)
      requires times > 0
      modifies this
      ensures ran == old(ran) + Reverse(old(cleanupFuncs)) && cleanupFuncs == []
    {
      var _ := RunCleanupFuncs();
      for n := 1 to times
        invariant ran == old(ran) + Reverse(old(cleanupFuncs)) && cleanupFuncs == []
      {
        var _ := RunCleanupFuncs();
        assert Reverse<Func<R>>([]) == [];
      }
    }
  }

  lemma AnyFailsSnoc<R>(done: seq<Func<R>>, f: Func<R>)
    ensures AnyFails(done + [f]) <==> AnyFails(done) || f.fails
  {
    assert (done + [f])[|done|] == f;
    assert forall k :: 0 <= k < |done| ==> (done + [f])[k] == done[k];
  }

  lemma ReverseFails<R>(funcs: seq<Func<R>>)
    ensures AnyFails(Reverse(funcs)) <==> AnyFails(funcs)
  {
    ReverseLength(funcs);
    forall k | 0 <= k < |funcs| ensures Reverse(funcs)[k] == funcs[|funcs| - 1 - k] {
      ReverseAt(funcs, k);
    }
    if AnyFails(funcs) {
      var k :| 0 <= k < |funcs| && funcs[k].fails;
      assert Reverse(funcs)[|funcs| - 1 - k].fails;
    }
  }

  /** A resource acquired later is released earlier, and every one exactly where its mirror image was registered. */
  lemma LastAcquiredFirstReleased<T>(funcs: seq<T>, a: nat, b: nat)
    requires a < b < |funcs|
    ensures |Reverse(funcs)| == |funcs|
    ensures exists i, j :: 0 <= i < j < |funcs| && Reverse(funcs)[i] == funcs[b] && Reverse(funcs)[j] == funcs[a]
  {
    ReverseAt(funcs, |funcs| - 1 - b);
    ReverseAt(funcs, |funcs| - 1 - a);
  }

  /** Reversing loses and repeats nothing. */
  lemma {:induction false} ReverseKeepsAll<T>(funcs: seq<T>)
    ensures multiset(Reverse(funcs)) == multiset(funcs)
  {
    if funcs != [] {
      ReverseKeepsAll(funcs[1..]);
      assert funcs == [funcs[0]] + funcs[1..];
    }
  }
}
