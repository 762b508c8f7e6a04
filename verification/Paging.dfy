/** Listing instances a page at a time. */
module Paging {
  import opened Requests
  import opened Keys

  newtype int32 = x: int | -0x8000_0000 <= x < 0x8000_0000

  /** The slice from i to j holds the element at a position counted from one. */
  predicate InSlice(position: int32, i: int32, j: int32) {
    i < position <= j
  }

  /** The slice of the result holds exactly the positions, counted from one, from start to stop. */
  method ConvertStartStopToSliceIndexes(start: int32, stop: int32, length: int32) returns (indexStart: int32, indexStop: int32)
    ensures forall position: int32 :: 1 <= position <= length ==>
              (InSlice(position, indexStart, indexStop) <==> start <= position <= stop)
    ensures 0 <= indexStart && indexStop <= length
    ensures (indexStart, indexStop) == Indexes(start, stop, length)
  {
    indexStart, indexStop := start, stop;
    if indexStop > length {
      indexStop := length;
    }
    if indexStart <= 0 {
      indexStart := 0;
    } else {
      indexStart := indexStart - 1;
    }
  }

  function Indexes(start: int32, stop: int32, length: int32): (int32, int32) {
    (if start <= 0 then 0 else start - 1, if stop > length then length else stop)
  }

  /** The slice expression stays inside the list; a stop index of zero stands for the end of the list. */
  predicate SliceInRange(indexStart: int32, indexStop: int32, length: int32) {
    if indexStop == 0 then 0 <= indexStart <= length else 0 <= indexStart <= indexStop <= length
  }

  predicate Listable<T>(list: seq<T>) {
    |list| < 0x8000_0000
  }

  /** A page, or nothing where the code's slice expression would panic. */
  function Page<T>(list: seq<T>, start: int32, stop: int32): Option<seq<T>>
    requires Listable(list)
  {
    var length := |list| as int32;
    var (i, j) := Indexes(start, stop, length);
    if !SliceInRange(i, j, length) then None
    else if j == 0 then Some(list[i as int..])
    else Some(list[i as int..j as int])
  }

  /** A page holds exactly the instances at the positions asked for; a stop of zero asks for all from start on. */
  lemma PageHolds<T>(list: seq<T>, start: int32, stop: int32, position: int32)
    requires Listable(list) && Page(list, start, stop).Some? && 1 <= position as int <= |list|
    ensures var page, i := Page(list, start, stop).value, position as int - Indexes(start, stop, |list| as int32).0 as int;
            if start <= position && (stop == 0 || position <= stop)
            then 1 <= i <= |page| && page[i - 1] == list[position as int - 1]
            else i < 1 || |page| < i
  {
  }

  /** Exactly the requests that name no negative stop and do not start behind the end of their page are answered. */
  lemma PageDefinedExactly<T>(list: seq<T>, start: int32, stop: int32)
    requires Listable(list)
    ensures Page(list, start, stop).Some?
       <==> stop >= 0 && (start as int) - 1 <= if stop == 0 || |list| < stop as int then |list| else stop as int
  {
  }

  /** Asking for k instances at a time from the first on, until a page is short. */
  function Walk<T>(list: seq<T>, k: int32, done: nat): (all: Option<seq<T>>)
    requires k > 0 && |list| + k as int < 0x8000_0000 && done <= |list|
    decreases |list| - done
  {
    var page := Page(list, done as int32 + 1, done as int32 + k);
    if page.None? then None
    else if |page.value| < k as int then page
    else if done + |page.value| > |list| then None
    else
      var rest := Walk(list, k, done + |page.value|);
      if rest.None? then None else Some(page.value + rest.value)
  }

  /** Every page of the walk is in range, and together they are the rest of the list, each instance once and in order. */
  lemma {:induction false} WalkCovers<T>(list: seq<T>, k: int32, done: nat)
    requires k > 0 && |list| + k as int < 0x8000_0000 && done <= |list|
    ensures Walk(list, k, done) == Some(list[done..])
    decreases |list| - done
  {
    if done + k as int <= |list| {
      assert Page(list, done as int32 + 1, done as int32 + k) == Some(list[done..done + k as int]);
      WalkCovers(list, k, done + k as int);
      assert list[done..] == list[done..done + k as int] + list[done + k as int..];
    } else {
      assert list[done..|list|] == list[done..];
      assert Page(list, done as int32 + 1, done as int32 + k) == Some(list[done..]);
    }
  }

  // ------------------------------------------------------------ the etcd getter

  datatype Instance = Instance(name: string, yaml: string)

  function Loaded(kvs: seq<(string, string)>): seq<Instance>
    requires forall kv :: kv in kvs ==> |kv.0| >= |INSTANCE_KEY_PREFIX|
  {
    if kvs == [] then []
    else Loaded(kvs[..|kvs| - 1]) + [Instance(StripInstanceKeyPrefix(kvs[|kvs| - 1].0), kvs[|kvs| - 1].1)]
  }

  class EtcdGetter {
    var instances: seq<Instance>

    constructor ()
      ensures instances == []
    {
      instances := [];
    }

    /** Loads the key-values of the response, then cuts the list to the page unless one name was asked for. */
    method Run(name: string, start: int32, stop: int32, kvs: seq<(string, string)>)
      requires instances == [] && Listable(kvs)
      requires forall kv :: kv in kvs ==> INSTANCE_KEY_PREFIX <= kv.0
      requires name == "" ==> Page(kvs, start, stop).Some?
      modifies this
      ensures instances == if name == "" then Loaded(Page(kvs, start, stop).value) else Loaded(kvs)
    {
      var k := 0;
      while k < |kvs|
        invariant k <= |kvs| && instances == Loaded(kvs[..k])
      {
        var (key, value) := kvs[k];
        assert kvs[..k + 1][..k] == kvs[..k];
        instances := instances + [Instance(StripInstanceKeyPrefix(key), value)];
        k := k + 1;
      }
      assert kvs[..k] == kvs;
      LoadedSlices(kvs);
      if name == "" {
        var length := |instances| as int32;
        var indexStart, indexStop := ConvertStartStopToSliceIndexes(start, stop, length);
        if indexStop == 0 {
          instances := instances[indexStart as int..];
        } else {
          instances := instances[indexStart as int..indexStop as int];
        }
      }
    }
  }

  lemma {:induction false} LoadedAt(kvs: seq<(string, string)>, i: nat)
    requires (forall kv :: kv in kvs ==> |kv.0| >= |INSTANCE_KEY_PREFIX|) && i <= |kvs|
    ensures |Loaded(kvs)| == |kvs|
    ensures i < |kvs| ==> Loaded(kvs)[i] == Instance(StripInstanceKeyPrefix(kvs[i].0), kvs[i].1)
  {
    if kvs != [] {
      LoadedAt(kvs[..|kvs| - 1], if i < |kvs| - 1 then i else 0);
    }
  }

  /** Loading commutes with slicing, so the page of the list is the list of the page. */
  lemma LoadedSlices(kvs: seq<(string, string)>)
    requires forall kv :: kv in kvs ==> |kv.0| >= |INSTANCE_KEY_PREFIX|
    ensures |Loaded(kvs)| == |kvs|
    ensures forall i, j :: 0 <= i <= j <= |kvs| ==> Loaded(kvs[i..j]) == Loaded(kvs)[i..j]
    ensures forall i :: 0 <= i <= |kvs| ==> Loaded(kvs[i..]) == Loaded(kvs)[i..]
  {
    LoadedAt(kvs, 0);
    forall i, j | 0 <= i <= j <= |kvs| ensures Loaded(kvs[i..j]) == Loaded(kvs)[i..j] {
      LoadedAt(kvs[i..j], 0);
      forall l | 0 <= l < j - i ensures Loaded(kvs[i..j])[l] == Loaded(kvs)[i..j][l] {
        LoadedAt(kvs[i..j], l);
        LoadedAt(kvs, i + l);
      }
    }
    forall i | 0 <= i <= |kvs| ensures Loaded(kvs[i..]) == Loaded(kvs)[i..] {
      assert kvs[i..] == kvs[i..|kvs|] && Loaded(kvs)[i..] == Loaded(kvs)[i..|kvs|];
    }
  }

  /** What the prefix read of the whole list returns, by name. */
  function ListedNames(kv: map<string, string>): set<string> {
    set k | k in kv && INSTANCE_KEY_PREFIX <= k :: StripInstanceKeyPrefix(k)
  }

  lemma FileIsListed(kv: map<string, string>, n: string, f: string)
    requires f in FilesOf(kv, n)
    ensures n + "/" + f in ListedNames(kv)
  {
    var k := FileKey(InstanceKey(n), f);
    assert k in kv && INSTANCE_KEY_PREFIX <= k;
    assert StripInstanceKeyPrefix(k) == n + "/" + f;
  }

  lemma LockIsListed(kv: map<string, string>, n: string, k: string)
    requires k in kv && IsLockKey(k, n)
    ensures exists x :: x in ListedNames(kv) && '/' in x
  {
    var x := StripInstanceKeyPrefix(k);
    assert k == INSTANCE_KEY_PREFIX + x;
    assert k[|LockName(InstanceKey(n))|] == '/';
    assert x[|LockName(InstanceKey(n))| - |INSTANCE_KEY_PREFIX|] == '/';
    assert x in ListedNames(kv);
  }

  lemma ListedIsOneOf(kv: map<string, string>, x: string, m: string)
    requires INSTANCE_KEY_PREFIX + x in kv
    requires BelongsTo(INSTANCE_KEY_PREFIX + x, m) || IsLockKey(INSTANCE_KEY_PREFIX + x, m)
    ensures x == m || FilesOf(kv, m) != map[] || IsLockKey(INSTANCE_KEY_PREFIX + x, m)
  {
    var k := INSTANCE_KEY_PREFIX + x;
    if k == InstanceKey(m) {
      InstanceKeyInjective(x, m);
    } else if BelongsTo(k, m) {
      var f := k[|InstanceKey(m) + "/"|..];
      assert k == FileKey(InstanceKey(m), f);
      assert f in FilesOf(kv, m);
    }
  }

  lemma ListedExactly(kv: map<string, string>, x: string)
    ensures x in ListedNames(kv) <==> INSTANCE_KEY_PREFIX + x in kv
  {
    StripInvertsInstanceKey(x);
    if x in ListedNames(kv) {
      var k :| k in kv && INSTANCE_KEY_PREFIX <= k && StripInstanceKeyPrefix(k) == x;
      assert k == INSTANCE_KEY_PREFIX + x;
    }
    if INSTANCE_KEY_PREFIX + x in kv {
      assert INSTANCE_KEY_PREFIX <= INSTANCE_KEY_PREFIX + x;
      assert StripInstanceKeyPrefix(INSTANCE_KEY_PREFIX + x) in ListedNames(kv);
    }
  }

  /** No file is stored and no lock is held or awaited. */
  ghost predicate OnlyInstanceKeys(kv: map<string, string>, names: set<string>) {
    forall n :: n in names ==> FilesOf(kv, n) == map[] && forall k :: k in kv ==> !IsLockKey(k, n)
  }

  /**
   * Every stored file and every lock key is listed as if it were an instance, so all listed names
   * are live instances exactly while there is neither; every live instance is always listed.
   */
  lemma ListExactly(kv: map<string, string>, names: set<string>)
    requires CleanNames(names) && HoldsOnly(kv, names)
    ensures (forall x :: x in ListedNames(kv) ==> x in names) <==> OnlyInstanceKeys(kv, names)
    ensures forall n :: n in names ==> (n in ListedNames(kv) <==> EntryOf(kv, n).Some?)
  {
    forall n ensures n in ListedNames(kv) <==> INSTANCE_KEY_PREFIX + n in kv {
      ListedExactly(kv, n);
    }
    if OnlyInstanceKeys(kv, names) {
      forall x | x in ListedNames(kv) ensures x in names {
        var m :| m in names && (BelongsTo(INSTANCE_KEY_PREFIX + x, m) || IsLockKey(INSTANCE_KEY_PREFIX + x, m));
        ListedIsOneOf(kv, x, m);
      }
    } else {
      var n :| n in names && (FilesOf(kv, n) != map[] || exists k :: k in kv && IsLockKey(k, n));
      if FilesOf(kv, n) != map[] {
        var f :| f in FilesOf(kv, n);
        FileIsListed(kv, n, f);
        assert (n + "/" + f)[|n|] == '/';
      } else {
        var k :| k in kv && IsLockKey(k, n);
        LockIsListed(kv, n, k);
      }
    }
  }
}
