/** The flat key space of the etcd adapter and the reading of it as one entry per instance name. */
module Keys {
  import opened Requests

  const INSTANCE_KEY_PREFIX := "hambone_instance_"

  function InstanceKey(name: string): string {
    INSTANCE_KEY_PREFIX + name
  }

  function FileKey(instanceKey: string, name: string): string {
    instanceKey + "/" + name
  }

  /** Slices off as many characters as the prefix has; shorter keys would panic. */
  function StripInstanceKeyPrefix(key: string): string
    requires |key| >= |INSTANCE_KEY_PREFIX|
  {
    key[|INSTANCE_KEY_PREFIX|..]
  }

  /** The name of the mutex that guards a storage key. */
  function LockName(key: string): string {
    key + "-lock"
  }

  /** The key a session writes to queue for a mutex: the mutex name, a slash and the lease. */
  function LockKey(name: string, lease: string): string {
    LockName(InstanceKey(name)) + "/" + lease
  }

  predicate InDeleteRange(name: string, key: string) {
    InstanceKey(name) <= key
  }

  // ---------------------------------------------------------------- encoding

  lemma StripInvertsInstanceKey(name: string)
    ensures StripInstanceKeyPrefix(InstanceKey(name)) == name
  {
  }

  lemma InstanceKeyInjective(a: string, b: string)
    ensures InstanceKey(a) == InstanceKey(b) <==> a == b
  {
    StripInvertsInstanceKey(a);
    StripInvertsInstanceKey(b);
  }

  lemma LockNameInjective(a: string, b: string)
    ensures LockName(InstanceKey(a)) == LockName(InstanceKey(b)) <==> a == b
  {
    if LockName(InstanceKey(a)) == LockName(InstanceKey(b)) {
      assert LockName(InstanceKey(a))[..|InstanceKey(a)|] == InstanceKey(a);
      assert LockName(InstanceKey(b))[..|InstanceKey(b)|] == InstanceKey(b);
      InstanceKeyInjective(a, b);
    }
  }

  /** A string has only one first slash. */
  lemma FirstSlashUnique(a: string, b: string, c: string, d: string)
    requires '/' !in a && '/' !in c
    requires a + "/" + b == c + "/" + d
    ensures a == c && b == d
  {
    var s := a + "/" + b;
    assert s[|a|] == '/' && s[|c|] == '/';
    assert a == s[..|a|] && c == s[..|c|];
    assert forall i :: 0 <= i < |a| ==> s[i] == a[i] && s[i] != '/';
    assert forall i :: 0 <= i < |c| ==> s[i] == c[i] && s[i] != '/';
    assert |a| == |c|;
    assert b == s[|a| + 1..] && d == s[|c| + 1..];
  }

  lemma FileKeyInjective(a: string, f: string, b: string, g: string)
    requires '/' !in a && '/' !in b
    ensures FileKey(InstanceKey(a), f) == FileKey(InstanceKey(b), g) <==> a == b && f == g
  {
    if FileKey(InstanceKey(a), f) == FileKey(InstanceKey(b), g) {
      FirstSlashUnique(InstanceKey(a), f, InstanceKey(b), g);
      InstanceKeyInjective(a, b);
    }
  }

  /** Instance keys hold no slash, file and lock keys do. */
  lemma InstanceKeysApart(a: string, b: string, f: string, lease: string)
    requires '/' !in a
    ensures InstanceKey(a) != FileKey(InstanceKey(b), f)
    ensures InstanceKey(a) != LockKey(b, lease)
  {
    assert '/' !in InstanceKey(a);
    assert FileKey(InstanceKey(b), f)[|InstanceKey(b)|] == '/';
    assert LockKey(b, lease)[|LockName(InstanceKey(b))|] == '/';
  }

  /** A file key and a lock key collide exactly when the one name is the other plus "-lock". */
  lemma FileLockCollision(a: string, f: string, b: string, lease: string)
    requires '/' !in a && '/' !in b
    ensures FileKey(InstanceKey(a), f) == LockKey(b, lease) <==> a == b + "-lock" && f == lease
  {
    assert LockName(InstanceKey(b)) == InstanceKey(b + "-lock");
    FileKeyInjective(a, f, b + "-lock", lease);
  }

  // ------------------------------------------------------------ delete range

  lemma PrefixThroughSlash(n: string, m: string, rest: string)
    requires '/' !in n
    ensures n <= m + "/" + rest <==> n <= m
  {
    var s := m + "/" + rest;
    assert s[|m|] == '/';
    if n <= s {
      assert forall i :: 0 <= i < |n| ==> s[i] == n[i] && s[i] != '/';
      assert |n| <= |m|;
      assert n == s[..|n|] == m[..|n|];
    }
    if n <= m {
      assert s[..|n|] == m[..|n|];
    }
  }

  lemma InstanceKeyOrder(n: string, s: string)
    ensures InstanceKey(n) <= INSTANCE_KEY_PREFIX + s <==> n <= s
  {
    var p := INSTANCE_KEY_PREFIX;
    if InstanceKey(n) <= p + s {
      assert n == (p + s)[|p|..|p| + |n|] == s[..|n|];
    }
    if n <= s {
      assert (p + s)[..|p| + |n|] == p + s[..|n|];
    }
  }

  /**
   * What the range delete of one instance reaches of another: its keys exactly when the first
   * name is a prefix of the second, its lock keys exactly when it is a prefix of the mutex name.
   */
  lemma DeleteRangeReach(n: string, m: string, f: string, lease: string)
    requires '/' !in n
    ensures InDeleteRange(n, InstanceKey(m)) <==> n <= m
    ensures InDeleteRange(n, FileKey(InstanceKey(m), f)) <==> n <= m
    ensures InDeleteRange(n, LockKey(m, lease)) <==> n <= m + "-lock"
  {
    InstanceKeyOrder(n, m);
    InstanceKeyOrder(n, m + "/" + f);
    InstanceKeyOrder(n, m + "-lock" + "/" + lease);
    PrefixThroughSlash(n, m, f);
    PrefixThroughSlash(n, m + "-lock", lease);
    assert FileKey(InstanceKey(m), f) == INSTANCE_KEY_PREFIX + (m + "/" + f);
    assert LockKey(m, lease) == INSTANCE_KEY_PREFIX + (m + "-lock" + "/" + lease);
  }

  /** The range delete of an instance always reaches its own lock keys, although a lock key is never a storage key. */
  lemma OwnLockKeyInDeleteRange(name: string, lease: string)
    ensures InDeleteRange(name, LockKey(name, lease))
  {
    var key := InstanceKey(name);
    assert LockKey(name, lease) == key + ("-lock/" + lease);
    assert LockKey(name, lease)[..|key|] == key;
  }

  lemma PrefixesCompare(a: string, b: string, s: string)
    requires a <= s && b <= s
    ensures a <= b || b <= a
  {
    assert a == s[..|a|] && b == s[..|b|];
    assert |a| <= |b| ==> a == b[..|a|];
    assert |b| <= |a| ==> b == a[..|b|];
  }

  /** Among clean names, the lock keys that a range delete reaches are those of its own mutex. */
  lemma DeleteCoversOwnMutexOnly(names: set<string>, n: string, m: string, lease: string)
    requires CleanNames(names) && n in names && m in names
    ensures InDeleteRange(n, LockKey(m, lease)) <==> n == m
  {
    DeleteRangeReach(n, m, "", lease);
    if n <= m + "-lock" {
      PrefixesCompare(n, m, m + "-lock");
    }
    if n == m {
      OwnLockKeyInDeleteRange(n, lease);
    }
  }

  // ----------------------------------------------------- one entry per name

  datatype Entry = Entry(yaml: string, files: map<string, string>)

  function FileNamesOf(kv: map<string, string>, name: string): set<string> {
    var dir := InstanceKey(name) + "/";
    set k | k in kv && dir <= k :: k[|dir|..]
  }

  lemma FileNamesExact(kv: map<string, string>, name: string, f: string)
    ensures f in FileNamesOf(kv, name) <==> FileKey(InstanceKey(name), f) in kv
  {
    var dir := InstanceKey(name) + "/";
    var k := FileKey(InstanceKey(name), f);
    assert k == dir + f;
    assert dir <= k && k[|dir|..] == f;
    if f in FileNamesOf(kv, name) {
      var j :| j in kv && dir <= j && j[|dir|..] == f;
      assert j == dir + f;
    }
  }

  function FilesOf(kv: map<string, string>, name: string): (files: map<string, string>)
    ensures forall f :: f in files <==> FileKey(InstanceKey(name), f) in kv
    ensures forall f :: f in files ==> files[f] == kv[FileKey(InstanceKey(name), f)]
  {
    assert forall f :: f in FileNamesOf(kv, name) <==> FileKey(InstanceKey(name), f) in kv by {
      forall f ensures f in FileNamesOf(kv, name) <==> FileKey(InstanceKey(name), f) in kv {
        FileNamesExact(kv, name, f);
      }
    }
    map f | f in FileNamesOf(kv, name) :: kv[FileKey(InstanceKey(name), f)]
  }

  function EntryOf(kv: map<string, string>, name: string): Option<Entry> {
    if InstanceKey(name) in kv then Some(Entry(kv[InstanceKey(name)], FilesOf(kv, name))) else None
  }

  function DeleteRange(kv: map<string, string>, name: string): map<string, string> {
    map k | k in kv && !InDeleteRange(name, k) :: kv[k]
  }

  /** Where the manifest, the files and the lock keys of a name stand in the key space. */
  lemma StoredLayout(kv: map<string, string>, n: string, f: string, lease: string)
    ensures EntryOf(kv, n).Some? <==> "hambone_instance_" + n in kv
    ensures EntryOf(kv, n).Some? ==>
              && EntryOf(kv, n).value.yaml == kv["hambone_instance_" + n]
              && (f in EntryOf(kv, n).value.files <==> "hambone_instance_" + n + "/" + f in kv)
              && (f in EntryOf(kv, n).value.files ==>
                    EntryOf(kv, n).value.files[f] == kv["hambone_instance_" + n + "/" + f])
    ensures LockKey(n, lease) == "hambone_instance_" + n + "-lock/" + lease
  {
    var l := "hambone_instance_" + n;
    assert l + "-lock" + "/" + lease == l + "-lock/" + lease;
  }

  /** No slash in a name and no name a proper prefix of another. */
  ghost predicate CleanNames(names: set<string>) {
    && (forall n :: n in names ==> '/' !in n)
    && (forall n, m :: n in names && m in names && n <= m ==> n == m)
  }

  lemma CleanPair(names: set<string>, n: string, m: string)
    requires CleanNames(names) && n in names && m in names
    ensures '/' !in n && '/' !in m && (n <= m ==> n == m)
  {
  }

  /** File keys are stored only beside their instance key. */
  ghost predicate NoOrphanFiles(kv: map<string, string>, names: set<string>) {
    forall n :: n in names && FilesOf(kv, n) != map[] ==> InstanceKey(n) in kv
  }

  lemma PutInstanceEntry(kv: map<string, string>, n: string, yaml: string, m: string)
    requires '/' !in n && '/' !in m
    ensures FilesOf(kv[InstanceKey(n) := yaml], m) == FilesOf(kv, m)
    ensures EntryOf(kv[InstanceKey(n) := yaml], m)
         == if m == n then Some(Entry(yaml, FilesOf(kv, n))) else EntryOf(kv, m)
  {
    forall f ensures InstanceKey(n) != FileKey(InstanceKey(m), f) {
      InstanceKeysApart(n, m, f, "");
    }
    InstanceKeyInjective(n, m);
  }

  lemma PutFileEntry(kv: map<string, string>, n: string, f: string, contents: string, m: string)
    requires '/' !in n && '/' !in m
    ensures FilesOf(kv[FileKey(InstanceKey(n), f) := contents], m)
         == if m == n then FilesOf(kv, m)[f := contents] else FilesOf(kv, m)
    ensures EntryOf(kv[FileKey(InstanceKey(n), f) := contents], m)
         == if m == n && EntryOf(kv, n).Some?
            then Some(Entry(EntryOf(kv, n).value.yaml, EntryOf(kv, n).value.files[f := contents]))
            else EntryOf(kv, m)
  {
    InstanceKeysApart(m, n, f, "");
    forall g ensures FileKey(InstanceKey(n), f) == FileKey(InstanceKey(m), g) <==> n == m && f == g {
      FileKeyInjective(n, f, m, g);
    }
  }

  /** The prefix delete removes the whole entry of its own name and no other clean name's. */
  lemma DeleteRangeEntry(kv: map<string, string>, n: string, m: string)
    requires '/' !in n && '/' !in m && (n <= m ==> n == m)
    ensures FilesOf(DeleteRange(kv, n), m) == if m == n then map[] else FilesOf(kv, m)
    ensures EntryOf(DeleteRange(kv, n), m) == if m == n then None else EntryOf(kv, m)
  {
    forall f
      ensures InDeleteRange(n, InstanceKey(m)) <==> n == m
      ensures InDeleteRange(n, FileKey(InstanceKey(m), f)) <==> n == m
    {
      DeleteRangeReach(n, m, f, "");
    }
  }

  /** Exactly when the other name starts with the deleted one does the other entry vanish. */
  lemma DeleteRangeFrame(kv: map<string, string>, n: string, m: string)
    requires '/' !in n && '/' !in m && EntryOf(kv, m).Some?
    ensures EntryOf(DeleteRange(kv, n), m) == EntryOf(kv, m) <==> !(n <= m)
  {
    forall f
      ensures InDeleteRange(n, InstanceKey(m)) <==> n <= m
      ensures InDeleteRange(n, FileKey(InstanceKey(m), f)) <==> n <= m
    {
      DeleteRangeReach(n, m, f, "");
    }
    if !(n <= m) {
      assert FilesOf(DeleteRange(kv, n), m) == FilesOf(kv, m);
    }
  }

  /** The instance key of a name or one of its file keys. */
  predicate BelongsTo(key: string, name: string) {
    key == InstanceKey(name) || InstanceKey(name) + "/" <= key
  }

  /** A key that some session of the mutex of a name has stored. */
  predicate IsLockKey(key: string, name: string) {
    LockName(InstanceKey(name)) + "/" <= key
  }

  /** Only keys of the given names and of their mutexes are stored. */
  ghost predicate HoldsOnly(kv: map<string, string>, names: set<string>) {
    forall k :: k in kv ==> exists m :: m in names && (BelongsTo(k, m) || IsLockKey(k, m))
  }

  /** Among clean names, a delete removes exactly the keys of its own name and those of its own mutex. */
  lemma DeleteRangeExact(kv: map<string, string>, n: string, names: set<string>)
    requires CleanNames(names) && n in names && HoldsOnly(kv, names)
    ensures forall k :: k in kv ==> (k !in DeleteRange(kv, n) <==> BelongsTo(k, n) || IsLockKey(k, n))
  {
    forall k | k in kv ensures k !in DeleteRange(kv, n) <==> BelongsTo(k, n) || IsLockKey(k, n) {
      var m :| m in names && (BelongsTo(k, m) || IsLockKey(k, m));
      if BelongsTo(k, m) {
        KeyOfOneName(k, n, m);
        if IsLockKey(k, n) {
          LockKeyInRange(k, n);
        }
      } else {
        LockKeyOfOneName(names, k, n, m);
      }
    }
  }

  lemma LockKeyInRange(k: string, n: string)
    requires IsLockKey(k, n)
    ensures InDeleteRange(n, k)
  {
    var lease := k[|LockName(InstanceKey(n)) + "/"|..];
    assert k == LockKey(n, lease);
    OwnLockKeyInDeleteRange(n, lease);
  }

  lemma LockKeyOfOneName(names: set<string>, k: string, n: string, m: string)
    requires CleanNames(names) && n in names && m in names && IsLockKey(k, m)
    ensures InDeleteRange(n, k) <==> n == m
    ensures BelongsTo(k, n) || IsLockKey(k, n) ==> n == m
  {
    var lease := k[|LockName(InstanceKey(m)) + "/"|..];
    assert k == LockKey(m, lease);
    DeleteCoversOwnMutexOnly(names, n, m, lease);
    if IsLockKey(k, n) {
      LockKeyInRange(k, n);
    }
    if BelongsTo(k, n) {
      assert InDeleteRange(n, k) by {
        if k != InstanceKey(n) {
          assert InstanceKey(n) == (InstanceKey(n) + "/")[..|InstanceKey(n)|] == k[..|InstanceKey(n)|];
        }
      }
    }
  }

  lemma KeyOfOneName(k: string, n: string, m: string)
    requires '/' !in n && '/' !in m && (n <= m ==> n == m)
    requires BelongsTo(k, m)
    ensures InDeleteRange(n, k) <==> n == m
    ensures BelongsTo(k, n) <==> n == m
  {
    if k == InstanceKey(m) {
      DeleteRangeReach(n, m, "", "");
      InstanceKeyInjective(n, m);
      assert '/' !in k;
      assert !(InstanceKey(n) + "/" <= k) by {
        assert (InstanceKey(n) + "/")[|InstanceKey(n)|] == '/';
      }
    } else {
      var f := k[|InstanceKey(m) + "/"|..];
      assert k == FileKey(InstanceKey(m), f);
      DeleteRangeReach(n, m, f, "");
      InstanceKeysApart(n, m, f, "");
      if InstanceKey(n) + "/" <= k {
        var g := k[|InstanceKey(n) + "/"|..];
        assert k == FileKey(InstanceKey(n), g);
        FileKeyInjective(n, g, m, f);
      }
    }
  }
}
