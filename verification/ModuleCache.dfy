/** The bounded cache of compiled wasm modules, keyed by the hash of their bytes. */
module ModuleCaches {
  import opened Wrappers
  import opened Bytes
  import opened Sequences

  const MODULE_CACHE_CAPACITY: nat := 64

  /** A map that remembers insertion order, oldest first. */
  datatype Entry<M> = Entry(key: string, module_: M)

  function Keys<M>(entries: seq<Entry<M>>): seq<string> {
    seq(|entries|, i requires 0 <= i < |entries| => entries[i].key)
  }

  /** The place of a key, or the length if it is absent. */
  function Place<M>(entries: seq<Entry<M>>, key: string): (n: nat)
    ensures n <= |entries| && (n < |entries| ==> entries[n].key == key)
    ensures forall i :: 0 <= i < n ==> entries[i].key != key
  {
    if entries == [] || entries[0].key == key then 0
    else
      var n := 1 + Place(entries[1..], key);
      assert forall i :: 1 <= i < n ==> entries[i] == entries[1..][i - 1];
      n
  }

  // -------------------------------------------------------------------------
  // Recency
  // -------------------------------------------------------------------------

  /** The keys of a history, each at its last use, in that order. */
  function ByLastUse(uses: seq<string>): seq<string> {
    if uses == [] then []
    else if uses[0] in uses[1..] then ByLastUse(uses[1..])
    else [uses[0]] + ByLastUse(uses[1..])
  }

  function Except(keys: seq<string>, key: string): seq<string> {
    if keys == [] then []
    else if keys[0] == key then Except(keys[1..], key)
    else [keys[0]] + Except(keys[1..], key)
  }

  lemma {:induction false} ByLastUseIsDistinct(uses: seq<string>)
    ensures Distinct(ByLastUse(uses))
    ensures forall k :: k in ByLastUse(uses) <==> k in uses
  {
    if uses != [] {
      ByLastUseIsDistinct(uses[1..]);
      assert forall k :: k in uses <==> k == uses[0] || k in uses[1..];
    }
  }

  /** Using a key moves it to the end. */
  lemma {:induction false} UseMovesToEnd(uses: seq<string>, key: string)
    ensures ByLastUse(uses + [key]) == Except(ByLastUse(uses), key) + [key]
  {
    if uses == [] {
      assert uses + [key] == [key];
    } else {
      var first, rest := uses[0], uses[1..];
      UseMovesToEnd(rest, key);
      assert (uses + [key])[0] == first && (uses + [key])[1..] == rest + [key];
      assert first in rest + [key] <==> first in rest || first == key;
      if first !in rest {
        var tail := ByLastUse(rest);
        assert ([first] + tail)[1..] == tail;
        ByLastUseIsDistinct(rest);
        if first == key {
          ExceptAbsent(tail, key);
        }
      }
    }
  }

  lemma {:induction false} ExceptAbsent(keys: seq<string>, key: string)
    requires key !in keys
    ensures Except(keys, key) == keys
  {
    if keys != [] {
      ExceptAbsent(keys[1..], key);
    }
  }

  lemma {:induction false} ExceptAt(keys: seq<string>, n: nat)
    requires Distinct(keys) && n < |keys|
    ensures Except(keys, keys[n]) == Without(keys, n)
  {
    var rest := keys[1..];
    if n == 0 {
      assert keys[0] !in rest;
      ExceptAbsent(rest, keys[0]);
    } else {
      ExceptAt(rest, n - 1);
      assert rest[..n - 1] + rest[n..] == (keys[..n] + keys[n + 1..])[1..];
    }
  }

  lemma LastOfWithout<T>(s: seq<T>, n: nat, x: T, capacity: nat)
    requires n < |s| && capacity > 0
    ensures |s| - capacity <= n ==>
      Last(Without(s, n) + [x], capacity) == Without(Last(s, capacity), n - (|s| - |Last(s, capacity)|)) + [x]
    ensures n < |s| - capacity ==> Last(Without(s, n) + [x], capacity) == Last(s + [x], capacity)
  {
    var moved, cut := Without(s, n) + [x], |s| - capacity;
    if cut > 0 && n >= cut {
      assert moved[cut..] == Without(s[cut..], n - cut) + [x];
    } else if cut > 0 {
      assert moved[cut..] == s[cut + 1..] + [x];
      assert (s + [x])[cut + 1..] == s[cut + 1..] + [x];
    }
  }

  /** The most recently used keys. */
  function Recent(uses: seq<string>): seq<string> {
    Last(ByLastUse(uses), 64)
  }

  /** A key among them moves to the end. */
  lemma RecentAfterHit(uses: seq<string>, n: nat)
    requires n < |Recent(uses)|
    ensures Recent(uses + [Recent(uses)[n]]) == Without(Recent(uses), n) + [Recent(uses)[n]]
  {
    var all, recent := ByLastUse(uses), Recent(uses);
    var m := |all| - |recent| + n;
    ByLastUseIsDistinct(uses);
    UseMovesToEnd(uses, recent[n]);
    assert all[m] == recent[n];
    ExceptAt(all, m);
    LastOfWithout(all, m, recent[n], MODULE_CACHE_CAPACITY);
  }

  /** Any other pushes the least recent out. */
  lemma RecentAfterMiss(uses: seq<string>, key: string)
    requires key !in Recent(uses)
    ensures Recent(uses + [key]) == Last(Recent(uses) + [key], 64)
  {
    var all, recent := ByLastUse(uses), Recent(uses);
    ByLastUseIsDistinct(uses);
    UseMovesToEnd(uses, key);
    LastAppend(all, key, MODULE_CACHE_CAPACITY);
    if key in all {
      var older := all[..|all| - |recent|];
      assert all == older + recent;
      var m :| 0 <= m < |older| && older[m] == key;
      ExceptAt(all, m);
      LastOfWithout(all, m, key, MODULE_CACHE_CAPACITY);
    } else {
      ExceptAbsent(all, key);
    }
  }

  // -------------------------------------------------------------------------
  // The cache
  // -------------------------------------------------------------------------

  ghost predicate Injective(digest: seq<Byte> -> string) {
    forall a, b :: digest(a) == digest(b) ==> a == b
  }

  class ModuleCache<M> {
    const digest: seq<Byte> -> string
    // The engine: its `serial`-th compilation of some bytes gives its own module object, or fails.
    const compile: (seq<Byte>, nat) -> Result<M, string>
    var entries: seq<Entry<M>>
    var compilations: nat
    // The keys of the lookups that returned a module.
    ghost var uses: seq<string>
    // The bytes and the compilation each cached module comes from.
    ghost var origin: map<string, (seq<Byte>, nat)>

    ghost predicate Valid()
      reads this
    {
      && Keys(entries) == Recent(uses)
      && (forall e :: e in entries ==> Genuine(e))
    }

    ghost predicate Genuine(e: Entry<M>)
      reads this`origin
    {
      && e.key in origin && digest(origin[e.key].0) == e.key
      && compile(origin[e.key].0, origin[e.key].1) == Ok(e.module_)
    }

    /** The module is some compilation of these bytes. */
    ghost predicate IsModuleOf(m: M, bytes: seq<Byte>) {
      exists serial: nat :: compile(bytes, serial) == Ok(m)
    }

    constructor (digest: seq<Byte> -> string, compile: (seq<Byte>, nat) -> Result<M, string>)
      ensures Valid() && uses == [] && compilations == 0
      ensures this.digest == digest && this.compile == compile
    {
      this.digest, this.compile := digest, compile;
      entries, compilations, uses, origin := [], 0, [], map[];
    }

    /** A hit refreshes the key: it is deleted and set again. */
    method Refresh(place: nat)
      requires Valid() && place < |entries|
      modifies this`entries, this`uses
      ensures Valid() && uses == old(uses) + [old(entries)[place].key]
    {
      var cached := entries[place];
      RecentAfterHit(uses, place);
      MovedKeys(entries, place);
      assert forall e :: e in Without(entries, place) + [cached] ==> e in entries;
      entries := Without(entries, place) + [cached];
      uses := uses + [cached.key];
    }

    method Add(e: Entry<M>)
      requires |entries| <= MODULE_CACHE_CAPACITY
      modifies this`entries
      ensures entries == Last(old(entries) + [e], MODULE_CACHE_CAPACITY)
    {
      entries := entries + [e];
      if |entries| > MODULE_CACHE_CAPACITY {
        entries := entries[1..];
      }
    }

    method Store(key: string, compiled: M, ghost bytes: seq<Byte>, ghost serial: nat)
      requires Valid() && key !in Keys(entries)
      requires digest(bytes) == key && compile(bytes, serial) == Ok(compiled)
      modifies this`entries, this`uses, this`origin
      ensures Valid() && uses == old(uses) + [key]
    {
      var e := Entry(key, compiled);
      RecentAfterMiss(uses, key);
      AddedKeys(entries, e);
      KeysOfMembers(entries);
      MembersOfLast(entries, e);
      assert |Keys(entries)| == |entries|;
      origin := origin[key := (bytes, serial)];
      uses := uses + [key];
      Add(e);
    }

    /**
     * The cache holds exactly the 64 most recently used of the keys that
     * compiled, in recency order; a lookup returns a module of those bytes and
     * compiles only when its key is not among them; a failed compilation
     * changes nothing.
     */
    method GetOrCompile(bytes: seq<Byte>) returns (r: Result<M, string>)
      requires Valid() && Injective(digest)
      modifies this
      ensures Valid()
      ensures r.Ok? ==> IsModuleOf(r.value, bytes) && uses == old(uses) + [digest(bytes)]
      ensures r.Err? ==> entries == old(entries) && uses == old(uses)
      ensures digest(bytes) in old(Keys(entries)) ==>
        r.Ok? && Entry(digest(bytes), r.value) in old(entries) && compilations == old(compilations)
      ensures digest(bytes) !in old(Keys(entries)) ==>
        r == compile(bytes, old(compilations)) && compilations == old(compilations) + 1
    {
      var key := digest(bytes);
      var place := Place(entries, key);
      if place < |entries| {
        var cached := entries[place].module_;
        assert Keys(entries)[place] == key && Genuine(entries[place]);
        Refresh(place);
        return Ok(cached);
      }
      var serial := compilations;
      compilations := compilations + 1;
      r := compile(bytes, serial);
      if r.Ok? {
        Store(key, r.value, bytes, serial);
      }
    }
  }

  lemma MovedKeys<M>(entries: seq<Entry<M>>, place: nat)
    requires place < |entries|
    ensures Keys(Without(entries, place) + [entries[place]]) == Without(Keys(entries), place) + [entries[place].key]
  {
    assert Keys(Without(entries, place)) == Without(Keys(entries), place);
    AppendedKey(Without(entries, place), entries[place]);
  }

  lemma AppendedKey<M>(entries: seq<Entry<M>>, e: Entry<M>)
    ensures Keys(entries + [e]) == Keys(entries) + [e.key]
  {
  }

  lemma AddedKeys<M>(entries: seq<Entry<M>>, e: Entry<M>)
    ensures Keys(Last(entries + [e], MODULE_CACHE_CAPACITY)) == Last(Keys(entries) + [e.key], MODULE_CACHE_CAPACITY)
  {
  }

  lemma MembersOfLast<M>(entries: seq<Entry<M>>, e: Entry<M>)
    ensures forall x :: x in Last(entries + [e], MODULE_CACHE_CAPACITY) ==> x in entries || x == e
  {
  }

  lemma KeysOfMembers<M>(entries: seq<Entry<M>>)
    ensures forall e :: e in entries ==> e.key in Keys(entries)
  {
    forall e | e in entries ensures e.key in Keys(entries) {
      var i :| 0 <= i < |entries| && entries[i] == e;
      assert Keys(entries)[i] == e.key;
    }
  }

  // -------------------------------------------------------------------------
  // What recency means for a caller
  // -------------------------------------------------------------------------

  lemma {:induction false} SizeOfByLastUse(uses: seq<string>)
    ensures |ByLastUse(uses)| == |Elements(uses)|
  {
    if uses == [] {
      assert Elements(uses) == {};
    } else {
      SizeOfByLastUse(uses[1..]);
      assert Elements(uses) == Elements(uses[1..]) + {uses[0]};
    }
  }

  lemma {:induction false} AfterLastUse(uses: seq<string>, i: nat)
    requires i < |uses| && uses[i] !in uses[i + 1..]
    ensures
      var all, after := ByLastUse(uses), ByLastUse(uses[i + 1..]);
      |all| > |after| && all[|all| - |after| - 1] == uses[i]
  {
    if i > 0 {
      AfterLastUse(uses[1..], i - 1);
      assert uses[1..][i..] == uses[i + 1..];
    }
  }

  /** A module is found again exactly when fewer than 64 different ones were used since its own last use. */
  lemma HitIffFewUsedSince(uses: seq<string>, i: nat)
    requires i < |uses| && uses[i] !in uses[i + 1..]
    ensures uses[i] in Recent(uses)
       <==> |Elements(uses[i + 1..])| < 64
  {
    var all := ByLastUse(uses);
    var recent := Recent(uses);
    AfterLastUse(uses, i);
    SizeOfByLastUse(uses[i + 1..]);
    ByLastUseIsDistinct(uses);
    var n := |all| - |ByLastUse(uses[i + 1..])| - 1;
    assert all[n] == uses[i];
    assert n >= |all| - |recent| ==> recent[n - (|all| - |recent|)] == uses[i];
  }
}
