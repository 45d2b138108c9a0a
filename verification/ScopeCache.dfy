/**
 * The permission-scope cache: an insertion-ordered map with a time to live, a size
 * limit and hit statistics. Times are milliseconds of one clock.
 */
module ScopeCache {
  import opened Prelude

  const TTL_MS := 300_000
  const MAX_ENTRIES := 10_000

  datatype Entry<V> = Entry(scopes: V, timestamp: nat)

  function BuildKey(userId: string, companyId: string): string {
    userId + ":" + companyId
  }

  predicate ColonFree(s: string) {
    ':' !in s
  }

  /** The key determines user and company when the user id has no colon. */
  lemma KeyInjective(u: string, c: string, u': string, c': string)
    requires ColonFree(u) && ColonFree(u') && BuildKey(u, c) == BuildKey(u', c')
    ensures u == u' && c == c'
  {
    var k, k' := BuildKey(u, c), BuildKey(u', c');
    assert k[|u|] == ':' && k'[|u'|] == ':';
    assert forall i :: 0 <= i < |u| ==> k[i] == u[i];
    assert forall i :: 0 <= i < |u'| ==> k'[i] == u'[i];
    assert |u| == |u'|;
    assert u == k[..|u|] == k'[..|u'|] == u';
    assert c == k[|u| + 1..] == k'[|u'| + 1..] == c';
  }

  /** Two user ids can share a key exactly when one, with a colon, starts the other with a colon. */
  lemma KeyShared(u: string, u': string)
    ensures (exists c, c' :: BuildKey(u, c) == BuildKey(u', c')) <==> u + ":" <= u' + ":" || u' + ":" <= u + ":"
  {
    if exists c, c' :: BuildKey(u, c) == BuildKey(u', c') {
      var c, c' :| BuildKey(u, c) == BuildKey(u', c');
      var k := BuildKey(u, c);
      assert u + ":" == k[..|u| + 1] && u' + ":" == k[..|u'| + 1];
    }
    if u + ":" <= u' + ":" {
      assert BuildKey(u, (u' + ":")[|u| + 1..]) == BuildKey(u', "");
    }
    if u' + ":" <= u + ":" {
      assert BuildKey(u', (u + ":")[|u'| + 1..]) == BuildKey(u, "");
    }
  }

  /** With a colon in a user id two pairs can share a key. */
  lemma ColonsCollide(a: string, b: string, c: string)
    ensures BuildKey(a + ":" + b, c) == BuildKey(a, b + ":" + c)
  {
    assert a + ":" + b + ":" + c == a + ":" + (b + ":" + c);
  }

  /** The contents of the JavaScript Map: keys in insertion order with their entries. */
  datatype Cache<V> = Cache(keys: seq<string>, entries: map<string, Entry<V>>)

  ghost predicate Consistent<V>(m: Cache<V>) {
    && (forall k :: k in m.keys <==> k in m.entries)
    && (forall i, j | 0 <= i < j < |m.keys| :: m.keys[i] != m.keys[j])
    && |m.keys| == |m.entries|
  }

  function Remove(keys: seq<string>, gone: set<string>): seq<string> {
    if keys == [] then [] else (if keys[0] in gone then [] else [keys[0]]) + Remove(keys[1..], gone)
  }

  function Delete<V>(m: Cache<V>, gone: set<string>): Cache<V> {
    Cache(Remove(m.keys, gone), m.entries - gone)
  }

  /** Map.set: an existing key keeps its place, a new one goes to the end. */
  function Put<V>(m: Cache<V>, k: string, e: Entry<V>): Cache<V> {
    Cache(if k in m.entries then m.keys else m.keys + [k], m.entries[k := e])
  }

  lemma {:induction false} RemoveKeeps(keys: seq<string>, gone: set<string>)
    requires forall i, j | 0 <= i < j < |keys| :: keys[i] != keys[j]
    ensures forall k :: k in Remove(keys, gone) <==> k in keys && k !in gone
    ensures forall i, j | 0 <= i < j < |Remove(keys, gone)| :: Remove(keys, gone)[i] != Remove(keys, gone)[j]
  {
    if keys != [] {
      RemoveKeeps(keys[1..], gone);
      assert forall k :: k in keys <==> k == keys[0] || k in keys[1..];
      var rest := Remove(keys[1..], gone);
      assert keys[0] !in keys[1..];
    }
  }

  lemma DistinctSize(keys: seq<string>, s: set<string>)
    requires forall i, j | 0 <= i < j < |keys| :: keys[i] != keys[j]
    requires forall k :: k in keys <==> k in s
    ensures |keys| == |s|
    decreases |keys|
  {
    if keys == [] {
      assert s == {};
    } else {
      var last := keys[|keys| - 1];
      DistinctSize(keys[..|keys| - 1], s - {last});
    }
  }

  lemma DeleteConsistent<V>(m: Cache<V>, gone: set<string>)
    requires Consistent(m)
    ensures Consistent(Delete(m, gone)) && |Delete(m, gone).entries| <= |m.entries|
  {
    RemoveKeeps(m.keys, gone);
    DistinctSize(Delete(m, gone).keys, Delete(m, gone).entries.Keys);
    assert Delete(m, gone).entries.Keys <= m.entries.Keys;
    SubsetSize(Delete(m, gone).entries.Keys, m.entries.Keys);
  }

  lemma {:induction false} RemovedTwice(keys: seq<string>, a: set<string>, b: set<string>)
    ensures Remove(Remove(keys, a), b) == Remove(keys, a + b)
  {
    if keys != [] {
      RemovedTwice(keys[1..], a, b);
      var rest := Remove(keys[1..], a);
      if keys[0] !in a {
        assert ([keys[0]] + rest)[1..] == rest;
      } else {
        assert [] + rest == rest;
      }
    }
  }

  lemma DeletedTwice<V>(m: Cache<V>, a: set<string>, b: set<string>)
    ensures Delete(Delete(m, a), b) == Delete(m, a + b)
  {
    RemovedTwice(m.keys, a, b);
    assert m.entries - a - b == m.entries - (a + b);
  }

  lemma {:induction false} NothingRemoved(keys: seq<string>)
    ensures Remove(keys, {}) == keys
  {
    if keys != [] {
      NothingRemoved(keys[1..]);
      assert keys == [keys[0]] + keys[1..];
    }
  }

  lemma NothingDeleted<V>(m: Cache<V>)
    ensures Delete(m, {}) == m
  {
    NothingRemoved(m.keys);
    assert m.entries - {} == m.entries;
  }

  lemma SubsetSize(a: set<string>, b: set<string>)
    requires a <= b
    ensures |a| <= |b|
  {
    assert b == a + (b - a);
  }

  lemma PutConsistent<V>(m: Cache<V>, k: string, e: Entry<V>)
    requires Consistent(m)
    ensures Consistent(Put(m, k, e))
    ensures |Put(m, k, e).entries| == |m.entries| + if k in m.entries then 0 else 1
  {
    assert Put(m, k, e).entries.Keys == m.entries.Keys + {k};
  }

  predicate Expired<V>(e: Entry<V>, now: nat) {
    now - e.timestamp > TTL_MS
  }

  /** What get returns at a time; it never changes what is there. */
  function Lookup<V>(m: Cache<V>, key: string, now: nat): Option<V> {
    if key in m.entries && !Expired(m.entries[key], now) then Some(m.entries[key].scopes) else None
  }

  // ----- the cache operations -----

  function Getting<V>(m: Cache<V>, key: string, now: nat): Cache<V> {
    if key in m.entries && Expired(m.entries[key], now) then Delete(m, {key}) else m
  }

  /** At capacity a new key pushes out the first inserted one. */
  function Setting<V>(m: Cache<V>, key: string, scopes: V, now: nat): Cache<V> {
    var room := if |m.entries| >= MAX_ENTRIES && key !in m.entries && m.keys != [] then Delete(m, {m.keys[0]}) else m;
    Put(room, key, Entry(scopes, now))
  }

  function Invalidated<V>(m: Cache<V>, userId: string, companyId: string): Cache<V> {
    if companyId != "" then Delete(m, {BuildKey(userId, companyId)})
    else Delete(m, set k | k in m.entries && userId <= k)
  }

  function Cleaned<V>(m: Cache<V>, now: nat): Cache<V> {
    Delete(m, set k | k in m.entries && Expired(m.entries[k], now))
  }

  class PermissionScopeCache<V> {
    var cache: Cache<V>
    var hits: nat
    var misses: nat
    var evictions: nat

    ghost predicate Valid()
      reads this
    {
      Consistent(cache) && |cache.entries| <= MAX_ENTRIES
    }

    constructor ()
      ensures Valid() && cache == Cache([], map[]) && hits == 0 && misses == 0 && evictions == 0
    {
      cache := Cache([], map[]);
      hits, misses, evictions := 0, 0, 0;
    }

    /** A hit returns the stored scopes; an expired entry is dropped and counts as a miss. */
    method Get(userId: string, companyId: string, now: nat) returns (r: Option<V>)
      requires Valid()
      modifies this
      ensures Valid()
      ensures r == Lookup(old(cache), BuildKey(userId, companyId), now)
      ensures var key := userId + ":" + companyId;
              var live := key in old(cache).entries && now - old(cache).entries[key].timestamp <= 300_000;
              && (r.Some? <==> live)
              && (r.Some? ==> r.value == old(cache).entries[key].scopes && cache == old(cache))
              && cache.entries == (if live then old(cache).entries else old(cache).entries - {key})
      ensures cache == Getting(old(cache), BuildKey(userId, companyId), now)
      ensures hits == old(hits) + (if r.Some? then 1 else 0) && misses == old(misses) + (if r.None? then 1 else 0)
      ensures evictions == old(evictions)
    {
      GettingEntries(cache, userId, companyId, now);
      var key := BuildKey(userId, companyId);
      if key !in cache.entries {
        misses := misses + 1;
        return None;
      }
      if Expired(cache.entries[key], now) {
        DeleteConsistent(cache, {key});
        cache := Delete(cache, {key});
        misses := misses + 1;
        return None;
      }
      hits := hits + 1;
      r := Some(cache.entries[key].scopes);
    }

    /** The entry is there with the time of its storing; only a full cache loses another one, the first inserted. */
    method Set(userId: string, companyId: string, scopes: V, now: nat)
      requires Valid()
      modifies this
      ensures Valid()
      ensures var key := userId + ":" + companyId;
              var full := |old(cache).entries| >= 10_000 && key !in old(cache).entries;
              && (full ==> old(cache).keys != [])
              && cache.entries == (if full then old(cache).entries - {old(cache).keys[0]}
                  else old(cache).entries)[key := Entry(scopes, now)]
              && (key in old(cache).entries ==> cache.keys == old(cache).keys)
              && (key !in old(cache).entries ==> cache.keys != [] && cache.keys[|cache.keys| - 1] == key)
              && evictions == old(evictions) + if full then 1 else 0
      ensures cache == Setting(old(cache), BuildKey(userId, companyId), scopes, now)
      ensures hits == old(hits) && misses == old(misses)
      ensures evictions == old(evictions) + if |old(cache).entries| >= MAX_ENTRIES
              && BuildKey(userId, companyId) !in old(cache).entries then 1 else 0
    {
      SettingEntries(cache, userId, companyId, scopes, now);
      hide Remove;
      var key := BuildKey(userId, companyId);
      if |cache.entries| >= MAX_ENTRIES && key !in cache.entries {
        var oldestKey := cache.keys[0];
        assert oldestKey in cache.keys;
        DeleteConsistent(cache, {oldestKey});
        assert (cache.entries - {oldestKey}).Keys == cache.entries.Keys - {oldestKey};
        cache := Delete(cache, {oldestKey});
        evictions := evictions + 1;
      }
      PutConsistent(cache, key, Entry(scopes, now));
      cache := Put(cache, key, Entry(scopes, now));
    }

    /** An empty company stands for none: every key that starts with the user id goes. */
    method Invalidate(userId: string, companyId: string)
      requires Valid()
      modifies this
      ensures Valid()
      ensures cache == Invalidated(old(cache), userId, companyId)
      ensures companyId != "" ==> cache.entries == old(cache).entries - {userId + ":" + companyId}
      ensures companyId == "" ==>
                cache.entries == map k | k in old(cache).entries && !(userId <= k) :: old(cache).entries[k]
      ensures hits == old(hits) && misses == old(misses) && evictions == old(evictions)
    {
      InvalidatedEntries(cache, userId, companyId);
      hide Remove;
      if companyId != "" {
        DeleteConsistent(cache, {BuildKey(userId, companyId)});
        cache := Delete(cache, {BuildKey(userId, companyId)});
        return;
      }
      var gone := KeysStartingWith(userId);
      DeleteConsistent(cache, gone);
      cache := Delete(cache, gone);
    }

    /** Collects the keys to delete in one pass over the map. */
    method KeysStartingWith(userId: string) returns (gone: set<string>)
      requires Valid()
      ensures gone == set k | k in cache.entries && userId <= k
    {
      gone := {};
      var i := 0;
      while i < |cache.keys|
        invariant 0 <= i <= |cache.keys|
        invariant forall k :: k in gone <==> k in cache.keys[..i] && userId <= k
      {
        if userId <= cache.keys[i] {
          gone := gone + {cache.keys[i]};
        }
        assert cache.keys[..i + 1] == cache.keys[..i] + [cache.keys[i]];
        i := i + 1;
      }
      assert cache.keys[..i] == cache.keys;
    }

    /** What is older than five minutes goes, and the rest keeps its order. */
    method Cleanup(now: nat)
      requires Valid()
      modifies this
      ensures Valid()
      ensures cache.entries ==
              map k | k in old(cache).entries && now - old(cache).entries[k].timestamp <= 300_000 ::
                old(cache).entries[k]
      ensures cache == Cleaned(old(cache), now)
      ensures hits == old(hits) && misses == old(misses) && evictions == old(evictions)
    {
      hide Delete, Cleaned, Consistent, ExpiredAmong;
      var keys := cache.keys;
      CleanStart(cache, now);
      var i := 0;
      while i < |keys|
        invariant 0 <= i <= |keys|
        invariant cache == Delete(old(cache), ExpiredAmong(old(cache), keys[..i], now)) && Valid()
        invariant hits == old(hits) && misses == old(misses) && evictions == old(evictions)
      {
        CleanStep(old(cache), i, now);
        if Expired(cache.entries[keys[i]], now) {
          DeleteConsistent(cache, {keys[i]});
          cache := Delete(cache, {keys[i]});
        }
        i := i + 1;
      }
      assert keys[..i] == keys;
      CleanEnd(old(cache), now);
      CleanedEntries(old(cache), now);
    }
  }

  // ----- the contents after an operation -----

  lemma GettingEntries<V>(m: Cache<V>, userId: string, companyId: string, now: nat)
    ensures var key := userId + ":" + companyId;
            var live := key in m.entries && now - m.entries[key].timestamp <= 300_000;
            && (Lookup(m, BuildKey(userId, companyId), now).Some? <==> live)
            && (live ==> Lookup(m, BuildKey(userId, companyId), now).value == m.entries[key].scopes
                         && Getting(m, BuildKey(userId, companyId), now) == m)
            && Getting(m, BuildKey(userId, companyId), now).entries == (if live then m.entries else m.entries - {key})
  {
  }

  lemma SettingEntries<V>(m: Cache<V>, userId: string, companyId: string, scopes: V, now: nat)
    requires Consistent(m)
    ensures var key := userId + ":" + companyId;
            var m' := Setting(m, BuildKey(userId, companyId), scopes, now);
            var full := |m.entries| >= 10_000 && key !in m.entries;
            && (full ==> m.keys != [])
            && m'.entries == (if full then m.entries - {m.keys[0]} else m.entries)[key := Entry(scopes, now)]
            && (key in m.entries ==> m'.keys == m.keys)
            && (key !in m.entries ==> m'.keys != [] && m'.keys[|m'.keys| - 1] == key)
  {
    hide Remove;
  }

  lemma InvalidatedEntries<V>(m: Cache<V>, userId: string, companyId: string)
    ensures companyId != "" ==> Invalidated(m, userId, companyId).entries == m.entries - {userId + ":" + companyId}
    ensures companyId == "" ==>
              Invalidated(m, userId, companyId).entries == map k | k in m.entries && !(userId <= k) :: m.entries[k]
  {
    hide Remove;
  }

  lemma CleanedEntries<V>(m: Cache<V>, now: nat)
    ensures Cleaned(m, now).entries ==
            map k | k in m.entries && now - m.entries[k].timestamp <= 300_000 :: m.entries[k]
  {
    hide Remove;
  }

  // ----- the cleanup pass -----

  function ExpiredAmong<V>(m: Cache<V>, keys: seq<string>, now: nat): set<string> {
    set k | k in keys && k in m.entries && Expired(m.entries[k], now)
  }

  lemma CleanStart<V>(m: Cache<V>, now: nat)
    ensures Delete(m, ExpiredAmong(m, m.keys[..0], now)) == m
  {
    assert ExpiredAmong(m, [], now) == {};
    NothingDeleted(m);
  }

  lemma CleanStep<V>(m: Cache<V>, i: nat, now: nat)
    requires Consistent(m) && i < |m.keys|
    ensures var k := m.keys[i];
            var d := Delete(m, ExpiredAmong(m, m.keys[..i], now));
            k in d.entries
            && Delete(m, ExpiredAmong(m, m.keys[..i + 1], now))
               == if Expired(d.entries[k], now) then Delete(d, {k}) else d
  {
    hide Expired, Remove;
    var k := m.keys[i];
    var before := ExpiredAmong(m, m.keys[..i], now);
    assert k in m.keys && k !in m.keys[..i];
    assert m.keys[..i + 1] == m.keys[..i] + [k];
    assert ExpiredAmong(m, m.keys[..i + 1], now) == if Expired(m.entries[k], now) then before + {k} else before;
    DeletedTwice(m, before, {k});
  }

  lemma CleanEnd<V>(m: Cache<V>, now: nat)
    requires Consistent(m)
    ensures Delete(m, ExpiredAmong(m, m.keys, now)) == Cleaned(m, now)
  {
    hide Remove, Expired;
    assert ExpiredAmong(m, m.keys, now) == set k | k in m.entries && Expired(m.entries[k], now);
  }

  // ----- runs -----

  /** Loading reads the source of truth and stores it; changing updates the truth and invalidates. */
  datatype Event<V> =
    | Load(userId: string, companyId: string, at: nat)
    | Read(userId: string, companyId: string, at: nat)
    | Change(userId: string, companyId: string, scopes: V, whole: bool, at: nat)
    | Clean(at: nat)

  /** The source of truth by user and company. */
  type Truth<V> = map<(string, string), V>

  function Current<V>(t: Truth<V>, u: string, c: string): Option<V> {
    if (u, c) in t then Some(t[(u, c)]) else None
  }

  datatype State<V> = State(cache: Cache<V>, truth: Truth<V>, hits: nat, misses: nat)

  function Next<V>(s: State<V>, e: Event<V>): State<V> {
    match e
    case Load(u, c, at) =>
      if (u, c) in s.truth then s.(cache := Setting(s.cache, BuildKey(u, c), s.truth[(u, c)], at)) else s
    case Read(u, c, at) =>
      var found := Lookup(s.cache, BuildKey(u, c), at).Some?;
      s.(cache := Getting(s.cache, BuildKey(u, c), at),
         hits := s.hits + (if found then 1 else 0), misses := s.misses + (if found then 0 else 1))
    case Change(u, c, v, whole, at) =>
      s.(truth := s.truth[(u, c) := v], cache := Invalidated(s.cache, u, if whole then "" else c))
    case Clean(at) => s.(cache := Cleaned(s.cache, at))
  }

  function EmptyState<V>(): State<V> {
    State(Cache([], map[]), map[], 0, 0)
  }

  function Run<V>(es: seq<Event<V>>): State<V> {
    if es == [] then EmptyState() else Next(Run(es[..|es| - 1]), es[|es| - 1])
  }

  function Reads<V>(es: seq<Event<V>>): nat {
    if es == [] then 0 else Reads(es[..|es| - 1]) + if es[|es| - 1].Read? then 1 else 0
  }

  ghost predicate ColonFreeUsers<V>(es: seq<Event<V>>) {
    forall e | e in es :: !e.Clean? ==> ColonFree(e.userId)
  }

  /** Every entry is the current truth of the user and company it was loaded for. */
  ghost predicate Fresh<V(!new)>(s: State<V>) {
    forall k | k in s.cache.entries ::
      exists u, c :: ColonFree(u) && k == BuildKey(u, c) && Current(s.truth, u, c) == Some(s.cache.entries[k].scopes)
  }

  lemma FreshKept<V(!new)>(s: State<V>, e: Event<V>)
    requires Fresh(s) && (e.Clean? || ColonFree(e.userId))
    ensures Fresh(Next(s, e))
  {
    hide Remove;
    var s' := Next(s, e);
    forall k | k in s'.cache.entries
      ensures exists u, c ::
              ColonFree(u) && k == BuildKey(u, c)
              && Current(s'.truth, u, c) == Some(s'.cache.entries[k].scopes)
    {
      if e.Load? && (e.userId, e.companyId) in s.truth && k == BuildKey(e.userId, e.companyId) {
        assert Current(s'.truth, e.userId, e.companyId) == Some(s'.cache.entries[k].scopes);
      } else {
        assert k in s.cache.entries && s'.cache.entries[k] == s.cache.entries[k];
        var u, c :| ColonFree(u) && k == BuildKey(u, c) && Current(s.truth, u, c) == Some(s.cache.entries[k].scopes);
        assert Current(s'.truth, u, c) == Some(s'.cache.entries[k].scopes);
      }
    }
  }

  lemma SettingKeeps<V>(m: Cache<V>, key: string, scopes: V, now: nat)
    requires Consistent(m) && |m.entries| <= MAX_ENTRIES
    ensures Consistent(Setting(m, key, scopes, now)) && |Setting(m, key, scopes, now).entries| <= MAX_ENTRIES
  {
    hide Remove;
    var room := m;
    if |m.entries| >= MAX_ENTRIES && key !in m.entries {
      DeleteConsistent(m, {m.keys[0]});
      assert m.keys[0] in m.keys;
      assert (m.entries - {m.keys[0]}).Keys == m.entries.Keys - {m.keys[0]};
      room := Delete(m, {m.keys[0]});
    }
    PutConsistent(room, key, Entry(scopes, now));
  }

  lemma SizeKept<V>(s: State<V>, e: Event<V>)
    requires Consistent(s.cache) && |s.cache.entries| <= MAX_ENTRIES
    ensures Consistent(Next(s, e).cache) && |Next(s, e).cache.entries| <= MAX_ENTRIES
  {
    hide Consistent, Delete, Put, Setting;
    match e
    case Load(u, c, at) => if (u, c) in s.truth { SettingKeeps(s.cache, BuildKey(u, c), s.truth[(u, c)], at); }
    case Read(u, c, at) => DeleteConsistent(s.cache, {BuildKey(u, c)});
    case Change(u, c, v, whole, at) =>
      DeleteConsistent(s.cache, {BuildKey(u, c)});
      DeleteConsistent(s.cache, set k | k in s.cache.entries && u <= k);
    case Clean(at) => DeleteConsistent(s.cache, set k | k in s.cache.entries && Expired(s.cache.entries[k], at));
  }

  lemma {:induction false} RunKeeps<V(!new)>(es: seq<Event<V>>)
    requires ColonFreeUsers(es)
    ensures Fresh(Run(es)) && Consistent(Run(es).cache) && |Run(es).cache.entries| <= MAX_ENTRIES
    ensures Run(es).hits + Run(es).misses == Reads(es)
  {
    hide Fresh, Consistent;
    if es == [] {
      EmptyRun<V>();
    } else {
      assert es[|es| - 1] in es;
      assert forall e | e in es[..|es| - 1] :: e in es;
      RunKeeps(es[..|es| - 1]);
      FreshKept(Run(es[..|es| - 1]), es[|es| - 1]);
      SizeKept(Run(es[..|es| - 1]), es[|es| - 1]);
    }
  }

  lemma EmptyRun<V(!new)>()
    ensures Fresh(EmptyState<V>()) && Consistent(EmptyState<V>().cache)
  {
  }

  /**
   * When each change is followed by invalidation, every value that get returns is the
   * current truth for that user and company and was stored at most TTL ago; the size
   * never exceeds the limit and every get counts as one hit or one miss.
   */
  lemma CacheAgreesWithTruth<V(!new)>(es: seq<Event<V>>, u: string, c: string, now: nat)
    requires ColonFreeUsers(es) && ColonFree(u)
    ensures var s := Run(es);
            var got := Lookup(s.cache, BuildKey(u, c), now);
            (got.Some? ==> got == Current(s.truth, u, c) && now - s.cache.entries[BuildKey(u, c)].timestamp <= 300_000)
            && |s.cache.entries| <= 10_000
            && s.hits + s.misses == Reads(es)
  {
    RunKeeps(es);
    var s := Run(es);
    var key := BuildKey(u, c);
    if Lookup(s.cache, key, now).Some? {
      var u', c' :| ColonFree(u') && key == BuildKey(u', c')
          && Current(s.truth, u', c') == Some(s.cache.entries[key].scopes);
      KeyInjective(u, c, u', c');
    }
  }

  /** Cleanup changes no result of a get at that time or later. */
  lemma CleanupKeepsLookups<V>(m: Cache<V>, key: string, at: nat, now: nat)
    requires at <= now
    ensures Lookup(Cleaned(m, at), key, now) == Lookup(m, key, now)
  {
  }

  /** Eviction goes by insertion, not by use: reading an entry does not save it. */
  lemma EvictionIgnoresUse<V>(m: Cache<V>, key: string, scopes: V, now: nat)
    requires Consistent(m) && |m.entries| == MAX_ENTRIES && key !in m.entries
    ensures m.keys != [] && m.keys[0] in m.entries
    ensures Lookup(m, m.keys[0], now).Some? ==>
              m.keys[0] !in Setting(Getting(m, m.keys[0], now), key, scopes, now).entries
  {
    assert m.keys[0] in m.keys;
  }

  // ----- loads and changes statement by statement -----

  /** A load between its read of the truth and its set. */
  datatype Loading<V> = Loading(userId: string, companyId: string, scopes: V)

  /** A change between its write and its invalidate. */
  datatype Changing = Changing(userId: string, companyId: string, whole: bool)

  datatype Shared<V> =
    Shared(cache: Cache<V>, truth: Truth<V>, loads: map<nat, Loading<V>>, changes: map<nat, Changing>)

  datatype Step<V> =
    | ReadTruth(request: nat, userId: string, companyId: string)
    | StoreLoaded(request: nat, at: nat)
    | WriteTruth(request: nat, userId: string, companyId: string, scopes: V, whole: bool)
    | InvalidateChanged(request: nat)
    | GetCached(userId: string, companyId: string, at: nat)
    | CleanUp(at: nat)

  predicate Enabled<V>(s: Shared<V>, step: Step<V>) {
    match step
    case ReadTruth(q, u, c) => q !in s.loads && (u, c) in s.truth
    case StoreLoaded(q, _) => q in s.loads
    case WriteTruth(q, _, _, _, _) => q !in s.changes
    case InvalidateChanged(q) => q in s.changes
    case _ => true
  }

  function Take<V>(s: Shared<V>, step: Step<V>): Shared<V>
    requires Enabled(s, step)
  {
    match step
    case ReadTruth(q, u, c) => s.(loads := s.loads[q := Loading(u, c, s.truth[(u, c)])])
    case StoreLoaded(q, at) =>
      var l := s.loads[q];
      s.(cache := Setting(s.cache, BuildKey(l.userId, l.companyId), l.scopes, at), loads := s.loads - {q})
    case WriteTruth(q, u, c, v, whole) =>
      s.(truth := s.truth[(u, c) := v], changes := s.changes[q := Changing(u, c, whole)])
    case InvalidateChanged(q) =>
      var ch := s.changes[q];
      s.(cache := Invalidated(s.cache, ch.userId, if ch.whole then "" else ch.companyId), changes := s.changes - {q})
    case GetCached(u, c, at) => s.(cache := Getting(s.cache, BuildKey(u, c), at))
    case CleanUp(at) => s.(cache := Cleaned(s.cache, at))
  }

  predicate Runs<V>(s: Shared<V>, steps: seq<Step<V>>)
    decreases |steps|
  {
    steps != [] ==> Enabled(s, steps[0]) && Runs(Take(s, steps[0]), steps[1..])
  }

  function TakeAll<V>(s: Shared<V>, steps: seq<Step<V>>): Shared<V>
    requires Runs(s, steps)
    decreases |steps|
  {
    if steps == [] then s else TakeAll(Take(s, steps[0]), steps[1..])
  }

  /** The keys that the invalidation of a change deletes. */
  predicate Drops(ch: Changing, key: string) {
    if ch.whole || ch.companyId == "" then ch.userId <= key else key == BuildKey(ch.userId, ch.companyId)
  }

  /** An invalidation that deletes the key is still to come. */
  ghost predicate Outstanding<V>(s: Shared<V>, key: string) {
    exists q :: q in s.changes && Drops(s.changes[q], key)
  }

  ghost predicate CurrentOrDue<V>(s: Shared<V>, u: string, c: string) {
    var key := BuildKey(u, c);
    key in s.cache.entries ==> Current(s.truth, u, c) == Some(s.cache.entries[key].scopes) || Outstanding(s, key)
  }

  /** Every entry is the current truth, or an invalidation is about to delete it. */
  ghost predicate NeverLeftStale<V(!new)>(s: Shared<V>) {
    forall u, c | ColonFree(u) :: CurrentOrDue(s, u, c)
  }

  /** What a load stores is still the truth, or an invalidation is about to delete it. */
  ghost predicate StoresTruth<V>(s: Shared<V>, step: Step<V>) {
    step.StoreLoaded? && step.request in s.loads ==>
      var l := s.loads[step.request];
      Current(s.truth, l.userId, l.companyId) == Some(l.scopes) || Outstanding(s, BuildKey(l.userId, l.companyId))
  }

  ghost predicate LoadsColonFree<V>(s: Shared<V>) {
    forall q | q in s.loads :: ColonFree(s.loads[q].userId)
  }

  predicate UserColonFree<V>(step: Step<V>) {
    (step.ReadTruth? || step.WriteTruth?) ==> ColonFree(step.userId)
  }

  lemma StoredEntries<V>(m: Cache<V>, key: string, scopes: V, at: nat)
    ensures key in Setting(m, key, scopes, at).entries && Setting(m, key, scopes, at).entries[key] == Entry(scopes, at)
    ensures forall k | k != key && k in Setting(m, key, scopes, at).entries ::
              k in m.entries && Setting(m, key, scopes, at).entries[k] == m.entries[k]
  {
    hide Remove;
  }

  /** Any step but a store leaves entries that are current or due. */
  lemma PairKept<V>(s: Shared<V>, step: Step<V>, u: string, c: string)
    requires Enabled(s, step) && UserColonFree(step) && !step.StoreLoaded?
    requires ColonFree(u) && CurrentOrDue(s, u, c)
    ensures CurrentOrDue(Take(s, step), u, c)
  {
    hide Remove;
    var s' := Take(s, step);
    var key := BuildKey(u, c);
    if key in s'.cache.entries {
      if step.WriteTruth? && step.userId == u && step.companyId == c {
        assert s'.changes[step.request] == Changing(u, c, step.whole);
        assert u <= key;
        assert Drops(s'.changes[step.request], key);
      } else if Outstanding(s, key) {
        var q :| q in s.changes && Drops(s.changes[q], key);
        assert q in s'.changes && s'.changes[q] == s.changes[q];
      }
    }
  }

  lemma StoreKept<V(!new)>(s: Shared<V>, step: Step<V>)
    requires Enabled(s, step) && step.StoreLoaded? && LoadsColonFree(s) && NeverLeftStale(s)
    ensures NeverLeftStale(Take(s, step)) <==> StoresTruth(s, step)
  {
    hide Setting;
    var l := s.loads[step.request];
    var s' := Take(s, step);
    var key := BuildKey(l.userId, l.companyId);
    StoredEntries(s.cache, key, l.scopes, step.at);
    assert Outstanding(s', key) <==> Outstanding(s, key);
    if StoresTruth(s, step) {
      forall u, c | ColonFree(u)
        ensures CurrentOrDue(s', u, c)
      {
        assert CurrentOrDue(s, u, c);
        if BuildKey(u, c) == key {
          KeyInjective(u, c, l.userId, l.companyId);
        }
      }
    } else {
      assert !CurrentOrDue(s', l.userId, l.companyId);
    }
  }

  lemma StepStale<V(!new)>(s: Shared<V>, step: Step<V>)
    requires Enabled(s, step) && UserColonFree(step) && LoadsColonFree(s) && NeverLeftStale(s)
    ensures NeverLeftStale(Take(s, step)) <==> StoresTruth(s, step)
    ensures LoadsColonFree(Take(s, step))
  {
    hide Setting, Invalidated, Getting, Cleaned;
    if step.StoreLoaded? {
      StoreKept(s, step);
    } else {
      hide CurrentOrDue;
      forall u, c | ColonFree(u)
        ensures CurrentOrDue(Take(s, step), u, c)
      {
        PairKept(s, step, u, c);
      }
    }
  }

  ghost predicate AlwaysNeverStale<V(!new)>(s: Shared<V>, steps: seq<Step<V>>)
    requires Runs(s, steps)
    decreases |steps|
  {
    NeverLeftStale(s) && (steps != [] ==> AlwaysNeverStale(Take(s, steps[0]), steps[1..]))
  }

  ghost predicate AlwaysStoresTruth<V>(s: Shared<V>, steps: seq<Step<V>>)
    requires Runs(s, steps)
    decreases |steps|
  {
    steps != [] ==> StoresTruth(s, steps[0]) && AlwaysStoresTruth(Take(s, steps[0]), steps[1..])
  }

  lemma {:induction false} StaleExactly<V(!new)>(s: Shared<V>, steps: seq<Step<V>>)
    requires Runs(s, steps) && LoadsColonFree(s) && NeverLeftStale(s)
             && forall step | step in steps :: UserColonFree(step)
    ensures AlwaysNeverStale(s, steps) <==> AlwaysStoresTruth(s, steps)
    decreases |steps|
  {
    hide NeverLeftStale, StoresTruth, Take, Enabled, LoadsColonFree, UserColonFree;
    if steps != [] {
      assert steps[0] in steps;
      StepStale(s, steps[0]);
      var s' := Take(s, steps[0]);
      if StoresTruth(s, steps[0]) {
        StaleExactly(s', steps[1..]);
      } else {
        assert !AlwaysNeverStale(s', steps[1..]);
      }
    }
  }

  function EmptyShared<V>(): Shared<V> {
    Shared(Cache([], map[]), map[], map[], map[])
  }

  /**
   * Exactly which interleavings of loads, changes, gets and cleanups never leave a stale
   * entry behind, one that no invalidation still to come deletes: those in which each load
   * stores what is still the truth or what such an invalidation deletes.
   */
  lemma InterleavingsNeverStale<V(!new)>(steps: seq<Step<V>>)
    requires Runs(EmptyShared(), steps) && forall step | step in steps :: UserColonFree(step)
    ensures AlwaysNeverStale(EmptyShared(), steps) <==> AlwaysStoresTruth(EmptyShared(), steps)
  {
    StaleExactly(EmptyShared(), steps);
  }

  /** With nothing outstanding, what a get returns at any time is then the truth. */
  lemma QuietGetsAreCurrent<V(!new)>(s: Shared<V>, u: string, c: string, now: nat)
    requires NeverLeftStale(s) && ColonFree(u) && s.changes == map[]
    ensures var got := Lookup(s.cache, BuildKey(u, c), now);
            got.Some? ==> got == Current(s.truth, u, c)
  {
    assert CurrentOrDue(s, u, c);
  }

  /** What the last write of a pair in the run wrote. */
  function LastWritten<V>(steps: seq<Step<V>>, u: string, c: string): Option<V> {
    if steps == [] then None
    else if LastWritten(steps[1..], u, c).Some? then LastWritten(steps[1..], u, c)
    else if steps[0].WriteTruth? && steps[0].userId == u && steps[0].companyId == c then Some(steps[0].scopes)
    else None
  }

  lemma {:induction false} TruthAfter<V>(s: Shared<V>, steps: seq<Step<V>>, u: string, c: string)
    requires Runs(s, steps)
    ensures Current(TakeAll(s, steps).truth, u, c)
            == if LastWritten(steps, u, c).Some? then LastWritten(steps, u, c) else Current(s.truth, u, c)
    decreases |steps|
  {
    hide Setting, Invalidated, Getting, Cleaned;
    if steps != [] {
      TruthAfter(Take(s, steps[0]), steps[1..], u, c);
    }
  }

  lemma {:induction false} LoadWaits<V>(s: Shared<V>, steps: seq<Step<V>>, q: nat)
    requires Runs(s, steps) && q in s.loads && forall step | step in steps :: !(step.StoreLoaded? && step.request == q)
    ensures q in TakeAll(s, steps).loads && TakeAll(s, steps).loads[q] == s.loads[q]
    decreases |steps|
  {
    hide Setting, Invalidated, Getting, Cleaned;
    if steps != [] {
      assert steps[0] in steps;
      LoadWaits(Take(s, steps[0]), steps[1..], q);
    }
  }

  /**
   * A load stores something else than the truth exactly when a change of its pair, to
   * another value, falls between its read and its store and is the last one to do so.
   */
  lemma StaleByChangeBetween<V>(s: Shared<V>, q: nat, u: string, c: string, between: seq<Step<V>>)
    requires Enabled(s, ReadTruth(q, u, c)) && Runs(Take(s, ReadTruth(q, u, c)), between)
    requires forall step | step in between :: !(step.StoreLoaded? && step.request == q)
    ensures var s' := TakeAll(Take(s, ReadTruth(q, u, c)), between);
            q in s'.loads && s'.loads[q] == Loading(u, c, s.truth[(u, c)])
            && (Current(s'.truth, u, c) != Some(s'.loads[q].scopes)
                <==> LastWritten(between, u, c).Some? && LastWritten(between, u, c).value != s.truth[(u, c)])
  {
    var s1 := Take(s, ReadTruth(q, u, c));
    LoadWaits(s1, between, q);
    TruthAfter(s1, between, u, c);
  }

  /** A value read before a change and stored after its invalidation stays stale, with no invalidation to come. */
  lemma StaleLoad<V>(s: Shared<V>, u: string, c: string, v: V, whole: bool, q: nat, r: nat, at: nat)
    requires q !in s.loads && s.changes == map[] && (u, c) in s.truth && s.truth[(u, c)] != v
    ensures var steps := [ReadTruth(q, u, c), WriteTruth(r, u, c, v, whole), InvalidateChanged(r), StoreLoaded(q, at)];
            Runs(s, steps)
            && var s' := TakeAll(s, steps);
               s'.changes == map[] && Lookup(s'.cache, BuildKey(u, c), at)
                   == Current(s.truth, u, c) != Current(s'.truth, u, c)
  {
    hide Setting, Invalidated, Getting, Cleaned;
    var steps := [ReadTruth(q, u, c), WriteTruth(r, u, c, v, whole), InvalidateChanged(r), StoreLoaded(q, at)];
    var s1 := Take(s, steps[0]);
    var s2 := Take(s1, steps[1]);
    var s3 := Take(s2, steps[2]);
    var s4 := Take(s3, steps[3]);
    assert steps[1..][0] == steps[1] && steps[1..][1..][0] == steps[2] && steps[1..][1..][1..][0] == steps[3];
    assert steps[1..][1..][1..][1..] == [];
    assert Runs(s4, []) && TakeAll(s4, []) == s4;
    assert Runs(s3, steps[1..][1..][1..]) && TakeAll(s3, steps[1..][1..][1..]) == s4;
    assert Runs(s2, steps[1..][1..]) && TakeAll(s2, steps[1..][1..]) == s4;
    assert Runs(s1, steps[1..]) && TakeAll(s1, steps[1..]) == s4;
    StoredEntries(s3.cache, BuildKey(u, c), s.truth[(u, c)], at);
  }
}
