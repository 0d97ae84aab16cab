/**
  The query result cache (src-tauri/src/db/query_cache.rs): an LRU map of at most
  50 entries that live for 300 seconds. The order the `lru` crate keeps is written
  out: the most recently used entry comes first, and a full map drops its last.
  Times are in seconds.
*/
module QueryCache {

  import opened Wrappers

  /** `CacheKey`; two statements with one hash are one key. */
  datatype Key = Key(connection: string, hash: nat)

  datatype Stamped<V> = Stamped(value: V, cachedAt: int)

  datatype Entry<V> = Entry(key: Key, stamped: Stamped<V>)

  const MAX_ENTRIES := 50
  const TTL := 300

  /** `Instant::elapsed`: never negative. */
  function Elapsed(now: int, then_: int): nat {
    if now >= then_ then now - then_ else 0
  }

  predicate Fresh<V>(s: Stamped<V>, now: int) {
    Elapsed(now, s.cachedAt) < TTL
  }

  // ----- the ordered map -----

  function Keys<V>(es: seq<Entry<V>>): set<Key> {
    if es == [] then {} else {es[0].key} + Keys(es[1..])
  }

  predicate Distinct<V>(es: seq<Entry<V>>) {
    es != [] ==> es[0].key !in Keys(es[1..]) && Distinct(es[1..])
  }

  function Find<V>(es: seq<Entry<V>>, key: Key): Option<Stamped<V>> {
    if es == [] then None
    else if es[0].key == key then Some(es[0].stamped)
    else Find(es[1..], key)
  }

  /** The keys used more recently than `key`. */
  function Front<V>(es: seq<Entry<V>>, key: Key): set<Key> {
    if es == [] || es[0].key == key then {} else {es[0].key} + Front(es[1..], key)
  }

  /** The entries whose key is not in `dropped`, in order. */
  function Without<V>(es: seq<Entry<V>>, dropped: set<Key>): seq<Entry<V>> {
    if es == [] then []
    else if es[0].key in dropped then Without(es[1..], dropped)
    else [es[0]] + Without(es[1..], dropped)
  }

  predicate Covers(connection: Option<string>, key: Key) {
    connection.None? || key.connection == connection.value
  }

  function Covered<V>(es: seq<Entry<V>>, connection: Option<string>): set<Key> {
    set k | k in Keys(es) && Covers(connection, k)
  }

  function FirstOf<V>(es: seq<Entry<V>>, n: nat): seq<Entry<V>> {
    if es == [] || n == 0 then [] else [es[0]] + FirstOf(es[1..], n - 1)
  }

  // ----- what each call does to the map -----

  datatype Op<V> =
    | Get(key: Key, now: int)
    | Insert(key: Key, stamped: Stamped<V>)
    | Clear(connection: Option<string>)

  function Lookup<V>(es: seq<Entry<V>>, key: Key, now: int): Option<V> {
    var found := Find(es, key);
    if found.Some? && Fresh(found.value, now) then Some(found.value.value) else None
  }

  function After<V>(es: seq<Entry<V>>, op: Op<V>): seq<Entry<V>> {
    match op
    case Get(key, now) =>
      if Lookup(es, key, now).Some? then [Entry(key, Find(es, key).value)] + Without(es, {key})
      else Without(es, {key})
    case Insert(key, stamped) => FirstOf([Entry(key, stamped)] + Without(es, {key}), MAX_ENTRIES)
    case Clear(connection) => Without(es, Covered(es, connection))
  }

  function Run<V>(ops: seq<Op<V>>): seq<Entry<V>> {
    if ops == [] then [] else After(Run(ops[..|ops| - 1]), ops[|ops| - 1])
  }

  // ----- what the calls say should be there -----

  /** The last insert for `key`, unless it was cleared since. */
  function Latest<V>(ops: seq<Op<V>>, key: Key): Option<Stamped<V>> {
    if ops == [] then None
    else
      var before := Latest(ops[..|ops| - 1], key);
      match ops[|ops| - 1]
      case Get(_, _) => before
      case Insert(k, stamped) => if k == key then Some(stamped) else before
      case Clear(connection) => if Covers(connection, key) then None else before
  }

  /** The other keys inserted or hit since `key` was last inserted or hit. */
  function UsedSince<V>(ops: seq<Op<V>>, key: Key): set<Key> {
    if ops == [] then {}
    else
      var init := ops[..|ops| - 1];
      var before := UsedSince(init, key);
      match ops[|ops| - 1]
      case Get(k, now) =>
        if Lookup(Run(init), k, now).None? then before
        else if k == key then {} else before + {k}
      case Insert(k, _) => if k == key then {} else before + {k}
      case Clear(_) => before
  }

  /** No call so far came later than `now`. */
  predicate ClockUpTo<V>(ops: seq<Op<V>>, now: int) {
    forall i :: 0 <= i < |ops| && ops[i].Get? ==> ops[i].now <= now
  }

  // ----- facts about the ordered map -----

  lemma {:induction false} FindIffKey<V>(es: seq<Entry<V>>, key: Key)
    ensures Find(es, key).Some? <==> key in Keys(es)
  {
    if es != [] {
      FindIffKey(es[1..], key);
    }
  }

  lemma {:induction false} WithoutFacts<V>(es: seq<Entry<V>>, dropped: set<Key>)
    ensures Keys(Without(es, dropped)) == Keys(es) - dropped
    ensures |Without(es, dropped)| <= |es|
    ensures Distinct(es) ==> Distinct(Without(es, dropped))
  {
    if es != [] {
      WithoutFacts(es[1..], dropped);
    }
  }

  lemma {:induction false} WithoutKeeps<V>(es: seq<Entry<V>>, dropped: set<Key>, key: Key)
    ensures Find(Without(es, dropped), key) == if key in dropped then None else Find(es, key)
    ensures key !in dropped ==> Front(Without(es, dropped), key) == Front(es, key) - dropped
  {
    if es != [] {
      WithoutKeeps(es[1..], dropped, key);
    }
  }

  lemma {:induction false} WithoutShrinks<V>(es: seq<Entry<V>>, key: Key)
    requires key in Keys(es)
    ensures |Without(es, {key})| < |es|
  {
    if es[0].key == key {
      WithoutFacts(es[1..], {key});
    } else {
      WithoutShrinks(es[1..], key);
    }
  }

  lemma {:induction false} FirstOfFacts<V>(es: seq<Entry<V>>, n: nat)
    ensures Keys(FirstOf(es, n)) <= Keys(es)
    ensures Distinct(es) ==> Distinct(FirstOf(es, n))
    ensures |FirstOf(es, n)| == if |es| <= n then |es| else n
  {
    if es != [] && n > 0 {
      FirstOfFacts(es[1..], n - 1);
    }
  }

  lemma {:induction false} FirstOfFinds<V>(es: seq<Entry<V>>, n: nat, key: Key)
    ensures Find(FirstOf(es, n), key).Some? ==> Find(FirstOf(es, n), key) == Find(es, key)
  {
    if es != [] && n > 0 {
      FirstOfFinds(es[1..], n - 1, key);
    }
  }

  /** What stands among the first `n` stays when the rest is dropped. */
  lemma {:induction false} FirstOfKeeps<V>(es: seq<Entry<V>>, n: nat, key: Key)
    requires Distinct(es) && key in Keys(es) && |Front(es, key)| < n
    ensures Find(FirstOf(es, n), key) == Find(es, key) && Front(FirstOf(es, n), key) == Front(es, key)
  {
    if es[0].key != key {
      FrontInKeys(es[1..], key);
      OneMoreInFront(es[0].key, Front(es[1..], key));
      FirstOfKeeps(es[1..], n - 1, key);
    }
  }

  lemma OneMoreInFront(k: Key, front: set<Key>)
    requires k !in front
    ensures |{k} + front| == 1 + |front|
  {
  }

  lemma {:induction false} FrontInKeys<V>(es: seq<Entry<V>>, key: Key)
    ensures Front(es, key) <= Keys(es)
  {
    if es != [] {
      FrontInKeys(es[1..], key);
    }
  }

  // ----- every run -----

  /** Every run keeps at most 50 entries, one to a key. */
  lemma {:induction false} AtMostFifty<V>(ops: seq<Op<V>>)
    ensures |Run(ops)| <= 50 && Distinct(Run(ops))
  {
    if ops != [] {
      AtMostFifty(ops[..|ops| - 1]);
      AfterKeeps(Run(ops[..|ops| - 1]), ops[|ops| - 1]);
    }
  }

  lemma AfterKeeps<V>(es: seq<Entry<V>>, op: Op<V>)
    requires |es| <= MAX_ENTRIES && Distinct(es)
    ensures |After(es, op)| <= MAX_ENTRIES && Distinct(After(es, op))
  {
    hide Distinct, Without, FirstOf, Keys, Find;
    match op
    case Get(key, now) =>
      WithoutFacts(es, {key});
      if Lookup(es, key, now).Some? {
        FindIffKey(es, key);
        WithoutShrinks(es, key);
        PushFront(Entry(key, Find(es, key).value), Without(es, {key}));
      }
    case Insert(key, stamped) =>
      WithoutFacts(es, {key});
      PushFront(Entry(key, stamped), Without(es, {key}));
      FirstOfFacts([Entry(key, stamped)] + Without(es, {key}), MAX_ENTRIES);
    case Clear(connection) =>
      WithoutFacts(es, Covered(es, connection));
  }

  lemma PushFront<V>(e: Entry<V>, es: seq<Entry<V>>)
    requires Distinct(es) && e.key !in Keys(es)
    ensures Distinct([e] + es)
  {
    assert ([e] + es)[1..] == es;
  }

  lemma FindPushed<V>(e: Entry<V>, es: seq<Entry<V>>, key: Key)
    ensures Find([e] + es, key) == if e.key == key then Some(e.stamped) else Find(es, key)
    ensures Front([e] + es, key) == if e.key == key then {} else {e.key} + Front(es, key)
    ensures Keys([e] + es) == {e.key} + Keys(es)
  {
    assert ([e] + es)[1..] == es;
  }

  /** What one call leaves under `key`, if anything. */
  lemma FoundAfter<V>(es: seq<Entry<V>>, op: Op<V>, key: Key)
    ensures var found := Find(After(es, op), key);
            found.None?
            || (op.Insert? && op.key == key && found.value == op.stamped)
            || (found == Find(es, key) && !(op.Insert? && op.key == key) && !(op.Clear? && Covers(op.connection, key)))
  {
    hide Without, FirstOf, Find, Keys, Front;
    FindIffKey(es, key);
    match op
    case Get(k, now) =>
      WithoutKeeps(es, {k}, key);
      if Lookup(es, k, now).Some? {
        FindPushed(Entry(k, Find(es, k).value), Without(es, {k}), key);
      }
    case Insert(k, stamped) =>
      WithoutKeeps(es, {k}, key);
      var pushed := [Entry(k, stamped)] + Without(es, {k});
      FindPushed(Entry(k, stamped), Without(es, {k}), key);
      FirstOfFinds(pushed, MAX_ENTRIES, key);
    case Clear(connection) =>
      WithoutKeeps(es, Covered(es, connection), key);
  }

  /** What is stored for a key is always its latest insert not cleared since. */
  lemma {:induction false} StoredIsLatest<V>(ops: seq<Op<V>>, key: Key)
    ensures Find(Run(ops), key).Some? ==> Find(Run(ops), key) == Latest(ops, key)
  {
    hide After, Find;
    if ops == [] {
      FindNothing<V>(key);
    } else {
      StoredIsLatest(ops[..|ops| - 1], key);
      FoundAfter(Run(ops[..|ops| - 1]), ops[|ops| - 1], key);
    }
  }

  lemma FindNothing<V>(key: Key)
    ensures Find<V>([], key) == None
  {
  }

  /** Call `i` inserted `stamped` under `key`, and no later call inserted under it again
      or cleared its connection, or all of them. */
  ghost predicate InsertedLast<V>(ops: seq<Op<V>>, i: nat, key: Key, stamped: Stamped<V>)
    requires i < |ops|
  {
    && ops[i] == Op.Insert(key, stamped)
    && forall j :: i < j < |ops| ==>
         && (ops[j].Insert? ==> ops[j].key != key)
         && (ops[j].Clear? ==> ops[j].connection.Some? && ops[j].connection.value != key.connection)
  }

  /** `Latest` is told by one of the calls. */
  lemma {:induction false} LatestTold<V>(ops: seq<Op<V>>, key: Key, stamped: Stamped<V>)
    ensures Latest(ops, key) == Some(stamped) <==> exists i: nat :: i < |ops| && InsertedLast(ops, i, key, stamped)
  {
    if ops != [] {
      var init := ops[..|ops| - 1];
      LatestTold(init, key, stamped);
      if Latest(ops, key) == Some(stamped) {
        if ops[|ops| - 1] == Insert(key, stamped) {
          assert InsertedLast(ops, |init|, key, stamped);
        } else {
          var i: nat :| i < |init| && InsertedLast(init, i, key, stamped);
          assert InsertedLast(ops, i, key, stamped);
        }
      }
      if i: nat :| i < |ops| && InsertedLast(ops, i, key, stamped) {
        if i < |init| {
          assert InsertedLast(init, i, key, stamped);
        }
      }
    }
  }

  /** A hit, after any run, is the latest insert for the key, less than 300
      seconds old and not cleared since. */
  lemma HitIsLatest<V>(ops: seq<Op<V>>, key: Key, now: int)
    requires Lookup(Run(ops), key, now).Some?
    ensures exists i: nat, stamped ::
              && i < |ops| && InsertedLast(ops, i, key, stamped)
              && Lookup(Run(ops), key, now) == Some(stamped.value) && now - stamped.cachedAt < 300
  {
    hide Run, Find;
    StoredIsLatest(ops, key);
    var stamped := Latest(ops, key).value;
    LatestTold(ops, key, stamped);
    var i: nat :| i < |ops| && InsertedLast(ops, i, key, stamped);
  }

  /** Call `i` is an insert or a hit under `key`. */
  ghost predicate UsedAt<V>(ops: seq<Op<V>>, i: nat, key: Key)
    requires i < |ops|
  {
    || (ops[i].Insert? && ops[i].key == key)
    || (ops[i].Get? && ops[i].key == key && Lookup(Run(ops[..i]), key, ops[i].now).Some?)
  }

  /** `other` was used at call `i`, and `key` neither then nor later. */
  ghost predicate UsedBehind<V>(ops: seq<Op<V>>, i: nat, other: Key, key: Key)
    requires i < |ops|
  {
    UsedAt(ops, i, other) && forall j: nat :: i <= j < |ops| ==> !UsedAt(ops, j, key)
  }

  /** `UsedSince` is told by the calls. */
  lemma {:induction false} UsedTold<V>(ops: seq<Op<V>>, other: Key, key: Key)
    ensures other in UsedSince(ops, key) <==> exists i: nat :: i < |ops| && UsedBehind(ops, i, other, key)
  {
    if ops != [] {
      var init := ops[..|ops| - 1];
      UsedTold(init, other, key);
      forall i: nat, k | i < |init|
        ensures UsedAt(ops, i, k) == UsedAt(init, i, k)
      {
        assert ops[..i] == init[..i];
      }
      hide Run, Lookup, UsedAt;
      LastUse(ops, other, key);
      if other in UsedSince(ops, key) {
        if UsedAt(ops, |init|, other) {
          assert UsedBehind(ops, |init|, other, key);
        } else {
          var i: nat :| i < |init| && UsedBehind(init, i, other, key);
          assert UsedBehind(ops, i, other, key);
        }
      }
      if i: nat :| i < |ops| && UsedBehind(ops, i, other, key) {
        if i < |init| {
          assert UsedBehind(init, i, other, key);
        }
      }
    }
  }

  /** What the last call adds and empties. */
  lemma LastUse<V>(ops: seq<Op<V>>, other: Key, key: Key)
    requires ops != []
    ensures var last: nat := |ops| - 1;
            other in UsedSince(ops, key) <==>
              !UsedAt(ops, last, key) && (UsedAt(ops, last, other) || other in UsedSince(ops[..last], key))
  {
    hide Run, Lookup;
  }

  /** The entry that should be there is there, and only keys used since its last
      use stand before it. */
  ghost predicate Kept<V>(es: seq<Entry<V>>, key: Key, stamped: Stamped<V>, used: set<Key>) {
    Find(es, key) == Some(stamped) && Front(es, key) <= used
  }

  lemma KeptAfterGet<V>(es: seq<Entry<V>>, k: Key, at: int, key: Key, stamped: Stamped<V>, used: set<Key>)
    requires Kept(es, key, stamped, used) && (k == key ==> Fresh(stamped, at))
    ensures Kept(After(es, Get(k, at)), key, stamped,
                 if Lookup(es, k, at).None? then used else if k == key then {} else used + {k})
  {
    hide Without, FirstOf, Find, Keys, Front;
    FindIffKey(es, k);
    WithoutKeeps(es, {k}, key);
    if Lookup(es, k, at).Some? {
      FindPushed(Entry(k, Find(es, k).value), Without(es, {k}), key);
    }
  }

  lemma KeptAfterInsert<V>(es: seq<Entry<V>>, k: Key, s: Stamped<V>, key: Key, stamped: Stamped<V>, used: set<Key>)
    requires Distinct(es) && k != key && Kept(es, key, stamped, used) && |used + {k}| < MAX_ENTRIES
    ensures Kept(After(es, Insert(k, s)), key, stamped, used + {k})
  {
    hide Without, FirstOf, Find, Keys, Front, Distinct;
    var rest := Without(es, {k});
    WithoutKeeps(es, {k}, key);
    WithoutFacts(es, {k});
    PushFront(Entry(k, s), rest);
    FindPushed(Entry(k, s), rest, key);
    var pushed := [Entry(k, s)] + rest;
    FindIffKey(pushed, key);
    SubsetSize(Front(pushed, key), used + {k});
    FirstOfKeeps(pushed, MAX_ENTRIES, key);
  }

  lemma {:induction false} SubsetSize(a: set<Key>, b: set<Key>)
    requires a <= b
    ensures |a| <= |b|
  {
    if a != {} {
      var k :| k in a;
      SubsetSize(a - {k}, b - {k});
    }
  }

  lemma KeptAfterOwnInsert<V>(es: seq<Entry<V>>, key: Key, stamped: Stamped<V>)
    ensures Kept(After(es, Insert(key, stamped)), key, stamped, {})
  {
    hide Without;
    var pushed := [Entry(key, stamped)] + Without(es, {key});
    assert FirstOf(pushed, MAX_ENTRIES)[0] == Entry(key, stamped);
  }

  lemma KeptAfterClear<V>(es: seq<Entry<V>>, connection: Option<string>, key: Key, stamped: Stamped<V>, used: set<Key>)
    requires Kept(es, key, stamped, used) && !Covers(connection, key)
    ensures Kept(After(es, Clear(connection)), key, stamped, used)
  {
    hide Without, Find, Front, Keys;
    WithoutKeeps(es, Covered(es, connection), key);
  }

  /** A fresh entry that was not cleared stays while at most 49 other keys are used. */
  lemma {:induction false} RecentlyUsedStays<V>(ops: seq<Op<V>>, key: Key, now: int)
    requires ClockUpTo(ops, now) && Latest(ops, key).Some? && Fresh(Latest(ops, key).value, now)
    requires |UsedSince(ops, key)| < MAX_ENTRIES
    ensures Kept(Run(ops), key, Latest(ops, key).value, UsedSince(ops, key))
  {
    hide After, Kept, Lookup;
    var init, op := ops[..|ops| - 1], ops[|ops| - 1];
    var es, stamped, used := Run(init), Latest(ops, key).value, UsedSince(ops, key);
    if op.Insert? && op.key == key {
      KeptAfterOwnInsert(es, key, stamped);
    } else {
      assert UsedSince(init, key) <= used || (op.Get? && op.key == key);
      if UsedSince(init, key) <= used {
        SubsetSize(UsedSince(init, key), used);
      }
      AtMostFifty(init);
      match op
      case Get(k, at) =>
        if k == key && Lookup(es, key, at).Some? {
          KeptAfterHit(es, key, at);
          StoredIsLatest(init, key);
        } else {
          RecentlyUsedStays(init, key, now);
          KeptAfterGet(es, k, at, key, stamped, UsedSince(init, key));
        }
      case Insert(k, s) =>
        RecentlyUsedStays(init, key, now);
        KeptAfterInsert(es, k, s, key, stamped, UsedSince(init, key));
      case Clear(connection) =>
        RecentlyUsedStays(init, key, now);
        KeptAfterClear(es, connection, key, stamped, UsedSince(init, key));
    }
  }

  lemma KeptAfterHit<V>(es: seq<Entry<V>>, key: Key, at: int)
    requires Lookup(es, key, at).Some?
    ensures Find(es, key).Some? && Kept(After(es, Get(key, at)), key, Find(es, key).value, {})
  {
    hide Without;
    FindPushed(Entry(key, Find(es, key).value), Without(es, {key}), key);
  }

  /** The LRU guarantee: after any run whose calls came no later than `now`, an
      insert less than 300 seconds old and not cleared since is a hit if at most
      49 other keys were inserted or hit since the key was last used. */
  lemma RecentlyUsedHits<V>(ops: seq<Op<V>>, key: Key, now: int)
    requires ClockUpTo(ops, now) && Latest(ops, key).Some? && now - Latest(ops, key).value.cachedAt < 300
    requires |UsedSince(ops, key)| <= 49
    ensures Lookup(Run(ops), key, now) == Some(Latest(ops, key).value.value)
  {
    RecentlyUsedStays(ops, key, now);
  }

  /** A miss leaves nothing under the key: an expired entry goes. */
  lemma MissDrops<V>(ops: seq<Op<V>>, key: Key, now: int)
    ensures Lookup(Run(ops), key, now).None? ==> Find(Run(ops + [Get(key, now)]), key).None?
  {
    hide Find, Without;
    assert (ops + [Get(key, now)])[..|ops|] == ops;
    WithoutKeeps(Run(ops), {key}, key);
  }

  /** A clear of one connection, or of all, leaves no key of it and every other. */
  lemma ClearDrops<V>(ops: seq<Op<V>>, connection: Option<string>, key: Key)
    ensures Find(Run(ops + [Clear(connection)]), key)
         == if connection.None? || connection.value == key.connection then None else Find(Run(ops), key)
  {
    hide Find, Without;
    var es := Run(ops);
    assert (ops + [Clear(connection)])[..|ops|] == ops;
    WithoutKeeps(es, Covered(es, connection), key);
    FindIffKey(es, key);
  }

  // ----- the bound of 49 is exact -----

  function Inserts<V>(keys: seq<Key>, stamped: Stamped<V>): seq<Op<V>> {
    if keys == [] then [] else Inserts(keys[..|keys| - 1], stamped) + [Insert(keys[|keys| - 1], stamped)]
  }

  /** The first entries are those of `keys`, the last one in front. */
  ghost predicate Leads<V>(es: seq<Entry<V>>, keys: seq<Key>) {
    |keys| <= |es| && forall i :: 0 <= i < |keys| ==> es[i].key == keys[|keys| - 1 - i]
  }

  lemma {:induction false} WithoutLeads<V>(es: seq<Entry<V>>, k: Key, n: nat)
    requires n <= |es| && forall i :: 0 <= i < n ==> es[i].key != k
    ensures n <= |Without(es, {k})| && forall i :: 0 <= i < n ==> Without(es, {k})[i] == es[i]
  {
    if n > 0 {
      WithoutLeads(es[1..], k, n - 1);
    }
  }

  lemma {:induction false} FirstOfAt<V>(es: seq<Entry<V>>, n: nat, i: nat)
    requires i < n && i < |es|
    ensures i < |FirstOf(es, n)| && FirstOf(es, n)[i] == es[i]
  {
    if i > 0 {
      FirstOfAt(es[1..], n - 1, i - 1);
    }
  }

  lemma InsertLeads<V>(es: seq<Entry<V>>, keys: seq<Key>, k: Key, stamped: Stamped<V>)
    requires Leads(es, keys) && k !in keys && |keys| < MAX_ENTRIES
    ensures Leads(After(es, Insert(k, stamped)), keys + [k])
  {
    hide Without, FirstOf;
    WithoutLeads(es, k, |keys|);
    var pushed := [Entry(k, stamped)] + Without(es, {k});
    forall i: nat | i <= |keys|
      ensures i < |FirstOf(pushed, MAX_ENTRIES)| && FirstOf(pushed, MAX_ENTRIES)[i] == pushed[i]
    {
      FirstOfAt(pushed, MAX_ENTRIES, i);
    }
    FirstOfAt(pushed, MAX_ENTRIES, |keys|);
  }

  lemma {:induction false} InsertsLead<V>(ops: seq<Op<V>>, keys: seq<Key>, stamped: Stamped<V>)
    requires |keys| <= MAX_ENTRIES && forall i, j :: 0 <= i < j < |keys| ==> keys[i] != keys[j]
    ensures Leads(Run(ops + Inserts(keys, stamped)), keys)
  {
    hide After;
    if keys != [] {
      var init, k := keys[..|keys| - 1], keys[|keys| - 1];
      InsertsLead(ops, init, stamped);
      var before := ops + Inserts(init, stamped);
      assert ops + Inserts(keys, stamped) == before + [Insert(k, stamped)];
      assert (before + [Insert(k, stamped)])[..|before|] == before;
      InsertLeads(Run(before), init, k, stamped);
      assert keys == init + [k];
    }
  }

  lemma {:induction false} KeysIndexed<V>(es: seq<Entry<V>>, key: Key)
    requires key in Keys(es)
    ensures exists i :: 0 <= i < |es| && es[i].key == key
  {
    if es[0].key != key {
      KeysIndexed(es[1..], key);
      var i :| 0 <= i < |es[1..]| && es[1..][i].key == key;
      assert es[i + 1].key == key;
    }
  }

  /** Whatever ran before, fifty inserts under other keys push an entry out. */
  lemma FiftyOthersEvict<V>(ops: seq<Op<V>>, keys: seq<Key>, stamped: Stamped<V>, key: Key)
    requires |keys| == 50 && forall i, j :: 0 <= i < j < |keys| ==> keys[i] != keys[j]
    requires key !in keys
    ensures Find(Run(ops + Inserts(keys, stamped)), key).None?
  {
    hide Run, Keys, Find;
    var es := Run(ops + Inserts(keys, stamped));
    InsertsLead(ops, keys, stamped);
    AtMostFifty(ops + Inserts(keys, stamped));
    FindIffKey(es, key);
    if key in Keys(es) {
      KeysIndexed(es, key);
    }
  }

  // ----- the cache -----

  /** `QueryCache`; `ops` records the calls made. */
  class Cache<V> {
    var entries: seq<Entry<V>>
    ghost var ops: seq<Op<V>>

    ghost predicate Valid()
      reads this
    {
      entries == Run(ops)
    }

    constructor ()
      ensures Valid() && ops == []
    {
      entries := [];
      ops := [];
    }

    /** The lookup promotes the entry before its age is checked; an expired one is popped. */
    method Get(key: Key, now: int) returns (result: Option<V>)
      requires Valid()
      modifies this
      ensures Valid() && ops == old(ops) + [Op.Get(key, now)]
      ensures result == Lookup(Run(old(ops)), key, now)
    {
      hide Find, Without;
      result := None;
      WithoutAgain(entries, key);
      FindIffKey(entries, key);
      ops := ops + [Op.Get(key, now)];
      assert ops[..|ops| - 1] == old(ops);
      var found := Find(entries, key);
      if found.Some? {
        var promoted := Entry(key, found.value);
        entries := [promoted] + Without(entries, {key});
        if Fresh(found.value, now) {
          result := Some(found.value.value);
        } else {
          WithoutPushed(promoted, Without(old(entries), {key}));
          entries := Without(entries, {key});
        }
      }
    }

    method Insert(key: Key, stamped: Stamped<V>)
      requires Valid()
      modifies this
      ensures Valid() && ops == old(ops) + [Op.Insert(key, stamped)]
    {
      hide Find, Without, FirstOf, Distinct;
      ghost var was := entries;
      AtMostFifty(ops);
      WithoutAgain(entries, key);
      FindIffKey(entries, key);
      WithoutFacts(entries, {key});
      ops := ops + [Op.Insert(key, stamped)];
      assert ops[..|ops| - 1] == old(ops);
      if Find(entries, key).Some? {
        WithoutShrinks(entries, key);
        entries := [Entry(key, stamped)] + Without(entries, {key});
        FirstOfAll(entries, MAX_ENTRIES);
      } else {
        FirstOfPushed(Entry(key, stamped), was);
        if |entries| == MAX_ENTRIES {
          entries := entries[..MAX_ENTRIES - 1];
        }
        entries := [Entry(key, stamped)] + entries;
      }
    }

    method Clear(connection: Option<string>)
      requires Valid()
      modifies this
      ensures Valid() && ops == old(ops) + [Op.Clear(connection)]
    {
      hide Without, Keys;
      ghost var dropped := Covered(entries, connection);
      ops := ops + [Op.Clear(connection)];
      assert ops[..|ops| - 1] == old(ops);
      if connection.None? {
        WithoutEverything(entries, dropped);
        entries := [];
      } else {
        var keysToRemove: seq<Key> := [];
        for i := 0 to |entries|
          invariant entries == old(entries) && ops == old(ops) + [Op.Clear(connection)]
          invariant forall k ::
                      k in keysToRemove <==> (exists j :: 0 <= j < i && entries[j].key == k && Covers(connection, k))
        {
          if entries[i].key.connection == connection.value {
            keysToRemove := keysToRemove + [entries[i].key];
          }
        }
        CoveredListed(entries, connection, keysToRemove);
        WithoutNothing(entries);
        assert SetOf(keysToRemove[..0]) == {};
        for i := 0 to |keysToRemove|
          invariant ops == old(ops) + [Op.Clear(connection)]
          invariant entries == Without(old(entries), SetOf(keysToRemove[..i]))
        {
          WithoutTwice(old(entries), SetOf(keysToRemove[..i]), keysToRemove[i]);
          SetOfNext(keysToRemove, i);
          entries := Without(entries, {keysToRemove[i]});
        }
        assert keysToRemove[..|keysToRemove|] == keysToRemove;
      }
    }
  }

  function SetOf(keys: seq<Key>): set<Key> {
    set k | k in keys
  }

  lemma SetOfNext(keys: seq<Key>, i: nat)
    requires i < |keys|
    ensures SetOf(keys[..i + 1]) == SetOf(keys[..i]) + {keys[i]}
  {
    assert keys[..i + 1] == keys[..i] + [keys[i]];
  }

  lemma {:induction false} WithoutAgain<V>(es: seq<Entry<V>>, key: Key)
    ensures Without(Without(es, {key}), {key}) == Without(es, {key})
    ensures key !in Keys(es) ==> Without(es, {key}) == es
  {
    if es != [] {
      WithoutAgain(es[1..], key);
      if es[0].key != key {
        assert Without(es, {key})[1..] == Without(es[1..], {key});
      }
    }
  }

  lemma WithoutPushed<V>(e: Entry<V>, es: seq<Entry<V>>)
    ensures Without([e] + es, {e.key}) == Without(es, {e.key})
  {
    assert ([e] + es)[1..] == es;
  }

  lemma {:induction false} WithoutEverything<V>(es: seq<Entry<V>>, dropped: set<Key>)
    requires Keys(es) <= dropped
    ensures Without(es, dropped) == []
  {
    if es != [] {
      WithoutEverything(es[1..], dropped);
    }
  }

  lemma {:induction false} WithoutNothing<V>(es: seq<Entry<V>>)
    ensures Without(es, {}) == es
  {
    if es != [] {
      WithoutNothing(es[1..]);
    }
  }

  lemma {:induction false} WithoutTwice<V>(es: seq<Entry<V>>, dropped: set<Key>, k: Key)
    ensures Without(Without(es, dropped), {k}) == Without(es, dropped + {k})
  {
    if es != [] {
      WithoutTwice(es[1..], dropped, k);
      if es[0].key !in dropped {
        assert Without(es, dropped)[1..] == Without(es[1..], dropped);
      }
    }
  }

  lemma {:induction false} FirstOfAll<V>(es: seq<Entry<V>>, n: nat)
    requires |es| <= n
    ensures FirstOf(es, n) == es
  {
    if es != [] {
      FirstOfAll(es[1..], n - 1);
    }
  }

  lemma {:induction false} FirstOfSlice<V>(es: seq<Entry<V>>, n: nat)
    requires n <= |es|
    ensures FirstOf(es, n) == es[..n]
  {
    if es != [] && n > 0 {
      FirstOfSlice(es[1..], n - 1);
    }
  }

  lemma FirstOfPushed<V>(e: Entry<V>, es: seq<Entry<V>>)
    requires |es| <= MAX_ENTRIES
    ensures FirstOf([e] + es, MAX_ENTRIES)
         == if |es| == MAX_ENTRIES then [e] + es[..MAX_ENTRIES - 1] else [e] + es
  {
    hide FirstOf;
    if |es| == MAX_ENTRIES {
      FirstOfSlice([e] + es, MAX_ENTRIES);
    } else {
      FirstOfAll([e] + es, MAX_ENTRIES);
    }
  }

  lemma {:induction false} KeyAtIn<V>(es: seq<Entry<V>>, i: nat)
    requires i < |es|
    ensures es[i].key in Keys(es)
  {
    if i > 0 {
      KeyAtIn(es[1..], i - 1);
    }
  }

  lemma CoveredListed<V>(es: seq<Entry<V>>, connection: Option<string>, keys: seq<Key>)
    requires forall k :: k in keys <==> exists j :: 0 <= j < |es| && es[j].key == k && Covers(connection, k)
    ensures SetOf(keys) == Covered(es, connection)
  {
    hide Keys, Covers;
    forall k
      ensures k in keys <==> k in Keys(es) && Covers(connection, k)
    {
      if k in keys {
        var j :| 0 <= j < |es| && es[j].key == k;
        KeyAtIn(es, j);
      }
      if k in Keys(es) {
        KeysIndexed(es, k);
      }
    }
  }
}
