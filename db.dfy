/**
 * The generic entity store of the admin panel: a registry from entity keys
 * to collections (a map from an id's property key to a record), created
 * lazily on first use from a durable snapshot, seeded once from static data,
 * and written through to its storage slot `hm_admin_<key>` on every
 * successful mutation.
 */
module Db {
  import opened Common

  /** One entity type's records, keyed by the property key of their id. */
  type Collection = map<string, Record>

  const StoragePrefix: string := "hm_admin_"

  /** The storage slot holding the snapshot of one entity key. */
  function SlotName(entityKey: string): string
  {
    StoragePrefix + entityKey
  }

  lemma SlotNameInjective(a: string, b: string)
    requires SlotName(a) == SlotName(b)
    ensures a == b
  {
    assert a == SlotName(a)[|StoragePrefix|..];
    assert b == SlotName(b)[|StoragePrefix|..];
  }

  /**
   * What a storage slot may hold: the snapshot of a collection, or text that
   * cannot be read back as one (corrupt, unparseable or empty).  A slot that
   * was never written is absent from the storage map.
   */
  datatype Slot = Snapshot(items: Collection) | Unreadable

  /** What `loadFromStorage` finds for an entity key. */
  function StoredCollection(storage: map<string, Slot>, entityKey: string): Option<Collection>
  {
    var name := SlotName(entityKey);
    if name in storage && storage[name].Snapshot? then Some(storage[name].items) else None
  }

  /**
   * The collection registered for `entityKey` once `initStore` has run: the
   * existing one if there is one, else the stored snapshot, else empty.
   */
  function Initialized(db: map<string, Collection>, storage: map<string, Slot>, entityKey: string): Collection
  {
    if entityKey in db then db[entityKey] else StoredCollection(storage, entityKey).GetOr(map[])
  }

  /** The storage after `saveToStorage` writes collection `c`; a failed write is swallowed. */
  function Persist(storage: map<string, Slot>, writable: bool, entityKey: string, c: Collection): map<string, Slot>
  {
    if writable then storage[SlotName(entityKey) := Snapshot(c)] else storage
  }

  /** A successful write is read back by the next load of the same key. */
  lemma PersistThenLoad(storage: map<string, Slot>, entityKey: string, c: Collection)
    ensures StoredCollection(Persist(storage, true, entityKey, c), entityKey) == Some(c)
  {
  }

  /** Writing one key's slot leaves what every other key would load unchanged. */
  lemma PersistLeavesOtherKeys(storage: map<string, Slot>, writable: bool, entityKey: string, other: string, c: Collection)
    requires other != entityKey
    ensures StoredCollection(Persist(storage, writable, entityKey, c), other) == StoredCollection(storage, other)
  {
    if SlotName(other) == SlotName(entityKey) {
      SlotNameInjective(other, entityKey);
    }
  }

  // ---------------------------------------------------------------- seeding

  predicate AllHaveIds(items: seq<Record>)
  {
    forall i :: 0 <= i < |items| ==> HasId(items[i])
  }

  /** `items.forEach(item => c[item.id] = item)`. */
  function InsertAll(c: Collection, items: seq<Record>): Collection
    requires AllHaveIds(items)
  {
    if items == [] then c
    else
      var last := items[|items| - 1];
      InsertAll(c, items[..|items| - 1])[IdKey(IdOf(last)) := last]
  }

  /** The collection after `seedFromJson`: the data is inserted only into an empty collection. */
  function Seeded(c: Collection, items: seq<Record>): Collection
    requires AllHaveIds(items)
  {
    if |c| == 0 then InsertAll(c, items) else c
  }

  /** With duplicate ids in the data, the last item carrying an id is the one stored under it. */
  lemma {:induction false} InsertAllLastWins(c: Collection, items: seq<Record>, i: int)
    requires AllHaveIds(items)
    requires 0 <= i < |items|
    requires forall j :: i < j < |items| ==> IdKey(IdOf(items[j])) != IdKey(IdOf(items[i]))
    ensures IdKey(IdOf(items[i])) in InsertAll(c, items)
    ensures InsertAll(c, items)[IdKey(IdOf(items[i]))] == items[i]
  {
    if i < |items| - 1 {
      var front := items[..|items| - 1];
      assert forall j :: i < j < |front| ==> front[j] == items[j];
      InsertAllLastWins(c, front, i);
    }
  }

  /** A key that no item's id addresses keeps its old entry, or stays absent. */
  lemma {:induction false} InsertAllElsewhere(c: Collection, items: seq<Record>, k: string)
    requires AllHaveIds(items)
    requires forall j :: 0 <= j < |items| ==> IdKey(IdOf(items[j])) != k
    ensures k in InsertAll(c, items) <==> k in c
    ensures k in c ==> InsertAll(c, items)[k] == c[k]
  {
    if items != [] {
      InsertAllElsewhere(c, items[..|items| - 1], k);
    }
  }

  /** Every key of a seeded collection is an existing key or the id key of some item. */
  lemma {:induction false} InsertAllKeys(c: Collection, items: seq<Record>, k: string)
    requires AllHaveIds(items)
    requires k in InsertAll(c, items)
    ensures k in c || exists j :: 0 <= j < |items| && IdKey(IdOf(items[j])) == k
  {
    if items != [] {
      var front := items[..|items| - 1];
      if k != IdKey(IdOf(items[|items| - 1])) {
        InsertAllKeys(c, front, k);
        if k !in c {
          var j :| 0 <= j < |front| && IdKey(IdOf(front[j])) == k;
          assert items[j] == front[j];
        }
      }
    }
  }

  /** Every record of a seeded collection was already there under its key, or is one of the items. */
  lemma {:induction false} InsertAllValues(c: Collection, items: seq<Record>, k: string)
    requires AllHaveIds(items)
    requires k in InsertAll(c, items)
    ensures (k in c && InsertAll(c, items)[k] == c[k]) || InsertAll(c, items)[k] in items
  {
    if items != [] {
      var front := items[..|items| - 1];
      if k != IdKey(IdOf(items[|items| - 1])) {
        InsertAllValues(c, front, k);
        if InsertAll(c, front)[k] in front {
          var j :| 0 <= j < |front| && front[j] == InsertAll(c, front)[k];
          assert items[j] == front[j];
        }
      }
    }
  }

  /**
   * Seeding is first-run-wins: once a seed has left the collection
   * non-empty, any later seed, whatever its data, changes nothing.
   */
  lemma SeedFirstRunWins(c: Collection, first: seq<Record>, later: seq<Record>)
    requires AllHaveIds(first) && AllHaveIds(later)
    requires |c| > 0 || |first| > 0
    ensures |Seeded(c, first)| > 0
    ensures Seeded(Seeded(c, first), later) == Seeded(c, first)
  {
    if |c| == 0 {
      InsertAllLastWins(c, first, |first| - 1);
    }
  }

  // ---------------------------------------------------------------- update

  /** `{ ...existing, ...updates }`. */
  function ShallowMerge(existing: Record, updates: Record): (r: Record)
    ensures r.Keys == existing.Keys + updates.Keys
    ensures forall f :: f in updates ==> r[f] == updates[f]
    ensures forall f :: f in existing && f !in updates ==> r[f] == existing[f]
  {
    existing + updates
  }

  // ---------------------------------------------------------------- next id

  predicate HasNumericId(r: Record)
  {
    "id" in r && r["id"].Num?
  }

  /** `items.map(item => item.id).filter(id => typeof id === 'number')`. */
  function NumericIds(items: seq<Record>): (ids: seq<int>)
    ensures forall x :: x in ids <==> exists j :: 0 <= j < |items| && HasNumericId(items[j]) && items[j]["id"].n == x
  {
    if items == [] then []
    else
      var rest := NumericIds(items[1..]);
      assert forall j :: 1 <= j < |items| ==> items[j] == items[1..][j - 1];
      if HasNumericId(items[0]) then [items[0]["id"].n] + rest else rest
  }

  /** `Math.max(...xs)` on a non-empty list. */
  function Max(xs: seq<int>): (m: int)
    requires |xs| > 0
    ensures m in xs
    ensures forall x :: x in xs ==> x <= m
  {
    if |xs| == 1 then xs[0]
    else
      var rest := Max(xs[1..]);
      assert forall x :: x in xs ==> x == xs[0] || x in xs[1..];
      if xs[0] >= rest then xs[0] else rest
  }

  /** `getNextId` over the listed records. */
  function NextIdOf(items: seq<Record>): int
  {
    if |items| == 0 then 1
    else
      var ids := NumericIds(items);
      if |ids| > 0 then Max(ids) + 1 else 1
  }

  /** The numeric values of the `id` fields in a collection; string ids are ignored. */
  ghost function NumericIdSet(c: Collection): set<int>
  {
    set k | k in c && HasNumericId(c[k]) :: c[k]["id"].n
  }

  /**
   * `next` is the id `getNextId` hands out for `c`: one more than the largest
   * numeric id, or 1 when there is none.
   */
  ghost predicate IsNextId(c: Collection, next: int)
  {
    && (NumericIdSet(c) == {} ==> next == 1)
    && (NumericIdSet(c) != {} ==> next - 1 in NumericIdSet(c))
    && (forall x :: x in NumericIdSet(c) ==> x < next)
  }

  /** The next id differs from every numeric id in the collection. */
  lemma NextIdIsUnused(c: Collection, next: int, k: string)
    requires IsNextId(c, next)
    requires k in c && HasNumericId(c[k])
    ensures c[k]["id"].n != next
  {
    assert c[k]["id"].n in NumericIdSet(c);
  }

  /** The specification of the next id leaves no choice. */
  lemma NextIdIsUnique(c: Collection, a: int, b: int)
    requires IsNextId(c, a) && IsNextId(c, b)
    ensures a == b
  {
    if NumericIdSet(c) != {} {
      assert a - 1 < b && b - 1 < a;
    }
  }

  /** Every record's key is the property key of its own numeric id. */
  ghost predicate KeyedByNumericIds(c: Collection)
  {
    forall k :: k in c ==> HasNumericId(c[k]) && k == IdKey(NumId(c[k]["id"].n))
  }

  /**
   * When every record sits under its own numeric id, storing a record under
   * the next id adds a new entry rather than replacing one.
   */
  lemma InsertAtNextIdGrows(c: Collection, next: int, r: Record)
    requires KeyedByNumericIds(c)
    requires IsNextId(c, next)
    ensures IdKey(NumId(next)) !in c
    ensures |c[IdKey(NumId(next)) := r]| == |c| + 1
  {
    var k := IdKey(NumId(next));
    if k in c {
      NumericIdKeyInjective(c[k]["id"].n, next);
      NextIdIsUnused(c, next, k);
    }
    assert c[k := r].Keys == c.Keys + {k};
  }

  // ---------------------------------------------------------------- listing

  /** `order` lists every key of `c` exactly once, in some order. */
  ghost predicate IsEnumeration(order: seq<string>, c: Collection)
  {
    && (forall i :: 0 <= i < |order| ==> order[i] in c)
    && (forall k :: k in c ==> k in order)
    && (forall i, j :: 0 <= i < j < |order| ==> order[i] != order[j])
  }

  function ValuesAt(c: Collection, order: seq<string>): seq<Record>
    requires forall i :: 0 <= i < |order| ==> order[i] in c
  {
    seq(|order|, i requires 0 <= i < |order| => c[order[i]])
  }

  /**
   * `Object.values(c)`: every record once, in an order the model leaves
   * open (the ghost `order` records the one chosen).
   */
  method ObjectValues(c: Collection) returns (values: seq<Record>, ghost order: seq<string>)
    ensures IsEnumeration(order, c)
    ensures values == ValuesAt(c, order)
  {
    var rest := c.Keys;
    values, order := [], [];
    while rest != {}
      invariant rest <= c.Keys
      invariant forall i :: 0 <= i < |order| ==> order[i] in c && order[i] !in rest
      invariant forall k :: k in c ==> k in rest || k in order
      invariant forall i, j :: 0 <= i < j < |order| ==> order[i] != order[j]
      invariant values == ValuesAt(c, order)
      decreases rest
    {
      var k :| k in rest;
      values, order := values + [c[k]], order + [k];
      rest := rest - {k};
    }
  }

  /** In a sequence without repetitions every element occurs once. */
  lemma {:induction false} DistinctOccursOnce(order: seq<string>, x: string)
    requires forall i, j :: 0 <= i < j < |order| ==> order[i] != order[j]
    ensures multiset(order)[x] == if x in order then 1 else 0
  {
    if order != [] {
      var front := order[..|order| - 1];
      assert order == front + [order[|order| - 1]];
      DistinctOccursOnce(front, x);
      if x == order[|order| - 1] {
        assert x !in front;
      }
    }
  }

  /** Two listings of the same collection differ only in their order. */
  lemma EnumerationsPermute(o1: seq<string>, o2: seq<string>, c: Collection)
    requires IsEnumeration(o1, c) && IsEnumeration(o2, c)
    ensures multiset(o1) == multiset(o2)
  {
    forall x ensures multiset(o1)[x] == multiset(o2)[x] {
      DistinctOccursOnce(o1, x);
      DistinctOccursOnce(o2, x);
    }
  }

  /** Over any listing of a collection, `NextIdOf` meets the next-id specification. */
  lemma NextIdOfListing(c: Collection, order: seq<string>)
    requires IsEnumeration(order, c)
    ensures IsNextId(c, NextIdOf(ValuesAt(c, order)))
  {
    var items := ValuesAt(c, order);
    var ids := NumericIds(items);
    forall x ensures x in NumericIdSet(c) <==> x in ids {
      if x in NumericIdSet(c) {
        var k :| k in c && HasNumericId(c[k]) && c[k]["id"].n == x;
        var j :| 0 <= j < |order| && order[j] == k;
        assert items[j] == c[k];
      }
      if x in ids {
        var j :| 0 <= j < |items| && HasNumericId(items[j]) && items[j]["id"].n == x;
        assert items[j] == c[order[j]];
      }
    }
    if |items| == 0 {
      assert forall k :: k !in c;
      assert NumericIdSet(c) == {};
    } else if |ids| == 0 {
      assert NumericIdSet(c) == {};
    }
  }

  // ---------------------------------------------------------------- sync

  /** The slots `syncAll` writes: one snapshot per registered key. */
  function SnapshotsOf(db: map<string, Collection>): map<string, Slot>
  {
    SlotNamesInjective();
    map k | k in db :: SlotName(k) := Snapshot(db[k])
  }

  lemma SlotNamesInjective()
    ensures forall a, b :: SlotName(a) == SlotName(b) ==> a == b
  {
    forall a, b | SlotName(a) == SlotName(b) ensures a == b {
      SlotNameInjective(a, b);
    }
  }

  /** The storage after `syncAll` over registry `db`, starting from `base`. */
  function Synced(base: map<string, Slot>, writable: bool, db: map<string, Collection>): map<string, Slot>
  {
    if writable then base + SnapshotsOf(db) else base
  }

  /**
   * After `syncAll`, a fresh registry over the same storage initializes every
   * registered key to the collection it had.
   */
  lemma SyncThenReload(storage: map<string, Slot>, db: map<string, Collection>, k: string)
    requires k in db
    ensures Initialized(map[], storage + SnapshotsOf(db), k) == db[k]
  {
    assert SlotName(k) in SnapshotsOf(db);
    forall j | j in db && SlotName(j) == SlotName(k) ensures j == k {
      SlotNameInjective(j, k);
    }
  }

  // ---------------------------------------------------------------- the store

  class EntityStore {
    /** The in-memory registry: entity key to collection. */
    var db: map<string, Collection>
    /** The durable storage: slot name to stored content. */
    var storage: map<string, Slot>
    /** Whether the storage medium accepts writes; a refused write is logged and swallowed. */
    const writable: bool

    /** Process start: an empty registry over whatever storage persisted. */
    constructor (persisted: map<string, Slot>, writable: bool)
      ensures db == map[] && storage == persisted && this.writable == writable
    {
      db := map[];
      storage := persisted;
      this.writable := writable;
    }

    /** The collection an operation on `entityKey` works on once it has initialized the key. */
    ghost function Current(entityKey: string): Collection
      reads this
    {
      Initialized(db, storage, entityKey)
    }

    /** `initStore`: register a collection on first use; never replace an existing one. */
    method InitStore(entityKey: string)
      modifies this
      ensures entityKey in db
      ensures entityKey in old(db) ==> db == old(db)
      ensures db == old(db)[entityKey := old(Current(entityKey))]
      ensures storage == old(storage)
    {
      if entityKey !in db {
        db := db[entityKey := map[]];
        LoadFromStorage(entityKey);
      } else {
        UpdateSame(db, entityKey);
      }
    }

    /** `loadFromStorage`: a readable snapshot replaces the collection wholesale; anything else is ignored. */
    method LoadFromStorage(entityKey: string)
      modifies this`db
      ensures StoredCollection(storage, entityKey).Some? ==> db == old(db)[entityKey := StoredCollection(storage, entityKey).value]
      ensures StoredCollection(storage, entityKey).None? ==> db == old(db)
    {
      var name := SlotName(entityKey);
      if name in storage {
        match storage[name]
        case Snapshot(items) =>
          db := db[entityKey := items];
        case Unreadable =>
          // the parse error is logged and the collection is left as it is
      }
    }

    /** `saveToStorage`: write the whole collection to its slot. */
    method SaveToStorage(entityKey: string)
      requires entityKey in db
      modifies this`storage
      ensures storage == Persist(old(storage), writable, entityKey, db[entityKey])
    {
      if writable {
        storage := storage[SlotName(entityKey) := Snapshot(db[entityKey])];
      }
    }

    /** `seedFromJson`: populate the collection from `data` only when it is empty, then save. */
    method SeedFromJson(entityKey: string, data: seq<Record>)
      requires AllHaveIds(data)
      modifies this
      ensures db == old(db)[entityKey := Seeded(old(Current(entityKey)), data)]
      ensures |old(Current(entityKey))| == 0 ==> storage == Persist(old(storage), writable, entityKey, db[entityKey])
      ensures |old(Current(entityKey))| != 0 ==> storage == old(storage)
    {
      ghost var db0 := db;
      InitStore(entityKey);
      if |db[entityKey]| == 0 {
        ghost var c0 := db[entityKey];
        var c := db[entityKey];
        var i := 0;
        while i < |data|
          invariant 0 <= i <= |data|
          invariant c == InsertAll(c0, data[..i])
        {
          var item := data[i];
          assert data[..i + 1][..i] == data[..i];
          c := c[IdKey(IdOf(item)) := item];
          i := i + 1;
        }
        assert data[..|data|] == data;
        db := db[entityKey := c];
        UpdateTwice(db0, entityKey, c0, c);
        SaveToStorage(entityKey);
      }
    }

    /** `list`: every record of the collection, in the order `Object.values` gives. */
    method List(entityKey: string) returns (values: seq<Record>, ghost order: seq<string>)
      modifies this
      ensures db == old(db)[entityKey := old(Current(entityKey))]
      ensures storage == old(storage)
      ensures IsEnumeration(order, db[entityKey])
      ensures values == ValuesAt(db[entityKey], order)
    {
      InitStore(entityKey);
      values, order := ObjectValues(db[entityKey]);
    }

    /** `getById`: the record stored under the id's key, if any. */
    method GetById(entityKey: string, id: Id) returns (r: Option<Record>)
      modifies this
      ensures db == old(db)[entityKey := old(Current(entityKey))]
      ensures storage == old(storage)
      ensures IdKey(id) in db[entityKey] ==> r == Some(db[entityKey][IdKey(id)])
      ensures IdKey(id) !in db[entityKey] ==> r == None
    {
      InitStore(entityKey);
      var k := IdKey(id);
      if k in db[entityKey] {
        r := Some(db[entityKey][k]);
      } else {
        r := None;
      }
    }

    /** `create`: store `item` under its own id, overwriting any record there, save, return it. */
    method Create(entityKey: string, item: Record) returns (created: Record)
      requires HasId(item)
      modifies this
      ensures created == item
      ensures db == old(db)[entityKey := old(Current(entityKey))[IdKey(IdOf(item)) := item]]
      ensures storage == Persist(old(storage), writable, entityKey, db[entityKey])
    {
      InitStore(entityKey);
      db := db[entityKey := db[entityKey][IdKey(IdOf(item)) := item]];
      SaveToStorage(entityKey);
      created := item;
    }

    /**
     * `update`: shallow-merge `updates` into the record under `id` and store
     * the result under the same key; absent id: return nothing, write nothing.
     */
    method Update(entityKey: string, id: Id, updates: Record) returns (r: Option<Record>)
      modifies this
      ensures var c, k := old(Current(entityKey)), IdKey(id);
        k !in c ==> r == None && db == old(db)[entityKey := c] && storage == old(storage)
      ensures var c, k := old(Current(entityKey)), IdKey(id);
        k in c ==>
          && r == Some(ShallowMerge(c[k], updates))
          && db == old(db)[entityKey := c[k := ShallowMerge(c[k], updates)]]
          && storage == Persist(old(storage), writable, entityKey, db[entityKey])
    {
      InitStore(entityKey);
      var k := IdKey(id);
      if k !in db[entityKey] {
        return None;
      }
      var updated := ShallowMerge(db[entityKey][k], updates);
      db := db[entityKey := db[entityKey][k := updated]];
      SaveToStorage(entityKey);
      r := Some(updated);
    }

    /** `remove`: delete the record under `id` and save; absent id: return false, write nothing. */
    method Remove(entityKey: string, id: Id) returns (removed: bool)
      modifies this
      ensures var c := old(Current(entityKey));
        removed == (IdKey(id) in c) && db == old(db)[entityKey := c - {IdKey(id)}]
      ensures removed ==> storage == Persist(old(storage), writable, entityKey, db[entityKey])
      ensures !removed ==> storage == old(storage)
    {
      InitStore(entityKey);
      var k := IdKey(id);
      if k !in db[entityKey] {
        assert db[entityKey] - {k} == db[entityKey];
        return false;
      }
      db := db[entityKey := db[entityKey] - {k}];
      SaveToStorage(entityKey);
      removed := true;
    }

    /** `clear`: replace the collection with an empty one and save. */
    method Clear(entityKey: string)
      modifies this
      ensures db == old(db)[entityKey := map[]]
      ensures storage == Persist(old(storage), writable, entityKey, map[])
    {
      InitStore(entityKey);
      db := db[entityKey := map[]];
      SaveToStorage(entityKey);
    }

    /** `getNextId`: one more than the largest numeric id, or 1. */
    method GetNextId(entityKey: string) returns (next: int)
      modifies this
      ensures db == old(db)[entityKey := old(Current(entityKey))]
      ensures storage == old(storage)
      ensures IsNextId(db[entityKey], next)
    {
      InitStore(entityKey);
      var items, order := ObjectValues(db[entityKey]);
      NextIdOfListing(db[entityKey], order);
      next := NextIdOf(items);
    }

    /** `syncAll`: write every registered collection to its slot. */
    method SyncAll()
      modifies this`storage
      ensures storage == Synced(old(storage), writable, db)
    {
      var all := db;
      var rest := all.Keys;
      ghost var done: map<string, Collection> := map[];
      while rest != {}
        invariant db == all
        invariant rest <= all.Keys
        invariant done.Keys == all.Keys - rest
        invariant forall j :: j in done ==> done[j] == all[j]
        invariant storage == Synced(old(storage), writable, done)
        decreases rest
      {
        var k :| k in rest;
        SyncStep(old(storage), writable, done, k, all[k]);
        SaveToStorage(k);
        done := done[k := all[k]];
        rest := rest - {k};
      }
      SameEntries(done, all);
    }
  }

  lemma SameEntries(a: map<string, Collection>, b: map<string, Collection>)
    requires a.Keys == b.Keys
    requires forall j :: j in a ==> a[j] == b[j]
    ensures a == b
  {
  }

  lemma SyncStep(base: map<string, Slot>, writable: bool, done: map<string, Collection>, k: string, c: Collection)
    ensures Persist(Synced(base, writable, done), writable, k, c) == Synced(base, writable, done[k := c])
  {
    if writable {
      SnapshotsOfAdd(done, k, c);
      UnionUpdate(base, SnapshotsOf(done), SlotName(k), Snapshot(c));
    }
  }

  /** A second update of the same key overrides the first. */
  lemma UpdateTwice<K, V>(m: map<K, V>, k: K, a: V, b: V)
    ensures m[k := a][k := b] == m[k := b]
  {
  }

  /** Writing a key's own value back changes nothing. */
  lemma UpdateSame<K, V>(m: map<K, V>, k: K)
    requires k in m
    ensures m[k := m[k]] == m
  {
  }

  lemma UnionUpdate(a: map<string, Slot>, b: map<string, Slot>, k: string, v: Slot)
    ensures (a + b)[k := v] == a + b[k := v]
  {
  }

  lemma SnapshotsOfAdd(done: map<string, Collection>, k: string, c: Collection)
    ensures SnapshotsOf(done[k := c]) == SnapshotsOf(done)[SlotName(k) := Snapshot(c)]
  {
    forall j | j in done && SlotName(j) == SlotName(k) ensures j == k {
      SlotNameInjective(j, k);
    }
  }
}
