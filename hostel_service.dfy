/**
 * The hostel domain service: the entity store bound to the key `hostels`,
 * seeded from the static hostel data before every operation, plus the
 * search, city filter and capacity total derived from the listing.
 */
module HostelService {
  import opened Common
  import opened Seqs
  import Text
  import Db
  import opened HostelTypes

  const EntityKey: string := "hostels"

  /** Every record in the collection has the shape of a hostel (the cast `list<Hostel>` relies on). */
  ghost predicate HostelsTyped(c: Db.Collection)
  {
    forall k {:trigger IsHostelRecord(c[k])} :: k in c ==> IsHostelRecord(c[k])
  }

  /**
   * A store that has not registered the hostels and has no readable
   * snapshot of them starts from an empty collection, which holds only
   * hostels.
   */
  lemma FreshStoreIsTyped(db: map<string, Db.Collection>, storage: map<string, Db.Slot>)
    requires EntityKey !in db
    requires Db.SlotName(EntityKey) !in storage || storage[Db.SlotName(EntityKey)].Unreadable?
    ensures Db.Initialized(db, storage, EntityKey) == map[]
    ensures HostelsTyped(Db.Initialized(db, storage, EntityKey))
  {
  }

  /** The static hostel data as records. */
  function SeedRecords(hostelData: seq<Hostel>): (rs: seq<Record>)
    ensures Db.AllHaveIds(rs)
  {
    seq(|hostelData|, i requires 0 <= i < |hostelData| => ToRecord(hostelData[i]))
  }

  lemma SeedRecordsAreHostels(hostelData: seq<Hostel>, r: Record)
    requires r in SeedRecords(hostelData)
    ensures IsHostelRecord(r)
  {
    var i :| 0 <= i < |hostelData| && SeedRecords(hostelData)[i] == r;
    RecordRoundTrip(hostelData[i]);
  }

  /** Seeding with hostel data keeps a collection of hostels a collection of hostels. */
  lemma SeedingKeepsHostels(c: Db.Collection, hostelData: seq<Hostel>)
    requires HostelsTyped(c)
    ensures HostelsTyped(Db.Seeded(c, SeedRecords(hostelData)))
  {
    var items := SeedRecords(hostelData);
    if |c| == 0 {
      forall k | k in Db.InsertAll(c, items) ensures IsHostelRecord(Db.InsertAll(c, items)[k]) {
        Db.InsertAllValues(c, items, k);
        if Db.InsertAll(c, items)[k] in items {
          SeedRecordsAreHostels(hostelData, Db.InsertAll(c, items)[k]);
        }
      }
    }
  }

  /** The listed records read as hostels. */
  function DecodeAll(rs: seq<Record>): seq<Hostel>
    requires forall i :: 0 <= i < |rs| ==> IsHostelRecord(rs[i])
  {
    seq(|rs|, i requires 0 <= i < |rs| => FromRecord(rs[i]))
  }

  // ---------------------------------------------------------------- search

  /** The search predicate on an already-lowercased query. */
  predicate SearchMatch(h: Hostel, lowerQuery: string)
  {
    || Text.Contains(Text.ToLower(h.name), lowerQuery)
    || Text.Contains(Text.ToLower(h.city), lowerQuery)
    || Text.Contains(Text.ToLower(h.managerName), lowerQuery)
  }

  function SearchMatcher(lowerQuery: string): Hostel -> bool
  {
    (h: Hostel) => SearchMatch(h, lowerQuery)
  }

  /** `searchHostels` over the listed hostels. */
  function Search(hostels: seq<Hostel>, query: string): seq<Hostel>
  {
    if Text.Trim(query) == [] then hostels
    else Filter(hostels, SearchMatcher(Text.ToLower(query)))
  }

  /** An empty or whitespace-only query returns the full list. */
  lemma SearchBlankReturnsAll(hostels: seq<Hostel>, query: string)
    requires Text.AllWhitespace(query)
    ensures Search(hostels, query) == hostels
  {
    Text.BlankIffAllWhitespace(query);
  }

  /**
   * Any other query keeps exactly the hostels whose lowercased name, city or
   * manager name contains the lowercased, untrimmed query.
   */
  lemma SearchMembership(hostels: seq<Hostel>, query: string, h: Hostel)
    requires !Text.AllWhitespace(query)
    ensures h in Search(hostels, query) <==> h in hostels && SearchMatch(h, Text.ToLower(query))
  {
    Text.BlankIffAllWhitespace(query);
    FilterMembership(hostels, SearchMatcher(Text.ToLower(query)), h);
  }

  /** The search result keeps the listing order. */
  lemma SearchKeepsOrder(hostels: seq<Hostel>, query: string)
    ensures IsSubsequence(Search(hostels, query), hostels)
  {
    if Text.Trim(query) == [] {
      SubsequenceOfSelf(hostels);
    } else {
      FilterIsSubsequence(hostels, SearchMatcher(Text.ToLower(query)));
    }
  }

  lemma {:induction false} SubsequenceOfSelf(s: seq<Hostel>)
    ensures IsSubsequence(s, s)
  {
    if s != [] {
      SubsequenceOfSelf(s[1..]);
    }
  }

  /** The case of the query does not matter. */
  lemma SearchIgnoresQueryCase(hostels: seq<Hostel>, query: string)
    ensures Search(hostels, Text.ToLower(query)) == Search(hostels, query)
  {
    Text.BlankIffAllWhitespace(query);
    Text.BlankIffAllWhitespace(Text.ToLower(query));
    Text.LowerKeepsWhitespace(query);
    Text.ToLowerIdempotent(query);
  }

  // ---------------------------------------------------------------- by city

  function CityMatcher(lowerCity: string): Hostel -> bool
  {
    (h: Hostel) => Text.ToLower(h.city) == lowerCity
  }

  /** `getHostelsByCity` over the listed hostels. */
  function ByCity(hostels: seq<Hostel>, city: string): seq<Hostel>
  {
    Filter(hostels, CityMatcher(Text.ToLower(city)))
  }

  /** Exactly the hostels whose city equals the argument up to case, in listing order. */
  lemma ByCityMembership(hostels: seq<Hostel>, city: string, h: Hostel)
    ensures h in ByCity(hostels, city) <==> h in hostels && Text.ToLower(h.city) == Text.ToLower(city)
    ensures IsSubsequence(ByCity(hostels, city), hostels)
  {
    FilterMembership(hostels, CityMatcher(Text.ToLower(city)), h);
    FilterIsSubsequence(hostels, CityMatcher(Text.ToLower(city)));
  }

  // ---------------------------------------------------------------- capacity

  function Capacity(h: Hostel): int
  {
    h.totalFloors * h.roomsPerFloor
  }

  /** `getTotalCapacity` over the listed hostels. */
  function TotalCapacity(hostels: seq<Hostel>): int
  {
    Sum(hostels, Capacity)
  }

  /** No hostels, no rooms. */
  lemma TotalCapacityOfNone()
    ensures TotalCapacity([]) == 0
  {
  }

  /**
   * For hostels within the edit form's limits (1 to 50 floors, 1 to 100
   * rooms per floor) every hostel adds between 1 and 5000 rooms.
   */
  lemma {:induction false} TotalCapacityBounds(hostels: seq<Hostel>)
    requires forall i :: 0 <= i < |hostels| ==>
      1 <= hostels[i].totalFloors <= 50 && 1 <= hostels[i].roomsPerFloor <= 100
    ensures |hostels| <= TotalCapacity(hostels) <= 5000 * |hostels|
  {
    if hostels != [] {
      var last := hostels[|hostels| - 1];
      TotalCapacityBounds(hostels[..|hostels| - 1]);
      CapacityBounds(last.totalFloors, last.roomsPerFloor);
    }
  }

  lemma CapacityBounds(floors: int, rooms: int)
    requires 1 <= floors <= 50 && 1 <= rooms <= 100
    ensures 1 <= floors * rooms <= 5000
  {
    assert floors * rooms <= 50 * rooms;
  }

  function KeyCapacity(c: Db.Collection): string -> int
  {
    (k: string) => if k in c && IsHostelRecord(c[k]) then Capacity(FromRecord(c[k])) else 0
  }

  lemma {:induction false} TotalCapacityByKeys(c: Db.Collection, order: seq<string>)
    requires HostelsTyped(c)
    requires forall i :: 0 <= i < |order| ==> order[i] in c
    ensures TotalCapacity(DecodeAll(Db.ValuesAt(c, order))) == Sum(order, KeyCapacity(c))
  {
    if order != [] {
      var front := order[..|order| - 1];
      TotalCapacityByKeys(c, front);
      var hs := DecodeAll(Db.ValuesAt(c, order));
      assert hs[..|hs| - 1] == DecodeAll(Db.ValuesAt(c, front));
    }
  }

  /** The capacity total does not depend on the order in which the collection is listed. */
  lemma TotalCapacityIgnoresListingOrder(c: Db.Collection, o1: seq<string>, o2: seq<string>)
    requires HostelsTyped(c)
    requires Db.IsEnumeration(o1, c) && Db.IsEnumeration(o2, c)
    ensures TotalCapacity(DecodeAll(Db.ValuesAt(c, o1))) == TotalCapacity(DecodeAll(Db.ValuesAt(c, o2)))
  {
    TotalCapacityByKeys(c, o1);
    TotalCapacityByKeys(c, o2);
    Db.EnumerationsPermute(o1, o2, c);
    SumPermutation(o1, o2, KeyCapacity(c));
  }

  // ---------------------------------------------------------------- the service

  class HostelService {
    const store: Db.EntityStore
    /** The static hostel data every operation seeds from. */
    const hostelData: seq<Hostel>

    /** The store's hostel collection must already hold only hostels; see `FreshStoreIsTyped`. */
    constructor (store: Db.EntityStore, hostelData: seq<Hostel>)
      requires HostelsTyped(store.Current(EntityKey))
      ensures Valid()
      ensures this.store == store && this.hostelData == hostelData
    {
      this.store := store;
      this.hostelData := hostelData;
    }

    /** The hostel collection an operation would start from. */
    ghost function Hostels(): Db.Collection
      reads this, store
    {
      store.Current(EntityKey)
    }

    ghost predicate Valid()
      reads this, store
    {
      HostelsTyped(Hostels())
    }

    /** The hostel collection after `init` ran against registry `db0` and storage `st0`. */
    ghost function AfterInit(db0: map<string, Db.Collection>, st0: map<string, Db.Slot>): Db.Collection
      reads this
    {
      Db.Seeded(Db.Initialized(db0, st0, EntityKey), SeedRecords(hostelData))
    }

    /** The storage after `init`: written only when seeding found the collection empty. */
    ghost function StorageAfterInit(db0: map<string, Db.Collection>, st0: map<string, Db.Slot>): map<string, Db.Slot>
      reads this
    {
      if |Db.Initialized(db0, st0, EntityKey)| == 0
      then Db.Persist(st0, store.writable, EntityKey, AfterInit(db0, st0))
      else st0
    }

    /** The registry and the storage are exactly as `init` leaves them, starting from `db0` and `st0`. */
    ghost predicate Initialized(db0: map<string, Db.Collection>, st0: map<string, Db.Slot>)
      reads this, store
    {
      store.db == db0[EntityKey := AfterInit(db0, st0)] && store.storage == StorageAfterInit(db0, st0)
    }

    /** `init`: seed the hostel collection from the static data if it is empty. */
    method Init()
      requires Valid()
      modifies store
      ensures Initialized(old(store.db), old(store.storage))
      ensures Valid()
    {
      ghost var db0, st0 := store.db, store.storage;
      SeedingKeepsHostels(Db.Initialized(db0, st0, EntityKey), hostelData);
      store.SeedFromJson(EntityKey, SeedRecords(hostelData));
      assert store.db == db0[EntityKey := AfterInit(db0, st0)];
      assert store.storage == StorageAfterInit(db0, st0);
      assert store.Current(EntityKey) == AfterInit(db0, st0);
    }

    /** `getAllHostels`: the seeded collection, listed. */
    method GetAllHostels() returns (hostels: seq<Hostel>, ghost order: seq<string>)
      requires Valid()
      modifies store
      ensures Initialized(old(store.db), old(store.storage))
      ensures Valid()
      ensures Db.IsEnumeration(order, Hostels())
      ensures hostels == DecodeAll(Db.ValuesAt(Hostels(), order))
    {
      Init();
      ghost var db1 := store.db;
      var records;
      records, order := store.List(EntityKey);
      Db.UpdateSame(db1, EntityKey);
      hostels := DecodeAll(records);
    }

    /** `getHostelById`. */
    method GetHostelById(id: Id) returns (hostel: Option<Hostel>)
      requires Valid()
      modifies store
      ensures Initialized(old(store.db), old(store.storage))
      ensures Valid()
      ensures IdKey(id) in Hostels() ==> hostel == Some(FromRecord(Hostels()[IdKey(id)]))
      ensures IdKey(id) !in Hostels() ==> hostel == None
    {
      Init();
      ghost var db1 := store.db;
      var r := store.GetById(EntityKey, id);
      Db.UpdateSame(db1, EntityKey);
      if r.Some? {
        hostel := Some(FromRecord(r.value));
      } else {
        hostel := None;
      }
    }

    /**
     * `createHostel`: store `{ id: getNextId('hostels'), ...data }` under its
     * id and return it.
     */
    method CreateHostel(data: HostelFormData) returns (hostel: Hostel)
      requires Valid()
      modifies store
      ensures hostel.id.NumId? && hostel == WithId(hostel.id.n, data)
      ensures Db.IsNextId(AfterInit(old(store.db), old(store.storage)), hostel.id.n)
      ensures store.db == old(store.db)[EntityKey :=
        AfterInit(old(store.db), old(store.storage))[IdKey(hostel.id) := ToRecord(hostel)]]
      ensures store.storage ==
        Db.Persist(StorageAfterInit(old(store.db), old(store.storage)), store.writable, EntityKey, store.db[EntityKey])
      ensures Valid()
    {
      ghost var db0 := store.db;
      Init();
      ghost var c := store.db[EntityKey];
      hostel := CreateAfterInit(data);
      Db.UpdateTwice(db0, EntityKey, c, c[IdKey(hostel.id) := ToRecord(hostel)]);
    }

    /** The part of `createHostel` after `init`: allocate the next id and store the new hostel. */
    method CreateAfterInit(data: HostelFormData) returns (hostel: Hostel)
      requires Valid() && EntityKey in store.db
      modifies store
      ensures hostel.id.NumId? && hostel == WithId(hostel.id.n, data)
      ensures Db.IsNextId(old(store.db[EntityKey]), hostel.id.n)
      ensures store.db == old(store.db)[EntityKey := old(store.db[EntityKey])[IdKey(hostel.id) := ToRecord(hostel)]]
      ensures store.storage == Db.Persist(old(store.storage), store.writable, EntityKey, store.db[EntityKey])
      ensures Valid()
    {
      ghost var db1 := store.db;
      var newId := store.GetNextId(EntityKey);
      Db.UpdateSame(db1, EntityKey);
      var record := NewHostelRecord(newId, data);
      NewHostelRecordIsHostel(newId, data);
      var created := store.Create(EntityKey, record);
      hostel := FromRecord(created);
    }

    /** `updateHostel`: `db.update` on the hostel collection. */
    method UpdateHostel(id: Id, patch: HostelPatch) returns (hostel: Option<Hostel>)
      requires Valid()
      modifies store
      ensures var c, k := AfterInit(old(store.db), old(store.storage)), IdKey(id);
        k !in c ==>
          && hostel == None
          && store.db == old(store.db)[EntityKey := c]
          && store.storage == StorageAfterInit(old(store.db), old(store.storage))
      ensures var c, k := AfterInit(old(store.db), old(store.storage)), IdKey(id);
        k in c ==>
          && store.db == old(store.db)[EntityKey := c[k := Db.ShallowMerge(c[k], PatchRecord(patch))]]
          && store.storage == Db.Persist(StorageAfterInit(old(store.db), old(store.storage)), store.writable, EntityKey, store.db[EntityKey])
      ensures Valid()
      ensures hostel.Some? <==> IdKey(id) in AfterInit(old(store.db), old(store.storage))
      ensures IdKey(id) in Hostels() && hostel.Some? ==> hostel.value == FromRecord(Hostels()[IdKey(id)])
    {
      ghost var db0 := store.db;
      Init();
      ghost var c, k := store.db[EntityKey], IdKey(id);
      hostel := UpdateAfterInit(id, patch);
      if k in c {
        Db.UpdateTwice(db0, EntityKey, c, c[k := Db.ShallowMerge(c[k], PatchRecord(patch))]);
      }
    }

    /** The part of `updateHostel` after `init`. */
    method UpdateAfterInit(id: Id, patch: HostelPatch) returns (hostel: Option<Hostel>)
      requires Valid() && EntityKey in store.db
      modifies store
      ensures var c, k := old(store.db[EntityKey]), IdKey(id);
        k !in c ==> hostel == None && store.db == old(store.db) && store.storage == old(store.storage)
      ensures var c, k := old(store.db[EntityKey]), IdKey(id);
        k in c ==>
          && hostel == Some(ApplyPatch(FromRecord(c[k]), patch))
          && store.db == old(store.db)[EntityKey := c[k := Db.ShallowMerge(c[k], PatchRecord(patch))]]
          && store.storage == Db.Persist(old(store.storage), store.writable, EntityKey, store.db[EntityKey])
      ensures Valid()
      ensures hostel.Some? ==> IdKey(id) in store.db[EntityKey] && hostel.value == FromRecord(store.db[EntityKey][IdKey(id)])
    {
      ghost var c := store.db[EntityKey];
      var k := IdKey(id);
      var r := store.Update(EntityKey, id, PatchRecord(patch));
      if r.Some? {
        PatchedRecordIsPatchedHostel(c[k], patch);
        hostel := Some(FromRecord(r.value));
      } else {
        assert store.db == old(store.db)[EntityKey := c];
        hostel := None;
      }
    }

    /** `deleteHostel`: `db.remove` on the hostel collection. */
    method DeleteHostel(id: Id) returns (removed: bool)
      requires Valid()
      modifies store
      ensures var c := AfterInit(old(store.db), old(store.storage));
        removed == (IdKey(id) in c) && store.db == old(store.db)[EntityKey := c - {IdKey(id)}]
      ensures removed ==>
        store.storage == Db.Persist(StorageAfterInit(old(store.db), old(store.storage)), store.writable, EntityKey, store.db[EntityKey])
      ensures !removed ==> store.storage == StorageAfterInit(old(store.db), old(store.storage))
      ensures Valid()
    {
      ghost var db0, st0 := store.db, store.storage;
      Init();
      ghost var c := store.db[EntityKey];
      assert c == AfterInit(db0, st0);
      removed := store.Remove(EntityKey, id);
      Db.UpdateTwice(db0, EntityKey, c, c - {IdKey(id)});
    }

    /** `searchHostels`. */
    method SearchHostels(query: string) returns (hostels: seq<Hostel>, ghost order: seq<string>)
      requires Valid()
      modifies store
      ensures Initialized(old(store.db), old(store.storage))
      ensures Valid()
      ensures Db.IsEnumeration(order, Hostels())
      ensures hostels == Search(DecodeAll(Db.ValuesAt(Hostels(), order)), query)
    {
      var all;
      all, order := GetAllHostels();
      if Text.Trim(query) == [] {
        return all, order;
      }
      var lowerQuery := Text.ToLower(query);
      hostels := Filter(all, SearchMatcher(lowerQuery));
    }

    /** `getHostelsByCity`. */
    method GetHostelsByCity(city: string) returns (hostels: seq<Hostel>, ghost order: seq<string>)
      requires Valid()
      modifies store
      ensures Initialized(old(store.db), old(store.storage))
      ensures Valid()
      ensures Db.IsEnumeration(order, Hostels())
      ensures hostels == ByCity(DecodeAll(Db.ValuesAt(Hostels(), order)), city)
    {
      var all;
      all, order := GetAllHostels();
      hostels := Filter(all, CityMatcher(Text.ToLower(city)));
    }

    /** `getTotalCapacity`. */
    method GetTotalCapacity() returns (total: int, ghost order: seq<string>)
      requires Valid()
      modifies store
      ensures Initialized(old(store.db), old(store.storage))
      ensures Valid()
      ensures Db.IsEnumeration(order, Hostels())
      ensures total == TotalCapacity(DecodeAll(Db.ValuesAt(Hostels(), order)))
    {
      var all;
      all, order := GetAllHostels();
      total := Sum(all, Capacity);
    }
  }
}
