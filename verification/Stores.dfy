/** The store registry as a value: stores by id, and an index from address keys to ids. */
module Stores {
  import opened Common
  import opened StoreTypes
  import opened IdSets

  const LAST_GENERATION: nat := U64_LIMIT - 1
  const COLON: Byte := 58
  const ZERO_DIGIT: Byte := 48

  // ---------------------------------------------------------------- address keys

  /** `std::to_string`. */
  function Decimal(n: nat): (digits: Bytes)
    ensures digits != [] && COLON !in digits
  {
    if n < 10 then [ZERO_DIGIT + n] else Decimal(n / 10) + [ZERO_DIGIT + n % 10]
  }

  function AddressKey(a: StoreAddress): Bytes {
    a.host + [COLON] + Decimal(a.port)
  }

  lemma {:induction false} DecimalInjective(m: nat, n: nat)
    requires Decimal(m) == Decimal(n)
    ensures m == n
  {
    var a, b := Decimal(m), Decimal(n);
    assert a[|a| - 1] == b[|b| - 1];
    if m >= 10 && n >= 10 {
      assert a[..|a| - 1] == Decimal(m / 10) && b[..|b| - 1] == Decimal(n / 10);
      DecimalInjective(m / 10, n / 10);
    }
  }

  /** Different addresses have different keys, whatever colons and digits the host contains. */
  lemma AddressKeyInjective(a: StoreAddress, b: StoreAddress)
    requires AddressKey(a) == AddressKey(b)
    ensures a == b
  {
    hide Decimal;
    var da, db, key := Decimal(a.port), Decimal(b.port), AddressKey(a);
    var at, bt := |key| - |da| - 1, |key| - |db| - 1;
    assert key[at] == COLON && key[bt] == COLON;
    assert key[at + 1..] == da && key[bt + 1..] == db;
    assert at == bt;
    assert key[..at] == a.host && key[..bt] == b.host;
    DecimalInjective(a.port, b.port);
  }

  // ---------------------------------------------------------------- operations

  predicate ValidAddress(a: StoreAddress) {
    0 < |a.host| <= MAX_HOST_BYTES && a.port != 0
  }

  /** `ValidateStoreFields`. */
  predicate ValidStore(s: StoreInfo) {
    && s.id != 0 && ValidAddress(s.address) && s.capacity != 0 && s.used <= s.capacity
    && s.state <= STORE_FAILED && s.generation != 0
  }

  datatype Registry = Registry(stores: map<StoreId, StoreInfo>, index: map<Bytes, StoreId>) {
    /** The index has exactly the keys of the registered addresses. */
    ghost predicate Consistent() {
      && (forall id :: id in stores ==>
            && stores[id].id == id && ValidStore(stores[id])
            && AddressKey(stores[id].address) in index && index[AddressKey(stores[id].address)] == id)
      && (forall key :: key in index ==> index[key] in stores && AddressKey(stores[index[key]].address) == key)
    }

    function Register(store: StoreInfo): (Status, Registry, Option<StoreInfo>) {
      var s := store.(state := STORE_RUNNING, generation := 1);
      if !ValidStore(s) || s.heartbeat < 0 then (InvalidArgument, this, None)
      else if s.id in stores || AddressKey(s.address) in index then (Busy, this, None)
      else (Ok, Registry(stores[s.id := s], index[AddressKey(s.address) := s.id]), Some(s))
    }

    function Updated(s: StoreInfo, u: StoreUpdate): StoreInfo {
      s.(capacity := if u.capacity.Some? then u.capacity.value else s.capacity,
         used := if u.used.Some? then u.used.value else s.used,
         state := if u.state.Some? then u.state.value else s.state,
         generation := s.generation + 1)
    }

    function Update(u: StoreUpdate): (Status, Registry, Option<StoreInfo>) {
      if u.id == 0 then (InvalidArgument, this, None)
      else if u.id !in stores then (NotFound, this, None)
      else if u.capacity.None? && u.used.None? && u.state.None? then (InvalidArgument, this, None)
      else
        var s := stores[u.id];
        if u.expected.Some? && u.expected.value != s.generation then (Busy, this, None)
        else if s.generation == LAST_GENERATION then (Busy, this, None)
        else if !ValidStore(Updated(s, u)) then (InvalidArgument, this, None)
        else (Ok, this.(stores := stores[u.id := Updated(s, u)]), Some(Updated(s, u)))
    }

    function Heartbeat(id: StoreId, ms: int): (Status, Registry) {
      if id == 0 || ms < 0 then (InvalidArgument, this)
      else if id !in stores then (NotFound, this)
      else (Ok, this.(stores := stores[id := stores[id].(heartbeat := ms)]))
    }

    function Remove(id: StoreId): (Status, Registry) {
      if id == 0 then (InvalidArgument, this)
      else if id !in stores then (NotFound, this)
      else (Ok, Registry(stores - {id}, index - {AddressKey(stores[id].address)}))
    }

    function Get(id: StoreId): Result<StoreInfo> {
      if id == 0 then Failure(InvalidArgument)
      else if id !in stores then Failure(NotFound)
      else Success(stores[id])
    }

    function GetByAddress(a: StoreAddress): Result<StoreInfo> {
      if !ValidAddress(a) then Failure(InvalidArgument)
      else if AddressKey(a) !in index then Failure(NotFound)
      else if index[AddressKey(a)] !in stores then Failure(InternalError)
      else Success(stores[index[AddressKey(a)]])
    }

    /** Every store without its heartbeat, by ascending id. */
    ghost function Export(): seq<StoreInfo> {
      Persistent(Listing(stores.Keys))
    }

    ghost function Persistent(ids: seq<StoreId>): (list: seq<StoreInfo>)
      requires forall id :: id in ids ==> id in stores
      ensures |list| == |ids|
      ensures forall k :: 0 <= k < |ids| ==> list[k] == stores[ids[k]].(heartbeat := 0)
    {
      if ids == [] then [] else [stores[ids[0]].(heartbeat := 0)] + Persistent(ids[1..])
    }

    /** The registry without its heartbeats. */
    ghost function Forget(): Registry {
      this.(stores := map id | id in stores :: stores[id].(heartbeat := 0))
    }
  }

  const NO_STORES := Registry(map[], map[])

  function RestoreOne(r: Registry, store: StoreInfo): (Status, Registry) {
    var s := store.(heartbeat := 0);
    if !ValidStore(s) then (InvalidArgument, r)
    else if s.id in r.stores || AddressKey(s.address) in r.index then (Busy, r)
    else (Ok, Registry(r.stores[s.id := s], r.index[AddressKey(s.address) := s.id]))
  }

  function RestoreFrom(r: Registry, list: seq<StoreInfo>): Result<Registry>
    decreases |list|
  {
    if list == [] then Success(r) else
    var (status, next) := RestoreOne(r, list[0]);
    if status != Ok then Failure(status) else RestoreFrom(next, list[1..])
  }

  function Restore(list: seq<StoreInfo>): Result<Registry> {
    RestoreFrom(NO_STORES, list)
  }

  lemma {:induction false} RestoredConsistent(r: Registry, list: seq<StoreInfo>)
    requires r.Consistent()
    ensures RestoreFrom(r, list).Success? ==> RestoreFrom(r, list).value.Consistent()
    decreases |list|
  {
    hide Decimal, AddressKey, ValidAddress;
    if list != [] {
      RestoreOneConsistent(r, list[0]);
      RestoredConsistent(RestoreOne(r, list[0]).1, list[1..]);
    }
  }

  lemma RestoreOneConsistent(r: Registry, store: StoreInfo)
    requires r.Consistent()
    ensures RestoreOne(r, store).1.Consistent()
  {
    hide Decimal, AddressKey, ValidAddress;
  }

  // ---------------------------------------------------------------- the index stays exact

  lemma RegisterFacts(r: Registry, store: StoreInfo)
    requires r.Consistent()
    ensures r.Register(store).1.Consistent()
  {
    hide Decimal, AddressKey;
  }

  lemma UpdateFacts(r: Registry, u: StoreUpdate)
    requires r.Consistent()
    ensures r.Update(u).1.Consistent()
  {
    hide Decimal, AddressKey;
  }

  lemma HeartbeatFacts(r: Registry, id: StoreId, ms: int)
    requires r.Consistent()
    ensures r.Heartbeat(id, ms).1.Consistent()
    ensures r.Heartbeat(id, ms).1.Forget() == r.Forget()
  {
    hide Decimal, AddressKey, ValidAddress;
    HeartbeatForgotten(r, id, ms);
    hide Registry.Forget;
  }

  lemma HeartbeatForgotten(r: Registry, id: StoreId, ms: int)
    ensures r.Heartbeat(id, ms).1.Forget() == r.Forget()
  {
  }

  lemma RemoveFacts(r: Registry, id: StoreId)
    requires r.Consistent()
    ensures r.Remove(id).1.Consistent()
  {
    hide Decimal, AddressKey;
  }

  /** No two stores share an address. */
  lemma OneStorePerAddress(r: Registry, a: StoreId, b: StoreId)
    requires r.Consistent() && a in r.stores && b in r.stores && r.stores[a].address == r.stores[b].address
    ensures a == b
  {
    hide Decimal, AddressKey;
  }

  /** Looking up an address finds exactly the store registered under it; the index is never inconsistent. */
  lemma LookupIsExact(r: Registry, a: StoreAddress)
    requires r.Consistent() && ValidAddress(a)
    ensures r.GetByAddress(a).Success? <==> exists id :: id in r.stores && r.stores[id].address == a
    ensures r.GetByAddress(a).Success? ==>
              var s := r.GetByAddress(a).value; s.address == a && s.id in r.stores && r.stores[s.id] == s
    ensures r.GetByAddress(a).Failure? ==> r.GetByAddress(a).error == NotFound
  {
    hide Decimal, AddressKey;
    if AddressKey(a) in r.index {
      AddressKeyInjective(r.stores[r.index[AddressKey(a)]].address, a);
    }
  }

  // ---------------------------------------------------------------- what each operation does

  /** Some registered store has the address. */
  ghost predicate AddressTaken(r: Registry, a: StoreAddress) {
    exists id :: id in r.stores && r.stores[id].address == a
  }

  lemma KeyIffTaken(r: Registry, a: StoreAddress)
    requires r.Consistent()
    ensures AddressKey(a) in r.index <==> AddressTaken(r, a)
  {
    hide Decimal, AddressKey;
    if AddressKey(a) in r.index {
      AddressKeyInjective(r.stores[r.index[AddressKey(a)]].address, a);
    }
  }

  /** The size a store reports is positive and not exceeded. */
  predicate GoodSize(capacity: nat, used: nat) {
    0 < capacity && used <= capacity
  }

  /**
   A store is registered if and only if it is well-formed and neither its id nor its address is taken; it then
   runs in its first generation, can be found by its address, and no other store has changed.
   */
  lemma RegisterOutcome(r: Registry, store: StoreInfo)
    requires r.Consistent()
    ensures var (status, after, given) := r.Register(store);
            && (status == Ok <==> && store.id != 0 && ValidAddress(store.address) && GoodSize(store.capacity, store.used)
                                  && store.heartbeat >= 0 && store.id !in r.stores && !AddressTaken(r, store.address))
            && (status != Ok ==> after == r)
            && (status == Busy ==> store.id in r.stores || AddressTaken(r, store.address))
            && (status == InvalidArgument <==>
                  || store.id == 0 || !ValidAddress(store.address) || !GoodSize(store.capacity, store.used)
                  || store.heartbeat < 0)
            && status in {Ok, InvalidArgument, Busy}
            && (status == Ok ==>
                  && after.stores == r.stores[store.id := store.(state := STORE_RUNNING, generation := 1)]
                  && given == Some(after.stores[store.id])
                  && after.GetByAddress(store.address) == Success(after.stores[store.id]))
  {
    KeyIffTaken(r, store.address);
    hide Decimal, AddressKey, ValidAddress, Registry.Consistent, AddressTaken;
  }

  /**
   An update is taken if and only if the store is known, something is to change, the expected generation is
   the current one and what results is well-formed; exactly the given fields and the generation change.
   */
  lemma UpdateOutcome(r: Registry, u: StoreUpdate)
    requires r.Consistent()
    ensures var (status, after, given) := r.Update(u);
            && (status == Ok ==> u.id in r.stores)
            && (u.id in r.stores ==>
                  var s := r.stores[u.id];
                  var capacity := if u.capacity.Some? then u.capacity.value else s.capacity;
                  var used := if u.used.Some? then u.used.value else s.used;
                  var state := if u.state.Some? then u.state.value else s.state;
                  && (status == Ok <==> && (u.capacity.Some? || u.used.Some? || u.state.Some?)
                                        && (u.expected.Some? ==> u.expected.value == s.generation)
                                        && s.generation != LAST_GENERATION
                                        && GoodSize(capacity, used) && state <= STORE_FAILED)
                  && (status == Ok ==>
                        && after.stores == r.stores[u.id := StoreInfo(s.id, s.address, capacity, used, state,
                                                                      s.generation + 1, s.heartbeat)]
                        && given == Some(after.stores[u.id]) && after.index == r.index)
                  && (status == Busy <==>
                        && (u.capacity.Some? || u.used.Some? || u.state.Some?)
                        && ((u.expected.Some? && u.expected.value != s.generation) || s.generation == LAST_GENERATION)))
            && (status != Ok ==> after == r)
            && (status == NotFound <==> u.id != 0 && u.id !in r.stores)
            && status in {Ok, InvalidArgument, NotFound, Busy}
  {
    hide Decimal, AddressKey, ValidAddress;
  }

  /** A removed store can be found neither by its id nor by its address, which is free again; the others stay. */
  lemma RemoveOutcome(r: Registry, id: StoreId)
    requires r.Consistent()
    ensures var (status, after) := r.Remove(id);
            && (status == Ok <==> id in r.stores)
            && (status != Ok ==> after == r && status == if id == 0 then InvalidArgument else NotFound)
            && (status == Ok ==>
                  && after.stores == r.stores - {id}
                  && after.Get(id) == Failure(NotFound) && !AddressTaken(after, r.stores[id].address)
                  && after.GetByAddress(r.stores[id].address) == Failure(NotFound)
                  && forall other :: other in after.stores ==>
                       after.GetByAddress(after.stores[other].address) == Success(after.stores[other]))
  {
    hide Decimal, AddressKey;
    RemoveFacts(r, id);
    if id in r.stores {
      var after := r.Remove(id).1;
      forall other | other in after.stores && after.stores[other].address == r.stores[id].address ensures false
      {
        OneStorePerAddress(r, other, id);
      }
    }
  }

  /** A heartbeat sets the time of one store and nothing else. */
  lemma HeartbeatOutcome(r: Registry, id: StoreId, ms: int)
    requires r.Consistent()
    ensures var (status, after) := r.Heartbeat(id, ms);
            && (status == Ok <==> id in r.stores && ms >= 0)
            && after == if status == Ok then r.(stores := r.stores[id := r.stores[id].(heartbeat := ms)]) else r
  {
    hide Decimal, AddressKey, ValidAddress;
  }

  // ---------------------------------------------------------------- restoring an export

  /** The part of a registry with some of the ids, without heartbeats. */
  ghost function Part(r: Registry, ids: set<StoreId>): Registry
    requires ids <= r.stores.Keys
  {
    Registry(map id | id in ids :: r.stores[id].(heartbeat := 0),
             map key | key in r.index && r.index[key] in ids :: r.index[key])
  }

  lemma PartGrows(r: Registry, ids: set<StoreId>, id: StoreId)
    requires r.Consistent() && ids <= r.stores.Keys && id in r.stores && id !in ids
    ensures RestoreOne(Part(r, ids), r.stores[id].(heartbeat := 0)) == (Ok, Part(r, ids + {id}))
  {
    hide Decimal, AddressKey;
    var s := r.stores[id].(heartbeat := 0);
    var key := AddressKey(s.address);
    assert r.index[key] == id;
    var grown := Part(r, ids + {id});
    assert Part(r, ids).stores[id := s] == grown.stores;
    assert Part(r, ids).index[key := id] == grown.index;
  }

  lemma {:induction false} RestorePart(r: Registry, done: set<StoreId>, ids: seq<StoreId>)
    requires r.Consistent() && done <= r.stores.Keys && IdSets.Distinct(ids)
    requires forall id :: id in ids ==> id in r.stores && id !in done
    ensures RestoreFrom(Part(r, done), r.Persistent(ids)) == Success(Part(r, done + SetOf(ids)))
    decreases |ids|
  {
    hide Registry.Consistent, Part, RestoreOne;
    if ids == [] {
      assert done + SetOf(ids) == done;
    } else {
      assert ids == [ids[0]] + ids[1..];
      assert r.Persistent(ids)[1..] == r.Persistent(ids[1..]);
      PartGrows(r, done, ids[0]);
      RestorePart(r, done + {ids[0]}, ids[1..]);
      assert done + {ids[0]} + SetOf(ids[1..]) == done + SetOf(ids);
    }
  }

  /** Restoring an export gives back the registry, heartbeats aside. */
  lemma RestoreExport(r: Registry)
    requires r.Consistent()
    ensures Restore(r.Export()) == Success(r.Forget())
  {
    ListingFacts(r.stores.Keys);
    WholePart(r);
    assert Part(r, {}) == NO_STORES;
    hide Listing, Registry.Consistent, Part;
    RestorePart(r, {}, Listing(r.stores.Keys));
    assert {} + r.stores.Keys == r.stores.Keys;
  }

  lemma WholePart(r: Registry)
    requires r.Consistent()
    ensures Part(r, r.stores.Keys) == r.Forget()
  {
    hide AddressKey;
  }
}
