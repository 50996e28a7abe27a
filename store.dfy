/** The city store: the reducer state together with the `"cities"` slot of local
    storage, and the four operations `fetchCities`, `getCity`, `createCity` and
    `deleteCity` that dispatch events and read or overwrite the slot. */
module CitiesStore {
  import opened CityData
  import opened CitiesReducer

  // ---------------------------------------------------------------------------
  // The guard of getCity, `Number(id) === currentCity.id`, in JavaScript terms.
  // ---------------------------------------------------------------------------

  /** A JavaScript number as `Number(...)` can produce it from an identifier. */
  datatype JsNumber = NaN | Finite(value: int)

  /** The JavaScript values that meet in the guard. */
  datatype JsValue = Undefined | JsString(s: string) | JsNum(n: JsNumber)

  /** `a === b`: values of different types are never equal, and NaN equals nothing. */
  function StrictEquals(a: JsValue, b: JsValue): (r: bool)
    ensures r <==> a == b && a != JsNum(NaN)
  {
    match (a, b)
    case (Undefined, Undefined) => true
    case (JsString(x), JsString(y)) => x == y
    case (JsNum(Finite(x)), JsNum(Finite(y))) => x == y
    case _ => false
  }

  predicate IsDigits(s: string)
  {
    forall k :: 0 <= k < |s| ==> '0' <= s[k] <= '9'
  }

  /** The value of a string of decimal digits. */
  function DecimalValue(s: string): nat
    requires IsDigits(s)
  {
    if s == [] then 0
    else DecimalValue(s[..|s| - 1]) * 10 + (s[|s| - 1] as int - '0' as int)
  }

  /** `Number(s)` for strings of decimal digits (the empty string gives 0); every other
      string is taken to give NaN. */
  function NumberOf(s: string): (r: JsNumber)
    ensures r.Finite? <==> IsDigits(s)
    ensures s == "" ==> r == Finite(0)
    ensures r.Finite? ==> r.value >= 0
  {
    if IsDigits(s) then Finite(DecimalValue(s)) else NaN
  }

  /** `currentCity.id`: the selected city's string id, or `undefined` on `{}`. */
  function SelectedId(current: Option<City>): (r: JsValue)
    ensures r.Undefined? <==> current.None?
    ensures !r.JsNum?
  {
    match current
    case None => Undefined
    case Some(c) => JsString(c.id)
  }

  /** The early return of `getCity`: `Number(id) === currentCity.id`. */
  predicate GuardFires(id: string, current: Option<City>)
    ensures GuardFires(id, current) <==>
      exists n :: NumberOf(id) == Finite(n) && SelectedId(current) == JsNum(Finite(n))
  {
    StrictEquals(JsNum(NumberOf(id)), SelectedId(current))
  }

  /** A number is never strictly equal to a string or to `undefined`, and city ids are
      strings, so the early return of `getCity` is never taken. */
  lemma GuardNeverFires(id: string, current: Option<City>)
    ensures !GuardFires(id, current)
  {
  }

  // ---------------------------------------------------------------------------
  // The effect of each operation on the state and the storage slot.
  // ---------------------------------------------------------------------------

  /** The state together with the `"cities"` slot; `None` is an absent key. */
  datatype Snapshot = Snapshot(state: State, storage: Option<seq<City>>)

  const StorageErrorMessage := "Error loading city from local storage"
  const NotFoundMessage := "There was an error loading city..."

  /** The slot holds exactly the list the state holds. */
  predicate Synced(st: Snapshot)
  {
    st.storage == Some(st.state.cities)
  }

  /** Memory agrees with the slot: the slot holds the list, or it is absent and the list
      is empty. */
  predicate Consistent(st: Snapshot)
  {
    Synced(st) || (st.storage == None && st.state.cities == [])
  }

  /** `fetchCities`: an empty slot changes nothing, otherwise the stored list replaces
      `cities`. */
  function AfterFetch(st: Snapshot): Snapshot
  {
    match st.storage
    case None => st
    case Some(stored) => st.(state := st.state.(cities := stored, isLoading := false))
  }

  /** `getCity(id)`: select the first stored city with that id, or record why not. */
  function AfterGetCity(st: Snapshot, id: string): Snapshot
  {
    if GuardFires(id, st.state.currentCity) then st
    else match st.storage
      case None => st.(state := st.state.(isLoading := false, error := StorageErrorMessage))
      case Some(stored) =>
        match FindById(stored, id)
        case Some(c) => st.(state := st.state.(isLoading := false, currentCity := Some(c)))
        case None => st.(state := st.state.(isLoading := false, error := NotFoundMessage))
  }

  /** `createCity(newCity)` with the generated id passed in: append and select the new
      city, and write the list with it to the slot. */
  function AfterCreate(st: Snapshot, newCity: map<string, Json>, generatedId: string): Snapshot
  {
    var c := WithId(newCity, generatedId);
    var updated := st.state.cities + [c];
    Snapshot(st.state.(cities := updated, isLoading := false, currentCity := Some(c)), Some(updated))
  }

  /** `deleteCity(id)`: drop the cities with that id, clear the selection, and write the
      remaining list to the slot. */
  function AfterDelete(st: Snapshot, id: string): Snapshot
  {
    var updated := RemoveId(st.state.cities, id);
    Snapshot(st.state.(cities := updated, isLoading := false, currentCity := None), Some(updated))
  }

  // ---------------------------------------------------------------------------
  // The store object.
  // ---------------------------------------------------------------------------

  /** The provider's state (`useReducer`) and the local storage slot it keeps in step. */
  class CityStore {
    var state: State
    var storage: Option<seq<City>>

    function View(): Snapshot
      reads this
    {
      Snapshot(state, storage)
    }

    /** A store in `initialState` over whatever the slot already holds. */
    constructor (stored: Option<seq<City>>)
      ensures state == InitialState && storage == stored
    {
      state := InitialState;
      storage := stored;
    }

    /** The mount effect: read the slot; if it holds a list, dispatch `"loading"` and then
        `"cities/loaded"` with it. */
    method FetchCities()
      modifies this
      ensures storage == old(storage)
      ensures View() == AfterFetch(old(View()))
    {
      var localStorageCities := storage;
      if localStorageCities.Some? {
        state := Reduce(state, Loading);
        state := Reduce(state, CitiesLoaded(localStorageCities.value));
      }
    }

    /** Dispatch `"loading"`, then `"city/loaded"` with the first stored city whose id is
        `id`, or `"rejected"` when the slot is empty (reading it throws) or has no such city. */
    method GetCity(id: string)
      modifies this
      ensures storage == old(storage) && state.cities == old(state.cities)
      ensures View() == AfterGetCity(old(View()), id)
    {
      if GuardFires(id, state.currentCity) {
        return;
      }
      state := Reduce(state, Loading);
      match storage
      case None =>
        state := Reduce(state, Rejected(StorageErrorMessage));
      case Some(localStorageCities) =>
        var selectedCity := FindById(localStorageCities, id);
        match selectedCity
        case Some(c) =>
          state := Reduce(state, CityLoaded(c));
        case None =>
          state := Reduce(state, Rejected(NotFoundMessage));
    }

    /** Attach the generated id, dispatch `"loading"` and `"city/created"`, and write the
        list as it was at the call plus the new city to the slot. */
    method CreateCity(newCity: map<string, Json>, generatedId: string)
      modifies this
      ensures storage == Some(old(state.cities) + [WithId(newCity, generatedId)])
      ensures Synced(View())
      ensures View() == AfterCreate(old(View()), newCity, generatedId)
    {
      var cities := state.cities;
      var cityWithId := WithId(newCity, generatedId);
      state := Reduce(state, Loading);
      state := Reduce(state, CityCreated(cityWithId));
      var updatedCities := cities + [cityWithId];
      storage := Some(updatedCities);
    }

    /** Dispatch `"loading"` and `"city/deleted"`, and write the list as it was at the call,
        without the cities with that id, to the slot. */
    method DeleteCity(id: string)
      modifies this
      ensures storage == Some(RemoveId(old(state.cities), id))
      ensures Synced(View())
      ensures View() == AfterDelete(old(View()), id)
    {
      var cities := state.cities;
      state := Reduce(state, Loading);
      state := Reduce(state, CityDeleted(id));
      var updatedCities := RemoveId(cities, id);
      storage := Some(updatedCities);
    }
  }

  // ---------------------------------------------------------------------------
  // Properties of the operations.
  // ---------------------------------------------------------------------------

  /** On the initial state an empty slot makes `fetchCities` a no-op; a stored list ends
      up in `cities`, with loading over and the selection and error untouched. */
  lemma FetchOutcomes(st: Snapshot)
    ensures st.storage == None ==> AfterFetch(st) == st
    ensures st.storage.Some? ==>
      && AfterFetch(st).state == st.state.(cities := st.storage.value, isLoading := false)
      && Synced(AfterFetch(st))
    ensures AfterFetch(st).storage == st.storage
  {
  }

  /** The early return and the two failing outcomes of `getCity`; none of its outcomes touches `cities` or
      the slot. */
  lemma GetCityOutcomes(st: Snapshot, id: string)
    ensures var r := AfterGetCity(st, id);
      r.storage == st.storage && r.state.cities == st.state.cities
    ensures GuardFires(id, st.state.currentCity) ==> AfterGetCity(st, id) == st
    ensures !GuardFires(id, st.state.currentCity) && st.storage == None ==>
      AfterGetCity(st, id).state == st.state.(isLoading := false, error := StorageErrorMessage)
    ensures
      (&& !GuardFires(id, st.state.currentCity)
       && st.storage.Some?
       && forall k :: 0 <= k < |st.storage.value| ==> st.storage.value[k].id != id)
      ==> AfterGetCity(st, id).state == st.state.(isLoading := false, error := NotFoundMessage)
  {
  }

  /** The successful outcome of `getCity`: with `k` the first position of the slot holding
      a city with that id, that city is selected and loading is over. */
  lemma GetCitySelectsFirstMatch(st: Snapshot, id: string, k: nat)
    requires st.storage.Some? && k < |st.storage.value| && st.storage.value[k].id == id
    requires forall j :: 0 <= j < k ==> st.storage.value[j].id != id
    ensures AfterGetCity(st, id).state ==
      st.state.(isLoading := false, currentCity := Some(st.storage.value[k]))
  {
  }

  /** Calling `getCity` twice with the same id ends in the same state as calling it once:
      the second lookup finds what the first one found. */
  lemma GetCityIdempotent(st: Snapshot, id: string)
    ensures AfterGetCity(AfterGetCity(st, id), id) == AfterGetCity(st, id)
  {
  }

  /** Re-selecting the selected city, when it is the first city of the slot with its id
      (at position `k`), reloads it and ends with the same selection; the early return is
      not what achieves this. */
  lemma ReselectKeepsSelection(st: Snapshot, c: City, k: nat)
    requires st.state.currentCity == Some(c)
    requires st.storage.Some? && k < |st.storage.value| && st.storage.value[k] == c
    requires forall j :: 0 <= j < k ==> st.storage.value[j].id != c.id
    ensures AfterGetCity(st, c.id).state == st.state.(isLoading := false)
  {
    GetCitySelectsFirstMatch(st, c.id, k);
  }

  /** `createCity` appends the caller's city, with the generated id, as the last element
      and selects it; the slot holds the new list whatever it held before. */
  lemma CreateAppends(st: Snapshot, newCity: map<string, Json>, generatedId: string)
    ensures var r := AfterCreate(st, newCity, generatedId);
      && |r.state.cities| == |st.state.cities| + 1
      && r.state.cities[..|st.state.cities|] == st.state.cities
      && r.state.cities[|st.state.cities|] == WithId(newCity, generatedId)
      && r.state.cities[|st.state.cities|].id == generatedId
      && AsObject(r.state.cities[|st.state.cities|]) == newCity["id" := JString(generatedId)]
      && r.state.currentCity == Some(r.state.cities[|st.state.cities|])
      && !r.state.isLoading && r.state.error == st.state.error
      && Synced(r)
  {
  }

  /** No uniqueness check is made: creating a city under an id the list already has
      leaves two cities with that id. */
  lemma CreateCanDuplicateId(st: Snapshot, newCity: map<string, Json>, generatedId: string)
    requires exists k :: 0 <= k < |st.state.cities| && st.state.cities[k].id == generatedId
    ensures !UniqueIds(AfterCreate(st, newCity, generatedId).state.cities)
  {
    var cities := AfterCreate(st, newCity, generatedId).state.cities;
    var k :| 0 <= k < |st.state.cities| && st.state.cities[k].id == generatedId;
    assert cities[k].id == cities[|st.state.cities|].id;
  }

  /** `deleteCity` keeps exactly the cities with a different id, in order, clears the
      selection, and leaves the slot holding the same list. */
  lemma DeleteFilters(st: Snapshot, id: string)
    ensures var r := AfterDelete(st, id);
      && IsSubsequence(r.state.cities, st.state.cities)
      && (forall k :: 0 <= k < |r.state.cities| ==> r.state.cities[k].id != id)
      && (forall c :: multiset(r.state.cities)[c] ==
            if c.id == id then 0 else multiset(st.state.cities)[c])
      && r.state.currentCity == None && !r.state.isLoading && r.state.error == st.state.error
      && Synced(r)
  {
    RemoveIdKeepsOthers(st.state.cities, id);
  }

  /** Deleting the same id twice ends where deleting it once does. */
  lemma DeleteIdempotent(st: Snapshot, id: string)
    ensures AfterDelete(AfterDelete(st, id), id) == AfterDelete(st, id)
  {
    RemoveIdIdempotent(st.state.cities, id);
  }

  /** Deleting a city just created under a fresh id restores the list, in memory and in
      the slot. */
  lemma DeleteUndoesCreate(st: Snapshot, newCity: map<string, Json>, generatedId: string)
    requires forall k :: 0 <= k < |st.state.cities| ==> st.state.cities[k].id != generatedId
    ensures var r := AfterDelete(AfterCreate(st, newCity, generatedId), generatedId);
      r.state.cities == st.state.cities && r.storage == Some(st.state.cities)
  {
    var c := WithId(newCity, generatedId);
    RemoveIdAppend(st.state.cities, [c], generatedId);
    RemoveIdAbsent(st.state.cities, generatedId);
    assert RemoveId([c], generatedId) == [];
  }

  /** The operations in the order a user invokes them. */
  datatype Operation =
    | Fetch
    | Get(id: string)
    | Create(newCity: map<string, Json>, generatedId: string)
    | Delete(id: string)

  function Perform(st: Snapshot, op: Operation): Snapshot
  {
    match op
    case Fetch => AfterFetch(st)
    case Get(id) => AfterGetCity(st, id)
    case Create(newCity, generatedId) => AfterCreate(st, newCity, generatedId)
    case Delete(id) => AfterDelete(st, id)
  }

  function PerformAll(st: Snapshot, ops: seq<Operation>): Snapshot
    decreases |ops|
  {
    if ops == [] then st else PerformAll(Perform(st, ops[0]), ops[1..])
  }

  /** A store as it stands once mounted: the initial state, after `fetchCities` has read
      whatever the slot held. */
  function Mounted(stored: Option<seq<City>>): Snapshot
  {
    AfterFetch(Snapshot(InitialState, stored))
  }

  /** The invariant of a mounted store: nothing is loading, memory agrees with the slot,
      and the error is empty or one of the two messages of `getCity`. */
  predicate Settled(st: Snapshot)
  {
    && !st.state.isLoading
    && Consistent(st)
    && st.state.error in {"", StorageErrorMessage, NotFoundMessage}
  }

  lemma MountedIsSettled(stored: Option<seq<City>>)
    ensures Settled(Mounted(stored))
    ensures Mounted(stored).state.error == "" && Mounted(stored).state.currentCity == None
  {
  }

  /** Each operation keeps a mounted store settled; `createCity` and `deleteCity` leave
      the slot holding exactly `cities`. */
  lemma PerformKeepsSettled(st: Snapshot, op: Operation)
    requires Settled(st)
    ensures Settled(Perform(st, op))
    ensures (op.Create? || op.Delete?) ==> Synced(Perform(st, op))
    ensures Synced(st) ==> Synced(Perform(st, op))
  {
  }

  /** From mounting on, through any sequence of operations, the store is settled; once
      the slot holds the list it keeps holding exactly `cities`. */
  lemma {:induction false} PerformAllKeepsSettled(st: Snapshot, ops: seq<Operation>)
    requires Settled(st)
    ensures Settled(PerformAll(st, ops))
    ensures Synced(st) ==> Synced(PerformAll(st, ops))
    decreases |ops|
  {
    if ops != [] {
      PerformKeepsSettled(st, ops[0]);
      PerformAllKeepsSettled(Perform(st, ops[0]), ops[1..]);
    }
  }

  /** No operation clears an error once one is recorded. */
  lemma {:induction false} PerformAllKeepsError(st: Snapshot, ops: seq<Operation>)
    requires st.state.error != ""
    ensures PerformAll(st, ops).state.error != ""
    decreases |ops|
  {
    if ops != [] {
      PerformAllKeepsError(Perform(st, ops[0]), ops[1..]);
    }
  }
}
