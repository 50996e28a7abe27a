/** The store's state and the pure transition function (`reducer`) that every
    operation of the store drives with tagged events. */
module CitiesReducer {
  import opened CityData

  /** The four-field store state. `currentCity` is `None` where the source holds `{}`,
      and `error` is `""` when there is no error. */
  datatype State = State(cities: seq<City>, isLoading: bool, currentCity: Option<City>, error: string)

  /** `initialState`: no cities, not loading, nothing selected, no error. */
  const InitialState := State([], false, None, "")

  /** The initial state holds no city, is not loading, selects nothing and has no error;
      from it, any run of events ends with the last rejection's message as its error. */
  lemma InitialStateIsEmpty(actions: seq<Action>)
    ensures InitialState.cities == [] && !InitialState.isLoading
    ensures InitialState.currentCity == None && InitialState.error == ""
    ensures Run(InitialState, actions).error == LastRejection(actions, "")
  {
    RunErrorIsLastRejection(InitialState, actions);
  }

  /** The six events the reducer accepts. An event of any other type, which the source
      rejects by throwing, cannot be written down here. */
  datatype Action =
    | Loading
    | CitiesLoaded(loaded: seq<City>)
    | CityLoaded(city: City)
    | CityCreated(created: City)
    | CityDeleted(id: string)
    | Rejected(message: string)

  /** The names of the four state fields. */
  datatype Field = CityList | LoadingFlag | Selection | LastError

  /** The fields each event may rewrite: the keys written after `...state` in its case. */
  function Writes(a: Action): (fields: set<Field>)
    ensures LoadingFlag in fields
    ensures fields == {LoadingFlag} <==> a.Loading?
    ensures LastError in fields <==> a.Rejected?
    ensures CityList in fields <==> a.CitiesLoaded? || a.CityCreated? || a.CityDeleted?
    ensures Selection in fields <==> a.CityLoaded? || a.CityCreated? || a.CityDeleted?
  {
    match a
    case Loading => {LoadingFlag}
    case CitiesLoaded(_) => {LoadingFlag, CityList}
    case CityLoaded(_) => {LoadingFlag, Selection}
    case CityCreated(_) => {LoadingFlag, CityList, Selection}
    case CityDeleted(_) => {LoadingFlag, CityList, Selection}
    case Rejected(_) => {LoadingFlag, LastError}
  }

  /** The fields in which two states differ. */
  function Changed(s: State, t: State): set<Field>
  {
    (if s.cities != t.cities then {CityList} else {}) +
    (if s.isLoading != t.isLoading then {LoadingFlag} else {}) +
    (if s.currentCity != t.currentCity then {Selection} else {}) +
    (if s.error != t.error then {LastError} else {})
  }

  /** `reducer(state, action)`. Every event changes only the fields it names; only
      `"loading"` leaves the store loading; each event's payload lands where it says. */
  function Reduce(s: State, a: Action): (r: State)
    ensures Changed(s, r) <= Writes(a)
    ensures r.isLoading <==> a.Loading?
    ensures a.CitiesLoaded? ==> r.cities == a.loaded
    ensures a.CityLoaded? ==> r.currentCity == Some(a.city)
    ensures a.CityCreated? ==>
      && |r.cities| == |s.cities| + 1
      && r.cities[..|s.cities|] == s.cities
      && r.cities[|s.cities|] == a.created
      && r.currentCity == Some(a.created)
    ensures a.CityDeleted? ==> r.cities == RemoveId(s.cities, a.id) && r.currentCity == None
    ensures a.Rejected? ==> r.error == a.message
  {
    match a
    case Loading => s.(isLoading := true)
    case CitiesLoaded(loaded) => s.(isLoading := false, cities := loaded)
    case CityLoaded(city) => s.(isLoading := false, currentCity := Some(city))
    case CityCreated(created) =>
      s.(isLoading := false, cities := s.cities + [created], currentCity := Some(created))
    case CityDeleted(id) => s.(isLoading := false, cities := RemoveId(s.cities, id), currentCity := None)
    case Rejected(message) => s.(isLoading := false, error := message)
  }

  /** `"city/deleted"` keeps exactly the cities whose id differs from the payload, each as
      often as before and in the original order, and clears the selection. */
  lemma DeletedIsFilter(s: State, id: string)
    ensures var r := Reduce(s, CityDeleted(id));
      && r.currentCity == None
      && IsSubsequence(r.cities, s.cities)
      && (forall k :: 0 <= k < |r.cities| ==> r.cities[k].id != id)
      && (forall c :: multiset(r.cities)[c] == if c.id == id then 0 else multiset(s.cities)[c])
  {
    RemoveIdKeepsOthers(s.cities, id);
  }

  /** `"city/deleted"` for an id no city has leaves `cities` as it was. */
  lemma DeletedAbsentKeepsCities(s: State, id: string)
    requires forall k :: 0 <= k < |s.cities| ==> s.cities[k].id != id
    ensures Reduce(s, CityDeleted(id)).cities == s.cities
  {
    RemoveIdAbsent(s.cities, id);
  }

  /** `"city/deleted"` applied twice gives the same state as applied once. */
  lemma DeletedTwiceIsOnce(s: State, id: string)
    ensures Reduce(Reduce(s, CityDeleted(id)), CityDeleted(id)) == Reduce(s, CityDeleted(id))
  {
    RemoveIdIdempotent(s.cities, id);
  }

  /** The state after the events are dispatched one after another. */
  function Run(s: State, actions: seq<Action>): State
    decreases |actions|
  {
    if actions == [] then s else Run(Reduce(s, actions[0]), actions[1..])
  }

  /** The message of the last `"rejected"` event of the list, or `before` if there is none. */
  function LastRejection(actions: seq<Action>, before: string): string
  {
    if actions == [] then before
    else match actions[|actions| - 1]
      case Rejected(message) => message
      case _ => LastRejection(actions[..|actions| - 1], before)
  }

  lemma {:induction false} LastRejectionCons(a: Action, rest: seq<Action>, before: string)
    ensures LastRejection([a] + rest, before) ==
      LastRejection(rest, if a.Rejected? then a.message else before)
  {
    if rest != [] {
      var all := [a] + rest;
      assert all[|all| - 1] == rest[|rest| - 1];
      assert all[..|all| - 1] == [a] + rest[..|rest| - 1];
      LastRejectionCons(a, rest[..|rest| - 1], before);
    } else {
      assert [a] + rest == [a];
      assert [a][..0] == [];
    }
  }

  /** `"rejected"` is the only event that sets `error`: after any run of events the
      error is the message of the last rejection, or the error the run started with. */
  lemma {:induction false} RunErrorIsLastRejection(s: State, actions: seq<Action>)
    ensures Run(s, actions).error == LastRejection(actions, s.error)
    decreases |actions|
  {
    if actions != [] {
      RunErrorIsLastRejection(Reduce(s, actions[0]), actions[1..]);
      LastRejectionCons(actions[0], actions[1..], s.error);
      assert [actions[0]] + actions[1..] == actions;
    }
  }

  /** No event clears an error: once `error` is set, it stays non-empty through any run
      of events whose rejections carry non-empty messages. */
  lemma {:induction false} ErrorNeverCleared(s: State, actions: seq<Action>)
    requires s.error != ""
    requires forall k :: 0 <= k < |actions| ==> actions[k].Rejected? ==> actions[k].message != ""
    ensures Run(s, actions).error != ""
    decreases |actions|
  {
    if actions != [] {
      assert actions[0].Rejected? ==> actions[0].message != "";
      ErrorNeverCleared(Reduce(s, actions[0]), actions[1..]);
    }
  }
}
