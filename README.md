# City store of a travel-journal app, modelled in Dafny

The web app keeps a list of visited cities in a React context,
`src/contexts/CitiesContext.jsx`. That file has two layers:

- a pure reducer over a four-field state (`cities`, `isLoading`, `currentCity`,
  `error`) that handles six tagged events;
- four store operations (`fetchCities`, `getCity`, `createCity`, `deleteCity`).
  Each one dispatches events to the reducer and reads or overwrites the `"cities"`
  slot of the browser's local storage.

This project models both layers and proves what each event and each operation does.

- `city.dfy`, module `CityData`: the city record, `{ ...newCity, id }` (`WithId`),
  the `filter` by id that deletion applies (`RemoveId`), the `find` by id that
  lookup applies (`FindById`), and their list lemmas.
- `reducer.dfy`, module `CitiesReducer`: `State`, `InitialState`, the `Action` sum
  type, and `Reduce`. `Reduce`'s contract is a frame table: `Writes` lists the
  fields each event may rewrite. It also says where each payload lands. The module
  adds lemmas about deletion and about runs of events (`Run`). One of them says the
  error is always the message of the last rejection.
- `store.dfy`, module `CitiesStore`: class `CityStore`, with a `state` field and a
  `storage: Option<seq<City>>` field for the slot. Each of its four methods runs the
  same `Reduce` steps as the source and writes the slot the same way. Its
  postcondition ties the new state to an effect function (`AfterFetch`,
  `AfterGetCity`, `AfterCreate`, `AfterDelete`). The properties are then lemmas
  about those functions, singly and over any sequence of operations (`PerformAll`).

Modelling choices:

- A city is `City(id: string, details)`. `details` holds the other fields as
  uninspected JSON.
- `currentCity` is `Option<City>`. The source's `{}` is `None`.
- An absent storage key is `None`. JSON encoding and decoding are identity.
- An event of an unknown type cannot be built. The source throws on one
  (`CitiesContext.jsx:54-55`). The `Action` datatype has no value for it.
- Ids are generated from the clock and a random number. Here the id is a parameter
  of `CreateCity`. No uniqueness is claimed. `CreateCanDuplicateId` shows that a
  repeated id gives a list with two cities that share an id. Generated ids are
  only unlikely to collide; nothing in the code keeps `cities` free of duplicate
  ids, and the model follows the code.
- The early return of `getCity` is `Number(id) === currentCity.id`. It is modelled
  literally: `GuardFires` is built on a small model of JavaScript strict equality
  (`StrictEquals`). `Number(id)` is a number. `currentCity.id` is a string, or
  `undefined` when nothing is selected. So the guard never fires
  (`GuardNeverFires`). The model keeps this behaviour and does not change the guard.
  `GetCityIdempotent` shows that calling `getCity` a second time with the same id
  ends in the same state as the first call, because the lookup finds the same city
  again. `ReselectKeepsSelection` covers calling it with the selected city's id. It
  proves only this: when the selected city is the first city of the slot with its
  id, the same city is selected again and `isLoading` becomes false. If an earlier
  stored city has the same id, that city is selected instead
  (`GetCitySelectsFirstMatch`); if no stored city has it, the not-found error is
  set (`GetCityOutcomes`).
- Two typing choices sit under the guard and the lookup. `GetCity` takes
  `id: string`, so the `===` of the lookup (CitiesContext.jsx:91) selects only a
  city whose id is that same string.
  `City.id` is a string, on the assumption that the slot holds only cities this
  code wrote, whose ids `createCity` generates as strings. Called with a number,
  `getCity` could select a stored city with a numeric id, and the guard (:84)
  could then fire once such a city is selected; neither case is modelled.
  `DeleteCity` takes `id: string` on the same grounds. Called with a number,
  `deleteCity` would keep every stored city, since the `!==` of both filters
  (:44, :127) holds for every string id; the call would then only clear the
  selection and rewrite the same list.
- `fetchCities` tests the parsed value for truthiness. Every array is truthy,
  including `[]`. So any stored list, even an empty one, is loaded. Only an absent
  key is a no-op.
- `createCity` and `deleteCity` build the list they write from the `cities` that
  existed when the call started. The methods capture `state.cities` first, as the
  closure does.

## Model

| member | source | states |
|---|---|---|
| `CityData.WithId` | src/contexts/CitiesContext.jsx:111-114 | the created city carries the generated id and is well formed (`id` is not also among its other fields); as an object it is the caller's fields with `id` overridden by that id |
| `CityData.FindById` | src/contexts/CitiesContext.jsx:90-92 | none is found exactly when no city has the id; a found city has the id and sits at a position before which no city has it (the first match) |
| `CityData.RemoveIdKeepsOthers` | src/contexts/CitiesContext.jsx:44 | the filter keeps exactly the cities whose id differs, each as many times as before, as a subsequence in original order, and no kept city has the id |
| `CityData.RemoveId` | src/contexts/CitiesContext.jsx:44 | the filter never lengthens the list, every city it keeps comes from the list, and none of them has the filtered id |
| `CityData.RemoveIdCounts` | src/contexts/CitiesContext.jsx:44 | the filter keeps each city with a different id as many times as the list holds it, and none with the id |
| `CityData.RemoveIdInOrder` | src/contexts/CitiesContext.jsx:44 | the filter's result is a subsequence of the list: kept cities stay in their original order |
| `CityData.RemoveIdAbsent` | src/contexts/CitiesContext.jsx:44 | filtering out an id no city has returns the list unchanged |
| `CityData.RemoveIdIdempotent` | src/contexts/CitiesContext.jsx:44 | filtering an id twice equals filtering it once |
| `CityData.RemoveIdAppend` | src/contexts/CitiesContext.jsx:44 | the filter distributes over concatenation |
| `CityData.RemoveIdPreservesUniqueIds` | src/contexts/CitiesContext.jsx:44 | if no two cities share an id before the filter, none do after |
| `CitiesReducer.InitialStateIsEmpty` | src/contexts/CitiesContext.jsx:5-10 | `initialState` has no cities, is not loading, selects nothing (`{}`) and has an empty error; any run of events from it ends with the last rejection's message, or `""`, as its error |
| `CitiesReducer.Writes` | src/contexts/CitiesContext.jsx:14-52 | every case writes `isLoading`; only `loading` writes nothing else; only `rejected` writes `error`; `cities` is written by `cities/loaded`, `city/created` and `city/deleted`; `currentCity` by `city/loaded`, `city/created` and `city/deleted` |
| `CitiesReducer.Reduce` | src/contexts/CitiesContext.jsx:12-57 | each event changes only the fields its case writes (`loading`: isLoading; `cities/loaded`: isLoading, cities; `city/loaded`: isLoading, currentCity; `city/created` and `city/deleted`: isLoading, cities, currentCity; `rejected`: isLoading, error); isLoading is true afterwards iff the event is `loading`; `cities/loaded` installs its list, `city/loaded` selects its city, `city/created` grows the list by one with old elements kept in order and the new city last and selected, `city/deleted` filters by id and clears the selection, `rejected` sets the error |
| `CitiesReducer.DeletedIsFilter` | src/contexts/CitiesContext.jsx:40-46 | after `city/deleted` the list is exactly the cities with a different id, in order, and nothing is selected, whether or not the deleted city was selected |
| `CitiesReducer.DeletedAbsentKeepsCities` | src/contexts/CitiesContext.jsx:40-46 | `city/deleted` with an absent id leaves `cities` unchanged |
| `CitiesReducer.DeletedTwiceIsOnce` | src/contexts/CitiesContext.jsx:40-46 | applying `city/deleted` twice gives the same state as applying it once |
| `CitiesReducer.RunErrorIsLastRejection` | src/contexts/CitiesContext.jsx:47-52 | after any run of events, `error` is the message of the last `rejected` event, or the starting error if there was none: only `rejected` changes it |
| `CitiesReducer.ErrorNeverCleared` | src/contexts/CitiesContext.jsx:12-57 | a non-empty error stays non-empty through any run of events whose rejections carry non-empty messages |
| `CitiesStore.NumberOf` | src/contexts/CitiesContext.jsx:84 | `Number(id)` is a finite number exactly when the id is a string of decimal digits (the empty string gives 0), never negative then, and NaN otherwise |
| `CitiesStore.SelectedId` | src/contexts/CitiesContext.jsx:84 | `currentCity.id` is `undefined` exactly when nothing is selected (`{}`) and is never a number |
| `CitiesStore.GuardFires` | src/contexts/CitiesContext.jsx:84 | the early return is taken exactly when `Number(id)` is a finite number and `currentCity.id` is that same number |
| `CitiesStore.StrictEquals` | src/contexts/CitiesContext.jsx:84 | `===` holds exactly between equal values other than NaN: values of different types are never equal |
| `CitiesStore.GuardNeverFires` | src/contexts/CitiesContext.jsx:84 | `Number(id) === currentCity.id` is false for every id and every selection, because city ids are strings and `{}` has no id |
| `CitiesStore.CityStore.constructor` | src/contexts/CitiesContext.jsx:5-10 | the store starts in `initialState` (no cities, not loading, nothing selected, empty error) over the existing slot |
| `CitiesStore.CityStore.FetchCities` | src/contexts/CitiesContext.jsx:68-80 | dispatching `loading` then `cities/loaded` on a stored list, and nothing on an absent key, yields `AfterFetch`; the slot is not written |
| `CitiesStore.CityStore.GetCity` | src/contexts/CitiesContext.jsx:82-104 | the guard, then `loading` and one of `city/loaded` or `rejected`, yields `AfterGetCity`; neither `cities` nor the slot changes |
| `CitiesStore.CityStore.CreateCity` | src/contexts/CitiesContext.jsx:106-121 | `loading` then `city/created` yields `AfterCreate`; the slot holds the list from the start of the call plus the new city, which is exactly the new `cities` |
| `CitiesStore.CityStore.DeleteCity` | src/contexts/CitiesContext.jsx:123-129 | `loading` then `city/deleted` yields `AfterDelete`; the slot holds the list from the start of the call filtered by id, which is exactly the new `cities` |
| `CitiesStore.FetchOutcomes` | src/contexts/CitiesContext.jsx:68-80 | an absent key leaves the store unchanged (so on the initial state it stays initial); a stored list becomes `cities` with loading over, selection and error untouched, memory and slot in sync |
| `CitiesStore.GetCityOutcomes` | src/contexts/CitiesContext.jsx:84-101 | the store is unchanged if the guard fires; an absent slot sets the error to "Error loading city from local storage"; a slot with no such id sets it to "There was an error loading city..."; loading ends; `cities` and the slot never change |
| `CitiesStore.GetCitySelectsFirstMatch` | src/contexts/CitiesContext.jsx:89-95 | when position k of the slot is the first with the id, that city becomes `currentCity` and loading ends, nothing else changes |
| `CitiesStore.GetCityIdempotent` | src/contexts/CitiesContext.jsx:82-104 | calling `getCity` twice with one id ends in the same state as calling it once |
| `CitiesStore.ReselectKeepsSelection` | src/contexts/CitiesContext.jsx:84-95 | re-selecting the selected city, when it is the first stored city with its id, keeps the same selection; the re-lookup does this, not the early return |
| `CitiesStore.CreateAppends` | src/contexts/CitiesContext.jsx:111-120 | the last element is `WithId(newCity, generatedId)`: its object view is the caller's fields with `id` set to the generated id, and it is selected; the old elements keep their order; loading ends; the error is untouched; the slot equals the new list |
| `CitiesStore.CreateCanDuplicateId` | src/contexts/CitiesContext.jsx:107-120 | creating under an id already in the list leaves two cities with that id, because no uniqueness check is made |
| `CitiesStore.DeleteFilters` | src/contexts/CitiesContext.jsx:123-129 | the list keeps exactly the cities with a different id, in order; the selection is cleared; loading ends; the error is untouched; the slot equals the new list |
| `CitiesStore.DeleteIdempotent` | src/contexts/CitiesContext.jsx:123-129 | deleting an id twice ends where deleting it once does, in memory and in the slot |
| `CitiesStore.DeleteUndoesCreate` | src/contexts/CitiesContext.jsx:106-129 | deleting a city just created under a fresh id restores the previous list in memory and in the slot |
| `CitiesStore.MountedIsSettled` | src/contexts/CitiesContext.jsx:68-80 | after the mount effect the store is not loading, has an empty error and no selection, and its memory agrees with the slot (the slot holds `cities`, or it is absent and `cities` is empty) |
| `CitiesStore.PerformKeepsSettled` | src/contexts/CitiesContext.jsx:68-129 | each operation keeps the store not loading, consistent with the slot, and with an error that is empty or one of the two `getCity` messages; create and delete leave the slot equal to `cities` |
| `CitiesStore.PerformAllKeepsSettled` | src/contexts/CitiesContext.jsx:68-129 | the same holds across any sequence of operations, and a slot equal to `cities` stays equal |
| `CitiesStore.PerformAllKeepsError` | src/contexts/CitiesContext.jsx:82-129 | no sequence of operations clears an error once one is recorded |

## Left out

- React wiring (`createContext`, `useReducer`, `useEffect`, `useCallback`, the
  Provider markup, the `useCities` outside-provider check): framework plumbing with
  no logic of the store in it. The model treats dispatches as taking effect at once
  and in order.
- Render timing and stale closures: `createCity` and `deleteCity` read the
  `cities` of the last render. Under rapid repeated calls that list can lag behind.
  The model runs calls one at a time on the current state.
- Id generation (`Math.random`, `Date.now`): nondeterministic, so the id is passed
  in as `generatedId`.
- The real `JSON.parse`, `JSON.stringify` and `localStorage`: the slot is an
  `Option<seq<City>>` that is read back exactly as written, so a stored value
  other than a list of cities is not modelled.
  - `localStorage.getItem` and `setItem` are taken to succeed and never throw.
    The `Synced` results of `CityStore.CreateCity` and `CityStore.DeleteCity`, and
    `PerformKeepsSettled` and `PerformAllKeepsSettled`, rely on the write
    succeeding. If `setItem` throws (CitiesContext.jsx:120, :128), that happens
    after both dispatches: `cities` holds the new list, the slot keeps the old
    one, and the exception reaches the caller.
  - A throwing `getItem` is uncaught in `fetchCities` (:70). In `getCity` (:89) it
    lands in the storage-error `catch` (:99-100); the model reaches that branch
    only for an absent key.
  - Text that is not valid JSON makes `JSON.parse` throw: uncaught in
    `fetchCities`, caught by the `catch` of `getCity`.
  - Valid JSON that is not an array is loaded as `cities` by `fetchCities` when
    truthy and ignored when falsy (`null`, `0`, `false`, `""`). A loaded non-empty
    string is iterable, so the spreads of `"city/created"` (:36) and `createCity`
    (:119) do not throw on it but spread it into its characters; a loaded number,
    `true` or plain object makes those spreads throw. Every loaded non-array makes
    the `filter` of `"city/deleted"` (:44) and `deleteCity` (:127) throw.
  - In `getCity` a stored non-array lands in the storage-error `catch`, because
    it has no `find` method (`null`) or its `find` is not a function.
  - `createCity` and `deleteCity` never read the slot: they overwrite whatever it
    holds.
- The commented-out HTTP implementation (`BASE_URL`, `fetch`): inactive network
  code.
- City fields other than `id` are modelled as JSON with integer numbers. The store
  never inspects them, so floating point plays no part.
- `NumberOf`: models `Number(s)` only for strings of decimal digits and gives NaN for
  every other string, without whitespace, sign, decimal point, exponent or hex
  forms or precision loss. That does not change any outcome of the guard: what it
  is compared with is never a number.
