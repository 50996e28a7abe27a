/** Cities as the city store holds them, and the two list operations the store applies
    to them: the `filter` that deletes by id and the `find` that looks a city up by id. */
module CityData {

  datatype Option<T> = None | Some(value: T)

  /** A JSON value. The fields a caller supplies for a city (name, country, date, notes,
      position, ...) are JSON values that the store keeps and hands back but never inspects. */
  datatype Json =
    | JNull
    | JBool(b: bool)
    | JNumber(n: int)
    | JString(s: string)
    | JArray(items: seq<Json>)
    | JObject(members: map<string, Json>)

  /** A saved city: the identifier the store attached to it, and its other fields.
      `details` is meant to leave out `id` (see `WellFormed`); cities read back from
      storage are not checked for it, and nothing in the store depends on it, since
      `details` is never inspected. */
  datatype City = City(id: string, details: map<string, Json>)

  /** The city stands for one JavaScript object: its `id` is not also among `details`. */
  predicate WellFormed(c: City)
  {
    "id" !in c.details
  }

  /** The city as a JavaScript object: its other fields together with `id`. */
  function AsObject(c: City): map<string, Json>
  {
    c.details["id" := JString(c.id)]
  }

  /** `{ ...newCity, id: generatedId }`: the caller's fields, with `id` set to the
      generated identifier, overriding any `id` the caller supplied. */
  function WithId(newCity: map<string, Json>, generatedId: string): (c: City)
    ensures c.id == generatedId && WellFormed(c)
    ensures AsObject(c) == newCity["id" := JString(generatedId)]
  {
    City(generatedId, newCity - {"id"})
  }

  /** No two cities of the list share an id. */
  predicate UniqueIds(cities: seq<City>)
  {
    forall i, j :: 0 <= i < j < |cities| ==> cities[i].id != cities[j].id
  }

  /** `sub` is `s` with some elements left out and the others in their original order. */
  predicate IsSubsequence(sub: seq<City>, s: seq<City>)
  {
    if sub == [] then true
    else if s == [] then false
    else if sub[0] == s[0] then IsSubsequence(sub[1..], s[1..])
    else IsSubsequence(sub, s[1..])
  }

  /** `cities.filter((city) => city.id !== id)`: what it keeps comes from the list and
      does not have the id. */
  function RemoveId(cities: seq<City>, id: string): (r: seq<City>)
    ensures |r| <= |cities|
    ensures forall k :: 0 <= k < |r| ==> r[k].id != id
    ensures forall c :: c in r ==> c in cities
  {
    if cities == [] then []
    else (if cities[0].id == id then [] else [cities[0]]) + RemoveId(cities[1..], id)
  }

  /** `cities.find((city) => city.id === id)`: the first city with that id, if any. */
  function FindById(cities: seq<City>, id: string): (r: Option<City>)
    ensures r.None? <==> forall k :: 0 <= k < |cities| ==> cities[k].id != id
    ensures r.Some? ==>
      r.value.id == id &&
      exists k :: 0 <= k < |cities| && cities[k] == r.value &&
        forall j :: 0 <= j < k ==> cities[j].id != id
  {
    if cities == [] then None
    else if cities[0].id == id then Some(cities[0])
    else
      var r := FindById(cities[1..], id);
      assert forall k :: 1 <= k < |cities| ==> cities[k] == cities[1..][k - 1];
      if r.Some? then
        var k :| 0 <= k < |cities[1..]| && cities[1..][k] == r.value &&
          forall j :: 0 <= j < k ==> cities[1..][j].id != id;
        assert cities[k + 1] == r.value;
        r
      else
        r
  }

  /** The filter keeps every city with a different id exactly as many times as the list
      holds it, and no city with the deleted id. */
  lemma {:induction false} RemoveIdCounts(cities: seq<City>, id: string)
    ensures forall c ::
      multiset(RemoveId(cities, id))[c] == if c.id == id then 0 else multiset(cities)[c]
  {
    if cities != [] {
      RemoveIdCounts(cities[1..], id);
      assert cities == [cities[0]] + cities[1..];
      assert multiset(cities) == multiset{cities[0]} + multiset(cities[1..]);
    }
  }

  /** The filter keeps the cities it keeps in their original order. */
  lemma {:induction false} RemoveIdInOrder(cities: seq<City>, id: string)
    ensures IsSubsequence(RemoveId(cities, id), cities)
  {
    if cities != [] {
      var tail := RemoveId(cities[1..], id);
      RemoveIdInOrder(cities[1..], id);
      if cities[0].id == id {
        assert RemoveId(cities, id) == tail;
        if tail != [] {
          assert tail[0] != cities[0];
        }
      } else {
        assert RemoveId(cities, id) == [cities[0]] + tail;
        assert ([cities[0]] + tail)[1..] == tail;
      }
    }
  }

  /** Deletion keeps exactly the cities whose id differs, each as often as before and in
      their original order. */
  lemma RemoveIdKeepsOthers(cities: seq<City>, id: string)
    ensures forall k :: 0 <= k < |RemoveId(cities, id)| ==> RemoveId(cities, id)[k].id != id
    ensures forall c ::
      multiset(RemoveId(cities, id))[c] == if c.id == id then 0 else multiset(cities)[c]
    ensures IsSubsequence(RemoveId(cities, id), cities)
  {
    RemoveIdCounts(cities, id);
    RemoveIdInOrder(cities, id);
  }

  /** Deleting an id no city has leaves the list as it was. */
  lemma {:induction false} RemoveIdAbsent(cities: seq<City>, id: string)
    requires forall k :: 0 <= k < |cities| ==> cities[k].id != id
    ensures RemoveId(cities, id) == cities
  {
    if cities != [] {
      RemoveIdAbsent(cities[1..], id);
      assert cities == [cities[0]] + cities[1..];
    }
  }

  /** Deleting the same id twice is the same as deleting it once. */
  lemma RemoveIdIdempotent(cities: seq<City>, id: string)
    ensures RemoveId(RemoveId(cities, id), id) == RemoveId(cities, id)
  {
    RemoveIdKeepsOthers(cities, id);
    RemoveIdAbsent(RemoveId(cities, id), id);
  }

  /** Deletion works element by element, so it distributes over concatenation. */
  lemma {:induction false} RemoveIdAppend(s: seq<City>, t: seq<City>, id: string)
    ensures RemoveId(s + t, id) == RemoveId(s, id) + RemoveId(t, id)
  {
    if s != [] {
      RemoveIdAppend(s[1..], t, id);
      assert (s + t)[1..] == s[1..] + t;
    } else {
      assert s + t == t;
    }
  }

  /** Deletion never makes two cities share an id. */
  lemma {:induction false} RemoveIdPreservesUniqueIds(cities: seq<City>, id: string)
    requires UniqueIds(cities)
    ensures UniqueIds(RemoveId(cities, id))
  {
    if cities != [] {
      var tail := RemoveId(cities[1..], id);
      RemoveIdPreservesUniqueIds(cities[1..], id);
      if cities[0].id != id {
        forall k | 0 <= k < |tail| ensures cities[0].id != tail[k].id {
          assert tail[k] in tail;
          var m :| 0 <= m < |cities[1..]| && cities[1..][m] == tail[k];
          assert cities[m + 1] == tail[k];
        }
        var r := [cities[0]] + tail;
        assert RemoveId(cities, id) == r;
        forall i, j | 0 <= i < j < |r| ensures r[i].id != r[j].id {
          if i > 0 { assert r[i] == tail[i - 1] && r[j] == tail[j - 1]; }
          else { assert r[j] == tail[j - 1]; }
        }
      }
    }
  }
}
