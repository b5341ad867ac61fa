/** data/city-groups.json: `{ cities: { <city>: { groups: [...] } } }`. The
    cities object is kept as its entries in insertion order. A group entry is
    either a bare id string or a `{ name, id }` object (the shape the wa-groups
    script appends). */
module CityGroups {

  datatype GroupEntry = Plain(id: string) | Named(name: string, id: string)

  datatype City = City(name: string, groups: seq<GroupEntry>)

  /** `typeof g === 'string' ? g : g.id`. */
  function EntryId(g: GroupEntry): string {
    g.id
  }

  /** The property key `map[g]` uses: an object is converted to the string
      "[object Object]". */
  function PropertyKey(g: GroupEntry): (k: string)
    ensures g.Plain? ==> k == g.id
    ensures g.Named? ==> k == "[object Object]"
  {
    match g
    case Plain(id) => id
    case Named(_, _) => "[object Object]"
  }

  /** Object keys are distinct. */
  ghost predicate DistinctNames(cities: seq<City>) {
    forall i, j :: 0 <= i < j < |cities| ==> cities[i].name != cities[j].name
  }

  predicate HasKey(gs: seq<GroupEntry>, key: GroupEntry -> string, k: string) {
    exists j :: 0 <= j < |gs| && key(gs[j]) == k
  }

  /** `for (const gid of groups) map[key(gid)] = city`, starting from `m`. */
  function AddGroups(m: map<string, string>, city: string, gs: seq<GroupEntry>,
                     key: GroupEntry -> string): map<string, string>
    decreases |gs|
  {
    if |gs| == 0 then m else AddGroups(m[key(gs[0]) := city], city, gs[1..], key)
  }

  /** The outer loop over the cities in order, starting from `m`. */
  function GroupCityMapFrom(m: map<string, string>, cities: seq<City>,
                            key: GroupEntry -> string): map<string, string>
    decreases |cities|
  {
    if |cities| == 0 then m
    else GroupCityMapFrom(AddGroups(m, cities[0].name, cities[0].groups, key), cities[1..], key)
  }

  /** Every group of the city is sent to it; every other key keeps its value. */
  lemma {:induction false} AddGroupsSpec(m: map<string, string>, city: string,
                                         gs: seq<GroupEntry>, key: GroupEntry -> string, k: string)
    ensures HasKey(gs, key, k) ==> k in AddGroups(m, city, gs, key) && AddGroups(m, city, gs, key)[k] == city
    ensures !HasKey(gs, key, k) ==> (k in AddGroups(m, city, gs, key) <==> k in m)
    ensures !HasKey(gs, key, k) && k in m ==> AddGroups(m, city, gs, key)[k] == m[k]
    decreases |gs|
  {
    if |gs| > 0 {
      AddGroupsSpec(m[key(gs[0]) := city], city, gs[1..], key, k);
      if HasKey(gs, key, k) && key(gs[0]) != k {
        var j :| 0 <= j < |gs| && key(gs[j]) == k;
        assert gs[1..][j - 1] == gs[j];
      }
      if HasKey(gs[1..], key, k) {
        var j :| 0 <= j < |gs[1..]| && key(gs[1..][j]) == k;
        assert gs[j + 1] == gs[1..][j];
      }
    }
  }

  /** A key listed under no city keeps its starting value. */
  lemma {:induction false} GroupCityMapUnlisted(m: map<string, string>, cities: seq<City>,
                                                key: GroupEntry -> string, k: string)
    requires forall i :: 0 <= i < |cities| ==> !HasKey(cities[i].groups, key, k)
    ensures k in GroupCityMapFrom(m, cities, key) <==> k in m
    ensures k in m ==> GroupCityMapFrom(m, cities, key)[k] == m[k]
    decreases |cities|
  {
    if |cities| > 0 {
      AddGroupsSpec(m, cities[0].name, cities[0].groups, key, k);
      assert forall i :: 0 <= i < |cities[1..]| ==> cities[1..][i] == cities[i + 1];
      GroupCityMapUnlisted(AddGroups(m, cities[0].name, cities[0].groups, key), cities[1..], key, k);
    }
  }

  /** A key listed under several cities ends up with the last of them. */
  lemma {:induction false} GroupCityMapLast(m: map<string, string>, cities: seq<City>,
                                            key: GroupEntry -> string, k: string, i: int)
    requires 0 <= i < |cities| && HasKey(cities[i].groups, key, k)
    requires forall i' :: i < i' < |cities| ==> !HasKey(cities[i'].groups, key, k)
    ensures k in GroupCityMapFrom(m, cities, key)
    ensures GroupCityMapFrom(m, cities, key)[k] == cities[i].name
    decreases |cities|
  {
    var m1 := AddGroups(m, cities[0].name, cities[0].groups, key);
    if i == 0 {
      AddGroupsSpec(m, cities[0].name, cities[0].groups, key, k);
      assert forall i' :: 0 <= i' < |cities[1..]| ==> cities[1..][i'] == cities[i' + 1];
      GroupCityMapUnlisted(m1, cities[1..], key, k);
    } else {
      assert cities[1..][i - 1] == cities[i];
      assert forall i' :: i - 1 < i' < |cities[1..]| ==> cities[1..][i'] == cities[i' + 1];
      GroupCityMapLast(m1, cities[1..], key, k, i - 1);
    }
  }

  /** `getGroupCityMap()` with entries turned into keys by `key`. */
  function GroupCityMap(cities: seq<City>, key: GroupEntry -> string): map<string, string> {
    GroupCityMapFrom(map[], cities, key)
  }

  /** wa-groups.js `getTrackedIds(config)`: every entry's id, over all cities. */
  ghost function TrackedIdSet(cities: seq<City>): set<string> {
    set i, j | 0 <= i < |cities| && 0 <= j < |cities[i].groups| :: EntryId(cities[i].groups[j])
  }

  /** Keyed by id, every tracked group is mapped, to the last city listing it. */
  lemma GroupCityMapById(cities: seq<City>, i: int, j: int)
    requires 0 <= i < |cities| && 0 <= j < |cities[i].groups|
    requires forall i' :: i < i' < |cities| ==> !HasKey(cities[i'].groups, EntryId, cities[i].groups[j].id)
    ensures cities[i].groups[j].id in GroupCityMap(cities, EntryId)
    ensures GroupCityMap(cities, EntryId)[cities[i].groups[j].id] == cities[i].name
  {
    var k := cities[i].groups[j].id;
    assert EntryId(cities[i].groups[j]) == k;
    assert HasKey(cities[i].groups, EntryId, k);
    GroupCityMapLast(map[], cities, EntryId, k, i);
  }

  /** For bare-string entries the property key is the id, so the two readings agree. */
  lemma {:induction false} PlainEntriesAgree(m: map<string, string>, cities: seq<City>)
    requires forall i, j :: 0 <= i < |cities| && 0 <= j < |cities[i].groups| ==> cities[i].groups[j].Plain?
    ensures GroupCityMapFrom(m, cities, PropertyKey) == GroupCityMapFrom(m, cities, EntryId)
    decreases |cities|
  {
    if |cities| > 0 {
      PlainGroupsAgree(m, cities[0].name, cities[0].groups);
      PlainEntriesAgree(AddGroups(m, cities[0].name, cities[0].groups, EntryId), cities[1..]);
    }
  }

  lemma {:induction false} PlainGroupsAgree(m: map<string, string>, city: string, gs: seq<GroupEntry>)
    requires forall j :: 0 <= j < |gs| ==> gs[j].Plain?
    ensures AddGroups(m, city, gs, PropertyKey) == AddGroups(m, city, gs, EntryId)
    decreases |gs|
  {
    if |gs| > 0 {
      PlainGroupsAgree(m[gs[0].id := city], city, gs[1..]);
    }
  }

  /** A config written by the wa-groups script: one city with one `{name, id}`
      entry. Keyed as store.js keys it, the group's id is not in the map and
      the only key is "[object Object]"; keyed by id, it is mapped to its city. */
  lemma NamedEntryLost()
    ensures var cities := [City("Delhi", [Named("Delhi Quiz Club", "120363@g.us")])];
            GroupCityMap(cities, PropertyKey) == map["[object Object]" := "Delhi"] &&
            "120363@g.us" !in GroupCityMap(cities, PropertyKey) &&
            "120363@g.us" in TrackedIdSet(cities) &&
            GroupCityMap(cities, EntryId) == map["120363@g.us" := "Delhi"]
  {
    var cities := [City("Delhi", [Named("Delhi Quiz Club", "120363@g.us")])];
    assert EntryId(cities[0].groups[0]) == "120363@g.us";
    assert cities[1..] == [];
    assert cities[0].groups[1..] == [];
  }
}
