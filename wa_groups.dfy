/** server/scripts/wa-groups.js: the command-line editor of
    data/city-groups.json. `add` and `remove` change the loaded configuration
    in place and save it only when they succeed; `list` prints the joined
    WhatsApp groups that are large enough. The file itself, the console and
    the WhatsApp connection are outside the model: the configuration is the
    `cities` field of a `Config` object, and the joined groups are a
    parameter. */
module WaGroups {
  import opened Js
  import opened Seqs
  import opened Text
  import opened CityGroups

  // ---------------------------------------------------------------------
  // getTrackedIds
  // ---------------------------------------------------------------------

  /** `getTrackedIds(config)`: every entry's id, over every city, collected in
      two nested loops. */
  method GetTrackedIds(cities: seq<City>) returns (ids: set<string>)
    ensures ids == TrackedIdSet(cities)
  {
    ids := {};
    for c := 0 to |cities|
      invariant ids == TrackedBefore(cities, c)
    {
      var groups := cities[c].groups;
      for j := 0 to |groups|
        invariant ids == TrackedBefore(cities, c) + (set j' | 0 <= j' < j :: EntryId(groups[j']))
      {
        ids := ids + {EntryId(groups[j])};
      }
      TrackedBeforeStep(cities, c);
    }
    assert TrackedBefore(cities, |cities|) == TrackedIdSet(cities);
  }

  /** The ids of the first `c` cities. */
  ghost function TrackedBefore(cities: seq<City>, c: nat): set<string>
    requires c <= |cities|
  {
    set i, j | 0 <= i < c && 0 <= j < |cities[i].groups| :: EntryId(cities[i].groups[j])
  }

  lemma TrackedBeforeStep(cities: seq<City>, c: nat)
    requires c < |cities|
    ensures TrackedBefore(cities, c + 1)
            == TrackedBefore(cities, c) + (set j | 0 <= j < |cities[c].groups| :: EntryId(cities[c].groups[j]))
  {
    var groups := cities[c].groups;
    var after := TrackedBefore(cities, c + 1);
    var parts := TrackedBefore(cities, c) + (set j | 0 <= j < |groups| :: EntryId(groups[j]));
    forall x | x in after
      ensures x in parts
    {
      var i, j :| 0 <= i < c + 1 && 0 <= j < |cities[i].groups| && x == EntryId(cities[i].groups[j]);
      if i < c {
        assert x in TrackedBefore(cities, c);
      }
    }
  }

  // ---------------------------------------------------------------------
  // add and remove
  // ---------------------------------------------------------------------

  /** Where `config.cities[city]` lives, or -1. */
  function CityIndex(cities: seq<City>, city: string): (i: int)
    ensures -1 <= i < |cities|
    ensures i >= 0 ==> cities[i].name == city
    ensures i == -1 <==> forall k :: 0 <= k < |cities| ==> cities[k].name != city
  {
    FindIndex(cities, (c: City) => c.name == city)
  }

  predicate HasId(g: GroupEntry, id: string) {
    EntryId(g) == id
  }

  /** The `existing` test of `add`: `groups.find` returns the first entry with
      that id, and a bare empty string is falsy, so it does not count. */
  predicate Existing(groups: seq<GroupEntry>, id: string) {
    var k := FindIndex(groups, (g: GroupEntry) => HasId(g, id));
    k != -1 && (groups[k].Named? || id != "")
  }

  /** The configuration after a successful `add`: `{ name, id }` appended to
      the city's groups, the city first created with no groups when it was
      missing. */
  function WithGroup(cities: seq<City>, city: string, g: GroupEntry): seq<City> {
    var i := CityIndex(cities, city);
    if i == -1 then cities + [City(city, [g])]
    else cities[i := City(city, cities[i].groups + [g])]
  }

  /** The first city that lists `id`, or -1: the one `remove` edits. */
  function FirstCityWith(cities: seq<City>, id: string): (i: int)
    ensures -1 <= i < |cities|
  {
    FindIndex(cities, (c: City) => FindIndex(c.groups, (g: GroupEntry) => HasId(g, id)) != -1)
  }

  /** The configuration after a successful `remove`: the first entry with
      that id, in the first city listing it, spliced out. */
  function WithoutGroup(cities: seq<City>, id: string): seq<City>
    requires FirstCityWith(cities, id) != -1
  {
    var i := FirstCityWith(cities, id);
    var k := FindIndex(cities[i].groups, (g: GroupEntry) => HasId(g, id));
    cities[i := City(cities[i].name, cities[i].groups[..k] + cities[i].groups[k + 1..])]
  }

  /** `typeof removed === 'string' ? removed : removed.name`. */
  function Label(g: GroupEntry): string {
    match g
    case Plain(id) => id
    case Named(name, _) => name
  }

  datatype AddOutcome = AddUsage | AlreadyInCity | Added(createdCity: bool)

  datatype RemoveOutcome = RemoveUsage | NotFound | Removed(city: string, removedLabel: string)

  /** The loaded city-groups configuration; what is saved is `cities`. */
  class Config {
    var cities: seq<City>

    /** Object keys are distinct. */
    ghost predicate Valid()
      reads this
    {
      DistinctNames(cities)
    }

    constructor(cities0: seq<City>)
      requires DistinctNames(cities0)
      ensures cities == cities0 && Valid()
    {
      cities := cities0;
    }

    /** `add(args)`: `args` are `<city> <name> <id>`. */
    method Add(args: seq<string>) returns (outcome: AddOutcome)
      requires Valid()
      modifies this
      ensures Valid()
      ensures |args| < 3 ==> outcome == AddUsage && cities == old(cities)
      ensures |args| >= 3 ==>
                var i := CityIndex(old(cities), args[0]);
                if i != -1 && Existing(old(cities)[i].groups, args[2]) then
                  outcome == AlreadyInCity && cities == old(cities)
                else
                  outcome == Added(i == -1)
                  && cities == WithGroup(old(cities), args[0], Named(args[1], args[2]))
    {
      if |args| < 3 {
        return AddUsage;
      }
      var city, name, id := args[0], args[1], args[2];
      var i := CityIndex(cities, city);
      var created := false;
      var groups: seq<GroupEntry> := [];
      if i == -1 {
        created := true;
      } else {
        groups := cities[i].groups;
      }
      var k := FindIndex(groups, (g: GroupEntry) => HasId(g, id));
      if k != -1 && (groups[k].Named? || id != "") {
        return AlreadyInCity;
      }
      WithGroupDistinct(cities, city, Named(name, id));
      if created {
        cities := cities + [City(city, [Named(name, id)])];
      } else {
        cities := cities[i := City(city, groups + [Named(name, id)])];
      }
      return Added(created);
    }

    /** `remove(args)`: `args` are `<id>`. */
    method Remove(args: seq<string>) returns (outcome: RemoveOutcome)
      requires Valid()
      modifies this
      ensures Valid()
      ensures |args| < 1 ==> outcome == RemoveUsage && cities == old(cities)
      ensures |args| >= 1 ==>
                var i := FirstCityWith(old(cities), args[0]);
                if i == -1 then outcome == NotFound && cities == old(cities)
                else
                  var k := FindIndex(old(cities)[i].groups, (g: GroupEntry) => HasId(g, args[0]));
                  outcome == Removed(old(cities)[i].name, Label(old(cities)[i].groups[k]))
                  && cities == WithoutGroup(old(cities), args[0])
    {
      if |args| < 1 {
        return RemoveUsage;
      }
      var id := args[0];
      var found := false;
      var c := 0;
      outcome := NotFound;
      while c < |cities|
        invariant 0 <= c <= |cities|
        invariant cities == old(cities)
        invariant forall c' :: 0 <= c' < c ==> FindIndex(cities[c'].groups, (g: GroupEntry) => HasId(g, id)) == -1
      {
        var groups := cities[c].groups;
        var idx := FindIndex(groups, (g: GroupEntry) => HasId(g, id));
        if idx != -1 {
          var removed := groups[idx];
          var cityName := cities[c].name;
          assert FirstCityWith(cities, id) == c by {
            FirstMatch(cities, (cc: City) => FindIndex(cc.groups, (g: GroupEntry) => HasId(g, id)) != -1, c);
          }
          WithoutGroupDistinct(cities, id);
          cities := cities[c := City(cityName, groups[..idx] + groups[idx + 1..])];
          outcome := Removed(cityName, Label(removed));
          found := true;
          break;
        }
        c := c + 1;
      }
      if !found {
        assert FirstCityWith(cities, id) == -1;
      }
    }
  }

  /** An index before which nothing satisfies `p` and that satisfies it is
      the first match. */
  lemma FirstMatch<T>(s: seq<T>, p: T -> bool, i: int)
    requires 0 <= i < |s| && p(s[i])
    requires forall j :: 0 <= j < i ==> !p(s[j])
    ensures FindIndex(s, p) == i
  {
  }

  lemma WithGroupDistinct(cities: seq<City>, city: string, g: GroupEntry)
    requires DistinctNames(cities)
    ensures DistinctNames(WithGroup(cities, city, g))
  {
  }

  lemma WithoutGroupDistinct(cities: seq<City>, id: string)
    requires DistinctNames(cities) && FirstCityWith(cities, id) != -1
    ensures DistinctNames(WithoutGroup(cities, id))
  {
  }

  // ---------------------------------------------------------------------
  // What add and remove do to the tracked ids and to the other cities
  // ---------------------------------------------------------------------

  /** After `add`, the new id is tracked and nothing else is: the tracked ids
      grow by exactly that id. */
  lemma AddTracksId(cities: seq<City>, city: string, name: string, id: string)
    ensures TrackedIdSet(WithGroup(cities, city, Named(name, id))) == TrackedIdSet(cities) + {id}
  {
    var r := WithGroup(cities, city, Named(name, id));
    var i := CityIndex(cities, city);
    forall x | x in TrackedIdSet(r)
      ensures x in TrackedIdSet(cities) + {id}
    {
      var a, b :| 0 <= a < |r| && 0 <= b < |r[a].groups| && x == EntryId(r[a].groups[b]);
      if a < |cities| && (a != i || b < |cities[a].groups|) {
        assert r[a].groups[b] == cities[a].groups[b];
      }
    }
    forall x | x in TrackedIdSet(cities) + {id}
      ensures x in TrackedIdSet(r)
    {
      if x == id {
        var a := if i == -1 then |cities| else i;
        assert EntryId(r[a].groups[|r[a].groups| - 1]) == id;
      } else {
        var a, b :| 0 <= a < |cities| && 0 <= b < |cities[a].groups| && x == EntryId(cities[a].groups[b]);
        assert r[a].groups[b] == cities[a].groups[b];
      }
    }
  }

  /** `add` leaves every other city as it was and keeps the city order; a new
      city goes last. */
  lemma AddTouchesOneCity(cities: seq<City>, city: string, g: GroupEntry)
    ensures var r := WithGroup(cities, city, g);
            |r| >= |cities|
            && (forall k :: 0 <= k < |cities| && cities[k].name != city ==> r[k] == cities[k])
            && (CityIndex(cities, city) == -1 ==> r == cities + [City(city, [g])])
  {
  }

  /** The group list of the edited city ends with the new entry, after all
      the entries it had. */
  lemma AddAppends(cities: seq<City>, city: string, g: GroupEntry)
    ensures var r := WithGroup(cities, city, g);
            var i := CityIndex(r, city);
            i != -1 && |r[i].groups| >= 1 && r[i].groups[|r[i].groups| - 1] == g
            && (CityIndex(cities, city) != -1 ==>
                  i == CityIndex(cities, city) && r[i].groups[..|r[i].groups| - 1] == cities[i].groups)
  {
    var r := WithGroup(cities, city, g);
    var i0 := CityIndex(cities, city);
    if i0 == -1 {
      FirstMatch(r, (c: City) => c.name == city, |cities|);
    } else {
      FirstMatch(r, (c: City) => c.name == city, i0);
      assert r[i0].groups[..|r[i0].groups| - 1] == cities[i0].groups;
    }
  }

  /** `add` looks only at the named city: an id tracked elsewhere is added
      again. */
  lemma AddIgnoresOtherCities()
    ensures var cities := [City("Delhi", [Named("Delhi Quiz Club", "1@g.us")])];
            var r := WithGroup(cities, "Mumbai", Named("Delhi Quiz Club", "1@g.us"));
            CityIndex(cities, "Mumbai") == -1
            && r[0].groups[0].id == r[1].groups[0].id && r[0].name != r[1].name
  {
  }

  /** `remove` takes out exactly one entry, from the first city listing the
      id, and leaves the other cities as they were. */
  lemma RemoveTakesOne(cities: seq<City>, id: string)
    requires FirstCityWith(cities, id) != -1
    ensures var r := WithoutGroup(cities, id);
            var i := FirstCityWith(cities, id);
            |r| == |cities| && r[i].name == cities[i].name
            && |r[i].groups| + 1 == |cities[i].groups|
            && (forall k :: 0 <= k < |cities| && k != i ==> r[k] == cities[k])
            && (forall k :: 0 <= k < i ==> !HasKey(cities[k].groups, EntryId, id))
  {
    var i := FirstCityWith(cities, id);
    forall k | 0 <= k < i
      ensures !HasKey(cities[k].groups, EntryId, id)
    {
      if HasKey(cities[k].groups, EntryId, id) {
        var j :| 0 <= j < |cities[k].groups| && EntryId(cities[k].groups[j]) == id;
        assert HasId(cities[k].groups[j], id);
      }
    }
  }

  /** The id is listed at most once in the whole configuration. */
  ghost predicate ListedOnce(cities: seq<City>, id: string) {
    forall a, b, a', b' :: 0 <= a < |cities| && 0 <= b < |cities[a].groups|
      && 0 <= a' < |cities| && 0 <= b' < |cities[a'].groups|
      && EntryId(cities[a].groups[b]) == id && EntryId(cities[a'].groups[b']) == id
      ==> a == a' && b == b'
  }

  /** When the id was listed once in the whole configuration, it is no
      longer tracked after `remove`, and every other id still is. */
  lemma RemoveUntracks(cities: seq<City>, id: string)
    requires FirstCityWith(cities, id) != -1
    requires ListedOnce(cities, id)
    ensures TrackedIdSet(WithoutGroup(cities, id)) == TrackedIdSet(cities) - {id}
  {
    RemoveKeepsOthers(cities, id);
    RemoveDropsId(cities, id);
  }

  lemma RemoveKeepsOthers(cities: seq<City>, id: string)
    requires FirstCityWith(cities, id) != -1
    ensures TrackedIdSet(cities) - {id} <= TrackedIdSet(WithoutGroup(cities, id))
  {
    var r := WithoutGroup(cities, id);
    var i := FirstCityWith(cities, id);
    var gs := cities[i].groups;
    var k := FindIndex(gs, (g: GroupEntry) => HasId(g, id));
    assert r[i].groups == gs[..k] + gs[k + 1..];
    var before, after := TrackedIdSet(cities) - {id}, TrackedIdSet(r);
    forall x | x in before
      ensures x in after
    {
      var a, b :| 0 <= a < |cities| && 0 <= b < |cities[a].groups| && x == EntryId(cities[a].groups[b]);
      if a == i {
        assert b != k;
        var b1 := if b > k then b - 1 else b;
        assert r[a].groups[b1] == cities[a].groups[b];
      } else {
        assert r[a].groups[b] == cities[a].groups[b];
      }
    }
  }

  lemma RemoveDropsId(cities: seq<City>, id: string)
    requires FirstCityWith(cities, id) != -1
    requires ListedOnce(cities, id)
    ensures TrackedIdSet(WithoutGroup(cities, id)) <= TrackedIdSet(cities) - {id}
  {
    var r := WithoutGroup(cities, id);
    var i := FirstCityWith(cities, id);
    var gs := cities[i].groups;
    var k := FindIndex(gs, (g: GroupEntry) => HasId(g, id));
    assert r[i].groups == gs[..k] + gs[k + 1..];
    assert EntryId(gs[k]) == id;
    var before, after := TrackedIdSet(cities) - {id}, TrackedIdSet(r);
    forall x | x in after
      ensures x in before
    {
      var a, b :| 0 <= a < |r| && 0 <= b < |r[a].groups| && x == EntryId(r[a].groups[b]);
      var b0 := if a == i && b >= k then b + 1 else b;
      assert r[a].groups[b] == cities[a].groups[b0];
      assert a != i || b0 != k;
    }
  }

  /** A bare empty-string entry does not block `add` of the empty id. */
  lemma EmptyIdIsNotExisting()
    ensures !Existing([Plain("")], "") && Existing([Named("", "")], "")
  {
  }

  // ---------------------------------------------------------------------
  // list
  // ---------------------------------------------------------------------

  const MinMembers: nat := 200

  /** The words of `QUIZ_KEYWORDS`, matched without regard to case. */
  const QuizKeywords: seq<string> :=
    ["quiz", "announcement", "qa", "trivia", "qfb", "qfi", "kqa", "dqc", "qpq", "factaco"]

  /** A joined group as the WhatsApp connection reports it; `participants`
      is the length of the participant list, None when it is missing. */
  datatype Group = Group(id: string, subject: string, participants: Option<nat>)

  /** `g.participants?.length || 0`. */
  function Members(g: Group): nat {
    g.participants.GetOr(0)
  }

  /** `cmp(a, b) <= 0` for the comparator `b.members - a.members`. */
  predicate MoreMembers(a: Group, b: Group) {
    Members(a) >= Members(b)
  }

  predicate Large(g: Group) {
    Members(g) >= MinMembers
  }

  /** The `filtered` list of `list()`. */
  function Listed(groups: seq<Group>): seq<Group> {
    SortBy(Filter(groups, Large), MoreMembers)
  }

  /** `QUIZ_KEYWORDS.test(g.subject)`. */
  predicate LooksLikeQuiz(subject: string) {
    exists w :: w in QuizKeywords && Contains(Lower(subject), w)
  }

  /** The status badges of one printed row. */
  function Badges(g: Group, tracked: set<string>): (r: seq<string>)
    ensures "[TRACKED]" in r <==> g.id in tracked
    ensures "[QUIZ?]" in r <==> LooksLikeQuiz(g.subject)
    ensures |r| <= 2
  {
    (if g.id in tracked then ["[TRACKED]"] else [])
    + (if LooksLikeQuiz(g.subject) then ["[QUIZ?]"] else [])
  }

  /** The listing holds exactly the groups with at least 200 members, each as
      often as it was reported, largest first. */
  lemma ListedSpec(groups: seq<Group>)
    ensures forall g :: g in Listed(groups) <==> g in groups && Members(g) >= MinMembers
    ensures multiset(Listed(groups)) == multiset(Filter(groups, Large))
    ensures forall i, j :: 0 <= i < j < |Listed(groups)| ==>
              Members(Listed(groups)[i]) >= Members(Listed(groups)[j])
  {
    var f := Filter(groups, Large);
    var l := Listed(groups);
    assert l == SortBy(f, MoreMembers);
    MoreMembersOrders();
    SortBySorted(f, MoreMembers);
    forall i, j | 0 <= i < j < |l| ensures Members(l[i]) >= Members(l[j]) {
      assert MoreMembers(l[i], l[j]);
    }
    forall g
      ensures g in l <==> g in f
    {
      assert g in l <==> g in multiset(l);
      assert g in f <==> g in multiset(f);
    }
  }

  lemma MoreMembersOrders()
    ensures Total(MoreMembers) && Transitive(MoreMembers)
  {
  }

  /** A group below the threshold is never printed, however it is named. */
  lemma SmallGroupHidden(groups: seq<Group>, g: Group)
    requires Members(g) < MinMembers
    ensures g !in Listed(groups)
  {
    ListedSpec(groups);
  }
}
