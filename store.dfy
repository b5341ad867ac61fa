/** server/store.js: the JSON files under data/ held as the fields of one
    object. Each exported function reads a file, changes the parsed value and
    writes it back; here the file contents are fields and the functions are
    methods that reassign them. */
module Store {
  import opened Js
  import opened Quizzes
  import opened Seqs
  import opened CityGroups

  /** `q => q.id === id`. */
  function HasId(id: string): Quiz -> bool {
    (q: Quiz) => q.id == id
  }

  /** Removes the element at `i`, as `splice(i, 1)` does. */
  function RemoveAt<T>(s: seq<T>, i: int): (r: seq<T>)
    requires 0 <= i < |s|
    ensures |r| == |s| - 1
    ensures forall j :: 0 <= j < i ==> r[j] == s[j]
    ensures forall j :: i <= j < |r| ==> r[j] == s[j + 1]
  {
    s[..i] + s[i + 1..]
  }

  class Store {
    /** data/quizzes.json */
    var quizzes: seq<Quiz>
    /** data/sync-state.json */
    var processedMessageIds: seq<string>
    var lastSyncTimestamp: Option<string>
    /** data/city-groups.json */
    var cities: seq<City>

    /** The state `ensureDataDir` and `getCityGroups` create when the files
        are missing. */
    constructor()
      ensures quizzes == [] && processedMessageIds == [] && lastSyncTimestamp == None
      ensures cities == []
    {
      quizzes := [];
      processedMessageIds := [];
      lastSyncTimestamp := None;
      cities := [];
    }

    /** `quizzes.findIndex(q => q.id === id)`. */
    method FindQuizIndex(id: string) returns (idx: int)
      ensures -1 <= idx < |quizzes|
      ensures idx >= 0 ==> quizzes[idx].id == id && forall j :: 0 <= j < idx ==> quizzes[j].id != id
      ensures idx == -1 ==> forall j :: 0 <= j < |quizzes| ==> quizzes[j].id != id
    {
      var i := 0;
      while i < |quizzes|
        invariant 0 <= i <= |quizzes|
        invariant forall j :: 0 <= j < i ==> quizzes[j].id != id
      {
        if quizzes[i].id == id {
          return i;
        }
        i := i + 1;
      }
      return -1;
    }

    /** `getQuizById(id)`: the first quiz with that id, else null. */
    method GetQuizById(id: string) returns (r: Option<Quiz>)
      ensures r.Some? ==> exists i :: 0 <= i < |quizzes| && quizzes[i] == r.value && r.value.id == id &&
                            forall j :: 0 <= j < i ==> quizzes[j].id != id
      ensures r.None? <==> forall j :: 0 <= j < |quizzes| ==> quizzes[j].id != id
    {
      var idx := FindQuizIndex(id);
      if idx == -1 {
        return None;
      }
      return Some(quizzes[idx]);
    }

    /** `addQuiz(quiz)`: appends and returns its argument. */
    method AddQuiz(quiz: Quiz) returns (r: Quiz)
      modifies this
      ensures quizzes == old(quizzes) + [quiz] && r == quiz
      ensures processedMessageIds == old(processedMessageIds)
      ensures lastSyncTimestamp == old(lastSyncTimestamp) && cities == old(cities)
    {
      quizzes := quizzes + [quiz];
      return quiz;
    }

    /** `updateQuiz(id, updates)`: the first quiz with that id becomes
        `{ ...old, ...updates, updatedAt: now }`; an unknown id writes
        nothing and returns null. */
    method UpdateQuiz(id: string, updates: Patch, now: string) returns (r: Option<Quiz>)
      modifies this
      ensures var idx := FindIndex(old(quizzes), HasId(id));
              if idx == -1 then r == None && quizzes == old(quizzes)
              else r == Some(ApplyPatch(old(quizzes)[idx], updates).(updatedAt := now)) &&
                   quizzes == old(quizzes)[idx := r.value]
      ensures processedMessageIds == old(processedMessageIds)
      ensures lastSyncTimestamp == old(lastSyncTimestamp) && cities == old(cities)
    {
      var idx := FindQuizIndex(id);
      ghost var spec := FindIndex(quizzes, HasId(id));
      assert idx == spec;
      if idx == -1 {
        return None;
      }
      var q := ApplyPatch(quizzes[idx], updates).(updatedAt := now);
      quizzes := quizzes[idx := q];
      return Some(q);
    }

    /** `deleteQuiz(id)`: removes the first quiz with that id and returns
        true; an unknown id writes nothing and returns false. */
    method DeleteQuiz(id: string) returns (deleted: bool)
      modifies this
      ensures var idx := FindIndex(old(quizzes), HasId(id));
              (deleted <==> idx != -1) &&
              quizzes == if idx == -1 then old(quizzes) else RemoveAt(old(quizzes), idx)
      ensures processedMessageIds == old(processedMessageIds)
      ensures lastSyncTimestamp == old(lastSyncTimestamp) && cities == old(cities)
    {
      var idx := FindQuizIndex(id);
      ghost var spec := FindIndex(quizzes, HasId(id));
      assert idx == spec;
      if idx == -1 {
        return false;
      }
      quizzes := RemoveAt(quizzes, idx);
      return true;
    }

    /** `isMessageProcessed(messageId)`. */
    method IsMessageProcessed(messageId: string) returns (b: bool)
      ensures b <==> exists i :: 0 <= i < |processedMessageIds| && processedMessageIds[i] == messageId
    {
      b := messageId in processedMessageIds;
    }

    /** `markMessageProcessed(messageId)`: appends to the ledger, even when
        the id is already there, and stamps the sync time. */
    method MarkMessageProcessed(messageId: string, now: string)
      modifies this
      ensures processedMessageIds == old(processedMessageIds) + [messageId]
      ensures lastSyncTimestamp == Some(now)
      ensures quizzes == old(quizzes) && cities == old(cities)
    {
      processedMessageIds := processedMessageIds + [messageId];
      lastSyncTimestamp := Some(now);
    }

    /** `getCityList()`: the city names in the config's key order. */
    method GetCityList() returns (names: seq<string>)
      ensures |names| == |cities|
      ensures forall i :: 0 <= i < |cities| ==> names[i] == cities[i].name
    {
      names := seq(|cities|, i requires 0 <= i < |cities| reads this => cities[i].name);
    }

    /** `getGroupCityMap()`: `map[gid] = city` for every entry of every city,
        in order, with the entry itself as the property key. */
    method GetGroupCityMap() returns (m: map<string, string>)
      ensures m == GroupCityMap(cities, PropertyKey)
    {
      m := map[];
      var i := 0;
      while i < |cities|
        invariant 0 <= i <= |cities|
        invariant GroupCityMapFrom(m, cities[i..], PropertyKey) == GroupCityMap(cities, PropertyKey)
      {
        var city := cities[i].name;
        var groups := cities[i].groups;
        ghost var m0 := m;
        var j := 0;
        while j < |groups|
          invariant 0 <= j <= |groups|
          invariant AddGroups(m, city, groups[j..], PropertyKey) == AddGroups(m0, city, groups, PropertyKey)
        {
          assert groups[j..][1..] == groups[j + 1..];
          m := m[PropertyKey(groups[j]) := city];
          j := j + 1;
        }
        assert cities[i..][1..] == cities[i + 1..];
        i := i + 1;
      }
    }
  }

  /** Marking an id already in the ledger adds a second entry but does not
      change which ids are processed. */
  lemma RemarkKeepsMembership(ids: seq<string>, id: string, x: string)
    requires id in ids
    ensures x in ids + [id] <==> x in ids
    ensures id in ids + [id] && |ids + [id]| == |ids| + 1
  {
  }
}
