/** scripts/migrate-city.js: a one-off pass over the stored quizzes that gives
    every quiz without a city the city "Delhi" and turns a missing or empty
    source group into null. The loaded JSON array is an `array<Quiz>` whose
    entries the loop replaces in place; reading and writing the file and the
    closing console line are outside the model. */
module MigrateCity {
  import opened Js
  import opened Seqs
  import opened Quizzes

  /** What the loop body makes of one quiz: afterwards it has a city, a
      city it had is kept and "Delhi" goes only to a quiz that had none; a
      source group is kept when set and null otherwise; nothing else
      changes. */
  function Migrated(q: Quiz): (r: Quiz)
    ensures Truthy(r.city)
    ensures Truthy(q.city) ==> r.city == q.city
    ensures !Truthy(q.city) ==> r.city == Some("Delhi")
    ensures Truthy(q.sourceGroupId) ==> r.sourceGroupId == q.sourceGroupId
    ensures !Truthy(q.sourceGroupId) ==> r.sourceGroupId.None?
    ensures r.(city := q.city, sourceGroupId := q.sourceGroupId) == q
  {
    var q1 := if Truthy(q.city) then q else q.(city := Some("Delhi"));
    if Truthy(q1.sourceGroupId) then q1 else q1.(sourceGroupId := None)
  }

  predicate LacksCity(q: Quiz) {
    !Truthy(q.city)
  }

  /** The loop over `quizzes`: each quiz is updated where it lies and
      `updated` counts the quizzes that had no city. */
  method Migrate(quizzes: array<Quiz>) returns (updated: nat)
    modifies quizzes
    ensures quizzes[..] == Map(old(quizzes[..]), Migrated)
    ensures updated == Count(old(quizzes[..]), LacksCity)
  {
    updated := 0;
    for i := 0 to quizzes.Length
      invariant quizzes[..i] == Map(old(quizzes[..i]), Migrated)
      invariant quizzes[i..] == old(quizzes[i..])
      invariant updated == Count(old(quizzes[..i]), LacksCity)
    {
      var q := quizzes[i];
      ghost var before := old(quizzes[..i]);
      assert old(quizzes[..i + 1]) == before + [q];
      CountSnoc(before, q, LacksCity);
      MapAppend(before, [q], Migrated);
      ghost var migrated := Migrated(q);
      if !Truthy(q.city) {
        q := q.(city := Some("Delhi"));
        updated := updated + 1;
      }
      if !Truthy(q.sourceGroupId) {
        q := q.(sourceGroupId := None);
      }
      assert q == migrated;
      quizzes[i] := q;
      assert quizzes[..i + 1] == quizzes[..i] + [q];
    }
    assert quizzes[..quizzes.Length] == quizzes[..];
    assert old(quizzes[..quizzes.Length]) == old(quizzes[..]);
  }

  /** Running the migration a second time changes nothing and counts none. */
  lemma {:induction false} MigrateIdempotent(qs: seq<Quiz>)
    ensures Map(Map(qs, Migrated), Migrated) == Map(qs, Migrated)
    ensures Count(Map(qs, Migrated), LacksCity) == 0
    decreases |qs|
  {
    if |qs| > 0 {
      MigrateIdempotent(qs[1..]);
      var m := Map(qs, Migrated);
      assert m == [Migrated(qs[0])] + Map(qs[1..], Migrated);
      MapAppend([Migrated(qs[0])], Map(qs[1..], Migrated), Migrated);
      FilterAppend([Migrated(qs[0])], Map(qs[1..], Migrated), LacksCity);
    }
  }
}
