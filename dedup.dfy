/** server/sync/dedup.js: the ledger check and the exact name+date match
    against the stored quizzes. */
module Dedup {
  import opened Js
  import opened Text
  import opened Quizzes
  import opened Seqs

  /** `isDuplicate(messageId)`: only its first argument is read, so callers
      that pass `(source, id)` test whether `source` is in the ledger. */
  function IsDuplicate(processed: seq<string>, messageId: string): (r: bool)
    ensures r <==> exists i :: 0 <= i < |processed| && processed[i] == messageId
  {
    messageId in processed
  }

  /** `s.toLowerCase().trim()`. */
  function NameKey(s: string): string {
    Trim(Lower(s))
  }

  /** The comparison key ignores letter case and surrounding whitespace. */
  lemma NameKeyIgnoresCaseAndSpace(s: string, c: char)
    requires IsSpace(c)
    ensures NameKey(Lower(s)) == NameKey(s)
    ensures NameKey([c] + s) == NameKey(s)
    ensures NameKey(s + [c]) == NameKey(s)
  {
    LowerIdempotent(s);
    LowerAppend([c], s);
    assert Lower([c]) == [c];
    TrimSpacePrefix(c, Lower(s));
    LowerAppend(s, [c]);
    assert Lower([c]) == [c];
    TrimSpaceSuffix(Lower(s), c);
  }

  lemma TrimSpaceSuffix(s: string, c: char)
    requires IsSpace(c)
    ensures Trim(s + [c]) == Trim(s)
  {
    var t := TrimStart(s);
    if |t| == 0 {
      TrimStartAllSpace(s, c);
    } else {
      TrimStartAppend(s, [c]);
      assert (t + [c])[..|t + [c]| - 1] == t;
    }
  }

  lemma {:induction false} TrimStartAppend(s: string, u: string)
    requires |TrimStart(s)| > 0
    ensures TrimStart(s + u) == TrimStart(s) + u
  {
    if |s| > 0 && IsSpace(s[0]) {
      assert (s + u)[1..] == s[1..] + u;
      TrimStartAppend(s[1..], u);
    }
  }

  lemma {:induction false} TrimStartAllSpace(s: string, c: char)
    requires IsSpace(c) && |TrimStart(s)| == 0
    ensures TrimStart(s + [c]) == []
  {
    if |s| > 0 {
      assert (s + [c])[1..] == s[1..] + [c];
      TrimStartAllSpace(s[1..], c);
    }
  }

  /** The `find` predicate, written as the source writes it. Its org clause
      never changes the outcome: the match is exactly name and date. */
  function Matches(q: Quiz, e: Extraction): (r: bool)
    requires e.name.Some?
    ensures r <==> NameKey(q.name) == NameKey(e.name.value) && q.date == e.date
  {
    var nameMatch := NameKey(q.name) == NameKey(e.name.value);
    var dateMatch := q.date == e.date;
    var orgMatch := !Truthy(e.hostingOrg) || !Truthy(q.hostingOrg)
      || Lower(q.hostingOrg.value) == Lower(e.hostingOrg.value);
    (nameMatch && dateMatch) || (nameMatch && orgMatch && dateMatch)
  }

  /** `findSimilarQuiz(extracted)` over the stored list `quizzes`: null
      without a name or a date, else the first stored quiz with the same name
      key and date, and null when there is none. */
  function FindSimilarQuiz(quizzes: seq<Quiz>, e: Extraction): (r: Option<Quiz>)
    ensures !Truthy(e.name) || !Truthy(e.date) ==> r == None
    ensures r.Some? ==>
              Truthy(e.name) && Truthy(e.date) &&
              exists i :: 0 <= i < |quizzes| && quizzes[i] == r.value &&
                NameKey(r.value.name) == NameKey(e.name.value) && r.value.date == e.date &&
                forall j :: 0 <= j < i ==> !Matches(quizzes[j], e)
    ensures Truthy(e.name) && Truthy(e.date) && r.None? ==>
              forall j :: 0 <= j < |quizzes| ==> !Matches(quizzes[j], e)
  {
    if !Truthy(e.name) || !Truthy(e.date) then None
    else
      var i := FindIndex(quizzes, q => Matches(q, e));
      if i == -1 then None else Some(quizzes[i])
  }
}
