/** client/src/components/QuizEditor.jsx: the conversion of a stored quiz
    into the editor's form (`quizToForm`) and of the form back into the
    payload the admin API receives (`formToPayload`). Every form field is a
    string; list fields are edited as comma-separated text. */
module QuizEditor {
  import opened Js
  import opened Text
  import opened Seqs
  import opened Quizzes

  /** The form state: one string per input. */
  datatype Form = Form(
    name: string,
    description: string,
    date: string,
    time: string,
    venue: string,
    eligibility: string,
    hostingOrg: string,
    quizMasters: string,
    pocName: string,
    pocPhone: string,
    pocWhatsapp: string,
    regLink: string,
    instagramLink: string)

  /** `EMPTY_FORM`. */
  const EmptyForm := Form("", "", "", "", "", "", "", "", "", "", "", "", "")

  datatype PocFields = PocFields(name: string, phone: string, whatsapp: string)

  /** The object `formToPayload` returns. */
  datatype Payload = Payload(
    name: string,
    description: string,
    date: Option<string>,
    venue: string,
    eligibility: seq<string>,
    hostingOrg: string,
    quizMasters: seq<string>,
    poc: PocFields,
    regLink: string,
    instagramLink: string)

  /** What `new Date(text)` yields: an invalid date, or an instant with its
      `toISOString()` and its local `toTimeString()`. The browser's date
      parsing and time zone are not modelled; the editor's functions take
      them as a parameter. */
  datatype DateValue = InvalidDate | Instant(iso: string, timeString: string)

  /** `s.slice(0, n)`. */
  function Slice(s: string, n: nat): (r: string)
    ensures |r| <= n && |r| <= |s| && r == s[..|r|]
    ensures |s| >= n ==> |r| == n
  {
    if |s| <= n then s else s[..n]
  }

  /** `quizToForm(quiz)`. None models the RangeError `toISOString` throws on
      an invalid date. */
  function QuizToForm(quiz: Option<Quiz>, newDate: string -> DateValue): (r: Option<Form>)
    ensures quiz.None? ==> r == Some(EmptyForm)
    ensures r.None? <==> quiz.Some? && Truthy(quiz.value.date) && newDate(quiz.value.date.value).InvalidDate?
    ensures r.Some? ==> |r.value.date| <= 10 && |r.value.time| <= 5
    ensures quiz.Some? && !Truthy(quiz.value.date) ==> r.Some? && r.value.date == "" && r.value.time == ""
    ensures quiz.Some? && r.Some? ==> MissingAreEmpty(quiz.value, r.value)
  {
    match quiz
    case None => Some(EmptyForm)
    case Some(q) =>
      var d := if Truthy(q.date) then Some(newDate(q.date.value)) else None;
      if d.Some? && d.value.InvalidDate? then None
      else
        Some(Form(
          name := q.name,
          description := q.description,
          date := if d.Some? then Slice(d.value.iso, 10) else "",
          time := if d.Some? then Slice(d.value.timeString, 5) else "",
          venue := StrOr(q.venue, ""),
          eligibility := Join(q.eligibility, ", "),
          hostingOrg := StrOr(q.hostingOrg, ""),
          quizMasters := Join(q.quizMasters, ", "),
          pocName := StrOr(q.poc.name, ""),
          pocPhone := StrOr(q.poc.phone, ""),
          pocWhatsapp := StrOr(q.poc.whatsapp, ""),
          regLink := StrOr(q.regLink, ""),
          instagramLink := StrOr(q.instagramLink, "")))
  }

  /** Every optional text property the quiz lacks is an empty input, and
      an empty list is an empty input. */
  predicate MissingAreEmpty(q: Quiz, f: Form) {
    (q.venue.None? ==> f.venue == "")
    && (q.hostingOrg.None? ==> f.hostingOrg == "")
    && (q.poc.name.None? ==> f.pocName == "")
    && (q.poc.phone.None? ==> f.pocPhone == "")
    && (q.poc.whatsapp.None? ==> f.pocWhatsapp == "")
    && (q.regLink.None? ==> f.regLink == "")
    && (q.instagramLink.None? ==> f.instagramLink == "")
    && (q.eligibility == [] ==> f.eligibility == "")
    && (q.quizMasters == [] ==> f.quizMasters == "")
  }

  /** The local date-time text handed to `new Date`: the time defaults to
      midnight. */
  function LocalDateTime(form: Form): (r: string)
    ensures form.time == "" ==> r == form.date + "T00:00:00"
    ensures form.time != "" ==> r == form.date + "T" + form.time + ":00"
  {
    var timeStr := if form.time != "" then form.time else "00:00";
    form.date + "T" + timeStr + ":00"
  }

  /** `text.split(',').map(s => s.trim()).filter(Boolean)`. */
  function ListField(text: string): (r: seq<string>)
    ensures forall x :: x in r ==> x != "" && IsTrimmed(x) && ',' !in x
    ensures forall x :: x in r <==> x != "" && exists p :: p in Split(text, ',') && Trim(p) == x
  {
    var pieces := Split(text, ',');
    var trimmed := Map(pieces, Trim);
    TrimmedPieces(pieces);
    Filter(trimmed, NonEmpty)
  }

  /** `Boolean` as a filter on strings. */
  predicate NonEmpty(x: string) {
    x != ""
  }

  /** `formToPayload(form)`. None models the RangeError `toISOString`
      throws when the date and time inputs do not form a valid date. */
  function FormToPayload(form: Form, newDate: string -> DateValue): (r: Option<Payload>)
    ensures r.None? <==> form.date != "" && newDate(LocalDateTime(form)).InvalidDate?
    ensures r.Some? ==> (r.value.date.None? <==> form.date == "")
    ensures r.Some? && form.date != "" ==> r.value.date == Some(newDate(LocalDateTime(form)).iso)
    ensures r.Some? ==> r.value.eligibility == ListField(form.eligibility)
                        && r.value.quizMasters == ListField(form.quizMasters)
    ensures r.Some? ==> r.value.poc == PocFields(form.pocName, form.pocPhone, form.pocWhatsapp)
  {
    var date := if form.date != "" then Some(newDate(LocalDateTime(form))) else None;
    if date.Some? && date.value.InvalidDate? then None
    else
      Some(Payload(
        name := form.name,
        description := form.description,
        date := if date.Some? then Some(date.value.iso) else None,
        venue := form.venue,
        eligibility := ListField(form.eligibility),
        hostingOrg := form.hostingOrg,
        quizMasters := ListField(form.quizMasters),
        poc := PocFields(form.pocName, form.pocPhone, form.pocWhatsapp),
        regLink := form.regLink,
        instagramLink := form.instagramLink))
  }

  // ---------------------------------------------------------------------
  // Properties
  // ---------------------------------------------------------------------

  /** An item that survives editing unchanged: non-empty, comma-free and
      without surrounding whitespace. */
  predicate PlainItem(x: string) {
    x != "" && ',' !in x && IsTrimmed(x)
  }

  /** Each trimmed piece is trimmed, is comma-free when its piece is, and
      comes from a piece. */
  lemma TrimmedPieces(pieces: seq<string>)
    requires forall k :: 0 <= k < |pieces| ==> ',' !in pieces[k]
    ensures forall x :: x in Map(pieces, Trim) ==> IsTrimmed(x) && ',' !in x
    ensures forall x :: x in Map(pieces, Trim) <==> exists p :: p in pieces && Trim(p) == x
  {
    var trimmed := Map(pieces, Trim);
    forall x | x in trimmed
      ensures IsTrimmed(x) && ',' !in x
      ensures exists p :: p in pieces && Trim(p) == x
    {
      var i :| 0 <= i < |trimmed| && trimmed[i] == x;
      TrimIsTrimmed(pieces[i]);
      TrimWithin(pieces[i]);
      assert pieces[i] in pieces;
    }
    forall x | exists p :: p in pieces && Trim(p) == x
      ensures x in trimmed
    {
      var p :| p in pieces && Trim(p) == x;
      var i :| 0 <= i < |pieces| && pieces[i] == p;
      assert trimmed[i] == x;
    }
  }

  /** `trim` keeps a substring: it adds no character. */
  lemma TrimWithin(s: string)
    ensures forall c :: c in Trim(s) ==> c in s
  {
    var t := TrimStart(s);
    var r := TrimEnd(t);
    assert forall c :: c in r ==> c in t;
    assert forall c :: c in t ==> c in s;
  }

  /** Joining with ", " and reading the field back gives the list back. */
  lemma ListRoundTrip(xs: seq<string>)
    requires forall k :: 0 <= k < |xs| ==> PlainItem(xs[k])
    ensures ListField(Join(xs, ", ")) == xs
  {
    if |xs| == 0 {
      EmptyListField();
    } else {
      TrimJoined(xs);
      FilterAll(xs, NonEmpty);
    }
  }

  /** An empty field is an empty list. */
  lemma EmptyListField()
    ensures ListField("") == []
  {
    assert Split("", ',') == [""];
    assert Map([""], Trim) == [""];
    assert Filter([""], NonEmpty) == [];
  }

  /** The pieces of a joined list, trimmed, are its items. */
  lemma TrimJoined(xs: seq<string>)
    requires |xs| >= 1
    requires forall k :: 0 <= k < |xs| ==> PlainItem(xs[k])
    ensures Map(Split(Join(xs, ", "), ','), Trim) == xs
  {
    assert ", " == [','] + " ";
    SplitJoin(xs, ',', " ");
    TrimEach(xs, Split(Join(xs, ", "), ','));
  }

  lemma TrimEach(xs: seq<string>, pieces: seq<string>)
    requires |xs| >= 1
    requires pieces == [xs[0]] + seq(|xs| - 1, k requires 0 <= k < |xs| - 1 => " " + xs[k + 1])
    requires forall k :: 0 <= k < |xs| ==> PlainItem(xs[k])
    ensures Map(pieces, Trim) == xs
  {
    forall k | 0 <= k < |xs|
      ensures Trim(pieces[k]) == xs[k]
    {
      TrimAt(xs, pieces, k);
    }
  }

  lemma TrimAt(xs: seq<string>, pieces: seq<string>, k: nat)
    requires k < |xs|
    requires pieces == [xs[0]] + seq(|xs| - 1, k requires 0 <= k < |xs| - 1 => " " + xs[k + 1])
    requires IsTrimmed(xs[k])
    ensures Trim(pieces[k]) == xs[k]
  {
    if k > 0 {
      assert pieces[k] == " " + xs[k];
      TrimPadded(xs[k]);
    } else {
      TrimOfTrimmed(xs[k]);
    }
  }

  /** The space `join(', ')` puts before an item is trimmed away. */
  lemma TrimPadded(x: string)
    requires IsTrimmed(x)
    ensures Trim(" " + x) == x
  {
    assert " " + x == [' '] + x;
    TrimSpacePrefix(' ', x);
    TrimOfTrimmed(x);
  }

  /** Reading a list field, writing it back and reading it again changes
      nothing. */
  lemma ListFieldStable(text: string)
    ensures ListField(Join(ListField(text), ", ")) == ListField(text)
  {
    var xs := ListField(text);
    forall k | 0 <= k < |xs|
      ensures PlainItem(xs[k])
    {
      assert xs[k] in xs;
    }
    ListRoundTrip(xs);
  }

  /** Opening a quiz in the editor and saving it without changes gives back
      its lists, its text and its contact, provided its list items are plain. */
  lemma EditRoundTrip(q: Quiz, newDate: string -> DateValue)
    requires forall k :: 0 <= k < |q.eligibility| ==> PlainItem(q.eligibility[k])
    requires forall k :: 0 <= k < |q.quizMasters| ==> PlainItem(q.quizMasters[k])
    ensures var f := QuizToForm(Some(q), newDate);
            f.Some? ==>
              var p := FormToPayload(f.value, newDate);
              p.Some? ==>
                p.value.eligibility == q.eligibility && p.value.quizMasters == q.quizMasters
                && p.value.name == q.name && p.value.description == q.description
                && p.value.venue == StrOr(q.venue, "") && p.value.hostingOrg == StrOr(q.hostingOrg, "")
                && p.value.poc == PocFields(StrOr(q.poc.name, ""), StrOr(q.poc.phone, ""), StrOr(q.poc.whatsapp, ""))
                && p.value.regLink == StrOr(q.regLink, "") && p.value.instagramLink == StrOr(q.instagramLink, "")
  {
    var f := QuizToForm(Some(q), newDate);
    if f.Some? {
      assert f.value.eligibility == Join(q.eligibility, ", ");
      assert f.value.quizMasters == Join(q.quizMasters, ", ");
      ListRoundTrip(q.eligibility);
      ListRoundTrip(q.quizMasters);
    }
  }

  /** A quiz without a date is saved with a null date. */
  lemma DatelessStaysDateless(q: Quiz, newDate: string -> DateValue)
    requires !Truthy(q.date)
    ensures var f := QuizToForm(Some(q), newDate);
            f.Some? && FormToPayload(f.value, newDate).Some?
            && FormToPayload(f.value, newDate).value.date.None?
  {
  }

  /** Saving the untouched new-quiz form sends empty text, empty lists and a
      null date. */
  lemma EmptyFormPayload(newDate: string -> DateValue)
    ensures FormToPayload(EmptyForm, newDate)
            == Some(Payload("", "", None, "", [], "", [], PocFields("", "", ""), "", ""))
  {
    ListRoundTrip([]);
  }
}
