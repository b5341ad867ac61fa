/** client/src/components/AdminPanel.jsx: the small display rules of the
    admin table: the status badge, the WhatsApp status dot, the date cell
    and which rows offer Publish. Rendering is outside the model. */
module AdminPanel {
  import opened Js
  import opened Quizzes
  import Schema

  const Badges: seq<string> := ["flagged", "draft", "published"]

  /** `statusBadge(quiz)`: flagged and draft show as such, anything else
      (a missing status included) as published. */
  function StatusBadge(status: string): (r: string)
    ensures r in Badges
    ensures status in Badges ==> r == status
    ensures status !in Badges ==> r == "published"
  {
    if status == "flagged" then "flagged"
    else if status == "draft" then "draft"
    else "published"
  }

  /** Every status the quiz schema admits is shown as itself: the badges are
      exactly the schema's statuses. */
  lemma BadgesAreSchemaStatuses(status: string)
    ensures status in Schema.Statuses <==> status in Badges
    ensures status in Schema.Statuses ==> StatusBadge(status) == status
  {
  }

  /** The `/api/sync/status` fields the dot reads; None when no status has
      arrived. */
  datatype WaStatus = WaStatus(loggedOut: bool, connected: bool)

  datatype Dot = Dot(colorClass: string, text: string)

  /** `WaStatusDot({ status })`: a logged-out session is shown as such even
      when still connected. */
  function StatusDot(status: Option<WaStatus>): (r: Dot)
    ensures r.text == "Unknown" <==> status.None?
    ensures r.text == "Logged out" <==> status.Some? && status.value.loggedOut
    ensures r.text == "Connected" <==> status.Some? && !status.value.loggedOut && status.value.connected
    ensures r.text == "Disconnected" <==> status.Some? && !status.value.loggedOut && !status.value.connected
    ensures r.colorClass == "wa-status--connected" <==> r.text == "Connected"
    ensures r.colorClass == "wa-status--disconnected" <==> r.text == "Logged out"
  {
    var unknown := Dot("wa-status--unknown", "Unknown");
    if status.None? then unknown
    else if status.value.loggedOut then Dot("wa-status--disconnected", "Logged out")
    else if status.value.connected then Dot("wa-status--connected", "Connected")
    else unknown.(text := "Disconnected")
  }

  /** `formatDate(dateStr)`: "--" for a missing or empty date, the raw text
      when the browser cannot parse it, else the locale rendering (a
      parameter: None stands for an invalid Date). */
  function FormatDate(dateStr: Option<string>, render: string -> Option<string>): (r: string)
    ensures !Truthy(dateStr) ==> r == "--"
    ensures Truthy(dateStr) && render(dateStr.value).None? ==> r == dateStr.value
    ensures Truthy(dateStr) && render(dateStr.value).Some? ==> r == render(dateStr.value).value
  {
    if !Truthy(dateStr) then "--"
    else if render(dateStr.value).None? then dateStr.value
    else render(dateStr.value).value
  }

  /** The Publish button is offered on flagged rows only. */
  predicate OffersPublish(q: Quiz) {
    q.status == "flagged"
  }

  /** A flagged row offers Publish; once `POST /:id/publish` has set the
      status, the row shows the published badge and no longer offers it. */
  lemma PublishedRowSettles(q: Quiz, now: string)
    requires OffersPublish(q)
    ensures StatusBadge(q.status) == "flagged"
    ensures var after := q.(status := "published", updatedAt := now);
            !OffersPublish(after) && StatusBadge(after.status) == "published"
  {
  }
}
