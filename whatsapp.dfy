/** The decision logic of server/sync/whatsapp.js: merging a caption-less
    image with the text sent next to it, collecting history first-wins,
    processing one message into a stored quiz, ordering each group's batch
    and reacting to a closed connection. The socket, the media download, the
    extractor and the clock are parameters. */
module WhatsApp {
  import opened Js
  import opened Text
  import opened Seqs
  import opened Quizzes
  import opened Ingest
  import opened Dedup
  import opened Store

  /** The content type `getContentType` reports and the fields read from it. */
  datatype Content =
    | Conversation(conversation: Option<string>)
    | ExtendedText(text: Option<string>)
    | Image(caption: Option<string>)
    | Other

  /** A message as the history sync delivers it. An absent key field is "",
      an absent timestamp 0 (the sources read them through `|| ''` and `|| 0`).
      `mergedIds` is the `_mergedIds` the merge step attaches. */
  datatype Message = Message(remoteJid: string, participant: string, id: string,
                             timestamp: int, content: Content,
                             mergedIds: Option<seq<string>>)

  /** Seconds within which an image and a text may be fused. */
  const Window := 120

  /** `key.participant || key.remoteJid`. */
  function Sender(m: Message): string {
    if m.participant != "" then m.participant else m.remoteJid
  }

  /** The sort comparator: by group id, then by ascending timestamp;
      `le(a, b)` means the comparator returns at most 0. */
  predicate GroupThenTime(a: Message, b: Message) {
    if a.remoteJid == b.remoteJid then a.timestamp <= b.timestamp
    else StrLe(a.remoteJid, b.remoteJid)
  }

  lemma GroupThenTimeOrder()
    ensures Total(GroupThenTime) && Transitive(GroupThenTime)
  {
    forall a: Message, b: Message ensures GroupThenTime(a, b) || GroupThenTime(b, a) {
      StrLeTotal(a.remoteJid, b.remoteJid);
    }
    forall a: Message, b: Message, c: Message | GroupThenTime(a, b) && GroupThenTime(b, c)
      ensures GroupThenTime(a, c)
    {
      if a.remoteJid != b.remoteJid && b.remoteJid != c.remoteJid {
        StrLeTrans(a.remoteJid, b.remoteJid, c.remoteJid);
        if a.remoteJid == c.remoteJid {
          StrLeAntisym(a.remoteJid, b.remoteJid);
        }
      }
    }
  }

  predicate IsText(c: Content) { c.Conversation? || c.ExtendedText? }

  predicate IsBareImage(c: Content) { c.Image? && !Truthy(c.caption) }

  function Abs(x: int): nat { if x < 0 then -x else x }

  /** `canMerge`: same group, same sender, at most `Window` seconds apart. */
  predicate CanMerge(cur: Message, nxt: Message) {
    cur.remoteJid == nxt.remoteJid && Sender(cur) == Sender(nxt)
    && Abs(nxt.timestamp - cur.timestamp) <= Window
  }

  predicate ImgThenTxt(cur: Message, nxt: Message) {
    IsBareImage(cur.content) && IsText(nxt.content)
  }

  predicate TxtThenImg(cur: Message, nxt: Message) {
    IsText(cur.content) && IsBareImage(nxt.content)
  }

  /** Two adjacent sorted messages that the scan fuses. */
  predicate Pairable(cur: Message, nxt: Message) {
    CanMerge(cur, nxt) && (ImgThenTxt(cur, nxt) || TxtThenImg(cur, nxt))
  }

  /** `message.conversation || message.extendedTextMessage?.text`. */
  function TextOf(c: Content): Option<string> {
    match c
    case Conversation(t) => if Truthy(t) then t else None
    case ExtendedText(t) => t
    case _ => None
  }

  /** The clone pushed for a fused pair: the image message with the text as
      its caption and both ids, in sorted order, as `_mergedIds`. */
  function Fuse(cur: Message, nxt: Message): (r: Message)
    requires Pairable(cur, nxt)
    ensures r.mergedIds == Some([cur.id, nxt.id]) && r.content.Image?
    ensures r.remoteJid == cur.remoteJid
  {
    var img := if ImgThenTxt(cur, nxt) then cur else nxt;
    var txt := if ImgThenTxt(cur, nxt) then nxt else cur;
    img.(content := Image(TextOf(txt.content)), mergedIds := Some([cur.id, nxt.id]))
  }

  /** Whichever order the pair came in, the fused message is the image
      message with the text message's text as its caption: every other field
      is the image message's own. */
  lemma FuseKeepsImage(cur: Message, nxt: Message, image: Message, text: Message)
    requires Pairable(cur, nxt)
    requires (image == cur && text == nxt) || (image == nxt && text == cur)
    requires IsBareImage(image.content) && IsText(text.content)
    ensures Fuse(cur, nxt).content == Image(TextOf(text.content))
    ensures Fuse(cur, nxt).(content := image.content, mergedIds := image.mergedIds) == image
    ensures Fuse(cur, nxt).mergedIds == Some([cur.id, nxt.id])
  {
    if image == nxt {
      assert !IsBareImage(cur.content);
    }
  }

  /** The single-lookahead scan over the sorted messages from index `i`. */
  function MergeFrom(s: seq<Message>, i: nat): seq<Message>
    decreases |s| - i
  {
    if i >= |s| then []
    else if i + 1 < |s| && Pairable(s[i], s[i + 1]) then [Fuse(s[i], s[i + 1])] + MergeFrom(s, i + 2)
    else [s[i]] + MergeFrom(s, i + 1)
  }

  /** `mergeConsecutiveMessages(messages)` as a value. */
  function MergeConsecutive(messages: seq<Message>): seq<Message> {
    if |messages| <= 1 then messages else MergeFrom(SortBy(messages, GroupThenTime), 0)
  }

  /** `mergeConsecutiveMessages(messages)`. */
  method MergeConsecutiveMessages(messages: seq<Message>) returns (merged: seq<Message>)
    ensures merged == MergeConsecutive(messages)
    ensures |messages| <= 1 ==> merged == messages
  {
    if |messages| <= 1 {
      return messages;
    }
    var sorted := SortBy(messages, GroupThenTime);
    merged := [];
    var i := 0;
    while i < |sorted|
      invariant 0 <= i <= |sorted| + 1
      invariant merged + MergeFrom(sorted, i) == MergeFrom(sorted, 0)
      decreases |sorted| - i
    {
      var cur := sorted[i];
      if i + 1 < |sorted| {
        var nxt := sorted[i + 1];
        if Pairable(cur, nxt) {
          MergeFromPair(sorted, i);
          ConcatSnoc(merged, Fuse(cur, nxt), MergeFrom(sorted, i + 2));
          merged := merged + [Fuse(cur, nxt)];
          i := i + 2;
          continue;
        }
      }
      MergeFromSingle(sorted, i);
      ConcatSnoc(merged, cur, MergeFrom(sorted, i + 1));
      merged := merged + [cur];
      i := i + 1;
    }
  }

  lemma ConcatSnoc<T>(a: seq<T>, x: T, b: seq<T>)
    ensures (a + [x]) + b == a + ([x] + b)
  {
  }

  /** `msg._mergedIds || [messageId]`. */
  function AllIds(m: Message): seq<string> {
    m.mergedIds.GetOr([m.id])
  }

  function FlatIds(ms: seq<Message>): seq<string> {
    if |ms| == 0 then [] else AllIds(ms[0]) + FlatIds(ms[1..])
  }

  function IdOf(m: Message): string { m.id }

  predicate Fresh(m: Message) { m.mergedIds.None? }

  predicate IsMerged(m: Message) { m.mergedIds.Some? }

  lemma FlatIdsCons(m: Message, ms: seq<Message>)
    ensures FlatIds([m] + ms) == AllIds(m) + FlatIds(ms)
  {
    assert ([m] + ms)[1..] == ms;
  }

  /** One step of the scan when the pair at `i` is fused. */
  lemma MergeFromPair(s: seq<Message>, i: nat)
    requires i + 1 < |s| && Pairable(s[i], s[i + 1])
    ensures MergeFrom(s, i) == [Fuse(s[i], s[i + 1])] + MergeFrom(s, i + 2)
  {
  }

  /** One step of the scan when the message at `i` passes through. */
  lemma MergeFromSingle(s: seq<Message>, i: nat)
    requires i < |s| && !(i + 1 < |s| && Pairable(s[i], s[i + 1]))
    ensures MergeFrom(s, i) == [s[i]] + MergeFrom(s, i + 1)
  {
  }

  /** Over messages not yet merged, the scan's id lists are the input ids in
      order. */
  lemma {:induction false} MergeFromIds(s: seq<Message>, i: nat)
    requires i <= |s|
    requires forall j :: 0 <= j < |s| ==> Fresh(s[j])
    ensures FlatIds(MergeFrom(s, i)) == Map(s[i..], IdOf)
    decreases |s| - i
  {
    if i == |s| {
    } else if i + 1 < |s| && Pairable(s[i], s[i + 1]) {
      MergeFromIds(s, i + 2);
      var f := Fuse(s[i], s[i + 1]);
      MergeFromPair(s, i);
      FlatIdsCons(f, MergeFrom(s, i + 2));
      assert AllIds(f) == [s[i].id, s[i + 1].id];
      IdsFromTwo(s, i);
    } else {
      MergeFromIds(s, i + 1);
      MergeFromSingle(s, i);
      FlatIdsCons(s[i], MergeFrom(s, i + 1));
      assert Fresh(s[i]);
      assert AllIds(s[i]) == [s[i].id];
      IdsFromOne(s, i);
    }
  }

  lemma IdsFromOne(s: seq<Message>, i: nat)
    requires i < |s|
    ensures Map(s[i..], IdOf) == [s[i].id] + Map(s[i + 1..], IdOf)
  {
    assert s[i..] == [s[i]] + s[i + 1..];
    MapAppend([s[i]], s[i + 1..], IdOf);
  }

  lemma IdsFromTwo(s: seq<Message>, i: nat)
    requires i + 1 < |s|
    ensures Map(s[i..], IdOf) == [s[i].id, s[i + 1].id] + Map(s[i + 2..], IdOf)
  {
    assert s[i..] == [s[i], s[i + 1]] + s[i + 2..];
    MapAppend([s[i], s[i + 1]], s[i + 2..], IdOf);
  }

  /** Every fused item accounts for one message fewer. */
  lemma {:induction false} MergeFromLength(s: seq<Message>, i: nat)
    requires i <= |s|
    requires forall j :: 0 <= j < |s| ==> Fresh(s[j])
    ensures |MergeFrom(s, i)| + Count(MergeFrom(s, i), IsMerged) == |s| - i
    decreases |s| - i
  {
    if i == |s| {
    } else if i + 1 < |s| && Pairable(s[i], s[i + 1]) {
      MergeFromLength(s, i + 2);
      LengthAfterPair(s, i);
    } else {
      MergeFromLength(s, i + 1);
      LengthAfterSingle(s, i);
    }
  }

  lemma LengthAfterPair(s: seq<Message>, i: nat)
    requires i + 1 < |s| && Pairable(s[i], s[i + 1])
    requires |MergeFrom(s, i + 2)| + Count(MergeFrom(s, i + 2), IsMerged) == |s| - i - 2
    ensures |MergeFrom(s, i)| + Count(MergeFrom(s, i), IsMerged) == |s| - i
  {
    MergeFromPair(s, i);
    MergedCountCons(Fuse(s[i], s[i + 1]), MergeFrom(s, i + 2), |s| - i - 2);
  }

  lemma LengthAfterSingle(s: seq<Message>, i: nat)
    requires i < |s| && !(i + 1 < |s| && Pairable(s[i], s[i + 1])) && Fresh(s[i])
    requires |MergeFrom(s, i + 1)| + Count(MergeFrom(s, i + 1), IsMerged) == |s| - i - 1
    ensures |MergeFrom(s, i)| + Count(MergeFrom(s, i), IsMerged) == |s| - i
  {
    MergeFromSingle(s, i);
    MergedCountCons(s[i], MergeFrom(s, i + 1), |s| - i - 1);
  }

  /** A message in front adds one to the length, and one more when it is a
      merged one. */
  lemma MergedCountCons(m: Message, rest: seq<Message>, n: int)
    requires |rest| + Count(rest, IsMerged) == n
    ensures |[m] + rest| + Count([m] + rest, IsMerged) == n + 1 + (if IsMerged(m) then 1 else 0)
  {
    FilterAppend([m], rest, IsMerged);
    assert Filter([m], IsMerged) == if IsMerged(m) then [m] else [];
  }

  /** Every output item is an input message, or the fusion of two messages
      adjacent in sorted order that satisfy all the merge conditions. */
  lemma {:induction false} MergeFromItems(s: seq<Message>, i: nat, k: int)
    requires 0 <= k < |MergeFrom(s, i)|
    ensures MergeFrom(s, i)[k] in s ||
            exists j :: 0 <= j < |s| - 1 && Pairable(s[j], s[j + 1]) && MergeFrom(s, i)[k] == Fuse(s[j], s[j + 1])
    decreases |s| - i
  {
    if i + 1 < |s| && Pairable(s[i], s[i + 1]) {
      if k > 0 {
        MergeFromItems(s, i + 2, k - 1);
      }
    } else if k > 0 {
      MergeFromItems(s, i + 1, k - 1);
    }
  }

  /** The id lists of the merged output are a permutation of the input ids,
      and the output is shorter than the input by the number of fused items. */
  lemma MergeConsecutivePartition(messages: seq<Message>)
    requires forall i :: 0 <= i < |messages| ==> Fresh(messages[i])
    ensures multiset(FlatIds(MergeConsecutive(messages))) == multiset(Map(messages, IdOf))
    ensures |MergeConsecutive(messages)| + Count(MergeConsecutive(messages), IsMerged) == |messages|
  {
    if |messages| <= 1 {
      MergeFromIds(messages, 0);
      MergeFromLength(messages, 0);
      assert MergeFrom(messages, 0) == messages by {
        if |messages| == 1 {
          assert MergeFrom(messages, 1) == [];
        }
      }
    } else {
      var sorted := SortBy(messages, GroupThenTime);
      assert multiset(sorted) == multiset(messages);
      forall i | 0 <= i < |sorted| ensures Fresh(sorted[i]) {
        assert sorted[i] in multiset(messages);
      }
      MergeFromIds(sorted, 0);
      MergeFromLength(sorted, 0);
      assert sorted[0..] == sorted;
      MapPermutation(sorted, messages, IdOf);
    }
  }

  // ---- collect ----

  /** The `collected` Map (in insertion order), the target groups and the
      `lastActivity` clock of one sync run. */
  class Collector {
    const targetGroups: set<string>
    var order: seq<string>
    var collected: map<string, Message>
    var lastActivity: int

    ghost predicate Valid()
      reads this
    {
      (forall i, j :: 0 <= i < j < |order| ==> order[i] != order[j])
      && (forall k :: k in collected <==> k in order)
    }

    constructor(targets: set<string>, now: int)
      ensures Valid() && targetGroups == targets
      ensures order == [] && collected == map[] && lastActivity == now
    {
      targetGroups := targets;
      order := [];
      collected := map[];
      lastActivity := now;
    }

    /** `[...collected.values()]`. */
    function Values(): (vs: seq<Message>)
      requires Valid()
      reads this
      ensures |vs| == |order|
      ensures forall i :: 0 <= i < |order| ==> vs[i] == collected[order[i]]
    {
      seq(|order|, i requires 0 <= i < |order| reads this requires Valid() => collected[order[i]])
    }

    /** `collect(msg)`: a message of a target group with a new, non-empty id
        is stored and refreshes `lastActivity`; anything else changes nothing,
        so the first message seen under an id wins. */
    method Collect(msg: Message, now: int)
      requires Valid()
      modifies this
      ensures Valid()
      ensures if msg.remoteJid in targetGroups && msg.id != "" && msg.id !in old(collected)
              then order == old(order) + [msg.id] && collected == old(collected)[msg.id := msg]
                   && lastActivity == now
              else order == old(order) && collected == old(collected) && lastActivity == old(lastActivity)
    {
      if msg.remoteJid !in targetGroups {
        return;
      }
      var id := msg.id;
      if id != "" && id !in collected {
        collected := collected[id := msg];
        order := order + [id];
        lastActivity := now;
      }
    }
  }

  // ---- processMessage ----

  /** The text `processMessage` hands to the extractor. */
  function CaptionOf(c: Content): Option<string> {
    match c
    case Conversation(t) => t
    case ExtendedText(t) => t
    case Image(t) => t
    case Other => None
  }

  const PostersDir := "data/posters/"

  /** `imagePath`: set for an image whose download returned the file name
      `<uuid>.jpg`, even if writing the file then fails. */
  function ImagePath(c: Content, download: Option<string>): Option<string> {
    if c.Image? && download.Some? then Some(PostersDir + download.value) else None
  }

  /** The quiz literal of whatsapp.js for a reply with a name. */
  function WhatsAppQuiz(msg: Message, groupId: string, e: Extraction, threshold: real,
                        city: Option<string>, download: Option<string>, newId: string,
                        isoOfSeconds: int -> string, now: string): (q: Quiz)
    requires Truthy(e.name)
    ensures q.source == Some("whatsapp") && q.sourceId == Some("whatsapp:" + msg.id)
    ensures q.sourceGroupId == Some(groupId) && q.sourceMessageId == Some(msg.id)
    ensures q.city == ResolveCity(e, city)
    ensures q.posterImage.Some? <==> ImagePath(msg.content, download).Some?
  {
    var image := ImagePath(msg.content, download);
    QuizFromExtraction(e, newId, threshold, ResolveCity(e, city), now).(
      source := Some("whatsapp"),
      sourceId := Some("whatsapp:" + msg.id),
      sourceGroupId := Some(groupId),
      posterImage := if image.Some? then Some("posters/" + download.value) else None,
      sourceCaption := OrNull(CaptionOf(msg.content)),
      sourceMessageId := Some(msg.id),
      sourceTimestamp := Some(if msg.timestamp != 0 then isoOfSeconds(msg.timestamp) else now))
  }

  /** `allIds.forEach(id => markMessageProcessed(id))`. */
  method MarkAll(store: Store, ids: seq<string>, now: string)
    modifies store
    ensures store.processedMessageIds == old(store.processedMessageIds) + ids
    ensures store.lastSyncTimestamp == if |ids| > 0 then Some(now) else old(store.lastSyncTimestamp)
    ensures store.quizzes == old(store.quizzes) && store.cities == old(store.cities)
  {
    var k := 0;
    while k < |ids|
      invariant 0 <= k <= |ids|
      invariant store.processedMessageIds == old(store.processedMessageIds) + ids[..k]
      invariant store.lastSyncTimestamp == if k > 0 then Some(now) else old(store.lastSyncTimestamp)
      invariant store.quizzes == old(store.quizzes) && store.cities == old(store.cities)
    {
      store.MarkMessageProcessed(ids[k], now);
      assert ids[..k + 1] == ids[..k] + [ids[k]];
      k := k + 1;
    }
    assert ids[..k] == ids;
  }

  /** The skip test as written, `allIds.every(id => isDuplicate('whatsapp', id))`:
      `isDuplicate` reads only its first argument, so every id is tested as
      the string "whatsapp". */
  predicate SkipAsWritten(processed: seq<string>, ids: seq<string>) {
    |ids| == 0 || IsDuplicate(processed, "whatsapp")
  }

  /** The intended skip test: every id of the message is already in the ledger. */
  function AlreadyProcessed(processed: seq<string>, ids: seq<string>): (r: bool)
    ensures r <==> forall i :: 0 <= i < |ids| ==> IsDuplicate(processed, ids[i])
  {
    forall i :: 0 <= i < |ids| ==> ids[i] in processed
  }

  /** With the intended test a message whose ids were marked is skipped on
      the next run, and one with an unmarked id is not. */
  lemma MarkedIdsAreSkipped(processed: seq<string>, ids: seq<string>, id: string)
    ensures AlreadyProcessed(processed + ids, ids)
    ensures id in ids && id !in processed ==> !AlreadyProcessed(processed, ids)
  {
    forall i | 0 <= i < |ids| ensures ids[i] in processed + ids {
      assert (processed + ids)[|processed| + i] == ids[i];
    }
  }

  /** As written, a message marked on the previous run is extracted again:
      after `m1` is marked the ledger is ["m1"] and the test still fails. */
  lemma MarkedIdsAreReprocessed()
    ensures !SkipAsWritten([] + ["m1"], ["m1"])
    ensures AlreadyProcessed([] + ["m1"], ["m1"])
  {
    assert [] + ["m1"] == ["m1"];
    assert "whatsapp" != "m1";
  }

  /** The part of the store that processing a message can change: the
      quizzes file and the sync state (the ledger and the last sync time). */
  datatype SyncState = SyncState(quizzes: seq<Quiz>, processed: seq<string>, lastSync: Option<string>)

  /** The outcome `processMessage` reaches for `msg` against the state `st`. */
  function MessageOutcome(st: SyncState, msg: Message, groupId: string, threshold: real,
                          city: Option<string>, download: Option<string>,
                          extract: (Option<string>, Option<string>) -> Reply,
                          newId: string, isoOfSeconds: int -> string, now: string): Outcome
  {
    var caption := CaptionOf(msg.content);
    var image := ImagePath(msg.content, download);
    if SkipAsWritten(st.processed, AllIds(msg)) then Skipped
    else if !Truthy(caption) && image.None? then NothingToExtract
    else
      var reply := extract(caption, image);
      if reply.Threw? then ExtractionFailed
      else if reply.result.None? || !Truthy(reply.result.value.name) then NoName
      else if FindSimilarQuiz(st.quizzes, reply.result.value).Some? then Similar
      else Added(WhatsAppQuiz(msg, groupId, reply.result.value, threshold, city, download,
                              newId, isoOfSeconds, now))
  }

  /** Each outcome of `processMessage` happens exactly under its condition,
      tested in source order, and an added quiz is the one built from the reply. */
  lemma MessageOutcomeSpec(st: SyncState, msg: Message, groupId: string, threshold: real,
                           city: Option<string>, download: Option<string>,
                           extract: (Option<string>, Option<string>) -> Reply,
                           newId: string, isoOfSeconds: int -> string, now: string)
    ensures var r := MessageOutcome(st, msg, groupId, threshold, city, download, extract,
                                    newId, isoOfSeconds, now);
            var ids := AllIds(msg);
            var caption := CaptionOf(msg.content);
            var image := ImagePath(msg.content, download);
            var reply := extract(caption, image);
            (r == Skipped <==> SkipAsWritten(st.processed, ids))
            && (r == NothingToExtract <==>
                  r != Skipped && !Truthy(caption) && image.None?)
            && (r == ExtractionFailed <==>
                  r !in {Skipped, NothingToExtract} && reply.Threw?)
            && (r == NoName <==>
                  r !in {Skipped, NothingToExtract, ExtractionFailed}
                  && (reply.result.None? || !Truthy(reply.result.value.name)))
            && (r == Similar <==>
                  r !in {Skipped, NothingToExtract, ExtractionFailed, NoName}
                  && FindSimilarQuiz(st.quizzes, reply.result.value).Some?)
            && (r.Added? ==>
                  reply.Returned? && reply.result.Some? && Truthy(reply.result.value.name)
                  && r.quiz == WhatsAppQuiz(msg, groupId, reply.result.value, threshold,
                                            city, download, newId, isoOfSeconds, now))
  {
  }

  /** The state once `processMessage` reached `o` for `msg`: a message the
      extractor answered has all its ids marked, which stamps the sync time,
      and an added quiz is appended to the quizzes file. */
  function AfterMessage(st: SyncState, msg: Message, o: Outcome, now: string): SyncState {
    if o.Skipped? || o.NothingToExtract? || o.ExtractionFailed? then st
    else SyncState(if o.Added? then st.quizzes + [o.quiz] else st.quizzes,
                   st.processed + AllIds(msg), Some(now))
  }

  /** Skipping, finding nothing to extract and an extractor failure change
      nothing; no name and a similar quiz mark every id of the message and
      stamp the sync time; an added quiz is also appended to the file. */
  lemma AfterMessageSpec(st: SyncState, msg: Message, o: Outcome, now: string)
    requires o.Skipped? || o.NothingToExtract? || o.ExtractionFailed? || |AllIds(msg)| > 0
    ensures o.Skipped? || o.NothingToExtract? || o.ExtractionFailed? ==> AfterMessage(st, msg, o, now) == st
    ensures o.NoName? || o.Similar? ==>
              AfterMessage(st, msg, o, now) == SyncState(st.quizzes, st.processed + AllIds(msg), Some(now))
    ensures o.Added? ==>
              AfterMessage(st, msg, o, now) == SyncState(st.quizzes + [o.quiz], st.processed + AllIds(msg), Some(now))
    ensures (AfterMessage(st, msg, o, now).lastSync == Some(now)) <==>
              (!(o.Skipped? || o.NothingToExtract? || o.ExtractionFailed?) || st.lastSync == Some(now))
    ensures |AfterMessage(st, msg, o, now).processed| > |st.processed| <==>
              !(o.Skipped? || o.NothingToExtract? || o.ExtractionFailed?)
  {
  }

  /** The bookkeeping of a message the extractor answered: `addQuiz` for
      an added quiz, then `markMessageProcessed` for each of its ids. */
  method Record(store: Store, msg: Message, o: Outcome, now: string)
    requires o.NoName? || o.Similar? || o.Added?
    requires |AllIds(msg)| > 0
    modifies store
    ensures SyncState(store.quizzes, store.processedMessageIds, store.lastSyncTimestamp)
            == AfterMessage(SyncState(old(store.quizzes), old(store.processedMessageIds),
                                      old(store.lastSyncTimestamp)), msg, o, now)
    ensures store.cities == old(store.cities)
  {
    if o.Added? {
      var added := store.AddQuiz(o.quiz);
    }
    MarkAll(store, AllIds(msg), now);
  }

  /** `processMessage(msg, groupId, threshold, sock, city)`. `download` is
      the file name the media step produced (None when it threw), `extract`
      the extractor, `newId` the quiz's uuid. */
  method ProcessMessage(store: Store, msg: Message, groupId: string, threshold: real,
                        city: Option<string>, download: Option<string>,
                        extract: (Option<string>, Option<string>) -> Reply,
                        newId: string, isoOfSeconds: int -> string, now: string)
    returns (outcome: Outcome)
    modifies store
    ensures outcome.Skipped? || outcome.NothingToExtract? || outcome.ExtractionFailed? ==>
              store.quizzes == old(store.quizzes)
              && store.processedMessageIds == old(store.processedMessageIds)
              && store.lastSyncTimestamp == old(store.lastSyncTimestamp)
    ensures outcome.NoName? || outcome.Similar? ==>
              store.quizzes == old(store.quizzes)
              && store.processedMessageIds == old(store.processedMessageIds) + AllIds(msg)
              && store.lastSyncTimestamp == Some(now)
    ensures outcome.Added? ==>
              store.quizzes == old(store.quizzes) + [outcome.quiz]
              && store.processedMessageIds == old(store.processedMessageIds) + AllIds(msg)
              && store.lastSyncTimestamp == Some(now)
    ensures store.cities == old(store.cities)
    ensures var before := SyncState(old(store.quizzes), old(store.processedMessageIds),
                                    old(store.lastSyncTimestamp));
            outcome == MessageOutcome(before, msg, groupId, threshold, city, download, extract,
                                      newId, isoOfSeconds, now)
            && SyncState(store.quizzes, store.processedMessageIds, store.lastSyncTimestamp)
               == AfterMessage(before, msg, outcome, now)
  {
    ghost var before := SyncState(store.quizzes, store.processedMessageIds, store.lastSyncTimestamp);
    ghost var expected := MessageOutcome(before, msg, groupId, threshold, city, download, extract,
                                         newId, isoOfSeconds, now);
    var allIds := AllIds(msg);
    var processed := store.IsMessageProcessed("whatsapp");
    if |allIds| == 0 || processed {
      assert expected == Skipped;
      return Skipped;
    }
    var captionText := CaptionOf(msg.content);
    var imagePath := ImagePath(msg.content, download);
    if !Truthy(captionText) && imagePath.None? {
      assert expected == NothingToExtract;
      return NothingToExtract;
    }
    var reply := extract(captionText, imagePath);
    if reply.Threw? {
      assert expected == ExtractionFailed;
      return ExtractionFailed;
    }
    if reply.result.None? || !Truthy(reply.result.value.name) {
      assert expected == NoName;
      Record(store, msg, NoName, now);
      return NoName;
    }
    var extracted := reply.result.value;
    var quizCity := ResolveCity(extracted, city);
    var similar := FindSimilarQuiz(store.quizzes, extracted);
    if similar.Some? {
      assert expected == Similar;
      Record(store, msg, Similar, now);
      return Similar;
    }
    var quiz := WhatsAppQuiz(msg, groupId, extracted, threshold, city, download, newId, isoOfSeconds, now);
    assert expected == Added(quiz);
    Record(store, msg, Added(quiz), now);
    return Added(quiz);
  }

  // ---- per-group batches ----

  /** The comparator `Number(b.messageTimestamp) - Number(a.messageTimestamp)`. */
  predicate NewerFirst(a: Message, b: Message) {
    b.timestamp <= a.timestamp
  }

  lemma NewerFirstOrder()
    ensures Total(NewerFirst) && Transitive(NewerFirst)
  {
  }

  /** `m => m.key?.remoteJid === gid`. */
  function InGroup(gid: string): Message -> bool {
    (m: Message) => m.remoteJid == gid
  }

  /** `all.filter(m => m.key?.remoteJid === gid).sort(newest first)`. */
  function GroupBatch(all: seq<Message>, gid: string): seq<Message> {
    SortBy(Filter(all, InGroup(gid)), NewerFirst)
  }

  /** A group's batch holds exactly that group's messages, newest first. */
  lemma GroupBatchOrder(all: seq<Message>, gid: string)
    ensures multiset(GroupBatch(all, gid)) == multiset(Filter(all, InGroup(gid)))
    ensures forall i :: 0 <= i < |GroupBatch(all, gid)| ==> GroupBatch(all, gid)[i].remoteJid == gid
    ensures forall i, j :: 0 <= i < j < |GroupBatch(all, gid)| ==>
              GroupBatch(all, gid)[j].timestamp <= GroupBatch(all, gid)[i].timestamp
  {
    var f := Filter(all, InGroup(gid));
    var b := SortBy(f, NewerFirst);
    NewerFirstOrder();
    SortBySorted(f, NewerFirst);
    assert Sorted(b, NewerFirst);
    forall i | 0 <= i < |b| ensures b[i].remoteJid == gid {
      assert b[i] in multiset(f);
      assert b[i] in f;
      assert InGroup(gid)(b[i]);
    }
  }

  /** The per-message collaborators of the extraction loop: the media
      step, the extractor, uuid generation and the clock. */
  datatype Oracles = Oracles(download: Message -> Option<string>,
                             extract: (Option<string>, Option<string>) -> Reply,
                             newId: Message -> string, isoOfSeconds: int -> string,
                             now: string)

  /** The state so far and the quizzes `results` holds so far. */
  datatype Run = Run(state: SyncState, added: seq<Quiz>)

  /** One `processMessage` call of the loop and the push of its quiz. */
  function Step(r: Run, msg: Message, gid: string, city: Option<string>, threshold: real,
                env: Oracles): Run
  {
    var o := MessageOutcome(r.state, msg, gid, threshold, city, env.download(msg), env.extract,
                            env.newId(msg), env.isoOfSeconds, env.now);
    Run(AfterMessage(r.state, msg, o, env.now), if o.Added? then r.added + [o.quiz] else r.added)
  }

  /** `for (const msg of msgs)`: the messages of one batch in order. */
  function RunBatch(r: Run, msgs: seq<Message>, gid: string, city: Option<string>, threshold: real,
                    env: Oracles): Run
    decreases |msgs|
  {
    if |msgs| == 0 then r
    else Step(RunBatch(r, msgs[..|msgs| - 1], gid, city, threshold, env), msgs[|msgs| - 1],
              gid, city, threshold, env)
  }

  /** `groupCityMap[gid]`. */
  function CityOf(groupCityMap: map<string, string>, gid: string): Option<string> {
    if gid in groupCityMap then Some(groupCityMap[gid]) else None
  }

  /** `for (const gid of groupIds)`: each group's batch in turn. */
  function RunGroups(r: Run, all: seq<Message>, groupIds: seq<string>,
                     groupCityMap: map<string, string>, threshold: real, env: Oracles): Run
    decreases |groupIds|
  {
    if |groupIds| == 0 then r
    else
      var gid := groupIds[|groupIds| - 1];
      RunBatch(RunGroups(r, all, groupIds[..|groupIds| - 1], groupCityMap, threshold, env),
               GroupBatch(all, gid), gid, CityOf(groupCityMap, gid), threshold, env)
  }

  /** `for (const msg of msgs)` inside the extraction loop: each message
      of one group's batch in order, its quiz pushed onto `results`. */
  method ProcessBatch(store: Store, results: seq<Quiz>, msgs: seq<Message>, gid: string,
                      city: Option<string>, threshold: real, env: Oracles)
    returns (results': seq<Quiz>)
    modifies store
    ensures Run(SyncState(store.quizzes, store.processedMessageIds, store.lastSyncTimestamp), results')
            == RunBatch(Run(SyncState(old(store.quizzes), old(store.processedMessageIds),
                                      old(store.lastSyncTimestamp)), results),
                        msgs, gid, city, threshold, env)
    ensures store.cities == old(store.cities)
  {
    ghost var before := Run(SyncState(store.quizzes, store.processedMessageIds, store.lastSyncTimestamp), results);
    results' := results;
    var k := 0;
    while k < |msgs|
      invariant 0 <= k <= |msgs|
      invariant Run(SyncState(store.quizzes, store.processedMessageIds, store.lastSyncTimestamp), results')
                == RunBatch(before, msgs[..k], gid, city, threshold, env)
      invariant store.cities == old(store.cities)
    {
      var msg := msgs[k];
      var outcome := ProcessMessage(store, msg, gid, threshold, city, env.download(msg),
                                    env.extract, env.newId(msg), env.isoOfSeconds, env.now);
      if outcome.Added? {
        results' := results' + [outcome.quiz];
      }
      assert msgs[..k + 1][..k] == msgs[..k];
      k := k + 1;
    }
    assert msgs[..k] == msgs;
  }

  /** The extraction loop of `syncWhatsApp`: each configured group's batch,
      newest first; an error from one message is logged and skipped. */
  method ProcessGroups(store: Store, all: seq<Message>, groupIds: seq<string>,
                       groupCityMap: map<string, string>, threshold: real, env: Oracles)
    returns (results: seq<Quiz>)
    modifies store
    ensures var run := RunGroups(Run(SyncState(old(store.quizzes), old(store.processedMessageIds),
                                               old(store.lastSyncTimestamp)), []),
                                 all, groupIds, groupCityMap, threshold, env);
            results == run.added
            && SyncState(store.quizzes, store.processedMessageIds, store.lastSyncTimestamp) == run.state
    ensures store.quizzes == old(store.quizzes) + results
    ensures store.cities == old(store.cities)
  {
    ghost var start := Run(SyncState(store.quizzes, store.processedMessageIds, store.lastSyncTimestamp), []);
    results := [];
    var g := 0;
    while g < |groupIds|
      invariant 0 <= g <= |groupIds|
      invariant Run(SyncState(store.quizzes, store.processedMessageIds, store.lastSyncTimestamp), results)
                == RunGroups(start, all, groupIds[..g], groupCityMap, threshold, env)
      invariant store.cities == old(store.cities)
    {
      var gid := groupIds[g];
      results := ProcessBatch(store, results, GroupBatch(all, gid), gid, CityOf(groupCityMap, gid),
                              threshold, env);
      RunGroupsSnoc(start, all, groupIds, g, groupCityMap, threshold, env);
      g := g + 1;
    }
    assert groupIds[..g] == groupIds;
    RunGroupsAppends(start.state, all, groupIds, groupCityMap, threshold, env);
  }

  /** One more configured group runs its batch after the earlier ones. */
  lemma RunGroupsSnoc(r: Run, all: seq<Message>, groupIds: seq<string>, g: nat,
                      groupCityMap: map<string, string>, threshold: real, env: Oracles)
    requires g < |groupIds|
    ensures RunGroups(r, all, groupIds[..g + 1], groupCityMap, threshold, env)
            == RunBatch(RunGroups(r, all, groupIds[..g], groupCityMap, threshold, env),
                        GroupBatch(all, groupIds[g]), groupIds[g], CityOf(groupCityMap, groupIds[g]),
                        threshold, env)
  {
    assert groupIds[..g + 1][..g] == groupIds[..g];
  }

  /** The quizzes file after the loop is the old file and the returned quizzes. */
  lemma RunGroupsAppends(st: SyncState, all: seq<Message>, groupIds: seq<string>,
                         groupCityMap: map<string, string>, threshold: real, env: Oracles)
    ensures var run := RunGroups(Run(st, []), all, groupIds, groupCityMap, threshold, env);
            run.state.quizzes == st.quizzes + run.added
  {
    RunGroupsAdds(st, all, groupIds, groupCityMap, threshold, env);
  }

  /** What a run may do: append quizzes that record a known group and the
      id of one of that group's messages, and append to the ledger. */
  ghost predicate RunFrom(r: Run, st: SyncState, all: seq<Message>, known: set<string>) {
    r.state.quizzes == st.quizzes + r.added
    && st.processed <= r.state.processed
    && forall i :: 0 <= i < |r.added| ==>
         r.added[i].source == Some("whatsapp")
         && r.added[i].sourceGroupId.Some? && r.added[i].sourceGroupId.value in known
         && exists m :: m in all && m.remoteJid == r.added[i].sourceGroupId.value
                        && r.added[i].sourceMessageId == Some(m.id)
  }

  lemma StepFrom(r: Run, st: SyncState, all: seq<Message>, known: set<string>,
                 msg: Message, gid: string, city: Option<string>, threshold: real, env: Oracles)
    requires RunFrom(r, st, all, known)
    requires gid in known && msg in all && msg.remoteJid == gid
    ensures RunFrom(Step(r, msg, gid, city, threshold, env), st, all, known)
  {
    var o := MessageOutcome(r.state, msg, gid, threshold, city, env.download(msg), env.extract,
                            env.newId(msg), env.isoOfSeconds, env.now);
    var r' := Step(r, msg, gid, city, threshold, env);
    assert st.processed <= r.state.processed <= r'.state.processed;
    if o.Added? {
      assert r'.added == r.added + [o.quiz];
      assert r'.state.quizzes == st.quizzes + r'.added;
      forall i | 0 <= i < |r'.added|
        ensures r'.added[i].source == Some("whatsapp")
                && r'.added[i].sourceGroupId.Some? && r'.added[i].sourceGroupId.value in known
                && exists m :: m in all && m.remoteJid == r'.added[i].sourceGroupId.value
                               && r'.added[i].sourceMessageId == Some(m.id)
      {
        if i == |r.added| {
          assert r'.added[i] == o.quiz;
        } else {
          assert r'.added[i] == r.added[i];
        }
      }
    }
  }

  lemma {:induction false} RunBatchFrom(r: Run, st: SyncState, all: seq<Message>, known: set<string>,
                                        gid: string, city: Option<string>, threshold: real, env: Oracles,
                                        msgs: seq<Message>)
    requires RunFrom(r, st, all, known)
    requires gid in known
    requires forall k :: 0 <= k < |msgs| ==> msgs[k] in all && msgs[k].remoteJid == gid
    ensures RunFrom(RunBatch(r, msgs, gid, city, threshold, env), st, all, known)
    decreases |msgs|
  {
    if |msgs| > 0 {
      var init := msgs[..|msgs| - 1];
      RunBatchFrom(r, st, all, known, gid, city, threshold, env, init);
      StepFrom(RunBatch(r, init, gid, city, threshold, env), st, all, known,
               msgs[|msgs| - 1], gid, city, threshold, env);
    }
  }

  /** A batch holds messages of its own group taken from `all`. */
  lemma BatchFromAll(all: seq<Message>, gid: string)
    ensures forall k :: 0 <= k < |GroupBatch(all, gid)| ==>
              GroupBatch(all, gid)[k] in all && GroupBatch(all, gid)[k].remoteJid == gid
  {
    GroupBatchOrder(all, gid);
    var b := GroupBatch(all, gid);
    forall k | 0 <= k < |b| ensures b[k] in all {
      assert b[k] in multiset(Filter(all, InGroup(gid)));
      FilterSubMultiset(all, InGroup(gid));
      assert b[k] in multiset(all);
    }
  }

  /** The extraction loop only appends: the returned quizzes follow the old
      ones in the quizzes file, the old ledger is a prefix of the new one,
      and every new quiz names a configured group and a message of that group. */
  lemma {:induction false} RunGroupsAdds(st: SyncState, all: seq<Message>, groupIds: seq<string>,
                                         groupCityMap: map<string, string>, threshold: real, env: Oracles)
    ensures var run := RunGroups(Run(st, []), all, groupIds, groupCityMap, threshold, env);
            run.state.quizzes == st.quizzes + run.added
            && st.processed <= run.state.processed
            && forall i :: 0 <= i < |run.added| ==>
                 run.added[i].source == Some("whatsapp")
                 && run.added[i].sourceGroupId.Some? && run.added[i].sourceGroupId.value in groupIds
                 && exists m :: m in all && m.remoteJid == run.added[i].sourceGroupId.value
                                && run.added[i].sourceMessageId == Some(m.id)
  {
    RunGroupsFrom(st, all, (set g | g in groupIds), groupIds, groupCityMap, threshold, env);
  }

  lemma {:induction false} RunGroupsFrom(st: SyncState, all: seq<Message>, known: set<string>,
                                         groupIds: seq<string>, groupCityMap: map<string, string>,
                                         threshold: real, env: Oracles)
    requires forall k :: 0 <= k < |groupIds| ==> groupIds[k] in known
    ensures RunFrom(RunGroups(Run(st, []), all, groupIds, groupCityMap, threshold, env), st, all, known)
    decreases |groupIds|
  {
    if |groupIds| == 0 {
      assert st.quizzes + [] == st.quizzes;
    } else {
      var init := groupIds[..|groupIds| - 1];
      var gid := groupIds[|groupIds| - 1];
      RunGroupsFrom(st, all, known, init, groupCityMap, threshold, env);
      BatchFromAll(all, gid);
      RunBatchFrom(RunGroups(Run(st, []), all, init, groupCityMap, threshold, env), st, all, known,
                   gid, CityOf(groupCityMap, gid), threshold, env, GroupBatch(all, gid));
    }
  }

  // ---- connection close ----

  const LoggedOutCode := 401
  const RestartRequiredCode := 515

  datatype CloseAction = LoggedOut | AuthExpired | Restart | Failed(code: Option<int>) | NoAction

  /** The `connection === 'close'` branch, for the status code of the last
      disconnect and the `connected` flag. */
  function OnClose(code: Option<int>, connected: bool): (a: CloseAction)
    ensures a == LoggedOut <==> code == Some(LoggedOutCode)
    ensures a == AuthExpired <==> code == Some(405) && !connected
    ensures a == Restart <==> code == Some(RestartRequiredCode)
    ensures a == NoAction <==> connected && code != Some(LoggedOutCode) && code != Some(RestartRequiredCode)
    ensures a.Failed? ==> !connected && a.code == code
  {
    if code == Some(LoggedOutCode) then LoggedOut
    else if code == Some(405) && !connected then AuthExpired
    else if code == Some(RestartRequiredCode) then Restart
    else if !connected then Failed(code)
    else NoAction
  }
}
