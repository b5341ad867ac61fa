/** server/sync/instagram.js: the scraper's posts turned into stored quizzes.
    The pages file, the dependency probe and the scraper run are parameters;
    the two ledger calls the loop makes are recorded on a `SourceLedger`. */
module Instagram {
  import opened Js
  import opened Seqs
  import opened Quizzes
  import opened Ingest
  import opened Dedup
  import opened Store

  /** One element of the scraper's `posts` array. */
  datatype Post = Post(postId: string, username: string, caption: Option<string>,
                       imageFile: Option<string>, city: Option<string>,
                       timestamp: Option<string>)

  /** What reading `pages.json` gives: no file, a value that is not an array,
      or an array of `count` pages. */
  datatype PagesFile = Missing | NotAList | PageList(count: nat)

  /** `runScraper`: it throws (spawn error, non-zero exit, bad JSON), or its
      output's `posts` property, which may be missing. */
  datatype ScrapeResult = ScraperFailed | Scraped(posts: Option<seq<Post>>)

  /** The calls `markSourceItemProcessed(source, id)` and
      `setInstagramLastFetch(username, timestamp)` made by the loop, in order. */
  class SourceLedger {
    var marked: seq<(string, string)>
    var lastFetches: seq<(string, Option<string>)>

    constructor()
      ensures marked == [] && lastFetches == []
    {
      marked := [];
      lastFetches := [];
    }

    method MarkSourceItemProcessed(source: string, id: string)
      modifies this
      ensures marked == old(marked) + [(source, id)] && lastFetches == old(lastFetches)
    {
      marked := marked + [(source, id)];
    }

    method SetInstagramLastFetch(username: string, timestamp: Option<string>)
      modifies this
      ensures lastFetches == old(lastFetches) + [(username, timestamp)] && marked == old(marked)
    {
      lastFetches := lastFetches + [(username, timestamp)];
    }
  }

  /** The names server/store.js exports. */
  const StoreExports: set<string> := {
    "getQuizzes", "saveQuizzes", "getQuizById", "addQuiz", "updateQuiz", "deleteQuiz",
    "getSyncState", "saveSyncState", "isMessageProcessed", "markMessageProcessed",
    "getWaGroups", "saveWaGroups", "getWaStatus", "saveWaStatus",
    "getCityGroups", "getCityList", "getGroupCityMap"}

  /** The names this module imports from '../store.js'. */
  const StoreImports: seq<string> := ["addQuiz", "markSourceItemProcessed", "setInstagramLastFetch"]

  /** The two source-ledger operations the module evidently expects the
      store to provide; `SourceLedger` stands for them. */
  const LedgerExports: set<string> := {"markSourceItemProcessed", "setInstagramLastFetch"}

  /** The imported names the exporting module lacks. An ES module (this one
      reads `import.meta.url`) links only when there are none; otherwise
      loading it throws a SyntaxError before any of its code runs. */
  function MissingImports(imports: seq<string>, exports: set<string>): set<string> {
    set k | 0 <= k < |imports| && imports[k] !in exports :: imports[k]
  }

  /** As written the module never links: two of its three store imports
      are missing, so `syncInstagram` cannot run at all. */
  lemma SyncInstagramNeverLinks()
    ensures MissingImports(StoreImports, StoreExports) == LedgerExports
  {
    var m := MissingImports(StoreImports, StoreExports);
    assert StoreImports[0] in StoreExports;
    assert StoreImports[1] !in StoreExports && StoreImports[2] !in StoreExports;
    assert StoreImports[1] in m && StoreImports[2] in m;
    forall n | n in m ensures n in LedgerExports {
      var k :| 0 <= k < |StoreImports| && StoreImports[k] !in StoreExports && StoreImports[k] == n;
      assert k != 0;
    }
  }

  /** With the two ledger operations added to the store every import
      resolves, and `SyncInstagram` below describes what the module does. */
  lemma SyncInstagramLinksWithLedger()
    ensures MissingImports(StoreImports, StoreExports + LedgerExports) == {}
  {
    forall k | 0 <= k < |StoreImports| ensures StoreImports[k] in StoreExports + LedgerExports {
      assert k == 0 || k == 1 || k == 2;
    }
  }

  /** `POSTERS_DIR`, relative to the repository root. */
  const PostersDir := "data/posters/"

  /** `post.image_file ? path.join(POSTERS_DIR, post.image_file) : null`. */
  function ImagePath(p: Post): (r: Option<string>)
    ensures r.Some? <==> Truthy(p.imageFile)
    ensures r.Some? ==> r.value == PostersDir + p.imageFile.value
  {
    if Truthy(p.imageFile) then Some(PostersDir + p.imageFile.value) else None
  }

  /** The link used when the extractor found none. */
  function PostUrl(postId: string): string {
    "https://instagram.com/p/" + postId
  }

  /** The ledger entry for a post. */
  function LedgerEntry(p: Post): (string, string) {
    ("instagram", p.postId)
  }

  /** The quiz literal of instagram.js for a reply with a name. */
  function InstagramQuiz(p: Post, e: Extraction, threshold: real, newId: string,
                         now: string): (q: Quiz)
    requires Truthy(e.name)
    ensures q.id == newId && q.name == e.name.value
    ensures q.source == Some("instagram") && q.sourceId == Some("instagram:" + p.postId)
    ensures q.sourceUsername == Some(p.username)
    ensures q.city == ResolveCity(e, p.city)
    ensures q.status == Published <==>
              (e.confidence.Number? && e.confidence.value >= threshold)
              || (e.confidence.Null? && threshold <= 0.0)
    ensures Truthy(e.instagramLink) ==> q.instagramLink == e.instagramLink
    ensures !Truthy(e.instagramLink) ==> q.instagramLink == Some(PostUrl(p.postId))
    ensures q.posterImage.Some? <==> Truthy(p.imageFile)
    ensures q.posterImage.Some? ==> q.posterImage.value == "posters/" + p.imageFile.value
    ensures q.sourceTimestamp == Some(if Truthy(p.timestamp) then p.timestamp.value else now)
    ensures q.sourceGroupId == None && q.sourceMessageId == None
  {
    QuizFromExtraction(e, newId, threshold, ResolveCity(e, p.city), now).(
      instagramLink := Some(StrOr(e.instagramLink, PostUrl(p.postId))),
      source := Some("instagram"),
      sourceId := Some("instagram:" + p.postId),
      sourceUsername := Some(p.username),
      posterImage := if Truthy(p.imageFile) then Some("posters/" + p.imageFile.value) else None,
      sourceCaption := OrNull(p.caption),
      sourceTimestamp := Some(StrOr(p.timestamp, now)))
  }

  /** The reply the extractor gives for post `p`. */
  function ReplyFor(p: Post, extract: (Option<string>, Option<string>) -> Reply): Reply {
    extract(OrNull(p.caption), ImagePath(p))
  }

  /** A post the extractor is asked about and answers with a named quiz. */
  predicate Named(p: Post, extract: (Option<string>, Option<string>) -> Reply) {
    (Truthy(p.caption) || ImagePath(p).Some?)
    && ReplyFor(p, extract).Returned? && ReplyFor(p, extract).result.Some?
    && Truthy(ReplyFor(p, extract).result.value.name)
  }

  /** The quiz built from a named post. */
  function PostQuiz(p: Post, extract: (Option<string>, Option<string>) -> Reply, threshold: real,
                    newId: string, now: string): Quiz
    requires Named(p, extract)
  {
    InstagramQuiz(p, ReplyFor(p, extract).result.value, threshold, newId, now)
  }

  /** How the loop body ends for post `p` against the quizzes stored so far,
      in the order of its checks. */
  function PostOutcome(quizzes: seq<Quiz>, processed: seq<string>, p: Post, threshold: real,
                       extract: (Option<string>, Option<string>) -> Reply,
                       newId: string, now: string): Outcome
  {
    if IsDuplicate(processed, "instagram") then Skipped
    else if !Truthy(p.caption) && ImagePath(p).None? then NothingToExtract
    else
      var reply := extract(OrNull(p.caption), ImagePath(p));
      if reply.Threw? then ExtractionFailed
      else if reply.result.None? || !Truthy(reply.result.value.name) then NoName
      else if FindSimilarQuiz(quizzes, reply.result.value).Some? then Similar
      else Added(PostQuiz(p, extract, threshold, newId, now))
  }

  /** Each outcome holds exactly under its condition, checked in source
      order. */
  lemma PostOutcomeSpec(quizzes: seq<Quiz>, processed: seq<string>, p: Post, threshold: real,
                        extract: (Option<string>, Option<string>) -> Reply, newId: string, now: string)
    ensures var outcome := PostOutcome(quizzes, processed, p, threshold, extract, newId, now);
            var reply := extract(OrNull(p.caption), ImagePath(p));
            // `isDuplicate('instagram', post.post_id)` reads only its first argument
            (outcome == Skipped <==> IsDuplicate(processed, "instagram"))
            && (outcome == NothingToExtract <==>
                  outcome != Skipped && !Truthy(p.caption) && ImagePath(p).None?)
            && (outcome == ExtractionFailed <==>
                  outcome !in {Skipped, NothingToExtract} && reply.Threw?)
            && (outcome == NoName <==>
                  outcome !in {Skipped, NothingToExtract, ExtractionFailed}
                  && (reply.result.None? || !Truthy(reply.result.value.name)))
            && (outcome == Similar <==>
                  outcome !in {Skipped, NothingToExtract, ExtractionFailed, NoName}
                  && FindSimilarQuiz(quizzes, reply.result.value).Some?)
            && (outcome.Added? ==>
                  reply.Returned? && reply.result.Some? && Truthy(reply.result.value.name)
                  && outcome.quiz == InstagramQuiz(p, reply.result.value, threshold, newId, now))
  {
  }

  /** The body of the `for (const post of posts)` loop. Every path past the
      ledger check marks the post; only a stored quiz records a fetch time. */
  method ProcessPost(store: Store, ledger: SourceLedger, p: Post, threshold: real,
                     extract: (Option<string>, Option<string>) -> Reply,
                     newId: string, now: string)
    returns (outcome: Outcome)
    modifies store, ledger
    ensures outcome == PostOutcome(old(store.quizzes), old(store.processedMessageIds), p, threshold,
                                   extract, newId, now)
    ensures outcome == Skipped <==> IsDuplicate(old(store.processedMessageIds), "instagram")
    ensures ledger.marked == if outcome == Skipped then old(ledger.marked)
                             else old(ledger.marked) + [LedgerEntry(p)]
    ensures ledger.lastFetches == if outcome.Added? then old(ledger.lastFetches) + [(p.username, p.timestamp)]
                                  else old(ledger.lastFetches)
    ensures store.quizzes == if outcome.Added? then old(store.quizzes) + [outcome.quiz]
                             else old(store.quizzes)
    ensures store.processedMessageIds == old(store.processedMessageIds)
    ensures store.lastSyncTimestamp == old(store.lastSyncTimestamp) && store.cities == old(store.cities)
  {
    var dup := store.IsMessageProcessed("instagram");
    if dup {
      return Skipped;
    }
    var imagePath := ImagePath(p);
    if !Truthy(p.caption) && imagePath.None? {
      ledger.MarkSourceItemProcessed("instagram", p.postId);
      return NothingToExtract;
    }
    var reply := extract(OrNull(p.caption), imagePath);
    if reply.Threw? {
      ledger.MarkSourceItemProcessed("instagram", p.postId);
      return ExtractionFailed;
    }
    if reply.result.None? || !Truthy(reply.result.value.name) {
      ledger.MarkSourceItemProcessed("instagram", p.postId);
      return NoName;
    }
    var extracted := reply.result.value;
    var quizCity := ResolveCity(extracted, p.city);
    var similar := FindSimilarQuiz(store.quizzes, extracted);
    if similar.Some? {
      ledger.MarkSourceItemProcessed("instagram", p.postId);
      return Similar;
    }
    var quiz := InstagramQuiz(p, extracted, threshold, newId, now);
    var added := store.AddQuiz(quiz);
    ledger.MarkSourceItemProcessed("instagram", p.postId);
    ledger.SetInstagramLastFetch(p.username, p.timestamp);
    return Added(quiz);
  }

  /** Whether the loop runs at all: a non-empty pages list, the dependencies
      installed, the scraper succeeded and returned at least one post. */
  function PostsToProcess(pages: PagesFile, depsInstalled: bool, scrape: ScrapeResult): (posts: seq<Post>)
    ensures !pages.PageList? || pages.count == 0 || !depsInstalled || scrape.ScraperFailed? ==> posts == []
    ensures pages.PageList? && pages.count > 0 && depsInstalled && scrape.Scraped? ==>
              posts == scrape.posts.GetOr([])
  {
    if !pages.PageList? || pages.count == 0 then []
    else if !depsInstalled then []
    else if scrape.ScraperFailed? then []
    else scrape.posts.GetOr([])
  }

  /** One iteration of `for (const post of posts)`: `added` grows by the
      quiz of `p` when its outcome is Added. */
  function PostStep(quizzes: seq<Quiz>, processed: seq<string>, added: seq<Quiz>, p: Post,
                    threshold: real, extract: (Option<string>, Option<string>) -> Reply,
                    newId: string, now: string): seq<Quiz>
  {
    var o := PostOutcome(quizzes + added, processed, p, threshold, extract, newId, now);
    if o.Added? then added + [o.quiz] else added
  }

  /** `for (const post of posts)`: the quizzes `newQuizzes` collects, each
      post judged against the quizzes stored before it. */
  function RunPosts(quizzes: seq<Quiz>, processed: seq<string>, posts: seq<Post>, threshold: real,
                    extract: (Option<string>, Option<string>) -> Reply,
                    newId: Post -> string, now: string): seq<Quiz>
    decreases |posts|
  {
    if |posts| == 0 then []
    else
      var n := |posts| - 1;
      PostStep(quizzes, processed, RunPosts(quizzes, processed, posts[..n], threshold, extract, newId, now),
               posts[n], threshold, extract, newId(posts[n]), now)
  }

  /** One more post: `RunPosts` over `posts[..k + 1]` extends the run over
      `posts[..k]` by the outcome of `posts[k]`. */
  lemma RunPostsSnoc(quizzes: seq<Quiz>, processed: seq<string>, posts: seq<Post>, k: nat,
                     threshold: real, extract: (Option<string>, Option<string>) -> Reply,
                     newId: Post -> string, now: string)
    requires k < |posts|
    ensures RunPosts(quizzes, processed, posts[..k + 1], threshold, extract, newId, now)
            == PostStep(quizzes, processed, RunPosts(quizzes, processed, posts[..k], threshold, extract, newId, now),
                        posts[k], threshold, extract, newId(posts[k]), now)
  {
    assert posts[..k + 1][..k] == posts[..k];
  }

  /** The positions of the posts whose quizzes `RunPosts` collects. */
  ghost function AddedPositions(quizzes: seq<Quiz>, processed: seq<string>, posts: seq<Post>,
                                threshold: real, extract: (Option<string>, Option<string>) -> Reply,
                                newId: Post -> string, now: string): seq<nat>
    decreases |posts|
  {
    if |posts| == 0 then []
    else
      var n := |posts| - 1;
      var added := RunPosts(quizzes, processed, posts[..n], threshold, extract, newId, now);
      var o := PostOutcome(quizzes + added, processed, posts[n], threshold, extract, newId(posts[n]), now);
      AddedPositions(quizzes, processed, posts[..n], threshold, extract, newId, now)
      + if o.Added? then [n] else []
  }

  /** The collected quizzes are the quizzes built from named posts, one per
      post at most, in post order; none when the ledger check fires. */
  lemma {:induction false} RunPostsAdds(quizzes: seq<Quiz>, processed: seq<string>, posts: seq<Post>,
                                        threshold: real,
                                        extract: (Option<string>, Option<string>) -> Reply,
                                        newId: Post -> string, now: string)
    ensures var r := RunPosts(quizzes, processed, posts, threshold, extract, newId, now);
            var ps := AddedPositions(quizzes, processed, posts, threshold, extract, newId, now);
            |ps| == |r| <= |posts|
            && (forall k :: 0 <= k < |ps| ==> ps[k] < |posts|)
            && (forall j, k :: 0 <= j < k < |ps| ==> ps[j] < ps[k])
            && (forall k :: 0 <= k < |ps| ==>
                  Named(posts[ps[k]], extract)
                  && r[k] == PostQuiz(posts[ps[k]], extract, threshold, newId(posts[ps[k]]), now))
            && (IsDuplicate(processed, "instagram") ==> r == [])
    decreases |posts|
  {
    if |posts| > 0 {
      var n := |posts| - 1;
      var r0 := RunPosts(quizzes, processed, posts[..n], threshold, extract, newId, now);
      var ps0 := AddedPositions(quizzes, processed, posts[..n], threshold, extract, newId, now);
      var o := PostOutcome(quizzes + r0, processed, posts[n], threshold, extract, newId(posts[n]), now);
      RunPostsAdds(quizzes, processed, posts[..n], threshold, extract, newId, now);
      AddedOutcome(quizzes + r0, processed, posts[n], threshold, extract, newId(posts[n]), now);
      forall k | 0 <= k < |ps0| ensures posts[..n][ps0[k]] == posts[ps0[k]] {
      }
      if o.Added? {
        assert RunPosts(quizzes, processed, posts, threshold, extract, newId, now) == r0 + [o.quiz];
        assert AddedPositions(quizzes, processed, posts, threshold, extract, newId, now) == ps0 + [n];
      } else {
        assert RunPosts(quizzes, processed, posts, threshold, extract, newId, now) == r0;
        assert AddedPositions(quizzes, processed, posts, threshold, extract, newId, now) == ps0;
      }
    }
  }

  /** An added outcome carries the quiz of a named post. */
  lemma AddedOutcome(quizzes: seq<Quiz>, processed: seq<string>, p: Post, threshold: real,
                     extract: (Option<string>, Option<string>) -> Reply, newId: string, now: string)
    ensures var o := PostOutcome(quizzes, processed, p, threshold, extract, newId, now);
            o.Added? ==> !IsDuplicate(processed, "instagram") && Named(p, extract)
                         && o.quiz == PostQuiz(p, extract, threshold, newId, now)
  {
  }

  /** One pass of the `for (const post of posts)` loop over `posts[k]`:
      the run over `posts[..k]` is extended by one post. */
  method ProcessNext(store: Store, ledger: SourceLedger, posts: seq<Post>, k: nat,
                     newQuizzes: seq<Quiz>, threshold: real,
                     extract: (Option<string>, Option<string>) -> Reply,
                     newId: Post -> string, now: string,
                     ghost quizzes0: seq<Quiz>, ghost processed0: seq<string>)
    returns (newQuizzes': seq<Quiz>)
    requires k < |posts|
    requires newQuizzes == RunPosts(quizzes0, processed0, posts[..k], threshold, extract, newId, now)
    requires store.quizzes == quizzes0 + newQuizzes && store.processedMessageIds == processed0
    modifies store, ledger
    ensures newQuizzes' == RunPosts(quizzes0, processed0, posts[..k + 1], threshold, extract, newId, now)
    ensures store.quizzes == quizzes0 + newQuizzes' && store.processedMessageIds == processed0
    ensures |ledger.lastFetches| == |old(ledger.lastFetches)| + |newQuizzes'| - |newQuizzes|
    ensures IsDuplicate(processed0, "instagram") ==> ledger.marked == old(ledger.marked)
    ensures !IsDuplicate(processed0, "instagram") ==> ledger.marked == old(ledger.marked) + [LedgerEntry(posts[k])]
  {
    RunPostsSnoc(quizzes0, processed0, posts, k, threshold, extract, newId, now);
    var outcome := ProcessPost(store, ledger, posts[k], threshold, extract, newId(posts[k]), now);
    newQuizzes' := if outcome.Added? then newQuizzes + [outcome.quiz] else newQuizzes;
  }

  /** The `for (const post of posts)` loop: each post's outcome in turn,
      the added quizzes pushed onto `newQuizzes`. */
  method ProcessPosts(store: Store, ledger: SourceLedger, posts: seq<Post>, threshold: real,
                      extract: (Option<string>, Option<string>) -> Reply,
                      newId: Post -> string, now: string)
    returns (newQuizzes: seq<Quiz>)
    modifies store, ledger
    ensures newQuizzes == RunPosts(old(store.quizzes), old(store.processedMessageIds), posts,
                                   threshold, extract, newId, now)
    ensures store.quizzes == old(store.quizzes) + newQuizzes
    ensures store.processedMessageIds == old(store.processedMessageIds)
    ensures |ledger.lastFetches| == |old(ledger.lastFetches)| + |newQuizzes|
    ensures IsDuplicate(old(store.processedMessageIds), "instagram") ==> ledger.marked == old(ledger.marked)
    ensures !IsDuplicate(old(store.processedMessageIds), "instagram") ==>
              ledger.marked == old(ledger.marked) + Map(posts, LedgerEntry)
    ensures posts == [] ==> ledger.lastFetches == old(ledger.lastFetches)
  {
    newQuizzes := [];
    var dup := IsDuplicate(store.processedMessageIds, "instagram");
    var k := 0;
    while k < |posts|
      invariant 0 <= k <= |posts|
      invariant newQuizzes == RunPosts(old(store.quizzes), old(store.processedMessageIds), posts[..k],
                                       threshold, extract, newId, now)
      invariant store.quizzes == old(store.quizzes) + newQuizzes
      invariant store.processedMessageIds == old(store.processedMessageIds)
      invariant |ledger.lastFetches| == |old(ledger.lastFetches)| + |newQuizzes|
      invariant dup ==> ledger.marked == old(ledger.marked)
      invariant !dup ==> ledger.marked == old(ledger.marked) + Map(posts[..k], LedgerEntry)
      invariant k == 0 ==> ledger.lastFetches == old(ledger.lastFetches)
    {
      MapPrefixSnoc(posts, k, LedgerEntry);
      newQuizzes := ProcessNext(store, ledger, posts, k, newQuizzes, threshold, extract, newId, now,
                                old(store.quizzes), old(store.processedMessageIds));
      k := k + 1;
    }
    assert posts[..k] == posts;
  }

  /** `syncInstagram()`. `parsedThreshold` is `parseFloat` of the environment
      setting; `newId` stands for the uuid drawn for each post. The quizzes
      it returns are `RunPosts` of the scraper's posts, appended to the store
      in order; when the ledger check does not fire, every post is marked
      exactly once, in order. */
  method SyncInstagram(store: Store, ledger: SourceLedger, pages: PagesFile, depsInstalled: bool,
                       scrape: ScrapeResult, parsedThreshold: Option<real>,
                       extract: (Option<string>, Option<string>) -> Reply,
                       newId: Post -> string, now: string)
    returns (newQuizzes: seq<Quiz>)
    modifies store, ledger
    ensures newQuizzes == RunPosts(old(store.quizzes), old(store.processedMessageIds),
                                   PostsToProcess(pages, depsInstalled, scrape),
                                   EffectiveThreshold(parsedThreshold), extract, newId, now)
    ensures |newQuizzes| <= |PostsToProcess(pages, depsInstalled, scrape)|
    ensures store.quizzes == old(store.quizzes) + newQuizzes
    ensures store.processedMessageIds == old(store.processedMessageIds)
    ensures |ledger.lastFetches| == |old(ledger.lastFetches)| + |newQuizzes|
    ensures forall i :: 0 <= i < |newQuizzes| ==> newQuizzes[i].source == Some("instagram")
    ensures IsDuplicate(old(store.processedMessageIds), "instagram") ==>
              newQuizzes == [] && ledger.marked == old(ledger.marked)
    ensures !IsDuplicate(old(store.processedMessageIds), "instagram") ==>
              ledger.marked == old(ledger.marked) + Map(PostsToProcess(pages, depsInstalled, scrape), LedgerEntry)
    ensures PostsToProcess(pages, depsInstalled, scrape) == [] ==>
              newQuizzes == [] && ledger.marked == old(ledger.marked)
              && ledger.lastFetches == old(ledger.lastFetches)
  {
    var posts := PostsToProcess(pages, depsInstalled, scrape);
    var threshold := EffectiveThreshold(parsedThreshold);
    RunPostsAdds(store.quizzes, store.processedMessageIds, posts, threshold, extract, newId, now);
    newQuizzes := ProcessPosts(store, ledger, posts, threshold, extract, newId, now);
  }
}
