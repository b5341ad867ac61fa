# Quiz Finder, modelled in Dafny

Quiz Finder collects announcements of quiz events in Indian cities and shows them on a website. It has four parts:

- **Sync.** A sync job reads the WhatsApp groups it tracks, city by city. It fuses a caption-less poster with the text sent right after it. Each message goes to an AI extractor. The extracted quiz is stored unless the processed-message ledger or a name-and-date match says it is already known. The same happens to Instagram posts that a scraper collects from tracked pages.
- **Server.** An Express API keeps the quizzes in a JSON file store. It offers:
  - a public list with filters and an order;
  - a public lookup by id;
  - admin create, patch, publish and delete, behind a bearer token.
- **Push notifications.** A serverless endpoint keeps push subscriptions in a key-value store. After a sync, each subscriber is told about the new quizzes that match their preferences.
- **Admin scripts and client.** Command-line scripts edit the list of tracked WhatsApp groups and Instagram pages. A one-shot script migrates old quizzes. A React client shows cards and detail pages, and provides filters, a quiz editor, an admin panel and a notification bell.

This project models the logic of these parts and proves what each part promises.

Each source file is modelled in one module, in the form the code takes:

- **Pure code becomes functions and lemmas.** This covers the schemas, the token check, the filters and comparators, the markdown renderer, the form conversions and the client helpers.
- **Code that changes state becomes classes and methods, with loop invariants.** Each method is proved against a specification function. This covers:
  - the store (`Store.Store`);
  - the key-value store (`Subscribe.Kv`);
  - the WhatsApp groups configuration (`WaGroups.Config`);
  - the Instagram page list (`IgPages.PageList`);
  - the history collector (`WhatsApp.Collector`);
  - the migration loop over an array (`MigrateCity.Migrate`);
  - the message-merging, Dice, eligibility, notification and scan loops.

Some things the code relies on become function parameters:

- the clock, uuids and the extractor;
- the media download and the scraper;
- push delivery;
- `sanitize-html`;
- the browser's `Date` and locale formatting.

Shared helper modules:

- **`Js`:** how JavaScript sees values. A missing or null property is `None`. A string is truthy only when present and non-empty. The extractor's confidence is the one exception: `>=` reads null as 0 and a missing value as NaN, so `Quizzes.JsonNumber` keeps the two apart.
- **`Text`:** the string library, with `\s` and `trim` over the JavaScript whitespace set.
- **`Seqs`:** `filter`, `map`, `findIndex` and a stable sort.
- **`Quizzes`:** the quiz record.
- **`Base64` and `Utf8`:** base64 (sections 4 and 5 of RFC 4648) and UTF-8 (RFC 3629). They back `Buffer.from(...).toString('base64url')` and `atob`.
- **`Regex`:** the small backtracking matcher for the eligibility patterns.
- **`CityGroups`:** the city-to-groups configuration.

The detail page's `waLink` (client/src/components/QuizDetail.jsx:58-61) is the same code as the card's, and `QuizCard.WaLink` models both. The detail page's quizmaster list (line 106) is `QuizCard.CardMasters`.

Where the source files disagree with each other, the operations reproduce the code as written. Examples: the arity of `isDuplicate`, the shape of a group entry, and the name of the preferences property. Lemmas exhibit each discrepancy, and the corrected definitions are proved beside the operations (see "## Findings").

## Model

| member | source | states |
|---|---|---|
| Fuzzy.KeepAlnum | server/sync/fuzzy.js:6 | only a–z and 0–9 survive, the result is no longer than the input, and a string already of those characters is unchanged |
| Fuzzy.Normalize | server/sync/fuzzy.js:6 | every character of the normal form is a lower-case ASCII letter or a digit |
| Fuzzy.NormalizeIdempotent | server/sync/fuzzy.js:6 | normalising a normal form changes nothing |
| Fuzzy.Bigrams | server/sync/fuzzy.js:14-15 | one bigram per adjacent pair, `s[i..i+2]` at position i, none for strings shorter than 2 |
| Fuzzy.IntersectionStep | server/sync/fuzzy.js:22-26 | consuming one bigram adds one to the intersection exactly when the first name still has a count left for it |
| Fuzzy.CountBigrams | server/sync/fuzzy.js:13-17 | the map holds, for every bigram, the number of times it occurs in the name (missing keys read as 0) |
| Fuzzy.CountShared | server/sync/fuzzy.js:19-27 | the counter ends as the size of the multiset intersection of the two bigram multisets |
| Fuzzy.DiceCoefficient | server/sync/fuzzy.js:5-30 | the loops compute the Dice score of the two normal forms, and it lies in [0, 1] |
| Fuzzy.IntersectionBound | server/sync/fuzzy.js:29 | the intersection is no larger than either bigram multiset |
| Fuzzy.DiceRange | server/sync/fuzzy.js:10-29 | the score lies in [0, 1]; the division is reached only with a denominator of at least 2 |
| Fuzzy.DiceSymmetric | server/sync/fuzzy.js:13-29 | swapping the arguments leaves the score unchanged |
| Fuzzy.DiceOfNormalized | server/sync/fuzzy.js:6-10 | names equal after normalisation score exactly 1, and so does a name against its own normal form |
| Fuzzy.DiceShort | server/sync/fuzzy.js:11 | different normal forms, one shorter than 2 characters, score 0 |
| Dedup.IsDuplicate | server/sync/dedup.js:3-5 | true exactly when the first argument is in the ledger of processed ids |
| Dedup.NameKeyIgnoresCaseAndSpace | server/sync/dedup.js:11 | the name key is unchanged by lower-casing and by leading or trailing whitespace |
| Dedup.Matches | server/sync/dedup.js:14-19 | the `find` test holds exactly when the name keys and the dates are equal; the organiser clause never changes it |
| Dedup.FindSimilarQuiz | server/sync/dedup.js:7-21 | null without a name or a date; otherwise the first stored quiz with the same name key and date, and null only when none matches |
| Store.RemoveAt | server/store.js:59 | `splice(i, 1)`: one element shorter, elements before `i` kept in place, the rest shifted down by one |
| Store.Store.constructor | server/store.js:11-23 | the files `ensureDataDir` creates when missing: no quizzes, an empty ledger, a null sync time, no cities |
| Store.Store.FindQuizIndex | server/store.js:48 | the index of the first quiz with the id, or -1 when no quiz has it |
| Store.Store.GetQuizById | server/store.js:35-37 | the first quiz with the id, and null exactly when no quiz has it |
| Store.Store.AddQuiz | server/store.js:39-44 | the quiz is appended and returned; nothing else changes |
| Store.Store.UpdateQuiz | server/store.js:46-53 | the first quiz with the id is replaced by the patch spread over it with a new `updatedAt`, and returned; an unknown id changes nothing and returns null |
| Store.Store.DeleteQuiz | server/store.js:55-62 | the first quiz with the id is removed and true returned; an unknown id changes nothing and returns false |
| Store.Store.IsMessageProcessed | server/store.js:74-77 | true exactly when the id is in the ledger |
| Store.Store.MarkMessageProcessed | server/store.js:79-84 | the id is appended to the ledger, even when already there, and the sync time is stamped; quizzes and cities are untouched |
| Store.Store.GetCityList | server/store.js:131-134 | the city names, one per configured city, in the config's order |
| Store.Store.GetGroupCityMap | server/store.js:136-145 | the loops build the map the specification function `GroupCityMap` defines, keyed by each entry's property-key text |
| Store.RemarkKeepsMembership | server/store.js:79-81 | marking an id twice lengthens the ledger but does not change which ids are processed |
| CityGroups.PropertyKey | server/store.js:141 | a bare-string entry is keyed by its id; a `{name, id}` entry is keyed by "[object Object]" |
| CityGroups.AddGroupsSpec | server/store.js:140-142 | after the inner loop every group of the city maps to that city and every other key keeps its value |
| CityGroups.GroupCityMapUnlisted | server/store.js:139-143 | a key listed under no city keeps its starting value |
| CityGroups.GroupCityMapLast | server/store.js:139-143 | a key listed under several cities maps to the last city listing it |
| CityGroups.GroupCityMapById | server/store.js:136-145 | keyed by id, every tracked group is in the map, under the last city listing it |
| CityGroups.PlainEntriesAgree | server/store.js:139-143 | for bare-string entries the map as written equals the map keyed by id |
| CityGroups.NamedEntryLost | server/scripts/wa-groups.js:135 | one `{name, id}` entry as the wa-groups script writes it: the map as written holds only "[object Object]" and misses the group's id, which keyed by id maps to its city |
| Ingest.EffectiveThreshold | server/sync/whatsapp.js:206 | a configured threshold other than 0 is used as given; a missing, unparsable or zero one falls back to 0.7 |
| Ingest.StatusFor | server/sync/whatsapp.js:147 | 'published' exactly when the confidence is a number at least the threshold, or is null and the threshold is at most 0 (`>=` reads null as 0); a missing confidence is always 'flagged' |
| Ingest.NullConfidencePublished | server/sync/whatsapp.js:147 | with the threshold read from the environment, a null confidence is published exactly when the configured value is negative |
| Ingest.ResolveCity | server/sync/whatsapp.js:134-136 | the extracted city wins; otherwise an online quiz is placed in 'Online'; otherwise the group's city or null; never the empty string |
| Ingest.QuizFromExtraction | server/sync/whatsapp.js:145-178 | the record carries the new id, the extracted name and the resolved city; its status is published exactly when the confidence is a number reaching the threshold or is null under a threshold of at most 0; it stores a confidence exactly when the reply holds a number; its mode is the extracted one or 'offline' |
| WhatsApp.GroupThenTimeOrder | server/sync/whatsapp.js:36-40 | the comparator (group id ordinally, then timestamp) is a total, transitive order, so the sort is well defined |
| WhatsApp.Fuse | server/sync/whatsapp.js:72-78 | the clone of a fused pair is an image message of the same chat whose `_mergedIds` are the pair's two ids in sorted order |
| WhatsApp.FuseKeepsImage | server/sync/whatsapp.js:72-77 | whichever order the pair came in, the clone is the image message with the text message's text as its caption, every other field being the image message's own |
| WhatsApp.MergeConsecutiveMessages | server/sync/whatsapp.js:33-91 | the loop computes the specification function `MergeConsecutive`; zero or one message is returned unchanged |
| WhatsApp.MergeFromPair | server/sync/whatsapp.js:58-80 | a pair that passes every merge condition becomes one fused item and the scan moves two places on |
| WhatsApp.MergeFromSingle | server/sync/whatsapp.js:84-85 | a message that cannot be fused with the next passes through and the scan moves one place on |
| WhatsApp.MergeFromIds | server/sync/whatsapp.js:46-86 | over unmerged messages, the ids of the output, fused pairs flattened, are the sorted input's ids in order |
| WhatsApp.MergeFromLength | server/sync/whatsapp.js:88 | the output is shorter than the input by exactly the number of fused items |
| WhatsApp.MergeFromItems | server/sync/whatsapp.js:63-85 | every output item is an input message or the fusion of two neighbours in sorted order that meet all the merge conditions |
| WhatsApp.MergeConsecutivePartition | server/sync/whatsapp.js:33-91 | the output's ids are a permutation of the input ids, and the output shrinks by the number of fused items |
| WhatsApp.Collector.constructor | server/sync/whatsapp.js:221-225 | nothing collected yet, the target set is the configured groups and the activity clock starts now |
| WhatsApp.Collector.Values | server/sync/whatsapp.js:311 | `[...collected.values()]`: the stored messages in insertion order |
| WhatsApp.Collector.Collect | server/sync/whatsapp.js:227-234 | a message of a target group with a new non-empty id is stored and refreshes the clock; anything else changes nothing, so the first message under an id wins |
| WhatsApp.WhatsAppQuiz | server/sync/whatsapp.js:145-178 | the record is marked as from WhatsApp with source id `whatsapp:<message id>`, the group and message ids, the resolved city, and a poster exactly when an image was saved |
| WhatsApp.MarkAll | server/sync/whatsapp.js:130 | every id is appended to the ledger in order; the sync time is stamped when there is at least one |
| WhatsApp.AlreadyProcessed | server/sync/whatsapp.js:100 | the intended skip test: every id of the message is in the ledger |
| WhatsApp.MarkedIdsAreSkipped | server/sync/whatsapp.js:100 | with the intended test, a message whose ids were marked is skipped next time and one with an unmarked id is not |
| WhatsApp.MarkedIdsAreReprocessed | server/sync/whatsapp.js:100 | as written, a message marked on the previous run is not skipped: the ledger ["m1"] fails the test for id "m1" |
| WhatsApp.MessageOutcomeSpec | server/sync/whatsapp.js:97-181 | each outcome (skipped, nothing to extract, extractor threw, no name, similar quiz, added) happens exactly under its condition, tested in source order, the ledger test reading only its first argument; an added quiz is the one built from the reply |
| WhatsApp.AfterMessageSpec | server/sync/whatsapp.js:128-181 | skipping, nothing to extract and an extractor failure change nothing; no name and a similar quiz mark every id and stamp the sync time; an added quiz is also appended; the ledger grows exactly when the extractor answered |
| WhatsApp.Record | server/sync/whatsapp.js:128-181 | `addQuiz` for an added quiz, then one `markMessageProcessed` per id, give the state `AfterMessage` describes |
| WhatsApp.ProcessMessage | server/sync/whatsapp.js:97-183 | the outcome is `MessageOutcome` of the old state and the new quizzes, ledger and sync time are `AfterMessage` of it: skipped, nothing to extract and extractor failure change nothing; no name and similar mark the ids and stamp the sync time with now (server/store.js:79-85); added also appends the quiz |
| WhatsApp.NewerFirstOrder | server/sync/whatsapp.js:319 | the newest-first comparator is a total, transitive order |
| WhatsApp.GroupBatchOrder | server/sync/whatsapp.js:317-319 | a group's batch is a permutation of that group's messages, all of that group, newest first |
| WhatsApp.ProcessBatch | server/sync/whatsapp.js:325-331 | running `processMessage` over one batch in order gives the state and the pushed quizzes of `RunBatch` |
| WhatsApp.ProcessGroups | server/sync/whatsapp.js:315-333 | the returned quizzes, the quizzes file, the ledger and the sync time are those of running `processMessage` over each configured group's batch in turn, each batch newest first (`RunGroups`); the file grows by exactly the returned quizzes |
| WhatsApp.RunGroupsAdds | server/sync/whatsapp.js:315-333 | the extraction loop only appends: the old ledger is a prefix of the new one, and every new quiz comes from WhatsApp, names a configured group and carries the id of a collected message of that group |
| WhatsApp.OnClose | server/sync/whatsapp.js:255-282 | 401, and only 401, means logged out; 405 before connecting means expired auth; 515 restarts; any other close before connecting fails with its code; after connecting nothing happens |
| Instagram.SourceLedger.constructor | server/sync/instagram.js:8 | the two imported store operations, which store.js does not define, start with no recorded calls |
| Instagram.SourceLedger.MarkSourceItemProcessed | server/sync/instagram.js:114 | a call is recorded with its source and post id and nothing else changes |
| Instagram.SourceLedger.SetInstagramLastFetch | server/sync/instagram.js:185 | a call is recorded with its user name and timestamp and nothing else changes |
| Instagram.ImagePath | server/sync/instagram.js:108-110 | a poster path exactly when the post names an image file, under the posters directory |
| Instagram.InstagramQuiz | server/sync/instagram.js:147-177 | the record is marked as from Instagram with source id `instagram:<post id>` and the poster's user; the status, city and mode follow the shared rules; the Instagram link defaults to the post's URL; the poster and source time follow the post |
| Instagram.PostOutcomeSpec | server/sync/instagram.js:102-186 | each outcome of a post happens exactly under its condition in source order, the ledger check reading only its first argument; an added quiz is the Instagram quiz of the reply |
| Instagram.ProcessPost | server/sync/instagram.js:102-186 | the outcome is the one its conditions give against the old store; every path after the ledger check marks the post once; only an added quiz is stored and records a fetch time |
| Instagram.PostsToProcess | server/sync/instagram.js:58-98 | no posts when the pages file is missing, not a list or empty, when the dependencies are missing or when the scraper fails; otherwise the scraper's posts, or none when it returns no list |
| Instagram.RunPostsAdds | server/sync/instagram.js:100-181 | the collected quizzes are, in post order, the Instagram quizzes of named posts at strictly increasing positions, at most one per post; none when the ledger check fires |
| Instagram.ProcessPosts | server/sync/instagram.js:102-186 | the loop collects exactly the quizzes of the run over the posts, appends them to the store, marks every post in order unless the ledger check fires, and records one fetch time per new quiz |
| Instagram.SyncInstagram | server/sync/instagram.js:56-190 | the returned quizzes are the run over the scraper's posts, no more of them than posts, all from Instagram, and the store grows by exactly them; one fetch time per new quiz; when the ledger check does not fire every post is marked once in order, and when it fires nothing is stored or marked |
| Instagram.SyncInstagramNeverLinks | server/sync/instagram.js:8 | as written two of the three store imports are missing from server/store.js, so the module never links |
| Instagram.SyncInstagramLinksWithLedger | server/sync/instagram.js:8 | with the two source-ledger operations added to the store every import resolves |
| Eligibility.DigitValue | server/utils/eligibility.js:32 | a digit's value is below 10 and prints back as the same digit |
| Eligibility.AgeCategory | server/utils/eligibility.js:30-34 | an age tag exactly when the age pattern matches; it is "U" followed by digits |
| Eligibility.AgeMatchEndsInDigits | server/utils/eligibility.js:1 | a match of the age pattern is at least three characters and ends with its two captured digits |
| Eligibility.Selected | server/utils/eligibility.js:36-40 | only listed names are selected, and none exactly when no flag is set |
| Eligibility.SelectedSpec | server/utils/eligibility.js:36-40 | over distinct names, a name is selected exactly when its flag is set, and none twice |
| Eligibility.NamedTags | server/utils/eligibility.js:36-40 | given one test outcome per name, each of Open, UG, PG, Research and DU Only is present exactly when its outcome is true, none twice, never Custom; no tag at all exactly when every outcome is false |
| Eligibility.Categories | server/utils/eligibility.js:30-44 | at least one tag, none twice; the age tag first when present; each named tag exactly when one of its patterns matches; Custom exactly when nothing else matched, and then alone |
| Eligibility.Assemble | server/utils/eligibility.js:22-44 | the Set's insertion order: the age tag first, then the named tags; Custom alone exactly when both are missing |
| Eligibility.AgeIsNotNamed | server/utils/eligibility.js:33 | an age tag is never one of the named tags, so the Set never merges them |
| Eligibility.StripAll | server/utils/eligibility.js:26-28 | removing the noise phrases never lengthens the text |
| Eligibility.NormalizeEligibility | server/utils/eligibility.js:19-45 | a missing or empty input gives no tags; otherwise the tags of the joined text with its noise phrases stripped |
| Eligibility.EligibilityTags | server/utils/eligibility.js:19-45 | no tags exactly when the input is missing or empty |
| Eligibility.NamedCategoriesIgnoreCase | server/utils/eligibility.js:2-6 | the category patterns are case-insensitive: lower-casing the text changes no test |
| Eligibility.AgeDropsLeadingZero | server/utils/eligibility.js:32-33 | `parseInt` drops a leading zero: "U07" is tagged "U7" |
| Eligibility.UnderIsCaseSensitive | server/utils/eligibility.js:1 | only the U may be upper case: "Under 23" is tagged "U23", while "UNDER 23" gives no age tag |
| Eligibility.TeamSizeIsNoise | server/utils/eligibility.js:10 | a team-size phrase such as "Teams of 3" is removed whole |
| Regex.Skip | server/utils/eligibility.js:10 | a starred class takes the longest run of its characters: every character skipped is in the class and the next is not |
| Regex.MatchFrom | server/utils/eligibility.js:1-17 | a match starting at `i` ends within the text, at or after `i` |
| Regex.SearchFrom | server/utils/eligibility.js:30 | the leftmost match: it matches where it says, and no earlier start matches; None only when no start matches |
| Regex.RemoveFirst | server/utils/eligibility.js:27 | `replace` without g: the text is unchanged when the pattern does not match, else the leftmost match is cut out |
| Schema.ParseKind | server/schemas/quiz.js:12-37 | a validator accepts a value unchanged (the poc object gets its defaults) and never yields null |
| Schema.ParseField | server/schemas/quiz.js:11-38 | under `partial()` exactly a missing key is left out; otherwise a missing key without a default is an error; a null is accepted exactly when the property is nullable |
| Schema.ParseKindOrNull | server/schemas/quiz.js:17-20 | `.nullable()`: a null passes exactly when the property allows it, and stays null |
| Schema.ParseFields | server/schemas/quiz.js:11-38 | an accepted object holds only schema keys, and under `partial()` only keys the input had |
| Schema.Omit | server/schemas/quiz.js:40-55 | `omit` keeps exactly the properties whose keys are not named, in order |
| Schema.ParseFieldsSpec | server/schemas/quiz.js:11-38 | over distinct keys, an object parses exactly when no property fails, and then holds each property's value under its key, or leaves it out when it was left out |
| Schema.ParseFieldsAccepts | server/schemas/quiz.js:11-38 | an object parses exactly when none of its properties fails |
| Schema.ParseFieldsValues | server/schemas/quiz.js:11-38 | over distinct keys, a parsed object holds a key exactly when its property gave a value, and holds that value |
| Schema.OmitDistinct | server/schemas/quiz.js:40-55 | omitting properties keeps the keys distinct |
| Schema.QuizKeysDistinct | server/schemas/quiz.js:11-38 | the schema's 22 keys are distinct |
| Schema.PartialOfEmpty | server/schemas/quiz.js:40 | under `partial()` the empty object parses to the empty object |
| Schema.UpdateSchemaSpec | server/schemas/quiz.js:40-45 | the update schema accepts `{}` as `{}`; an accepted result holds only keys the body had and never id, sourceMessageId, sourceTimestamp or createdAt |
| Schema.PocDefault | server/schemas/quiz.js:25-29 | a missing poc defaults to `{}`, which parses to three nulls |
| Schema.CreateKeeps | server/schemas/quiz.js:47-55 | every property the create schema does not omit is kept |
| Schema.CreatedValue | server/schemas/quiz.js:47-55 | every kept property is in an accepted result, holding what its validator returned |
| Schema.IdFacts | server/schemas/quiz.js:12 | an accepted id is a string that passes the uuid check |
| Schema.StatusFacts | server/schemas/quiz.js:13 | an accepted status is one of published, draft and flagged, and 'published' when absent |
| Schema.ConfidenceFacts | server/schemas/quiz.js:14 | an accepted confidence is a number in [0, 1] |
| Schema.NameFacts | server/schemas/quiz.js:15 | an accepted name is a non-empty string, and a missing name is an error |
| Schema.DescriptionFacts | server/schemas/quiz.js:16 | a missing description is '' |
| Schema.DateFacts | server/schemas/quiz.js:17 | a missing date is null |
| Schema.EligibilityFacts | server/schemas/quiz.js:21 | an accepted eligibility is a list of strings, and [] when absent |
| Schema.CategoriesFacts | server/schemas/quiz.js:22 | accepted categories are all among the twelve enum values |
| Schema.PocFacts | server/schemas/quiz.js:25-29 | a missing poc is three nulls |
| Schema.CreateRequiresName | server/schemas/quiz.js:15 | the create schema rejects a body without a name |
| Schema.CreateSchemaSpec | server/schemas/quiz.js:47-55 | the create schema strips the server-set keys; status is one of the three and defaults to 'published'; the name is non-empty; the description defaults to '' |
| Schema.CreateEligibility | server/schemas/quiz.js:21 | after create, eligibility is a list of strings, [] when absent |
| Schema.CreateDateDefault | server/schemas/quiz.js:17 | after create, a missing date is null |
| Schema.CreatePocDefault | server/schemas/quiz.js:25-29 | after create, a missing poc is three nulls |
| Schema.QuizSchemaSpec | server/schemas/quiz.js:11-38 | an accepted quiz has a confidence in [0, 1], categories from the enum and an id that passes the uuid check |
| Routes.EffectiveMode | server/routes/quizzes.js:47 | a stored mode wins; otherwise 'offline' exactly when there is a venue without the word "online", else 'online' |
| Routes.ListOrderIsTotalOrder | server/routes/quizzes.js:62-67 | the comparator is a total, transitive order |
| Routes.FilterStep | server/routes/quizzes.js:22-60 | a filter step taken only when its parameter is given equals the filter by what it allows: each allowed quiz kept as often and in the order it came |
| Routes.FilterByCity | server/routes/quizzes.js:18-24 | the order-preserving filter keeping exactly the published quizzes of the requested city, or of every city when none is asked for |
| Routes.FilterByTags | server/routes/quizzes.js:26-38 | the order-preserving filter keeping exactly the quizzes sharing a category with the comma-separated list and whose organiser contains the org text, case-insensitively |
| Routes.FilterByContent | server/routes/quizzes.js:40-60 | the order-preserving filter keeping exactly the quizzes that are undated or not past when upcoming is 'true', of the requested mode, and mentioning the search text in name, description, organiser or a quizmaster |
| Routes.ListQuizzes | server/routes/quizzes.js:17-70 | exactly the stored quizzes the query selects, each as often as stored, all published, dated ones first by date, undated ones newest first |
| Routes.GetQuiz | server/routes/quizzes.js:84-90 | 404 unless the first quiz with the id is published; otherwise 200 with that quiz |
| Routes.CreateQuiz | server/routes/quizzes.js:92-116 | 400 and no change when validation fails; otherwise 201 and the appended quiz: every validated field copied by `...data` (name, date, time, venue, map link, eligibility, organiser, quizmasters, poc, links, poster), a new id, sanitized description, status defaulting to 'published', confidence 1, categories from the eligibility list, source message id `manual-<ms>`, no city, mode or source |
| Routes.Prepared | server/routes/quizzes.js:124-130 | a truthy description is sanitized; a given eligibility list, even an empty one, replaces the categories with its normalized tags; nothing else changes |
| Routes.PatchQuiz | server/routes/quizzes.js:118-135 | 400 and no change on invalid input, 404 and no change for an unknown id, else the first quiz with the id takes the prepared update and the time |
| Routes.PatchedQuiz | server/routes/quizzes.js:124-132 | a patched quiz keeps its id and creation time; a given eligibility list recomputes its categories, whatever categories the body gave |
| Routes.PublishQuiz | server/routes/quizzes.js:137-141 | 404 and no change for an unknown id, else the first quiz with the id becomes published with the new time |
| Routes.DeleteQuizRoute | server/routes/quizzes.js:143-147 | 404 and no change for an unknown id, else the first quiz with the id is removed |
| Routes.PublishThenGet | server/routes/quizzes.js:84-90 | after a publish succeeds, `GET /:id` finds the same quiz, now published |
| Auth.RequestToken | server/middleware/auth.js:3 | the header with its first "Bearer " removed when that is non-empty, else the query token |
| Auth.RequireAuth | server/middleware/auth.js:1-10 | the request passes exactly when its token is non-empty and equals the configured one; with no configured token nothing passes |
| Auth.BearerHeaderAccepted | server/middleware/auth.js:3-5 | "Bearer <key>" with the configured non-empty key passes, whatever the query says |
| Auth.QueryTokenAccepted | server/middleware/auth.js:3-5 | without a header the query token alone decides |
| Auth.BareSchemeFallsBackToQuery | server/middleware/auth.js:3 | a header that is only "Bearer " yields '' and the query token is used instead |
| Notify.MatchingIsFilter | server/sync/notify.js:48-59 | the matching quizzes are exactly the new quizzes the preferences accept, in order, none added |
| Notify.MatchingRespectsPrefs | server/sync/notify.js:50-56 | with cities chosen, a matched quiz is in one of them; with categories chosen, it shares one of them |
| Notify.EmptyPrefsMatchAll | server/sync/notify.js:45-58 | missing or empty preferences accept every new quiz |
| Notify.Title | server/sync/notify.js:66 | the title starts "Quiz Finder: " and ends in "zes" exactly when there is more than one quiz |
| Notify.Names | server/sync/notify.js:69 | the k-th name is the k-th matching quiz's name |
| Notify.Url | server/sync/notify.js:70 | one quiz links to its detail page, several to the home page |
| Notify.SingleBodyStartsWithName | server/sync/notify.js:67-68 | a message about one quiz starts with its name, then " (city)" when it has a city, and ends with " — date" when it has a date; with neither it is the name alone |
| Notify.SeveralBodyListsNames | server/sync/notify.js:69 | split at commas, a message about several comma-free names gives back the first three names (or fewer), with "..." after the third when there are more |
| Notify.BodyOfSeveral | server/sync/notify.js:69 | a message about several quizzes joins the first three names with ", " and adds "..." when there are more |
| Notify.RecipientsAreMatched | server/sync/notify.js:44-61 | a subscriber gets a message exactly when at least one new quiz matches its preferences |
| Notify.PushesGoToRecipients | server/sync/notify.js:44-75 | the i-th message goes to the i-th recipient and is built from that recipient's matching quizzes |
| Notify.DeliverAll | server/sync/notify.js:41-83 | every recipient is sent its message, in order; sent counts the accepted deliveries and failed the refused ones, and they add up to the number of recipients |
| Notify.SendNotifications | server/sync/notify.js:7-86 | nothing is sent when there are no new quizzes, push is not configured, the subscriber fetch fails or returns no list or an empty one; otherwise every recipient is sent its message and sent and failed are counted |
| Notify.ChosenPrefsIgnored | client/src/components/NotificationBell.jsx:61-69 | as written: the preferences a browser chose are sent as `prefs` and not stored, so its record matches every new quiz |
| Notify.DelhiSubscriberGetsMumbai | client/src/components/NotificationBell.jsx:61-69 | as written: a subscriber who chose only Delhi is sent a quiz in Mumbai |
| Notify.ChosenPrefsRespected | server/sync/notify.js:48-59 | corrected: with the sent preferences read, a subscriber only hears of quizzes in a chosen city and, when categories were chosen, sharing one |
| Subscribe.Slice | api/subscribe.js:35 | `slice(0, n)` is the prefix of length min(n, length) |
| Subscribe.SubscriptionKey | api/subscribe.js:35 | the key starts with "pushsub:" followed by at most 40 base64url characters |
| Subscribe.PostedEndpoint | api/subscribe.js:29-31 | an endpoint is reported only when it is a non-empty string |
| Subscribe.StoredPreferences | api/subscribe.js:40 | the body's `preferences`, or no preferences when it is missing |
| Subscribe.Kv.Page | api/subscribe.js:59 | a page stays within the key list and never goes back |
| Subscribe.Kv.Scan | api/subscribe.js:59 | one page of at most 100 keys, keeping only subscription keys, and the cursor of the next page or 0 after the last |
| Subscribe.Kv.Get | api/subscribe.js:64 | the stored record for a present key, nothing for an absent one |
| Subscribe.Values | api/subscribe.js:64-65 | the records kept are values of present keys, no more of them than keys |
| Subscribe.ValuesComplete | api/subscribe.js:64-65 | every present key's record is kept |
| Subscribe.ScanAll | api/subscribe.js:56-62 | the do-while scan collects exactly the subscription keys, in store order |
| Subscribe.Handle | api/subscribe.js:5-82 | OPTIONS is answered before anything; without the store 503; POST stores the subscription and preferences under its key or answers 400; GET answers 401 without the right bearer token, else all stored subscriptions; DELETE removes the key or answers 400; anything else 405; only POST and DELETE change the store |
| Subscribe.GetReturnsAllSubscriptions | api/subscribe.js:56-65 | GET returns every stored subscription |
| Subscribe.SharedPrefixCollides | api/subscribe.js:35 | as written: endpoints whose first 30 UTF-8 bytes agree get the same key |
| Subscribe.FcmEndpointsCollide | api/subscribe.js:35 | as written: two different endpoints of one push service overwrite each other |
| Subscribe.FullSubscriptionKey | api/subscribe.js:35 | corrected: the whole encoding after the prefix is still a subscription key |
| Subscribe.FullKeyInjective | api/subscribe.js:35 | corrected: different endpoints never share a key |
| Subscribe.PrefsPropertyIgnored | api/subscribe.js:29 | as written: a body carrying only `prefs` is stored with empty preferences |
| Subscribe.SentPreferences | api/subscribe.js:29 | corrected: the preferences sent under `prefs`, else under `preferences`, else none |
| Base64.CharSextet | api/subscribe.js:35 | a character has a 6-bit value exactly when the alphabet maps that value back to it |
| Base64.SextetRoundTrip | api/subscribe.js:35 | every 6-bit value's character reads back as that value, in both alphabets |
| Base64.GroupRoundTrip | api/subscribe.js:35 | gluing the four 6-bit values of three bytes gives the bytes back, and a short group needs only its first values |
| Base64.EncodeLength | api/subscribe.js:35 | n bytes encode to (4n+2)/3 characters, no padding |
| Base64.EncodeAppend | api/subscribe.js:35 | encoding a whole number of 3-byte groups and then the rest is encoding the whole |
| Base64.DecodeGroup | client/src/components/NotificationBell.jsx:10 | a group of 2, 3 or 4 characters decodes to one byte fewer than it has characters |
| Base64.DecodeEncodeGroup | client/src/components/NotificationBell.jsx:10 | a full group decodes to the three bytes it was made of |
| Base64.DecodeEncode | client/src/components/NotificationBell.jsx:10 | decoding the standard alphabet inverts encoding in it |
| Base64.EncodeUrlStd | client/src/components/NotificationBell.jsx:9 | the URL-safe and standard encodings agree position by position, up to the two swapped characters |
| Base64.EncodeInAlphabet | api/subscribe.js:35 | every character of an encoding belongs to its alphabet |
| Base64.StripPadding | client/src/components/NotificationBell.jsx:10 | up to two '=' that complete a multiple of four are dropped again before decoding |
| Base64.AtobPadded | client/src/components/NotificationBell.jsx:10 | `atob` of a padded standard encoding gives the bytes back |
| Base64.EncodeUrlInjective | api/subscribe.js:35 | different byte strings have different base64url encodings |
| Base64.EncodeFirst40 | api/subscribe.js:35 | the first 40 characters of an encoding depend only on the first 30 bytes |
| Utf8.CharBytes | api/subscribe.js:35 | a character takes one to four bytes, one exactly when it is ASCII, and then its own code |
| Utf8.CharBytesDecode | api/subscribe.js:35 | the first byte tells the length and the bytes give the code point back |
| Utf8.CharBytesInjective | api/subscribe.js:35 | different characters have different encodings |
| Utf8.Encode | api/subscribe.js:35 | a string takes at least one byte per character |
| Utf8.EncodeAppend | api/subscribe.js:35 | encoding a concatenation is concatenating the encodings |
| Utf8.EncodeAscii | api/subscribe.js:35 | ASCII text is its own encoding |
| Utf8.EncodeInjective | api/subscribe.js:35 | different strings have different encodings |
| NotificationBell.Padding | client/src/components/NotificationBell.jsx:8 | fewer than four '=' that bring the length to a multiple of four |
| NotificationBell.ToStandardAlphabet | client/src/components/NotificationBell.jsx:9 | no '-' or '_' is left |
| NotificationBell.ToStandardAlphabetPointwise | client/src/components/NotificationBell.jsx:9 | the conversion maps each character on its own and keeps the length |
| NotificationBell.UrlBase64RoundTrip | client/src/components/NotificationBell.jsx:7-12 | the decoder gives back the bytes of any unpadded base64url string, the form a VAPID public key takes |
| NotificationBell.Toggle | client/src/components/NotificationBell.jsx:39-49 | a selected chip is removed and nothing else changes; an unselected one is appended |
| NotificationBell.ToggleTwice | client/src/components/NotificationBell.jsx:39-49 | selecting and unselecting a chip gives the selection back |
| NotificationBell.ChosenPrefs | client/src/components/NotificationBell.jsx:61-64 | the preferences carry exactly the selected cities and categories |
| NotificationBell.SubscribeBody | client/src/components/NotificationBell.jsx:51-70 | nothing is sent while no city is chosen; otherwise the body carries the subscription and the choices under `prefs`, and no `preferences` |
| WaGroups.GetTrackedIds | server/scripts/wa-groups.js:28-36 | the nested loops collect exactly the ids of every entry of every city, a bare string entry being its own id |
| WaGroups.TrackedBeforeStep | server/scripts/wa-groups.js:30-34 | one more city adds exactly the ids of its entries |
| WaGroups.CityIndex | server/scripts/wa-groups.js:120 | the position of the city of that name, or -1 exactly when no city has it |
| WaGroups.FirstCityWith | server/scripts/wa-groups.js:152-158 | -1 or a position in the city list |
| WaGroups.Config.Add | server/scripts/wa-groups.js:108-138 | fewer than three arguments change nothing; an id the city already lists changes nothing; otherwise the city gets `{name, id}` appended, a new city being created after the existing ones in insertion order |
| WaGroups.Config.Remove | server/scripts/wa-groups.js:142-173 | no argument or an id no city lists changes nothing; otherwise the first entry with the id is taken out of the first city listing it in insertion order, and its label is reported |
| WaGroups.AddTracksId | server/scripts/wa-groups.js:135 | after an add the tracked ids grow by exactly the new id |
| WaGroups.AddTouchesOneCity | server/scripts/wa-groups.js:120-135 | an add leaves every other city as it was and keeps the city order; a new city goes last |
| WaGroups.AddAppends | server/scripts/wa-groups.js:135 | the edited city's entries end with the new one, after all it had |
| WaGroups.AddIgnoresOtherCities | server/scripts/wa-groups.js:125-133 | the duplicate test looks only at the named city: an id tracked elsewhere is added again |
| WaGroups.RemoveTakesOne | server/scripts/wa-groups.js:152-164 | a remove takes out exactly one entry, from the first city listing the id in insertion order, and leaves the other cities as they were |
| WaGroups.RemoveUntracks | server/scripts/wa-groups.js:152-164 | when the id was listed once, after the remove it is no longer tracked and every other id still is |
| WaGroups.EmptyIdIsNotExisting | server/scripts/wa-groups.js:125-128 | an empty-string entry does not count as the empty id already listed, a named one does |
| WaGroups.Badges | server/scripts/wa-groups.js:82-87 | a row shows [TRACKED] exactly when its id is tracked and [QUIZ?] exactly when its subject looks like a quiz group |
| WaGroups.ListedSpec | server/scripts/wa-groups.js:72-74 | the listing holds exactly the groups with at least 200 members, each as often as reported, largest first |
| WaGroups.SmallGroupHidden | server/scripts/wa-groups.js:73 | a group below 200 members is never listed, whatever its name |
| IgPages.StripAt | server/scripts/ig-pages.js:53 | one leading '@' is removed, nothing else |
| IgPages.StripAtOnce | server/scripts/ig-pages.js:53 | a second '@' survives |
| IgPages.PageNameWords | server/scripts/ig-pages.js:55 | a name given as several space-free words splits back into those words |
| IgPages.IndexOfUser | server/scripts/ig-pages.js:59 | the first page with that username, or -1 exactly when none has it |
| IgPages.PageList.Add | server/scripts/ig-pages.js:47-68 | fewer than three arguments change nothing; a tracked username changes nothing and reports the tracked page; otherwise the page is appended |
| IgPages.PageList.Remove | server/scripts/ig-pages.js:72-90 | no argument or an untracked username changes nothing; otherwise the first page with the username is removed and reported |
| IgPages.AddKeepsUnique | server/scripts/ig-pages.js:59-65 | adding keeps usernames unique |
| IgPages.RemoveUndoesAdd | server/scripts/ig-pages.js:65-87 | removing a freshly added username gives the list back |
| IgPages.AddedPageFound | server/scripts/ig-pages.js:65-81 | the page an add appended is the one a later lookup finds |
| IgPages.RemoveDropsUser | server/scripts/ig-pages.js:81-87 | with unique usernames, no page of that name is left, every other page stays, in order |
| IgPages.GroupByCity | server/scripts/ig-pages.js:28-33 | each city, "Unknown" for none, becomes a key at its first page and maps to its pages in file order |
| IgPages.List | server/scripts/ig-pages.js:20-43 | no pages means the empty message; otherwise the total and the city groups sorted |
| IgPages.ListedTotal | server/scripts/ig-pages.js:35-37 | the printed group sizes add up to the printed total |
| IgPages.ListedGroups | server/scripts/ig-pages.js:36-40 | each printed group holds exactly the pages of its city, in file order |
| IgPages.ListedCities | server/scripts/ig-pages.js:36 | every page's city is printed exactly once, and the groups are in `sort()` order |
| IgPages.KeyLeIsOrder | server/scripts/ig-pages.js:36 | the order `sort()` uses on the entries is total and transitive |
| IgPages.CityOrderDistinct | server/scripts/ig-pages.js:31 | no city becomes a key twice |
| IgPages.GroupSizesSum | server/scripts/ig-pages.js:29-33 | the groups hold every page once |
| MigrateCity.Migrated | scripts/migrate-city.js:12-18 | afterwards a quiz has a city: its own if set, else "Delhi"; its source group is kept if set, else null; nothing else changes |
| MigrateCity.Migrate | scripts/migrate-city.js:9-19 | every quiz is updated in place and the count is the number of quizzes that had no city |
| MigrateCity.MigrateIdempotent | scripts/migrate-city.js:11-19 | a second run changes nothing and counts none |
| TagColors.GetTagColor | client/src/utils/tagColors.js:6-13 | on the lowercased, trimmed tag: age colour exactly when it contains an age keyword; open colour exactly when it is an open tag and not age; university, then degree, when it contains one of their keywords and no earlier class applies |
| TagColors.NormalForm | client/src/utils/tagColors.js:7 | the normal form has no capital letter and no whitespace at its ends |
| TagColors.NormalizeIdempotent | client/src/utils/tagColors.js:7 | normalizing twice is normalizing once |
| TagColors.ColorOfNormalForm | client/src/utils/tagColors.js:6-12 | a tag and its normal form get the same colour |
| TagColors.EducationIsUniversity | client/src/utils/tagColors.js:10 | substring matching makes "Education", in any letter case, a university tag |
| Filters.HandleSearch | client/src/components/Filters.jsx:13-15 | only the search text changes, to the typed value |
| Filters.HandleOrg | client/src/components/Filters.jsx:17-19 | only the organiser text changes |
| Filters.HandleUpcoming | client/src/components/Filters.jsx:21-23 | only the upcoming flag changes |
| Filters.HandleMode | client/src/components/Filters.jsx:25-27 | only the mode changes, a missing selection becoming '' |
| Filters.HandleEligibility | client/src/components/Filters.jsx:29-35 | checking appends the tag, even again; unchecking removes every copy and keeps the other tags; nothing else changes |
| Filters.UncheckAbsent | client/src/components/Filters.jsx:33 | unchecking a tag that is not selected keeps the list as it is |
| Filters.CheckThenUncheck | client/src/components/Filters.jsx:29-35 | checking an unselected tag and unchecking it gives the selection back |
| Filters.ActiveCount | client/src/components/Filters.jsx:37-43 | at most five; zero exactly when search, organiser and mode are empty, no tag is chosen and upcoming is on |
| Filters.HandlersAndCount | client/src/components/Filters.jsx:13-43 | checking a tag makes the count at least one; typing a search changes it by at most one |
| App.ParseHash | client/src/App.jsx:13-23 | an empty hash counts as "#/"; a detail route exactly when the hash starts "#/quiz/", with the rest as the id; admin exactly when it starts "#/admin" and not "#/quiz/"; home otherwise |
| App.SelectQuizRoundTrip | client/src/App.jsx:134-140 | selecting a quiz and reading the hash back opens that quiz, for ids of URL-safe characters such as the uuids the server issues; going back to the grid routes home |
| App.RouteExamples | client/src/App.jsx:13-23 | "" routes home, any "#/admin..." to the admin panel, "#/quiz/x" to quiz x |
| App.PushUrlOpensQuiz | server/sync/notify.js:70 | the link of a push message about one quiz opens that quiz's page in the client |
| App.LoadParams | client/src/App.jsx:111-120 | `upcoming` is always sent; city, search, organiser and mode only when non-empty; the tags joined by ',' only when there are any |
| App.QueryAsWritten | client/src/utils/api.js:9-15 | as written: the query string never carries the mode |
| App.ModeFilterDropped | client/src/utils/api.js:9-15 | as written: every quiz passes the mode filter, whatever mode the user picked |
| App.Query | client/src/utils/api.js:9-15 | corrected: the query string carries the mode as well, and otherwise what was written |
| App.ServerAppliesFilters | client/src/App.jsx:108-121 | with the corrected query the server keeps a quiz by city, date and mode exactly as the filter panel says, and by tags exactly when it shares a chosen tag |
| App.OnCityList | client/src/App.jsx:68-78 | a one-city list selects and stores that city; otherwise the picker opens only when no city is stored |
| App.SelectCity | client/src/App.jsx:80-84 | the chosen city is selected and stored and the picker closes |
| App.PickedCitySticks | client/src/App.jsx:63-84 | once a city has been picked, a later visit starts on it without the picker unless the city list has exactly one city |
| AdminPanel.StatusBadge | client/src/components/AdminPanel.jsx:15-19 | flagged and draft show as themselves, every other status, a missing one included, as published |
| AdminPanel.BadgesAreSchemaStatuses | server/schemas/quiz.js:13 | the badges are exactly the statuses the quiz schema admits, each shown as itself |
| AdminPanel.StatusDot | client/src/components/AdminPanel.jsx:28-51 | no status reads Unknown; a logged-out session reads Logged out even when connected; otherwise Connected or Disconnected; the colour follows the label |
| AdminPanel.FormatDate | client/src/components/AdminPanel.jsx:21-26 | "--" for a missing or empty date, the raw text when it cannot be parsed, else its rendering |
| AdminPanel.PublishedRowSettles | client/src/components/AdminPanel.jsx:288-293 | a row offers Publish only when flagged; once published it shows the published badge and no longer offers it |
| QuizCard.Pad2 | client/src/components/QuizCard.jsx:53 | two digits whose value is the number |
| QuizCard.MatchTime | client/src/components/QuizCard.jsx:45 | a match has an hour and minutes of at most two digits |
| QuizCard.Hour24 | client/src/components/QuizCard.jsx:48-52 | the converted hour stays below 100 |
| QuizCard.Clock | client/src/components/QuizCard.jsx:53 | "HH:MM": the padded hour, ':', the padded minutes |
| QuizCard.ParseTo24h | client/src/components/QuizCard.jsx:43-54 | null for a missing or empty text and exactly for one that does not match; otherwise five characters, digits around ':' |
| QuizCard.ParseOwnOutput | client/src/components/QuizCard.jsx:45-53 | every "HH:MM" with numbers below 100 comes back unchanged: no range is checked |
| QuizCard.ParseIdempotent | client/src/components/QuizCard.jsx:43-54 | parsing a parsed time gives it back |
| QuizCard.TwelveHourClock | client/src/components/QuizCard.jsx:45-53 | a 12-hour time with a one- or two-digit hour, any spacing and either letter case becomes the 24-hour clock: 12 AM is 00, PM adds twelve below noon |
| QuizCard.SuffixRead | client/src/components/QuizCard.jsx:45 | spaces and then AM or PM in any letter case are read as the suffix |
| QuizCard.WaLink | client/src/components/QuizCard.jsx:38-41 | the wa.me prefix followed by exactly the digits of the number, a missing one giving none |
| QuizCard.WaLinkIgnoresFormatting | client/src/components/QuizCard.jsx:39 | a non-digit in the number does not change the link |
| QuizCard.WaLinkOfDigits | client/src/components/QuizCard.jsx:39-40 | a number of digits appears whole in the link |
| QuizCard.GcalParams | client/src/components/QuizCard.jsx:56-85 | action TEMPLATE; text the name or "Quiz Event"; dates only for a dated quiz; location only for a truthy venue; details only when there is a host or a registration link |
| QuizCard.SetDates | client/src/components/QuizCard.jsx:60-77 | the dates parameter is set exactly when the quiz has a date, and nothing else changes |
| QuizCard.DetailsLines | client/src/components/QuizCard.jsx:79-83 | no details exactly when there is neither host nor registration link; the host line comes first |
| QuizCard.StartStamp | client/src/components/QuizCard.jsx:61-64 | a "YYYY-MM-DD" date with a readable time starts "YYYYMMDDTHHMM00/" |
| QuizCard.CardTags | client/src/components/QuizCard.jsx:88-89 | the categories when present, else the eligibility, else none, without empty entries |
| QuizCard.EmptyCategoriesHideEligibility | client/src/components/QuizCard.jsx:88 | an empty category array hides the free-text eligibility: no tags are shown |
| QuizCard.CategoriesShownInOrder | client/src/components/QuizCard.jsx:88-89 | categories without empty entries are shown as they are, in order |
| QuizCard.PocNumber | client/src/components/QuizCard.jsx:90 | the WhatsApp number when truthy, else the phone number |
| QuizCard.ContactLinkPrefersWhatsApp | client/src/components/QuizCard.jsx:90 | the contact link dials the WhatsApp number when there is one and the phone number otherwise, without formatting |
| QuizCard.CardMasters | client/src/components/QuizCard.jsx:91 | the non-empty quizmasters, no more of them than listed |
| QuizDetail.Escape | client/src/components/QuizDetail.jsx:11-13 | the escaped text holds no '<' or '>' |
| QuizDetail.EscapeIsPerCharacter | client/src/components/QuizDetail.jsx:11-13 | the three passes amount to replacing each character by its entity, because '&' goes first |
| QuizDetail.UnescapeEscape | client/src/components/QuizDetail.jsx:11-13 | escaping loses nothing: reading the entities back gives the text |
| QuizDetail.EntityShownAsWritten | client/src/components/QuizDetail.jsx:11 | an entity typed into a description is shown as written, not as the character it names |
| QuizDetail.TagText | client/src/components/QuizDetail.jsx:15-23 | a tag the renderer writes starts with '<', ends with '>' and holds no newline |
| QuizDetail.Emphasis | client/src/components/QuizDetail.jsx:15-17 | the bold and italic passes keep every character of the text, in order, adding only tags |
| QuizDetail.CloseAt | client/src/components/QuizDetail.jsx:15-17 | the closing stars, when found, lie after the opening ones and within the text |
| QuizDetail.LineRun | client/src/components/QuizDetail.jsx:19 | the greedy `.+` takes everything up to the next line end or the end |
| QuizDetail.BlankRun | client/src/components/QuizDetail.jsx:19 | the longest run of `\s` characters from a position |
| QuizDetail.BulletBody | client/src/components/QuizDetail.jsx:19 | an item's text lies after the marker and the whitespace, and holds no line end |
| QuizDetail.Bullets | client/src/components/QuizDetail.jsx:19 | the bullet pass keeps every character except the markers and the whitespace after them, adding only item tags |
| QuizDetail.LastClose | client/src/components/QuizDetail.jsx:21 | the greedy `.*` reaches a closing item tag within the range |
| QuizDetail.ItemsRun | client/src/components/QuizDetail.jsx:21 | a run of items never reaches past the text |
| QuizDetail.Lists | client/src/components/QuizDetail.jsx:21 | wrapping runs of items keeps every character, adding only list tags |
| QuizDetail.BreakLines | client/src/components/QuizDetail.jsx:23 | no newline is left, and every other character is kept |
| QuizDetail.Markdown | client/src/components/QuizDetail.jsx:9-23 | after all passes no character of the text is '<', '>' or a newline |
| QuizDetail.RenderMarkdown | client/src/components/QuizDetail.jsx:7-8 | a missing or empty text renders as '' |
| QuizDetail.FlattenSafe | client/src/components/QuizDetail.jsx:9-24 | pieces without a '<', '>' or newline character spell safe HTML |
| QuizDetail.RenderedHtmlIsSafe | client/src/components/QuizDetail.jsx:7-25 | the rendered description is safe to insert: every '<' and '>' in it belongs to a strong, em, li, ul or br tag the renderer wrote, and it holds no newline |
| QuizDetail.PlainTextShownAsWritten | client/src/components/QuizDetail.jsx:7-25 | text without markup characters, entities or line breaks, and not opening with a dash, is shown exactly as written |
| QuizDetail.BulletLineIsList | client/src/components/QuizDetail.jsx:19-21 | a line "- item" becomes a one-item list |
| QuizDetail.TwoBulletLines | client/src/components/QuizDetail.jsx:19-23 | two bullet lines in a row become one list of two items, with the newline between them kept as "<br/>" |
| QuizDetail.BulletThen | client/src/components/QuizDetail.jsx:19 | a bullet line ended by a line end or the end of the text becomes one item, and the rest is left to the next line |
| QuizDetail.ListOfTwoItems | client/src/components/QuizDetail.jsx:21 | two items on consecutive lines form one run, wrapped in one list |
| QuizDetail.EmphasisPlain | client/src/components/QuizDetail.jsx:15-17 | text without stars is left alone by the bold and italic passes |
| QuizDetail.BulletsPlain | client/src/components/QuizDetail.jsx:19 | a single line not starting with a marker is left alone by the bullet pass |
| QuizDetail.ListsPlain | client/src/components/QuizDetail.jsx:21 | text without items is left alone by the list pass |
| QuizDetail.FormatDateTime | client/src/components/QuizDetail.jsx:27-52 | "TBA" for a missing date; the raw text, and no time, when the date has not three dash-separated parts; a time only for a truthy time with a well-formed date |
| QuizDetail.IsoDateFormatted | client/src/components/QuizDetail.jsx:30-40 | a "YYYY-MM-DD" date is split into year, month and day for the locale formatter, and the raw text is shown only when that date is invalid |
| QuizDetail.Triplet | client/src/components/QuizDetail.jsx:55 | a byte becomes '%' and two hexadecimal digits whose value is the byte |
| QuizDetail.EncodeComponent | client/src/components/QuizDetail.jsx:55 | the encoding holds only unreserved characters and '%' |
| QuizDetail.DecodeEncode | client/src/components/QuizDetail.jsx:55 | percent-decoding the encoding gives the UTF-8 bytes of the text |
| QuizDetail.EncodeComponentInjective | client/src/components/QuizDetail.jsx:55 | different venues give different search queries |
| QuizDetail.MapsUrl | client/src/components/QuizDetail.jsx:54-56 | the maps search prefix followed by a value holding no '&', '=', '#' or space |
| QuizDetail.VenueHref | client/src/components/QuizDetail.jsx:146-150 | a link exactly when there is a venue: the quiz's own map link when it has one |
| QuizDetail.VenueSearchFindsVenue | client/src/components/QuizDetail.jsx:146-150 | without a map link, the search query decodes to exactly the venue |
| QuizDetail.DetailTags | client/src/components/QuizDetail.jsx:105 | the free-text eligibility without empty entries |
| QuizEditor.Slice | client/src/components/QuizEditor.jsx:25-26 | a prefix of at most n characters, exactly n when there are that many |
| QuizEditor.QuizToForm | client/src/components/QuizEditor.jsx:19-37 | no quiz gives the empty form; the call fails exactly when a truthy date is invalid; date and time take at most 10 and 5 characters, both empty for an undated quiz; every missing field becomes '' |
| QuizEditor.LocalDateTime | client/src/components/QuizEditor.jsx:42-44 | the date and time, midnight when no time is given, with seconds 00 |
| QuizEditor.ListField | client/src/components/QuizEditor.jsx:52 | the items are exactly the non-empty trimmed comma-separated pieces, each trimmed and comma-free |
| QuizEditor.FormToPayload | client/src/components/QuizEditor.jsx:39-63 | the call fails exactly when a non-empty date is invalid; the date is null exactly when the form's is empty, else its ISO form; the lists are the list fields; the contact is regrouped |
| QuizEditor.ListRoundTrip | client/src/components/QuizEditor.jsx:28-52 | joining with ", " and reading the field back gives the list back, for non-empty trimmed comma-free items |
| QuizEditor.TrimJoined | client/src/components/QuizEditor.jsx:28-52 | the trimmed pieces of a joined list are its items |
| QuizEditor.ListFieldStable | client/src/components/QuizEditor.jsx:28-54 | reading a list field, writing it back and reading it again changes nothing |
| QuizEditor.EditRoundTrip | client/src/components/QuizEditor.jsx:19-63 | opening a quiz and saving it unchanged gives back its lists, its text fields and its contact, missing ones as '' |
| QuizEditor.DatelessStaysDateless | client/src/components/QuizEditor.jsx:21-45 | a quiz without a date is saved with a null date |
| QuizEditor.EmptyFormPayload | client/src/components/QuizEditor.jsx:3-63 | the untouched new-quiz form is saved with empty text, empty lists and a null date |
| Quizzes.ApplyPatchLaws | server/store.js:50 | spreading an empty patch changes nothing, spreading a patch twice is spreading it once, and a patch without id or creation time keeps them |
| Schema.OmitKeys | server/schemas/quiz.js:40-55 | no omitted key is left among the fields |
| Eligibility.TeamPatternMatches | server/utils/eligibility.js:10 | the team-size pattern matches the whole of "teams of 3" |
| Subscribe.Kv.Set | api/subscribe.js:38 | the key is inserted or overwritten, a new key goes last in scan order, nothing else changes |
| Subscribe.Kv.Del | api/subscribe.js:77 | the key is gone, nothing else changes |
| WaGroups.RemoveKeepsOthers | server/scripts/wa-groups.js:152-164 | every other tracked id is still tracked after a remove |
| WaGroups.RemoveDropsId | server/scripts/wa-groups.js:152-164 | an id listed once is no longer tracked after its remove |
| QuizCard.AllDayWithoutTime | client/src/components/QuizCard.jsx:60-76 | with a date but no readable time the event spans that day: "YYYYMMDD/YYYYMMDD" |
| QuizCard.IsoDateDigits | client/src/components/QuizCard.jsx:61 | "YYYY-MM-DD" without its dashes is "YYYYMMDD" |

## Left out

- File persistence: the JSON files of the store, the configuration, the pages list and the migration are read and written whole. The model holds their contents in fields, so `readFileSync` and `writeFileSync` are not modelled.
- The WhatsApp socket lifecycle is not modelled: authentication files, the QR code, history fetching, media download, poster files and the idle timers are network and I/O. The download outcome is a parameter of `WhatsApp.ProcessMessage`.
- server/sync/extractor.js is not part of this model. The extractor is a function parameter returning a reply, a failure or nothing.
- The Instagram scraper, `runScraper` and `checkDependencies` are child processes, sleeps and the network. Their results are parameters of `Instagram.SyncInstagram`.
- `markSourceItemProcessed` and `setInstagramLastFetch` are imported by server/sync/instagram.js but server/store.js does not export them, so as written the module fails to link and none of it runs (see "## Findings"). The Instagram members model the evidently intended behaviour, with the two calls only recorded on `Instagram.SourceLedger` and given no further meaning.
- server/sync/run.js, server/sync/deploy.js, server/routes/sync.js, server/index.js and server/middleware/security.js are not modelled. They are process orchestration, an overlap guard and library wiring.
- `GET /cities`, `GET /admin/all` and `GET /admin/flagged` are not modelled. They return `Store.GetCityList`, the stored list, and its flagged entries, with no further logic.
- Dates are parameters, because time zones and locales belong to the browser. This covers:
  - `new Date`, `toISOString`, `toTimeString` and `toLocaleDateString`/`toLocaleTimeString`;
  - the two-hour end time of the calendar link;
  - the `Number()` parsing inside the detail page's date;
  - the card's display date (client/src/components/QuizCard.jsx:27-36).
- `localeCompare` is modelled as ordinal comparison (`Text.StrLe`), a total order.
- `toLowerCase` maps ASCII letters only. Other characters with a lower-case form (such as U+0130 or the Kelvin sign) are not folded.
- Confidence, threshold and the Dice score are Dafny reals, not IEEE doubles. `parseFloat` of the threshold variable is a parameter; only its `|| 0.7` fallback is modelled.
- Strings are sequences of Unicode scalar values. Lone surrogates therefore cannot occur, so the `URIError` of `encodeURIComponent` and the replacement character of `Buffer.from` are not modelled.
- `URLSearchParams` in `gcalLink` is modelled as a map from key to value. The order of the parameters in the URL is not modelled.
- web-push delivery and the Vercel KV transport are not modelled. Delivery is a parameter returning accepted or refused. The store is `Subscribe.Kv`, with insertion-ordered keys.
- React state, effects and rendering are not modelled. This covers:
  - the title of the quiz editor;
  - the notification bell's restore from `localStorage` (client/src/components/NotificationBell.jsx:25-37);
  - the detail page's contact block (client/src/components/QuizDetail.jsx:191-211);
  - the admin panel's fetch handlers.
- The console output of the scripts is not modelled, including the migration's closing message. The script outcomes are datatypes instead.
- `IgPages.List`: the printed lines are not modelled; the listing is the total and the sorted city groups.
- Store.Store.GetCityList: `Object.keys` lists integer-like keys (such as "2024") first, in numeric order, before the other keys in insertion order. The model keeps insertion order for every key.
- Store.Store.GetGroupCityMap: `Object.entries` visits integer-like city names first, which can change which city wins for an id listed under two cities. The model visits the cities in insertion order.
- IgPages.GroupByCity: an integer-like city name becomes the first key, not the key at its first page. The printed order is that of `sort()` and does not depend on it.
- WaGroups.AddTouchesOneCity: a new city with an integer-like name is listed before the other cities, not last.
- WaGroups.Config.Add: a new city with an integer-like name (such as "2024") is saved before the other cities, because `Object.entries` and `JSON.stringify` put integer-like keys first; the model creates every new city after the existing ones.
- WaGroups.Config.Remove: `Object.entries(config.cities)` (server/scripts/wa-groups.js:152) visits integer-like city names first, in numeric order; the model searches the cities in insertion order, so for an id listed under two cities it can pick a different one.
- WaGroups.RemoveTakesOne: "the first city listing the id" is the first in insertion order, not in the `Object.entries` order described for `WaGroups.Config.Remove`.
- Routes.ListQuizzes: every query value is a string. Express also parses `city[]=x` or `tags[a]=b` into an array or an object. Then `split` or `toLowerCase` throws and the request fails with status 500 (server/routes/quizzes.js:18-38), and an array never equals a quiz's city. None of this is modelled.
- Routes.PatchQuiz: the validated update is a parameter; the model does not connect it to `Schema.ParseUpdate` of the request body, whose properties the Schema lemmas state separately.
- Routes.CreateQuiz: the validated body is a parameter. The model does not connect it to `Schema.ParseCreate` of the request body, whose properties the Schema lemmas state separately.
- App.SelectQuizRoundTrip: setting `window.location.hash` percent-encodes some characters (a space, say), while the model stores the path unchanged; the round trip is meant for ids of URL-safe characters, such as the uuids the server issues.
- Ingest.StatusFor: a confidence that is neither a number nor null (a string or a boolean in the reply) is not modelled; `>=` would convert it to a number.
- `WhatsApp.OnClose`: restarting on code 515 is returned as an outcome. The unbounded recursion of the restart is not modelled.

## Findings

The operations above reproduce the code as written. For each row below there are two members. The as-written member exhibits the discrepancy on a concrete input. The corrected member proves the intended property of the corrected definition, and it is what the end-to-end lemmas (`Notify.ChosenPrefsRespected`, `App.ServerAppliesFilters`) are stated over.

| source | as written | input that shows it | evidently intended | confidence | as-written member | corrected member |
|---|---|---|---|---|---|---|
| server/sync/whatsapp.js:100 | `isDuplicate('whatsapp', id)`, but `isDuplicate` takes one argument, so every id is tested as the string "whatsapp" | ledger ["m1"] after a run; message "m1" arrives again | a message whose ids are all in the ledger is skipped | not executed | WhatsApp.MarkedIdsAreReprocessed | WhatsApp.MarkedIdsAreSkipped |
| server/store.js:141 | `map[g] = city` uses the group entry itself as the key | city "Delhi" with the entry `{name: "Delhi Quiz Club", id: "120363@g.us"}` that the wa-groups script writes: the only key is "[object Object]" | every group id maps to its city | not executed | CityGroups.NamedEntryLost | CityGroups.GroupCityMapById |
| api/subscribe.js:35 | the key keeps the first 40 base64url characters, which are the first 30 bytes of the endpoint | "https://fcm.googleapis.com/fcm/send/a" and ".../send/b" get the same key, so the second subscription overwrites the first | one key per endpoint | not executed | Subscribe.FcmEndpointsCollide | Subscribe.FullKeyInjective |
| client/src/components/NotificationBell.jsx:69 | the browser posts its choices as `prefs`, but api/subscribe.js:29 stores `preferences`, so every record matches everything | a subscriber choosing only Delhi is told of a quiz in Mumbai | notifications follow the chosen cities and categories | not executed | Notify.DelhiSubscriberGetsMumbai | Notify.ChosenPrefsRespected |
| client/src/utils/api.js:9-15 | `fetchQuizzes` never copies `params.mode` into the query | with mode "online" chosen, an offline quiz is still listed | the mode filter reaches the server | not executed | App.ModeFilterDropped | App.ServerAppliesFilters |
| server/sync/instagram.js:8 | imports `markSourceItemProcessed` and `setInstagramLastFetch` from ../store.js, which exports neither; the file is an ES module (it reads `import.meta.url`), so loading it fails with a SyntaxError | any start of the Instagram sync | the store provides the two source-ledger operations and the sync runs | not executed | Instagram.SyncInstagramNeverLinks | Instagram.SyncInstagramLinksWithLedger |
