/** server/scripts/ig-pages.js: the command-line editor of the tracked
    Instagram pages (server/sync/instagram/pages.json, a JSON array). `add`
    and `remove` change the loaded array in place and save it only when they
    succeed; `list` groups the pages by city. The file and the console are
    outside the model: the array is the `pages` field of a `PageList`. */
module IgPages {
  import opened Js
  import opened Seqs
  import opened Text

  /** One tracked page; `city` is None when the entry has none. */
  datatype Page = Page(username: string, city: Option<string>, name: string)

  /** `s.replace(/^@/, '')`: one leading '@' goes. */
  function StripAt(s: string): (r: string)
    ensures |s| > 0 && s[0] == '@' ==> r == s[1..]
    ensures (|s| == 0 || s[0] != '@') ==> r == s
  {
    if |s| > 0 && s[0] == '@' then s[1..] else s
  }

  /** A second '@' survives: only the first is stripped. */
  lemma StripAtOnce(s: string)
    ensures StripAt("@" + s) == s
    ensures StripAt("@@" + s) == "@" + s
  {
    assert ("@" + s)[1..] == s;
    assert ("@@" + s)[1..] == "@" + s;
  }

  /** `args.slice(2).join(' ')`: every word from the third on. */
  function PageName(args: seq<string>): string
    requires |args| >= 3
  {
    Join(args[2..], " ")
  }

  /** A name given as several words comes back as those words when split at
      spaces, provided the words hold no space. */
  lemma PageNameWords(args: seq<string>)
    requires |args| >= 3
    requires forall k :: 2 <= k < |args| ==> ' ' !in args[k]
    ensures Split(PageName(args), ' ') == args[2..]
  {
    var words := args[2..];
    assert " " == [' '] + "";
    SplitJoin(words, ' ', "");
    var pieces := Split(PageName(args), ' ');
    assert |pieces| == |words|;
    forall k | 0 <= k < |words|
      ensures pieces[k] == words[k]
    {
      if k > 0 {
        assert pieces[k] == "" + words[k];
      }
    }
  }

  predicate HasUsername(p: Page, username: string) {
    p.username == username
  }

  function IndexOfUser(pages: seq<Page>, username: string): (i: int)
    ensures -1 <= i < |pages|
    ensures i >= 0 ==> pages[i].username == username && forall j :: 0 <= j < i ==> pages[j].username != username
    ensures i == -1 <==> forall j :: 0 <= j < |pages| ==> pages[j].username != username
  {
    FindIndex(pages, (p: Page) => HasUsername(p, username))
  }

  datatype AddOutcome = AddUsage | AlreadyTracked(existing: Page) | Added(page: Page)

  datatype RemoveOutcome = RemoveUsage | NotTracked(username: string) | Removed(page: Page)

  /** The loaded pages array; what is saved is `pages`. */
  class PageList {
    var pages: seq<Page>

    constructor(pages0: seq<Page>)
      ensures pages == pages0
    {
      pages := pages0;
    }

    /** `add(args)`: `args` are `<username> <city> <name words...>`. */
    method Add(args: seq<string>) returns (outcome: AddOutcome)
      modifies this
      ensures |args| < 3 ==> outcome == AddUsage && pages == old(pages)
      ensures |args| >= 3 ==>
                var username := StripAt(args[0]);
                var i := IndexOfUser(old(pages), username);
                if i != -1 then outcome == AlreadyTracked(old(pages)[i]) && pages == old(pages)
                else
                  var page := Page(username, Some(args[1]), PageName(args));
                  outcome == Added(page) && pages == old(pages) + [page]
    {
      if |args| < 3 {
        return AddUsage;
      }
      var username := StripAt(args[0]);
      var city := args[1];
      var name := PageName(args);
      var i := IndexOfUser(pages, username);
      if i != -1 {
        return AlreadyTracked(pages[i]);
      }
      var page := Page(username, Some(city), name);
      pages := pages + [page];
      return Added(page);
    }

    /** `remove(args)`: `args` are `<username>`. */
    method Remove(args: seq<string>) returns (outcome: RemoveOutcome)
      modifies this
      ensures |args| < 1 ==> outcome == RemoveUsage && pages == old(pages)
      ensures |args| >= 1 ==>
                var username := StripAt(args[0]);
                var i := IndexOfUser(old(pages), username);
                if i == -1 then outcome == NotTracked(username) && pages == old(pages)
                else outcome == Removed(old(pages)[i]) && pages == old(pages)[..i] + old(pages)[i + 1..]
    {
      if |args| < 1 {
        return RemoveUsage;
      }
      var username := StripAt(args[0]);
      var idx := IndexOfUser(pages, username);
      if idx == -1 {
        return NotTracked(username);
      }
      var removed := pages[idx];
      pages := pages[..idx] + pages[idx + 1..];
      return Removed(removed);
    }
  }

  /** Usernames are unique in a list built only by `add`. */
  ghost predicate UniqueUsernames(pages: seq<Page>) {
    forall i, j :: 0 <= i < j < |pages| ==> pages[i].username != pages[j].username
  }

  /** `add` keeps usernames unique. */
  lemma AddKeepsUnique(pages: seq<Page>, page: Page)
    requires UniqueUsernames(pages)
    requires IndexOfUser(pages, page.username) == -1
    ensures UniqueUsernames(pages + [page])
  {
    var r := pages + [page];
    assert forall j :: 0 <= j < |pages| ==> r[j].username != page.username;
  }

  /** `remove` after `add` of a fresh username gives the list back. */
  lemma RemoveUndoesAdd(pages: seq<Page>, page: Page)
    requires IndexOfUser(pages, page.username) == -1
    ensures var r := pages + [page];
            var i := IndexOfUser(r, page.username);
            i == |pages| && r[..i] + r[i + 1..] == pages
  {
    AddedPageFound(pages, page);
    var r := pages + [page];
    assert r[..|pages|] == pages && r[|pages| + 1..] == [];
  }

  /** The page `add` appended is the one a later lookup finds. */
  lemma AddedPageFound(pages: seq<Page>, page: Page)
    requires IndexOfUser(pages, page.username) == -1
    ensures IndexOfUser(pages + [page], page.username) == |pages|
  {
    var r := pages + [page];
    assert forall j :: 0 <= j < |pages| ==> r[j].username != page.username;
    assert r[|pages|].username == page.username;
  }

  /** With unique usernames, `remove` leaves no page of that name behind and
      keeps every other page, in order. */
  lemma RemoveDropsUser(pages: seq<Page>, username: string)
    requires UniqueUsernames(pages)
    requires IndexOfUser(pages, username) != -1
    ensures var i := IndexOfUser(pages, username);
            var r := pages[..i] + pages[i + 1..];
            IndexOfUser(r, username) == -1 && |r| + 1 == |pages|
            && forall p :: p in pages && p.username != username ==> p in r
  {
    var i := IndexOfUser(pages, username);
    var r := pages[..i] + pages[i + 1..];
    forall j | 0 <= j < |r|
      ensures r[j].username != username
    {
      if j < i {
        assert r[j] == pages[j];
      } else {
        assert r[j] == pages[j + 1];
      }
    }
    forall p | p in pages && p.username != username
      ensures p in r
    {
      var j :| 0 <= j < |pages| && pages[j] == p;
      if j < i {
        assert r[j] == p;
      } else {
        assert j != i;
        assert r[j - 1] == p;
      }
    }
  }

  // ---------------------------------------------------------------------
  // list
  // ---------------------------------------------------------------------

  /** `p.city || 'Unknown'`. */
  function CityOf(p: Page): string {
    StrOr(p.city, "Unknown")
  }

  predicate InCity(p: Page, city: string) {
    CityOf(p) == city
  }

  /** The pages of one city, in file order. */
  function PagesIn(pages: seq<Page>, city: string): seq<Page> {
    Filter(pages, (p: Page) => InCity(p, city))
  }

  /** The keys of `byCity` in insertion order: each city at its first page. */
  function CityOrder(pages: seq<Page>): (r: seq<string>)
    decreases |pages|
  {
    if |pages| == 0 then []
    else
      var before := CityOrder(pages[..|pages| - 1]);
      var c := CityOf(pages[|pages| - 1]);
      if c in before then before else before + [c]
  }

  type Group = (string, seq<Page>)

  /** `Object.entries(byCity)` before sorting: each city with its pages. */
  function Entries(order: seq<string>, pages: seq<Page>): seq<Group> {
    Map(order, (c: string) => (c, PagesIn(pages, c)))
  }

  /** The string the default `sort` compares: `[city, pages].toString()`,
      each page object printing as "[object Object]". */
  function SortKey(g: Group): string {
    g.0 + "," + Join(seq(|g.1|, _ => "[object Object]"), ",")
  }

  predicate KeyLe(a: Group, b: Group) {
    StrLe(SortKey(a), SortKey(b))
  }

  function TotalSize(gs: seq<Group>): nat {
    if |gs| == 0 then 0 else |gs[0].1| + TotalSize(gs[1..])
  }

  /** What `list()` prints: nothing when there are no pages, otherwise the
      page count and the city groups in `sort()` order. */
  function Listed(pages: seq<Page>): seq<Group> {
    SortBy(Entries(CityOrder(pages), pages), KeyLe)
  }

  datatype Listing = NoPages | ByCity(total: nat, groups: seq<Group>)

  /** `list()`: the pages grouped by city, then the entries sorted. */
  method List(pages: seq<Page>) returns (listing: Listing)
    ensures |pages| == 0 <==> listing == NoPages
    ensures listing.ByCity? ==> listing.total == |pages| && listing.groups == Listed(pages)
  {
    if |pages| == 0 {
      return NoPages;
    }
    var byCity, order := GroupByCity(pages);
    var entries: seq<Group> := [];
    for i := 0 to |order|
      invariant entries == Entries(order[..i], pages)
    {
      EntriesSnoc(order, i, pages);
      assert order[i] in order;
      entries := entries + [(order[i], byCity[order[i]])];
    }
    assert order[..|order|] == order;
    return ByCity(|pages|, SortBy(entries, KeyLe));
  }

  /** One more city, one more entry at the end. */
  lemma EntriesSnoc(order: seq<string>, i: nat, pages: seq<Page>)
    requires i < |order|
    ensures Entries(order[..i + 1], pages) == Entries(order[..i], pages) + [(order[i], PagesIn(pages, order[i]))]
  {
    assert order[..i + 1] == order[..i] + [order[i]];
    MapAppend(order[..i], [order[i]], (c: string) => (c, PagesIn(pages, c)));
  }

  /** The loop of `list()` that fills `byCity`: each page appended to its
      city's list, a city becoming a key at its first page. */
  method GroupByCity(pages: seq<Page>) returns (byCity: map<string, seq<Page>>, order: seq<string>)
    ensures order == CityOrder(pages)
    ensures forall c :: c in byCity <==> c in order
    ensures forall c :: c in byCity ==> byCity[c] == PagesIn(pages, c)
  {
    byCity, order := map[], [];
    for k := 0 to |pages|
      invariant order == CityOrder(pages[..k])
      invariant forall c :: c in byCity <==> c in order
      invariant forall c :: c in byCity ==> byCity[c] == PagesIn(pages[..k], c)
    {
      var p := pages[k];
      var city := StrOr(p.city, "Unknown");
      CityOrderStep(pages, k);
      forall c | c in byCity
        ensures PagesIn(pages[..k + 1], c) == PagesIn(pages[..k], c) + (if InCity(p, c) then [p] else [])
      {
        PagesInStep(pages, k, c);
      }
      if city !in byCity {
        FilterNone(pages[..k], city);
        PagesInStep(pages, k, city);
        byCity := byCity[city := []];
        order := order + [city];
      }
      byCity := byCity[city := byCity[city] + [p]];
    }
    assert pages[..|pages|] == pages;
  }

  /** One more page adds it to its own city's group and to no other. */
  lemma PagesInStep(pages: seq<Page>, k: int, c: string)
    requires 0 <= k < |pages|
    ensures PagesIn(pages[..k + 1], c) == PagesIn(pages[..k], c) + (if InCity(pages[k], c) then [pages[k]] else [])
  {
    assert pages[..k + 1] == pages[..k] + [pages[k]];
    FilterSnoc(pages[..k], pages[k], (q: Page) => InCity(q, c));
  }

  /** One more page adds its city to the keys if it is new. */
  lemma CityOrderStep(pages: seq<Page>, k: int)
    requires 0 <= k < |pages|
    ensures CityOrder(pages[..k + 1])
            == if CityOf(pages[k]) in CityOrder(pages[..k]) then CityOrder(pages[..k])
               else CityOrder(pages[..k]) + [CityOf(pages[k])]
  {
    assert pages[..k + 1][..k] == pages[..k];
  }

  /** A city that is not yet a key has no pages so far. */
  lemma FilterNone(pages: seq<Page>, city: string)
    requires city !in CityOrder(pages)
    ensures PagesIn(pages, city) == []
  {
    if |PagesIn(pages, city)| > 0 {
      var p := PagesIn(pages, city)[0];
      assert p in pages && InCity(p, city);
      var j :| 0 <= j < |pages| && pages[j] == p;
      CityOrderHasAll(pages, j);
    }
  }

  /** Every page's city is a key of `byCity`. */
  lemma {:induction false} CityOrderHasAll(pages: seq<Page>, j: int)
    requires 0 <= j < |pages|
    ensures CityOf(pages[j]) in CityOrder(pages)
    decreases |pages|
  {
    var init := pages[..|pages| - 1];
    if j < |pages| - 1 {
      assert init[j] == pages[j];
      CityOrderHasAll(init, j);
    }
  }

  /** No key is repeated. */
  lemma {:induction false} CityOrderDistinct(pages: seq<Page>)
    ensures forall a, b :: 0 <= a < b < |CityOrder(pages)| ==> CityOrder(pages)[a] != CityOrder(pages)[b]
    decreases |pages|
  {
    if |pages| > 0 {
      CityOrderDistinct(pages[..|pages| - 1]);
    }
  }

  /** The group sizes add up to the number of pages, before sorting. */
  lemma {:induction false} GroupSizesSum(pages: seq<Page>)
    ensures TotalSize(Entries(CityOrder(pages), pages)) == |pages|
    decreases |pages|
  {
    if |pages| > 0 {
      var k := |pages| - 1;
      var init := pages[..k];
      var order := CityOrder(init);
      GroupSizesSum(init);
      CityOrderDistinct(init);
      assert pages == init + [pages[k]];
      SumStep(init, pages[k], order);
      assert TotalSize(Entries(order, pages)) == k + (if CityOf(pages[k]) in order then 1 else 0);
      assert pages[..k + 1] == pages;
      CityOrderStep(pages, k);
      if CityOf(pages[k]) !in order {
        NewCityEntry(pages, k);
      }
    }
  }

  /** A page whose city is new contributes a group of its own, of size one. */
  lemma NewCityEntry(pages: seq<Page>, k: int)
    requires k == |pages| - 1 >= 0
    requires CityOf(pages[k]) !in CityOrder(pages[..k])
    ensures TotalSize(Entries(CityOrder(pages[..k]) + [CityOf(pages[k])], pages))
            == TotalSize(Entries(CityOrder(pages[..k]), pages)) + 1
  {
    var c := CityOf(pages[k]);
    var order := CityOrder(pages[..k]);
    MapAppend(order, [c], (c': string) => (c', PagesIn(pages, c')));
    assert Entries(order + [c], pages) == Entries(order, pages) + [(c, PagesIn(pages, c))];
    FilterNone(pages[..k], c);
    PagesInStep(pages, k, c);
    assert pages[..k + 1] == pages;
    assert PagesIn(pages, c) == [pages[k]];
    TotalSizeSnoc(Entries(order, pages), (c, PagesIn(pages, c)));
  }

  /** Adding page `p` to the pages of every listed city adds one to the total
      when `p`'s city is listed (once), and nothing otherwise. */
  lemma {:induction false} SumStep(init: seq<Page>, p: Page, order: seq<string>)
    requires forall a, b :: 0 <= a < b < |order| ==> order[a] != order[b]
    ensures TotalSize(Entries(order, init + [p]))
            == TotalSize(Entries(order, init)) + (if CityOf(p) in order then 1 else 0)
    decreases |order|
  {
    if |order| > 0 {
      var c := order[0];
      var rest := order[1..];
      assert forall a, b :: 0 <= a < b < |rest| ==> rest[a] != rest[b] by {
        forall a, b | 0 <= a < b < |rest| ensures rest[a] != rest[b] {
          assert rest[a] == order[a + 1] && rest[b] == order[b + 1];
        }
      }
      SumStep(init, p, rest);
      FilterSnoc(init, p, (q: Page) => InCity(q, c));
      EntriesCons(order, init + [p]);
      EntriesCons(order, init);
      if CityOf(p) == c {
        assert CityOf(p) !in rest by {
          forall b | 0 <= b < |rest| ensures rest[b] != c {
            assert rest[b] == order[b + 1];
          }
        }
      }
    }
  }

  lemma EntriesCons(order: seq<string>, pages: seq<Page>)
    requires |order| > 0
    ensures TotalSize(Entries(order, pages)) == |PagesIn(pages, order[0])| + TotalSize(Entries(order[1..], pages))
  {
    var f := (c: string) => (c, PagesIn(pages, c));
    assert Entries(order, pages)[1..] == Entries(order[1..], pages);
  }

  lemma {:induction false} TotalSizeSnoc(gs: seq<Group>, g: Group)
    ensures TotalSize(gs + [g]) == TotalSize(gs) + |g.1|
    decreases |gs|
  {
    if |gs| == 0 {
      assert [g][1..] == [];
    } else {
      assert (gs + [g])[1..] == gs[1..] + [g];
      TotalSizeSnoc(gs[1..], g);
    }
  }

  lemma {:induction false} TotalSizeAppend(a: seq<Group>, b: seq<Group>)
    ensures TotalSize(a + b) == TotalSize(a) + TotalSize(b)
    decreases |a|
  {
    if |a| == 0 {
      assert a + b == b;
    } else {
      assert (a + b)[1..] == a[1..] + b;
      TotalSizeAppend(a[1..], b);
    }
  }

  /** Reordering the groups does not change the total. */
  lemma {:induction false} TotalSizePermutation(a: seq<Group>, b: seq<Group>)
    requires multiset(a) == multiset(b)
    ensures TotalSize(a) == TotalSize(b)
    decreases |a|
  {
    if |a| == 0 {
      assert |b| == |multiset(b)| == 0;
    } else {
      assert a[0] in multiset(b);
      var k :| 0 <= k < |b| && b[k] == a[0];
      RemoveMatching(a, b, k);
      TotalSizePermutation(a[1..], b[..k] + b[k + 1..]);
      TotalSizeRemove(b, k);
    }
  }

  /** Taking one group out lowers the total by its size. */
  lemma TotalSizeRemove(b: seq<Group>, k: int)
    requires 0 <= k < |b|
    ensures TotalSize(b) == TotalSize(b[..k] + b[k + 1..]) + |b[k].1|
  {
    assert b == b[..k] + ([b[k]] + b[k + 1..]);
    TotalSizeAppend(b[..k], [b[k]] + b[k + 1..]);
    TotalSizeAppend(b[..k], b[k + 1..]);
    assert ([b[k]] + b[k + 1..])[1..] == b[k + 1..];
  }

  lemma KeyLeIsOrder()
    ensures Total(KeyLe) && Transitive(KeyLe)
  {
    forall a: Group, b: Group
      ensures KeyLe(a, b) || KeyLe(b, a)
    {
      StrLeTotal(SortKey(a), SortKey(b));
    }
    forall a: Group, b: Group, c: Group | KeyLe(a, b) && KeyLe(b, c)
      ensures KeyLe(a, c)
    {
      StrLeTrans(SortKey(a), SortKey(b), SortKey(c));
    }
  }

  /** The printed group sizes add up to the printed total. */
  lemma ListedTotal(pages: seq<Page>)
    ensures TotalSize(Listed(pages)) == |pages|
  {
    var es := Entries(CityOrder(pages), pages);
    GroupSizesSum(pages);
    TotalSizePermutation(Listed(pages), es);
  }

  /** Each printed group holds exactly the pages of its city, in file
      order, a missing city counting as "Unknown". */
  lemma ListedGroups(pages: seq<Page>)
    ensures forall i :: 0 <= i < |Listed(pages)| ==> Listed(pages)[i].1 == PagesIn(pages, Listed(pages)[i].0)
  {
    var es := Entries(CityOrder(pages), pages);
    var gs := Listed(pages);
    forall i | 0 <= i < |gs|
      ensures gs[i].1 == PagesIn(pages, gs[i].0)
    {
      assert gs[i] in multiset(es);
    }
  }

  /** Every page's city is printed, exactly once, and the groups are in
      `sort()` order. */
  lemma ListedCities(pages: seq<Page>)
    ensures forall j :: 0 <= j < |pages| ==>
              exists i :: 0 <= i < |Listed(pages)| && Listed(pages)[i].0 == CityOf(pages[j])
    ensures forall i, j :: 0 <= i < j < |Listed(pages)| ==> Listed(pages)[i].0 != Listed(pages)[j].0
    ensures Sorted(Listed(pages), KeyLe)
  {
    var gs := Listed(pages);
    KeyLeIsOrder();
    SortBySorted(Entries(CityOrder(pages), pages), KeyLe);
    forall j | 0 <= j < |pages|
      ensures exists i :: 0 <= i < |gs| && gs[i].0 == CityOf(pages[j])
    {
      CityListed(pages, j);
    }
    forall i, j | 0 <= i < j < |gs|
      ensures gs[i].0 != gs[j].0
    {
      ListedDistinct(pages, i, j);
    }
  }

  /** The city of page `j` has an entry in the listing. */
  lemma CityListed(pages: seq<Page>, j: int)
    requires 0 <= j < |pages|
    ensures exists i :: 0 <= i < |Listed(pages)| && Listed(pages)[i].0 == CityOf(pages[j])
  {
    var order := CityOrder(pages);
    var es := Entries(order, pages);
    var gs := Listed(pages);
    CityOrderHasAll(pages, j);
    var a :| 0 <= a < |order| && order[a] == CityOf(pages[j]);
    assert es[a].0 == order[a];
    assert es[a] in multiset(gs);
    var i :| 0 <= i < |gs| && gs[i] == es[a];
  }

  /** Two entries of the listing name different cities. */
  lemma ListedDistinct(pages: seq<Page>, i: int, j: int)
    requires 0 <= i < j < |Listed(pages)|
    ensures Listed(pages)[i].0 != Listed(pages)[j].0
  {
    var es := Entries(CityOrder(pages), pages);
    CityOrderDistinct(pages);
    DistinctAfterSort(es, Listed(pages), i, j);
  }

  /** A permutation of entries with distinct cities has distinct cities. */
  lemma DistinctAfterSort(es: seq<Group>, gs: seq<Group>, i: int, j: int)
    requires multiset(gs) == multiset(es)
    requires forall a, b :: 0 <= a < b < |es| ==> es[a].0 != es[b].0
    requires 0 <= i < j < |gs|
    ensures gs[i].0 != gs[j].0
  {
    if gs[i].0 == gs[j].0 {
      assert gs[i] in multiset(es) && gs[j] in multiset(es);
      var a :| 0 <= a < |es| && es[a] == gs[i];
      var b :| 0 <= b < |es| && es[b] == gs[j];
      assert a == b;
      MultiplicityTwo(gs, i, j);
      MultiplicityOne(es, gs[i]);
    }
  }

  lemma MultiplicityTwo<T>(s: seq<T>, i: int, j: int)
    requires 0 <= i < j < |s| && s[i] == s[j]
    ensures multiset(s)[s[i]] >= 2
  {
    assert s == s[..i] + [s[i]] + s[i + 1..j] + [s[j]] + s[j + 1..];
  }

  lemma {:induction false} MultiplicityOne(es: seq<Group>, x: Group)
    requires forall a, b :: 0 <= a < b < |es| ==> es[a].0 != es[b].0
    ensures multiset(es)[x] <= 1
    decreases |es|
  {
    if |es| > 0 {
      var rest := es[1..];
      assert es == [es[0]] + rest;
      if es[0] == x {
        assert x !in rest by {
          forall b | 0 <= b < |rest| ensures rest[b] != x {
            assert rest[b] == es[b + 1];
          }
        }
      } else {
        MultiplicityOne(rest, x);
      }
    }
  }
}
