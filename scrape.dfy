/** One aggregation tick, `scrapeFeeds` (src/commands.ts:218-281): take the
    feed the registry offers, mark it fetched, fetch and normalise it, then
    store its items in channel order, skipping URLs already stored. Every
    error inside the tick is caught at the feed boundary. */
module Scrape {
  import opened Wrappers
  import opened Feeds
  import opened Rss
  import opened Posts

  /** What the tick receives from code outside the model: the clock, the
      network (fetch plus XML parse of a URL, or the error it throws), the
      database driver's rendering of a parsed field as a text column, the
      `Date` built from a pubDate, the ids the database generates, and the
      database errors raised at each step (by item position). */
  datatype Env = Env(
    now: int,
    transport: string -> Result<Node>,
    bind: Node -> string,
    parseDate: Node -> Option<int>,
    postId: nat -> Id,
    markFailure: Option<string>,
    existsFailure: nat -> Option<string>,
    insertFailure: nat -> Option<string>)

  /** `fetchFeed(url)`: the network part, then the normalisation. */
  function FetchFeed(env: Env, url: string): (r: Result<RssFeed>)
    ensures env.transport(url).Err? ==> r == Err(env.transport(url).error)
    ensures env.transport(url).Ok? ==> r == NormaliseFeed(env.transport(url).value)
  {
    match env.transport(url)
    case Err(e) => Err(e)
    case Ok(parsed) => NormaliseFeed(parsed)
  }

  /** `item.description || null`, rendered for the column. */
  function DescriptionOf(env: Env, item: RssItem): Option<string> {
    if Truthy(Some(item.description)) then Some(env.bind(item.description)) else None
  }

  /** The row `createPost` is asked to insert for the i-th item. */
  function PostOf(env: Env, feedId: Id, item: RssItem, i: nat): Post {
    Post(env.postId(i), env.bind(item.title), env.bind(item.link), DescriptionOf(env, item),
         env.parseDate(item.pubDate), feedId)
  }

  /** The state of the item loop: the posts table, the two counters, and the
      error that ended the loop, if one did. */
  datatype Progress = Progress(posts: seq<Post>, saved: nat, skipped: nat, error: Option<string>)

  /** One iteration of the item loop for the i-th item. */
  function ItemStep(env: Env, feedId: Id, item: RssItem, i: nat, st: Progress): (r: Progress)
    requires st.error.None?
    ensures env.existsFailure(i).Some? ==> r == st.(error := env.existsFailure(i))
    ensures env.existsFailure(i).None? && UrlTaken(st.posts, env.bind(item.link)) ==>
      r == st.(skipped := st.skipped + 1)
    ensures env.existsFailure(i).None? ==> r.error.None? && r.saved + r.skipped == st.saved + st.skipped + 1
    ensures env.existsFailure(i).None? && !UrlTaken(st.posts, env.bind(item.link)) ==>
      (r.saved == st.saved + 1 <==> env.insertFailure(i).None?)
    ensures env.existsFailure(i).None? && !UrlTaken(st.posts, env.bind(item.link)) && env.insertFailure(i).Some? ==>
      r == st.(skipped := st.skipped + 1)
    ensures r.saved == st.saved + 1 ==> r.posts == st.posts + [PostOf(env, feedId, item, i)]
    ensures r.saved == st.saved ==> r.posts == st.posts
  {
    match env.existsFailure(i)
    case Some(e) => st.(error := Some(e))
    case None =>
      if UrlTaken(st.posts, env.bind(item.link)) then st.(skipped := st.skipped + 1)
      else
        var (posts, result) := InsertPost(st.posts, PostOf(env, feedId, item, i), env.insertFailure(i));
        if result.Created? then Progress(posts, st.saved + 1, st.skipped, None)
        else Progress(posts, st.saved, st.skipped + 1, None)
  }

  /** The loop after its first k items, starting from `posts0`; once an error
      has ended it, nothing further happens. */
  function Ingest(env: Env, feedId: Id, items: seq<RssItem>, posts0: seq<Post>, k: nat): (r: Progress)
    requires k <= |items|
    ensures r.saved + r.skipped <= k
    ensures r.error.None? ==> r.saved + r.skipped == k
  {
    if k == 0 then Progress(posts0, 0, 0, None)
    else
      var st := Ingest(env, feedId, items, posts0, k - 1);
      if st.error.Some? then st else ItemStep(env, feedId, items[k - 1], k - 1, st)
  }

  /** What a tick reports: no feed offered, the completion log line with its
      counters, an error caught at the feed boundary, or an error thrown by
      the selector, which escapes `scrapeFeeds` and rejects its promise. */
  datatype ScrapeReport =
    | NoFeed
    | Completed(feedId: Id, saved: nat, skipped: nat)
    | Failed(feedId: Id, error: string)
    | Rejected(error: string)

  /** The whole tick over the feeds and posts tables: the new feeds table,
      the new posts table and the report. `selected` is what
      `getNextFeedToFetch` returned or threw. */
  function Tick(selected: Result<Option<Feed>>, feeds0: seq<Feed>, posts0: seq<Post>, env: Env)
    : (r: (seq<Feed>, seq<Post>, ScrapeReport))
    ensures r.2.NoFeed? <==> selected == Ok(None)
    ensures r.2.Rejected? <==> selected.Err?
    ensures r.2.Rejected? ==> r.2.error == selected.error
    ensures r.2.Completed? || r.2.Failed? ==>
      selected.Ok? && selected.value.Some? && r.2.feedId == selected.value.value.id
    ensures r.2.NoFeed? || r.2.Rejected? ==> r.0 == feeds0 && r.1 == posts0
  {
    match selected
    case Err(e) => (feeds0, posts0, Rejected(e))
    case Ok(None) => (feeds0, posts0, NoFeed)
    case Ok(Some(feed)) =>
      if env.markFailure.Some? then (feeds0, posts0, Failed(feed.id, env.markFailure.value))
      else
        var feeds1 := MarkFetched(feeds0, feed.id, env.now);
        match FetchFeed(env, feed.url)
        case Err(e) => (feeds1, posts0, Failed(feed.id, e))
        case Ok(rss) =>
          var items := rss.channel.items;
          var st := Ingest(env, feed.id, items, posts0, |items|);
          (feeds1, st.posts,
           if st.error.Some? then Failed(feed.id, st.error.value) else Completed(feed.id, st.saved, st.skipped))
  }

  /** Once an error has ended the loop, later iterations change nothing. */
  lemma {:induction false} IngestStaysFailed(env: Env, feedId: Id, items: seq<RssItem>, posts0: seq<Post>, j: nat, k: nat)
    requires j <= k <= |items|
    requires Ingest(env, feedId, items, posts0, j).error.Some?
    ensures Ingest(env, feedId, items, posts0, k) == Ingest(env, feedId, items, posts0, j)
  {
    if k > j {
      IngestStaysFailed(env, feedId, items, posts0, j, k - 1);
    }
  }

  /** The counters and the table after k items: saved plus skipped is the
      number of items processed (all k, or those before the item whose
      existence check threw, which is where the loop stopped), and the table
      is the old one with exactly `saved` rows appended. */
  lemma {:induction false} IngestCounts(env: Env, feedId: Id, items: seq<RssItem>, posts0: seq<Post>, k: nat)
    requires k <= |items|
    ensures var st := Ingest(env, feedId, items, posts0, k);
      && |st.posts| == |posts0| + st.saved
      && st.posts[..|posts0|] == posts0
      && (st.error.None? ==> st.saved + st.skipped == k)
      && (st.error.Some? ==> st.saved + st.skipped < k && env.existsFailure(st.saved + st.skipped) == st.error)
  {
    if k > 0 {
      IngestCounts(env, feedId, items, posts0, k - 1);
      var st := Ingest(env, feedId, items, posts0, k - 1);
      if st.error.None? {
        var r := ItemStep(env, feedId, items[k - 1], k - 1, st);
        assert Ingest(env, feedId, items, posts0, k) == r;
        if r.saved == st.saved + 1 {
          assert r.posts[..|posts0|] == st.posts[..|posts0|];
        }
      }
    }
  }

  /** The loop never stores two posts with the same URL. */
  lemma {:induction false} IngestKeepsUnique(env: Env, feedId: Id, items: seq<RssItem>, posts0: seq<Post>, k: nat)
    requires k <= |items|
    requires UniqueUrls(posts0)
    ensures UniqueUrls(Ingest(env, feedId, items, posts0, k).posts)
  {
    if k > 0 {
      IngestKeepsUnique(env, feedId, items, posts0, k - 1);
      var st := Ingest(env, feedId, items, posts0, k - 1);
      if st.error.None? && env.existsFailure(k - 1).None? && !UrlTaken(st.posts, env.bind(items[k - 1].link)) {
        InsertPostKeepsUnique(st.posts, PostOf(env, feedId, items[k - 1], k - 1), env.insertFailure(k - 1));
      }
    }
  }

  /** Every row the loop adds is the row built from one of the processed
      items, tagged with the feed's id. */
  lemma {:induction false} IngestAddsItemPosts(env: Env, feedId: Id, items: seq<RssItem>, posts0: seq<Post>, k: nat)
    requires k <= |items|
    ensures var st := Ingest(env, feedId, items, posts0, k);
      forall n :: |posts0| <= n < |st.posts| ==>
        st.posts[n].feedId == feedId && exists i :: 0 <= i < k && st.posts[n] == PostOf(env, feedId, items[i], i)
  {
    if k > 0 {
      IngestAddsItemPosts(env, feedId, items, posts0, k - 1);
      IngestCounts(env, feedId, items, posts0, k - 1);
    }
  }

  /** Ingesting items whose URLs are all stored already changes nothing and
      counts every item as skipped, when every existence check answers. */
  lemma {:induction false} IngestAllDuplicates(env: Env, feedId: Id, items: seq<RssItem>, posts0: seq<Post>, k: nat)
    requires k <= |items|
    requires forall i :: 0 <= i < k ==> env.existsFailure(i).None? && UrlTaken(posts0, env.bind(items[i].link))
    ensures Ingest(env, feedId, items, posts0, k) == Progress(posts0, 0, k, None)
  {
    if k > 0 {
      IngestAllDuplicates(env, feedId, items, posts0, k - 1);
    }
  }

  lemma UrlTakenGrows(posts: seq<Post>, more: seq<Post>, url: string)
    requires UrlTaken(posts, url)
    ensures UrlTaken(posts + more, url)
  {
    var i :| 0 <= i < |posts| && posts[i].url == url;
    assert (posts + more)[i].url == url;
  }

  /** With no database errors, after the loop every processed item's URL is
      stored (inserted now or found already). */
  lemma {:induction false} IngestStoresEveryUrl(env: Env, feedId: Id, items: seq<RssItem>, posts0: seq<Post>, k: nat)
    requires k <= |items|
    requires forall i :: 0 <= i < k ==> env.existsFailure(i).None? && env.insertFailure(i).None?
    ensures Ingest(env, feedId, items, posts0, k).error.None?
    ensures forall i :: 0 <= i < k ==> UrlTaken(Ingest(env, feedId, items, posts0, k).posts, env.bind(items[i].link))
  {
    IngestWithoutErrors(env, feedId, items, posts0, k);
    if k > 0 {
      IngestStoresEveryUrl(env, feedId, items, posts0, k - 1);
      forall i | 0 <= i < k ensures UrlTaken(Ingest(env, feedId, items, posts0, k).posts, env.bind(items[i].link)) {
        StepStoresUrl(env, feedId, items, posts0, k, env.bind(items[i].link));
      }
    }
  }

  /** When every existence check answers, no error leaves the loop. */
  lemma {:induction false} IngestWithoutErrors(env: Env, feedId: Id, items: seq<RssItem>, posts0: seq<Post>, k: nat)
    requires k <= |items|
    requires forall i :: 0 <= i < k ==> env.existsFailure(i).None?
    ensures Ingest(env, feedId, items, posts0, k).error.None?
  {
    if k > 0 {
      IngestWithoutErrors(env, feedId, items, posts0, k - 1);
    }
  }

  /** The k-th error-free step keeps every stored URL and stores the item's
      own. */
  lemma StepStoresUrl(env: Env, feedId: Id, items: seq<RssItem>, posts0: seq<Post>, k: nat, url: string)
    requires 0 < k <= |items|
    requires Ingest(env, feedId, items, posts0, k - 1).error.None?
    requires env.existsFailure(k - 1).None? && env.insertFailure(k - 1).None?
    ensures UrlTaken(Ingest(env, feedId, items, posts0, k).posts, env.bind(items[k - 1].link))
    ensures UrlTaken(Ingest(env, feedId, items, posts0, k - 1).posts, url) ==>
      UrlTaken(Ingest(env, feedId, items, posts0, k).posts, url)
  {
    var st := Ingest(env, feedId, items, posts0, k - 1);
    var item := items[k - 1];
    var r := ItemStep(env, feedId, item, k - 1, st);
    assert Ingest(env, feedId, items, posts0, k) == r;
    var more := if r.saved == st.saved + 1 then [PostOf(env, feedId, item, k - 1)] else [];
    assert r.posts == st.posts + more;
    if UrlTaken(st.posts, url) {
      UrlTakenGrows(st.posts, more, url);
    }
    if UrlTaken(st.posts, env.bind(item.link)) {
      UrlTakenGrows(st.posts, more, env.bind(item.link));
    } else {
      assert r.posts[|st.posts|].url == env.bind(item.link);
    }
  }

  /** Fetching the same items again after an error-free run stores nothing
      more: the store's URL constraint and the existence check make ingestion
      idempotent. */
  lemma ReingestSavesNothing(env: Env, env2: Env, feedId: Id, items: seq<RssItem>, posts0: seq<Post>)
    requires forall i :: 0 <= i < |items| ==> env.existsFailure(i).None? && env.insertFailure(i).None?
    requires env2.bind == env.bind
    requires forall i :: 0 <= i < |items| ==> env2.existsFailure(i).None?
    ensures var first := Ingest(env, feedId, items, posts0, |items|);
      Ingest(env2, feedId, items, first.posts, |items|) == Progress(first.posts, 0, |items|, None)
  {
    IngestStoresEveryUrl(env, feedId, items, posts0, |items|);
    IngestAllDuplicates(env2, feedId, items, Ingest(env, feedId, items, posts0, |items|).posts, |items|);
  }

  /** Without a feed nothing changes. The selector's error escapes the tick
      with both tables as they were. */
  lemma TickWithoutFeed(feeds0: seq<Feed>, posts0: seq<Post>, env: Env, e: string)
    ensures Tick(Ok(None), feeds0, posts0, env) == (feeds0, posts0, NoFeed)
    ensures Tick(Err(e), feeds0, posts0, env) == (feeds0, posts0, Rejected(e))
  {
  }

  /** Mark before fetch: a failed mark ends the tick before any fetch, with
      both tables as they were; a successful mark stays in place whatever
      the fetch does (the same for any network behaviour), and a failed
      fetch or an invalid feed adds no post. */
  lemma TickMarksBeforeFetch(feed: Feed, feeds0: seq<Feed>, posts0: seq<Post>, env: Env,
                             otherTransport: string -> Result<Node>)
    ensures env.markFailure.Some? ==>
      Tick(Ok(Some(feed)), feeds0, posts0, env) == (feeds0, posts0, Failed(feed.id, env.markFailure.value))
    ensures env.markFailure.None? ==>
      && Tick(Ok(Some(feed)), feeds0, posts0, env).0 == MarkFetched(feeds0, feed.id, env.now)
      && Tick(Ok(Some(feed)), feeds0, posts0, env.(transport := otherTransport)).0 == MarkFetched(feeds0, feed.id, env.now)
    ensures env.markFailure.None? && FetchFeed(env, feed.url).Err? ==>
      && Tick(Ok(Some(feed)), feeds0, posts0, env).1 == posts0
      && Tick(Ok(Some(feed)), feeds0, posts0, env).2 == Failed(feed.id, FetchFeed(env, feed.url).error)
  {
  }

  /** A completed tick processed every item of the channel: saved plus
      skipped is the item count and the table grew by `saved`. A failed tick
      never loses rows already stored, and nothing it adds repeats a URL. */
  lemma TickCounts(selected: Result<Option<Feed>>, feeds0: seq<Feed>, posts0: seq<Post>, env: Env)
    requires UniqueUrls(posts0)
    ensures var (feeds1, posts1, report) := Tick(selected, feeds0, posts0, env);
      && UniqueUrls(posts1)
      && |posts1| >= |posts0| && posts1[..|posts0|] == posts0
      && (report.Completed? ==>
            selected.Ok? && selected.value.Some? && FetchFeed(env, selected.value.value.url).Ok?
            && report.saved + report.skipped == |FetchFeed(env, selected.value.value.url).value.channel.items|
            && |posts1| == |posts0| + report.saved)
  {
    if selected.Ok? && selected.value.Some? && env.markFailure.None? && FetchFeed(env, selected.value.value.url).Ok? {
      var feed := selected.value.value;
      var items := FetchFeed(env, feed.url).value.channel.items;
      IngestCounts(env, feed.id, items, posts0, |items|);
      IngestKeepsUnique(env, feed.id, items, posts0, |items|);
    }
  }

  /** The item loop of `scrapeFeeds` (the body of its `for`), with its two
      counters; `error` is the exception that left the loop, if any. */
  method SaveItems(feedId: Id, items: seq<RssItem>, store: PostStore, env: Env)
    returns (savedCount: nat, skippedCount: nat, error: Option<string>)
    requires store.Valid()
    modifies store
    ensures store.Valid()
    ensures Progress(store.posts, savedCount, skippedCount, error) == Ingest(env, feedId, items, old(store.posts), |items|)
  {
    savedCount, skippedCount := 0, 0;
    var i := 0;
    while i < |items|
      invariant 0 <= i <= |items|
      invariant store.Valid()
      invariant Ingest(env, feedId, items, old(store.posts), i) == Progress(store.posts, savedCount, skippedCount, None)
    {
      var item := items[i];
      var found := store.PostExistsByUrl(env.bind(item.link), env.existsFailure(i));
      if found.Err? {
        IngestStaysFailed(env, feedId, items, old(store.posts), i + 1, |items|);
        return savedCount, skippedCount, Some(found.error);
      }
      if found.value {
        skippedCount := skippedCount + 1;
      } else {
        var publishedAt := env.parseDate(item.pubDate);
        var result := store.CreatePost(env.bind(item.title), env.bind(item.link), DescriptionOf(env, item),
                                       publishedAt, feedId, env.postId(i), env.insertFailure(i));
        if result.Created? {
          savedCount := savedCount + 1;
        } else {
          skippedCount := skippedCount + 1;
        }
      }
      i := i + 1;
    }
    error := None;
  }

  /** `scrapeFeeds`, one tick: `selected` is what `getNextFeedToFetch`
      returned or threw. */
  method ScrapeFeeds(selected: Result<Option<Feed>>, table: FeedTable, store: PostStore, env: Env)
    returns (report: ScrapeReport)
    requires store.Valid()
    modifies table, store
    ensures store.Valid()
    ensures (table.feeds, store.posts, report) == Tick(selected, old(table.feeds), old(store.posts), env)
  {
    if selected.Err? {
      return Rejected(selected.error);
    }
    if selected.value.None? {
      return NoFeed;
    }
    var feed := selected.value.value;
    var marked := table.MarkFeedFetched(feed.id, env.now, env.markFailure);
    if marked.Err? {
      return Failed(feed.id, marked.error);
    }
    var rssFeed := FetchFeed(env, feed.url);
    if rssFeed.Err? {
      return Failed(feed.id, rssFeed.error);
    }
    var items := rssFeed.value.channel.items;
    var savedCount, skippedCount, error := SaveItems(feed.id, items, store, env);
    if error.Some? {
      return Failed(feed.id, error.value);
    }
    report := Completed(feed.id, savedCount, skippedCount);
  }
}
