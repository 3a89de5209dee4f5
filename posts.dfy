/** The posts table with its unique-URL constraint
    (src/lib/db/queries/posts.ts). */
module Posts {
  import opened Wrappers
  import opened Feeds
  import opened FeedFollows

  /** A stored post; `publishedAt` is a timestamp, `None` being SQL NULL. */
  datatype Post = Post(id: Id, title: string, url: string, description: Option<string>,
                       publishedAt: Option<int>, feedId: Id)

  predicate UrlTaken(posts: seq<Post>, url: string) {
    exists i :: 0 <= i < |posts| && posts[i].url == url
  }

  /** The table's unique constraint on `url`: one post per URL across all
      feeds. */
  predicate UniqueUrls(posts: seq<Post>) {
    forall i, j :: 0 <= i < j < |posts| ==> posts[i].url != posts[j].url
  }

  /** PostgreSQL reports a unique violation (SQLSTATE 23505) with this
      message in the source's result. */
  const DuplicateUrl := "Post with this URL already exists"

  /** What `createPost` returns: `{success: true, post}` or
      `{success: false, error}`. */
  datatype CreatePostResult = Created(post: Post) | NotCreated(error: string)

  /** The insert as the database performs it. `failure` is a database error
      other than the unique violation (its message is passed on); otherwise
      a taken URL is refused and a free one appended. */
  function InsertPost(posts: seq<Post>, p: Post, failure: Option<string>): (r: (seq<Post>, CreatePostResult))
    ensures r.1.Created? <==> failure.None? && !UrlTaken(posts, p.url)
    ensures r.1.Created? ==> r.0 == posts + [p] && r.1.post == p
    ensures r.1.NotCreated? ==> r.0 == posts
    ensures failure.None? && UrlTaken(posts, p.url) ==> r.1 == NotCreated(DuplicateUrl)
    ensures failure.Some? ==> r.1 == NotCreated(failure.value)
  {
    if failure.Some? then (posts, NotCreated(failure.value))
    else if UrlTaken(posts, p.url) then (posts, NotCreated(DuplicateUrl))
    else (posts + [p], Created(p))
  }

  /** Whatever the outcome, an insert keeps URLs unique and afterwards the
      URL is taken exactly when the insert succeeded or it was taken before. */
  lemma InsertPostKeepsUnique(posts: seq<Post>, p: Post, failure: Option<string>)
    requires UniqueUrls(posts)
    ensures UniqueUrls(InsertPost(posts, p, failure).0)
    ensures UrlTaken(InsertPost(posts, p, failure).0, p.url)
      <==> UrlTaken(posts, p.url) || InsertPost(posts, p, failure).1.Created?
  {
    var r := InsertPost(posts, p, failure);
    if r.1.Created? {
      assert r.0[|posts|].url == p.url;
    }
  }

  /** The posts table. */
  class PostStore {
    var posts: seq<Post>

    ghost predicate Valid()
      reads this
    {
      UniqueUrls(posts)
    }

    constructor ()
      ensures Valid() && posts == []
    {
      posts := [];
    }

    /** `createPost`; `newId` is the id the database generates and `failure`
        a database error other than the unique violation, if one occurs. */
    method CreatePost(title: string, url: string, description: Option<string>, publishedAt: Option<int>,
                      feedId: Id, newId: Id, failure: Option<string>) returns (r: CreatePostResult)
      requires Valid()
      modifies this
      ensures Valid()
      ensures (posts, r) == InsertPost(old(posts), Post(newId, title, url, description, publishedAt, feedId), failure)
    {
      var p := Post(newId, title, url, description, publishedAt, feedId);
      InsertPostKeepsUnique(posts, p, failure);
      var next := InsertPost(posts, p, failure);
      posts := next.0;
      r := next.1;
    }

    /** `postExistsByUrl`: a read-only membership test; `failure` is the
        error the query throws when the database cannot answer. */
    method PostExistsByUrl(url: string, failure: Option<string>) returns (r: Result<bool>)
      ensures r.Err? <==> failure.Some?
      ensures r.Err? ==> r.error == failure.value
      ensures r.Ok? ==> (r.value <==> exists p :: p in posts && p.url == url)
    {
      if failure.Some? {
        return Err(failure.value);
      }
      r := Ok(UrlTaken(posts, url));
    }
  }

  /** The order of `orderBy(desc(publishedAt))`: later first, and NULL before
      every timestamp, as PostgreSQL places NULLs first in descending order. */
  predicate NewerOrSame(a: Option<int>, b: Option<int>) {
    a.None? || (b.Some? && a.value >= b.value)
  }

  predicate NewestFirst(ps: seq<Post>) {
    forall i, j :: 0 <= i < j < |ps| ==> NewerOrSame(ps[i].publishedAt, ps[j].publishedAt)
  }

  /** Insert `p` before the first row it is newer than or as new as. */
  function InsertByDate(p: Post, sorted: seq<Post>): (r: seq<Post>)
    ensures multiset(r) == multiset(sorted) + multiset{p}
  {
    if sorted == [] then [p]
    else if NewerOrSame(p.publishedAt, sorted[0].publishedAt) then [p] + sorted
    else
      assert sorted == [sorted[0]] + sorted[1..];
      [sorted[0]] + InsertByDate(p, sorted[1..])
  }

  lemma {:induction false} InsertByDateSorted(p: Post, sorted: seq<Post>)
    requires NewestFirst(sorted)
    ensures NewestFirst(InsertByDate(p, sorted))
  {
    if sorted != [] && !NewerOrSame(p.publishedAt, sorted[0].publishedAt) {
      var rest := InsertByDate(p, sorted[1..]);
      InsertByDateSorted(p, sorted[1..]);
      forall q | q in rest ensures NewerOrSame(sorted[0].publishedAt, q.publishedAt) {
        assert q in multiset(rest);
        if q != p {
          assert q in multiset(sorted[1..]);
        }
      }
      ConsNewestFirst(sorted[0], rest);
    }
  }

  /** A row as new as every row of an ordered list can go in front of it. */
  lemma ConsNewestFirst(x: Post, rest: seq<Post>)
    requires NewestFirst(rest)
    requires forall q | q in rest :: NewerOrSame(x.publishedAt, q.publishedAt)
    ensures NewestFirst([x] + rest)
  {
    var r := [x] + rest;
    forall i, j | 0 <= i < j < |r| ensures NewerOrSame(r[i].publishedAt, r[j].publishedAt) {
      assert r[j] == rest[j - 1];
      if i > 0 {
        assert r[i] == rest[i - 1];
      }
    }
  }

  /** A sort of the rows newest first, stable on equal dates. */
  function SortNewestFirst(ps: seq<Post>): (r: seq<Post>)
    ensures multiset(r) == multiset(ps)
  {
    if ps == [] then []
    else
      assert ps == [ps[0]] + ps[1..];
      InsertByDate(ps[0], SortNewestFirst(ps[1..]))
  }

  /** The sort orders the rows newest first. */
  lemma {:induction false} SortNewestFirstSorted(ps: seq<Post>)
    ensures NewestFirst(SortNewestFirst(ps))
  {
    if ps != [] {
      SortNewestFirstSorted(ps[1..]);
      InsertByDateSorted(ps[0], SortNewestFirst(ps[1..]));
    }
  }

  /** `where posts.feed_id in feedIds`, in table order. */
  function InFeeds(posts: seq<Post>, feedIds: set<Id>): (r: seq<Post>)
    ensures multiset(r) <= multiset(posts)
    ensures forall p :: p in r <==> p in posts && p.feedId in feedIds
  {
    if posts == [] then []
    else
      assert posts == [posts[0]] + posts[1..];
      (if posts[0].feedId in feedIds then [posts[0]] else []) + InFeeds(posts[1..], feedIds)
  }

  lemma {:induction false} InFeedsNone(posts: seq<Post>)
    ensures InFeeds(posts, {}) == []
  {
    if posts != [] {
      InFeedsNone(posts[1..]);
    }
  }

  /** The feeds a user follows. */
  function FollowedFeedIds(follows: seq<FeedFollow>, userId: Id): (ids: set<Id>)
    ensures forall id :: id in ids <==> Follows(follows, userId, id)
  {
    set f | f in follows && f.userId == userId :: f.feedId
  }

  const DefaultPostLimit := 10

  function Min(a: nat, b: nat): nat {
    if a < b then a else b
  }

  /** The post rows `getPostsForUser(userId, limit)` selects: nothing for a
      user who follows no feed; otherwise the `limit` newest posts of the
      followed feeds. */
  function NewestFollowedPosts(posts: seq<Post>, follows: seq<FeedFollow>, userId: Id, limit: nat)
    : (r: seq<Post>)
    ensures FollowedFeedIds(follows, userId) == {} ==> r == []
    ensures forall p :: p in r ==> p in posts && Follows(follows, userId, p.feedId)
    ensures NewestFirst(r)
    ensures |r| == Min(limit, |InFeeds(posts, FollowedFeedIds(follows, userId))|)
    ensures FollowedFeedIds(follows, userId) != {} ==>
      exists s :: multiset(s) == multiset(InFeeds(posts, FollowedFeedIds(follows, userId)))
                  && NewestFirst(s) && |r| <= |s| && r == s[..|r|]
  {
    var feedIds := FollowedFeedIds(follows, userId);
    if feedIds == {} then
      InFeedsNone(posts);
      []
    else
      var matching := InFeeds(posts, feedIds);
      var sorted := SortNewestFirst(matching);
      SortNewestFirstSorted(matching);
      TakeNewest(matching, sorted, Min(limit, |sorted|));
      sorted[..Min(limit, |sorted|)]
  }

  /** The first `n` rows of a newest-first ordering of `matching`. */
  lemma TakeNewest(matching: seq<Post>, sorted: seq<Post>, n: nat)
    requires multiset(sorted) == multiset(matching) && NewestFirst(sorted) && n <= |sorted|
    ensures |sorted| == |matching|
    ensures forall p :: p in sorted[..n] ==> p in matching
    ensures NewestFirst(sorted[..n])
    ensures exists s :: multiset(s) == multiset(matching) && NewestFirst(s) && n <= |s| && sorted[..n] == s[..n]
  {
    assert |sorted| == |multiset(sorted)|;
    forall p | p in sorted[..n]
      ensures p in matching
    {
      assert p in multiset(sorted);
    }
  }

  /** The `feed: {name, url}` column of a post row. */
  datatype FeedRef = FeedRef(name: string, url: string)

  /** A row of `getPostsForUser`: the post's columns and, from the left join
      on `posts.feedId = feeds.id`, its feed's name and URL (`None` when no
      feed row matches). */
  datatype PostRow = PostRow(post: Post, feed: Option<FeedRef>)

  /** The right-hand side of the left join for one post. */
  function JoinedFeed(feeds: seq<Feed>, feedId: Id): (r: Option<FeedRef>)
    ensures r.Some? <==> exists f :: f in feeds && f.id == feedId
    ensures r.Some? ==> exists f :: f in feeds && f.id == feedId && r.value == FeedRef(f.name, f.url)
  {
    match FeedById(feeds, feedId)
    case None => None
    case Some(f) => Some(FeedRef(f.name, f.url))
  }

  /** `getPostsForUser(userId, limit)`: the selected posts, in order, each
      joined with the name and URL of its feed. */
  function GetPostsForUser(posts: seq<Post>, follows: seq<FeedFollow>, feeds: seq<Feed>, userId: Id,
                           limit: nat := DefaultPostLimit)
    : (r: seq<PostRow>)
    ensures |r| == |NewestFollowedPosts(posts, follows, userId, limit)| <= limit
    ensures forall i :: 0 <= i < |r| ==> r[i].post == NewestFollowedPosts(posts, follows, userId, limit)[i]
    ensures forall i :: 0 <= i < |r| ==>
      (r[i].feed.Some? <==> exists f :: f in feeds && f.id == r[i].post.feedId)
    ensures forall i :: 0 <= i < |r| && r[i].feed.Some? ==>
      exists f :: f in feeds && f.id == r[i].post.feedId && r[i].feed.value == FeedRef(f.name, f.url)
  {
    var selected := NewestFollowedPosts(posts, follows, userId, limit);
    seq(|selected|, i requires 0 <= i < |selected| => PostRow(selected[i], JoinedFeed(feeds, selected[i].feedId)))
  }
}
