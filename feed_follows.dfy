/** The feed-follow relation between users and feeds
    (src/lib/db/queries/feedFollows.ts). */
module FeedFollows {
  import opened Wrappers
  import opened Feeds

  datatype FeedFollow = FeedFollow(id: Id, userId: Id, feedId: Id)

  /** A follow row left-joined with its user and its feed. */
  datatype FollowView = FollowView(follow: FeedFollow, user: Option<User>, feed: Option<Feed>)

  function Joined(f: FeedFollow, users: seq<User>, feeds: seq<Feed>): FollowView {
    FollowView(f, UserById(users, f.userId), FeedById(feeds, f.feedId))
  }

  /** The row with this id, if any. */
  function FollowById(follows: seq<FeedFollow>, id: Id): (r: Option<FeedFollow>)
    ensures r.Some? ==> r.value in follows && r.value.id == id
    ensures r.None? ==> forall f :: f in follows ==> f.id != id
  {
    FirstWhere(follows, (f: FeedFollow) => f.id == id)
  }

  predicate Matches(f: FeedFollow, userId: Id, feedId: Id) {
    f.userId == userId && f.feedId == feedId
  }

  predicate Follows(follows: seq<FeedFollow>, userId: Id, feedId: Id) {
    exists f :: f in follows && Matches(f, userId, feedId)
  }

  /** `where feed_follows.user_id = userId`, in table order. */
  function FollowsOf(follows: seq<FeedFollow>, userId: Id): (r: seq<FeedFollow>)
    ensures |r| <= |follows|
    ensures multiset(r) <= multiset(follows)
    ensures forall f :: f in r <==> f in follows && f.userId == userId
  {
    if follows == [] then []
    else
      assert follows == [follows[0]] + follows[1..];
      (if follows[0].userId == userId then [follows[0]] else []) + FollowsOf(follows[1..], userId)
  }

  /** `getFeedFollowsForUser`: the user's follow rows, each joined with its
      user and feed. */
  function GetFeedFollowsForUser(follows: seq<FeedFollow>, users: seq<User>, feeds: seq<Feed>, userId: Id)
    : (r: seq<FollowView>)
    ensures |r| == |FollowsOf(follows, userId)|
    ensures forall f :: f in follows && f.userId == userId <==> exists i :: 0 <= i < |r| && r[i].follow == f
    ensures forall i :: 0 <= i < |r| ==>
      r[i].user == UserById(users, userId) && r[i].feed == FeedById(feeds, r[i].follow.feedId)
  {
    var mine := FollowsOf(follows, userId);
    var r := seq(|mine|, i requires 0 <= i < |mine| => Joined(mine[i], users, feeds));
    forall f | f in mine ensures exists i :: 0 <= i < |r| && r[i].follow == f {
      var i :| 0 <= i < |mine| && mine[i] == f;
      assert r[i].follow == f;
    }
    r
  }

  /** The delete `where user_id = userId and feed_id = feedId`: every row of
      that pair goes, the others stay in order. */
  function RemoveFollow(follows: seq<FeedFollow>, userId: Id, feedId: Id): (r: seq<FeedFollow>)
    ensures forall f :: f in r <==> f in follows && !Matches(f, userId, feedId)
    ensures !Follows(r, userId, feedId)
    ensures !Follows(follows, userId, feedId) ==> r == follows
  {
    if follows == [] then []
    else (if Matches(follows[0], userId, feedId) then [] else [follows[0]])
         + RemoveFollow(follows[1..], userId, feedId)
  }

  /** Removing one pair removes exactly the rows of that pair: the table
      shrinks by their number. */
  lemma {:induction false} RemoveFollowCount(follows: seq<FeedFollow>, userId: Id, feedId: Id)
    ensures |RemoveFollow(follows, userId, feedId)| + |Matching(follows, userId, feedId)| == |follows|
  {
    if follows != [] {
      RemoveFollowCount(follows[1..], userId, feedId);
    }
  }

  function Matching(follows: seq<FeedFollow>, userId: Id, feedId: Id): seq<FeedFollow> {
    if follows == [] then []
    else (if Matches(follows[0], userId, feedId) then [follows[0]] else [])
         + Matching(follows[1..], userId, feedId)
  }

  /** Another user's follows, and this user's follows of other feeds, are the
      same after the removal. */
  lemma {:induction false} RemoveFollowKeepsOthers(follows: seq<FeedFollow>, userId: Id, feedId: Id, other: Id)
    requires other != userId
    ensures FollowsOf(RemoveFollow(follows, userId, feedId), other) == FollowsOf(follows, other)
  {
    if follows != [] {
      RemoveFollowKeepsOthers(follows[1..], userId, feedId, other);
      var head := if Matches(follows[0], userId, feedId) then [] else [follows[0]];
      var rest := RemoveFollow(follows[1..], userId, feedId);
      assert RemoveFollow(follows, userId, feedId) == head + rest;
      FollowsOfAppend(head, rest, other);
    }
  }

  lemma {:induction false} FollowsOfAppend(a: seq<FeedFollow>, b: seq<FeedFollow>, userId: Id)
    ensures FollowsOf(a + b, userId) == FollowsOf(a, userId) + FollowsOf(b, userId)
  {
    if a == [] {
      assert a + b == b;
    } else {
      assert (a + b)[0] == a[0];
      assert (a + b)[1..] == a[1..] + b;
      FollowsOfAppend(a[1..], b, userId);
    }
  }

  /** What `deleteFeedFollowByUrl` returns. */
  datatype UnfollowResult = UnfollowResult(success: bool, message: string, feedUrl: Option<string>, deletedCount: Option<int>)

  function FeedNotFound(feedUrl: string): string {
    "Feed with URL \"" + feedUrl + "\" not found"
  }

  const NotFollowing := "You are not following this feed"
  const Unfollowed := "Successfully unfollowed feed"

  /** The feed_follows table. */
  class FollowStore {
    var follows: seq<FeedFollow>

    constructor (follows: seq<FeedFollow>)
      ensures this.follows == follows
    {
      this.follows := follows;
    }

    /** `createFeedFollow`: insert a row with the database-generated id
        `newId`, then read it back by that id joined with its user and feed. */
    method CreateFeedFollow(userId: Id, feedId: Id, newId: Id, users: seq<User>, feeds: seq<Feed>)
      returns (v: FollowView)
      requires forall f :: f in follows ==> f.id != newId
      modifies this
      ensures follows == old(follows) + [FeedFollow(newId, userId, feedId)]
      ensures v.follow == FeedFollow(newId, userId, feedId)
      ensures v.user == UserById(users, userId) && v.feed == FeedById(feeds, feedId)
    {
      follows := follows + [FeedFollow(newId, userId, feedId)];
      var row := FollowById(follows, newId);
      assert FollowById(follows, newId) == Some(FeedFollow(newId, userId, feedId));
      v := Joined(row.value, users, feeds);
    }

    /** `deleteFeedFollow`: remove every row of the pair and report 1,
        however many rows went. */
    method DeleteFeedFollow(userId: Id, feedId: Id) returns (n: int)
      modifies this
      ensures follows == RemoveFollow(old(follows), userId, feedId)
      ensures n == 1
    {
      follows := RemoveFollow(follows, userId, feedId);
      n := 1;
    }

    /** `deleteFeedFollowByUrl`: find the feed by URL, check the user follows
        it, then delete the follow. The two failures change nothing. */
    method DeleteFeedFollowByUrl(userId: Id, feedUrl: string, feeds: seq<Feed>) returns (r: UnfollowResult)
      modifies this
      ensures FeedByUrl(feeds, feedUrl).None? ==>
        r == UnfollowResult(false, FeedNotFound(feedUrl), None, None) && follows == old(follows)
      ensures FeedByUrl(feeds, feedUrl).Some? && !Follows(old(follows), userId, FeedByUrl(feeds, feedUrl).value.id) ==>
        r == UnfollowResult(false, NotFollowing, None, None) && follows == old(follows)
      ensures FeedByUrl(feeds, feedUrl).Some? && Follows(old(follows), userId, FeedByUrl(feeds, feedUrl).value.id) ==>
        r == UnfollowResult(true, Unfollowed, Some(feedUrl), Some(1))
        && follows == RemoveFollow(old(follows), userId, FeedByUrl(feeds, feedUrl).value.id)
      ensures r.success <==> follows != old(follows)
    {
      var feed := FeedByUrl(feeds, feedUrl);
      if feed.None? {
        return UnfollowResult(false, FeedNotFound(feedUrl), None, None);
      }
      var feedId := feed.value.id;
      var followExists := Matching(follows, userId, feedId) != [];
      MatchingEmpty(follows, userId, feedId);
      if !followExists {
        return UnfollowResult(false, NotFollowing, None, None);
      }
      var deleted := DeleteFeedFollow(userId, feedId);
      RemoveFollowShrinks(old(follows), userId, feedId);
      r := UnfollowResult(true, Unfollowed, Some(feedUrl), Some(deleted));
    }
  }

  lemma {:induction false} MatchingEmpty(follows: seq<FeedFollow>, userId: Id, feedId: Id)
    ensures Matching(follows, userId, feedId) == [] <==> !Follows(follows, userId, feedId)
  {
    if follows != [] {
      MatchingEmpty(follows[1..], userId, feedId);
      assert forall f :: f in follows <==> f == follows[0] || f in follows[1..];
    }
  }

  /** A removal that finds a row of the pair changes the table. */
  lemma RemoveFollowShrinks(follows: seq<FeedFollow>, userId: Id, feedId: Id)
    requires Follows(follows, userId, feedId)
    ensures RemoveFollow(follows, userId, feedId) != follows
  {
  }
}
