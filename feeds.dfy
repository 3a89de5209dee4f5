/** Rows of the users and feeds tables, and the feed registry's
    "mark fetched" update used by the aggregation step. */
module Feeds {
  import opened Wrappers

  /** Row identifiers (UUIDs generated by the database). */
  type Id = string

  datatype User = User(id: Id, name: string)

  datatype Feed = Feed(id: Id, name: string, url: string, userId: Id, lastFetchedAt: Option<int>)

  /** The first row, in table order, that satisfies `keep`: a lookup by
      one column that takes the first row found. */
  function FirstWhere<T>(rows: seq<T>, keep: T -> bool): (r: Option<T>)
    ensures r.Some? ==> r.value in rows && keep(r.value)
    ensures r.None? ==> forall x :: x in rows ==> !keep(x)
  {
    if rows == [] then None
    else if keep(rows[0]) then Some(rows[0])
    else FirstWhere(rows[1..], keep)
  }

  /** `getUserByName`: the first user row with that name. */
  function UserByName(users: seq<User>, name: string): (r: Option<User>)
    ensures r.Some? ==> r.value in users && r.value.name == name
    ensures r.None? ==> forall u :: u in users ==> u.name != name
  {
    FirstWhere(users, (u: User) => u.name == name)
  }

  /** The left join on `users.id`: the user row with that id, if any. */
  function UserById(users: seq<User>, id: Id): (r: Option<User>)
    ensures r.Some? ==> r.value in users && r.value.id == id
    ensures r.None? ==> forall u :: u in users ==> u.id != id
  {
    FirstWhere(users, (u: User) => u.id == id)
  }

  /** The left join on `feeds.id`: the feed row with that id, if any. */
  function FeedById(feeds: seq<Feed>, id: Id): (r: Option<Feed>)
    ensures r.Some? ==> r.value in feeds && r.value.id == id
    ensures r.None? ==> forall f :: f in feeds ==> f.id != id
  {
    FirstWhere(feeds, (f: Feed) => f.id == id)
  }

  /** `select ... from feeds where url = feedUrl`, first row: the feed with
      that URL, if any. */
  function FeedByUrl(feeds: seq<Feed>, url: string): (r: Option<Feed>)
    ensures r.Some? ==> r.value in feeds && r.value.url == url
    ensures r.None? ==> forall f :: f in feeds ==> f.url != url
  {
    FirstWhere(feeds, (f: Feed) => f.url == url)
  }

  /** The feeds table after `markFeedFetched(id)` at time `now`: the rows with
      that id carry `now` as their last fetch time. */
  function MarkFetched(feeds: seq<Feed>, id: Id, now: int): (r: seq<Feed>)
    ensures |r| == |feeds|
    ensures forall i :: 0 <= i < |feeds| ==>
      if feeds[i].id == id then r[i] == feeds[i].(lastFetchedAt := Some(now)) else r[i] == feeds[i]
  {
    seq(|feeds|, i requires 0 <= i < |feeds| =>
      if feeds[i].id == id then feeds[i].(lastFetchedAt := Some(now)) else feeds[i])
  }

  /** The feeds table, whose last-fetched column the aggregator updates. */
  class FeedTable {
    var feeds: seq<Feed>

    constructor (feeds: seq<Feed>)
      ensures this.feeds == feeds
    {
      this.feeds := feeds;
    }

    /** `markFeedFetched(id)`; `failure` is the error the database raises,
        if it does, and then nothing changes. */
    method MarkFeedFetched(id: Id, now: int, failure: Option<string>) returns (r: Result<()>)
      modifies this
      ensures r.Err? <==> failure.Some?
      ensures r.Err? ==> r.error == failure.value && feeds == old(feeds)
      ensures r.Ok? ==> feeds == MarkFetched(old(feeds), id, now)
    {
      if failure.Some? {
        return Err(failure.value);
      }
      feeds := MarkFetched(feeds, id, now);
      return Ok(());
    }
  }
}
