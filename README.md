# Feed aggregator core, modelled in Dafny

This project models the core of `gator`, a small RSS aggregator driven from
the command line. Its `agg` command takes a polling interval such as `1m`.
Each aggregation tick asks the feed registry for the next feed and marks that
feed fetched before fetching it. It then normalises the RSS channel and
stores the channel's items in order. An item whose URL is already stored is
skipped, and so is an item whose insert fails. Errors raised after a feed is
selected are contained at the feed boundary. An error from the selector
itself rejects the tick, and `agg` logs it through its own catch. Around the tick
sit:

- the posts table, with its global unique-URL constraint;
- the feed-follow relation;
- the configuration file that holds the current user;
- the command registry and dispatcher, and the logged-in middleware;
- the `browse` command's limit and truncation rules.

Files, one module each:

| file | module | models |
|---|---|---|
| wrappers.dfy | Wrappers | `Option`, and `Result` for thrown errors |
| decimal.dfy | Decimal | digit strings: `\d+` and the rendering of whole numbers |
| duration.dfy | Duration | `parseDuration`, `formatDuration` |
| rss.dfy | Rss | `fetchFeed` after the XML parse: channel validation, item normalisation |
| feeds.dfy | Feeds | users and feeds rows, lookups, `markFeedFetched` |
| feed_follows.dfy | FeedFollows | `createFeedFollow`, `getFeedFollowsForUser`, `deleteFeedFollow`, `deleteFeedFollowByUrl` |
| posts.dfy | Posts | `createPost`, `postExistsByUrl`, `getPostsForUser` |
| config.dfy | Config | `validateConfig`, `writeConfig`, `readConfig`, `setUser` |
| scrape.dfy | Scrape | `scrapeFeeds`, one tick |
| commands.dfy | Commands | registry, `runCommand`, `middlewareLoggedIn`, `handlerBrowse`, the prefix of `handlerAgg` |

The parts of the source that change state in place are Dafny classes whose
methods state the whole new state:

- the posts table (`Posts.PostStore`);
- the follows table (`FeedFollows.FollowStore`);
- the feeds table's last-fetched column (`Feeds.FeedTable`);
- the config file (`Config.ConfigFile`);
- the command registry (`Commands.CommandsRegistry`).

`scrapeFeeds` is a method whose item loop keeps its two counters. It is
proved equal to a pure function of the old tables, `Scrape.Tick`, and the
lemmas about `Tick` and `Ingest` state what the tick guarantees.

Code outside the model enters as parameters (`Scrape.Env`):

- the network fetch together with the XML parse;
- the database driver's rendering of a parsed field as a text column;
- the `Date` built from `pubDate`;
- the ids the database generates;
- the clock;
- the database errors raised at each step.

The feed selector is a parameter too: it is the value that
`getNextFeedToFetch` returned or threw.

Two behaviours of the code are worth knowing:

- `parseDuration` has no positivity check, so `0s` is accepted and gives
  interval 0 (src/commands.ts:148-168).
- An item whose existence check throws ends the whole feed, not only that
  item, because the `try` encloses the whole loop over the items
  (src/commands.ts:229-280).

One consequence worth knowing is stated in `Config.SetUserReadBack`.
`setUser("")` succeeds, but it writes a config that every later
`readConfig` rejects with "current_user_name is required in config file".
This can happen through `register ""`.

## Model

| member | source | states |
|---|---|---|
| Decimal.Value | src/commands.ts:157 | the base-10 value of a string of n digits is below 10^n |
| Duration.ParseDuration | src/commands.ts:147-172 | every rejection throws "Invalid duration format: <input>. Expected format: 1s, 1m, 1h, etc." |
| Duration.ParseDurationAcceptsExactly | src/commands.ts:148-155 | the parser succeeds exactly on the strings of `^(\d+)(ms\|s\|m\|h)$`: one or more digits, then one unit, nothing else |
| Duration.ParseDurationValue | src/commands.ts:157-168 | digits d followed by a unit parse to the base-10 value of d times 1, 1000, 60·1000 or 60·60·1000 |
| Duration.ParseDurationAcceptedExamples | src/commands.ts:157-168 | "2h" gives 7200000, "1500ms" gives 1500, and "0s" is accepted as 0 |
| Duration.ParseDurationRejectedExamples | src/commands.ts:148-155 | "10x", "1.5s", "-1s" and "" are rejected |
| Duration.FormatDuration | src/commands.ts:179-190 | the string built by the three conditional appends is the rendering of the canonical hour/minute/second components, and it is never empty |
| Duration.DurationParts | src/commands.ts:180-187 | one to three components, none in milliseconds |
| Duration.DurationPartsCanonical | src/commands.ts:180-187 | one to three components, hours before minutes before seconds, minutes and seconds below 60, no zero component except a lone "0s", summing to the input rounded down to whole seconds |
| Duration.DurationPartsPresence | src/commands.ts:185-187 | `Xh` appears iff at least an hour; `Ym` iff the remainder below the hour holds a whole minute; `Zs` iff a whole second remains or the input is below a minute |
| Duration.PartTextParses | src/commands.ts:185-187 | each printed component (e.g. "5m") is a valid duration argument that parses back to the milliseconds it stands for |
| Duration.FormatDurationExamples | src/commands.ts:179-190 | 1500 ms renders "1s", 7200000 renders "2h", 3723000 renders "1h2m3s", 0 renders "0s" |
| Rss.NormaliseFeed | src/rss.ts:31-81 | "Invalid RSS feed" iff there is no truthy `rss` root with a truthy `channel`; "Missing channel metadata" iff a channel lacks a truthy title, link or description; otherwise success, with those three values copied unchanged |
| Rss.CompleteIndicesIncreasing | src/rss.ts:43-56 | the positions of the kept items are strictly increasing, so the filter keeps channel order |
| Rss.CompleteIndicesExact | src/rss.ts:43-56 | every complete item's position is among the kept ones, so the filter drops no complete item |
| Rss.KeepCompleteSelects | src/rss.ts:43-56 | the kept list has one entry per complete item, in order, each the item's title, link, description and pubDate copied unchanged |
| Rss.KeepComplete | src/rss.ts:43-56 | the filter never yields more items than it received |
| Rss.KeepCompleteAllComplete | src/rss.ts:43-56 | N complete items give exactly N items in their original order |
| Rss.NoItemsStillValid | src/rss.ts:41-42 | a valid channel without `item` is accepted with an empty item list |
| Rss.ArrayOfItems | src/rss.ts:43-56 | an `item` array yields the complete items, copied, in order, no more than were given |
| Rss.SingleItem | src/rss.ts:57-71 | a single `item` object yields a one-element list if it is complete and an empty list otherwise |
| Feeds.FirstWhere | src/lib/db/queries/feedFollows.ts:20 | the row found satisfies the condition and belongs to the table; no row is found only when none satisfies it |
| FeedFollows.FollowById | src/lib/db/queries/feedFollows.ts:20-24 | the row read back by id is a follow with that id, or none exists |
| Feeds.UserByName | src/lib/db/queries/users.ts:10-13 | the result is a user with that name, or none exists |
| Feeds.UserById | src/lib/db/queries/feedFollows.ts:21 | the left join on users: the user with that id, or none exists |
| Feeds.FeedById | src/lib/db/queries/feedFollows.ts:22 | the left join on feeds: the feed with that id, or none exists |
| Feeds.FeedByUrl | src/lib/db/queries/feedFollows.ts:62-68 | a feed with that URL, or none exists |
| Feeds.MarkFetched | src/commands.ts:230-231 | rows with the feed's id get `now` as last fetch time; every other row is unchanged |
| Feeds.FeedTable.MarkFeedFetched | src/commands.ts:230-231 | a database error changes nothing and is returned; otherwise the table becomes `MarkFetched` of the old one |
| FeedFollows.FollowsOf | src/lib/db/queries/feedFollows.ts:35 | exactly the rows with that user id, each kept no more often than it occurs in the table |
| FeedFollows.GetFeedFollowsForUser | src/lib/db/queries/feedFollows.ts:27-38 | one joined row per follow of the user, every such follow present, each joined with its user and its feed |
| FeedFollows.RemoveFollow | src/lib/db/queries/feedFollows.ts:46-52 | the rows that remain are exactly the old rows not matching both userId and feedId; none of the pair remains; nothing changes when the pair was not followed |
| FeedFollows.RemoveFollowCount | src/lib/db/queries/feedFollows.ts:46-52 | the table shrinks by exactly the number of matching rows |
| FeedFollows.RemoveFollowKeepsOthers | src/lib/db/queries/feedFollows.ts:46-52 | every other user's follows are unchanged, in order |
| FeedFollows.FollowStore.CreateFeedFollow | src/lib/db/queries/feedFollows.ts:7-25 | one row (newId, userId, feedId) is appended and returned joined with its user and feed |
| FeedFollows.FollowStore.DeleteFeedFollow | src/lib/db/queries/feedFollows.ts:46-52 | the table becomes `RemoveFollow` of the old one and the result is 1 whatever was removed |
| FeedFollows.FollowStore.DeleteFeedFollowByUrl | src/lib/db/queries/feedFollows.ts:60-89 | unknown URL: "not found" failure, nothing changes; not followed: "You are not following this feed", nothing changes; otherwise only that user's follow of that feed is removed and the result is success, "Successfully unfollowed feed", feedUrl, deletedCount 1 |
| Posts.InsertPost | src/lib/db/queries/posts.ts:23-41 | the insert succeeds iff there is no database error and the URL is free, appending exactly the given row; a taken URL gives "Post with this URL already exists" and any failure leaves the table unchanged |
| Posts.InsertPostKeepsUnique | src/lib/db/queries/posts.ts:35-38 | URL uniqueness across all posts (a global key) survives every insert, and the URL is afterwards taken iff it was before or the insert succeeded |
| Posts.PostStore.CreatePost | src/lib/db/queries/posts.ts:16-42 | the table and result are those of `InsertPost`; the unique-URL invariant is kept |
| Posts.PostStore.PostExistsByUrl | src/lib/db/queries/posts.ts:85-93 | true iff some stored post has that URL; a query error is returned; the table is not modified |
| Posts.InsertByDate | src/lib/db/queries/posts.ts:76 | inserting into the ordered list adds exactly that post |
| Posts.InsertByDateSorted | src/lib/db/queries/posts.ts:76 | insertion keeps the list ordered newest first |
| Posts.SortNewestFirst | src/lib/db/queries/posts.ts:76 | the sort is a permutation of its input |
| Posts.SortNewestFirstSorted | src/lib/db/queries/posts.ts:76 | the sort orders by publishedAt descending, NULL first |
| Posts.InFeeds | src/lib/db/queries/posts.ts:75 | exactly the posts whose feedId is in the set, each kept no more often than it occurs in the table |
| Posts.FollowedFeedIds | src/lib/db/queries/posts.ts:52-57 | exactly the feeds the user follows |
| Posts.NewestFollowedPosts | src/lib/db/queries/posts.ts:50-78 | empty when the user follows no feed; otherwise only posts of followed feeds, newest first, min(limit, matching) of them, and a prefix of a newest-first ordering of all matching posts |
| Posts.JoinedFeed | src/lib/db/queries/posts.ts:67-74 | the left join on `posts.feedId = feeds.id`: a name and URL exactly when some feed has that id, and then that feed's name and URL |
| Posts.GetPostsForUser | src/lib/db/queries/posts.ts:64-77 | the rows are the selected posts, in order, at most `limit` (default 10); each carries a feed exactly when a feed with the post's feedId exists, and then that feed's name and URL |
| Config.ToRaw | src/config.ts:32-35 | the stored record has exactly the keys db_url and current_user_name, holding dbUrl and currentUserName as strings |
| Config.ValidateConfig | src/config.ts:39-56 | success iff db_url and current_user_name are non-empty strings, mapped to dbUrl and currentUserName exactly; a bad db_url gives its error first, then a bad current_user_name gives its own |
| Config.WriteThenValidate | src/config.ts:30-38 | the record `writeConfig` stores validates back to the same config when both fields are non-empty, and otherwise to the matching error |
| Config.ReadConfigFrom | src/config.ts:16-26 | "Config file not found" without a file, otherwise the validation of its content |
| Config.ConfigFile.ReadConfig | src/config.ts:16-26 | reads the file through `ReadConfigFrom` without changing it |
| Config.ConfigFile.WriteConfig | src/config.ts:30-38 | the file afterwards holds exactly {db_url, current_user_name} of the config |
| Config.ConfigFile.SetUser | src/config.ts:10-14 | an unreadable config throws its read error and is untouched; otherwise the file holds the old db_url and the new user name only |
| Config.SetUserReadBack | src/config.ts:10-14 | after `setUser(name)` a read returns the old db_url with that name, except that an empty name makes every later read fail |
| Scrape.FetchFeed | src/rss.ts:20-33 | a network error is passed on; otherwise the result is the normalisation of the parsed tree |
| Scrape.ItemStep | src/commands.ts:245-273 | an existence-check error ends the loop; an item whose URL is stored is skipped without an insert; otherwise one of saved or skipped grows by one: saved exactly when `createPost` reports no error, skipped with the table unchanged when it fails; the table grows by the item's row exactly when saved grows |
| Scrape.Ingest | src/commands.ts:241-273 | saved + skipped never exceeds the items processed, and equals it when no error left the loop |
| Scrape.IngestStaysFailed | src/commands.ts:229-280 | after an error leaves the loop, the remaining items are never processed |
| Scrape.IngestCounts | src/commands.ts:241-273 | saved + skipped equals the number of items processed; an error stops at the item whose check threw; the table is the old one with exactly `saved` rows appended |
| Scrape.IngestKeepsUnique | src/commands.ts:245-273 | the loop never stores two posts with the same URL |
| Scrape.IngestWithoutErrors | src/commands.ts:245-252 | when every existence check answers, no error leaves the loop |
| Scrape.IngestAddsItemPosts | src/commands.ts:254-264 | every added row is built from one of the processed items and carries the feed's id |
| Scrape.IngestAllDuplicates | src/commands.ts:247-252 | items whose URLs are all stored change nothing and are all counted as skipped |
| Scrape.IngestStoresEveryUrl | src/commands.ts:245-273 | without database errors, every processed item's URL is stored afterwards |
| Scrape.ReingestSavesNothing | src/commands.ts:245-273 | ingesting the same channel again after an error-free run saves nothing and leaves the table as it was |
| Scrape.Tick | src/commands.ts:218-281 | "no feed" exactly when the selector returns none and a rejection exactly when it throws, both with the tables unchanged; a completed or failed report names the selected feed |
| Scrape.TickWithoutFeed | src/commands.ts:220-225 | no feed from the selector: nothing changes; a selector error escapes the tick with nothing changed |
| Scrape.TickMarksBeforeFetch | src/commands.ts:229-234 | a failed mark ends the tick with nothing fetched and nothing changed; a successful mark stays in place whatever the network does, and a failed fetch stores no post |
| Scrape.TickCounts | src/commands.ts:218-281 | a completed tick counted every channel item as saved or skipped and grew the table by `saved`; no tick drops or reorders stored rows or breaks URL uniqueness |
| Scrape.SaveItems | src/commands.ts:241-273 | the loop's table, counters and escaping error equal those of `Ingest` over all items |
| Scrape.ScrapeFeeds | src/commands.ts:218-281 | the new feeds table, posts table and report equal `Tick` of the old tables |
| Commands.MiddlewareLoggedIn | src/commands.ts:43-55 | for every world, command name and arguments: a config error is thrown; an unknown configured user throws "User <name> not found"; otherwise the wrapped handler runs with that user, the same name and the same arguments |
| Commands.CommandsRegistry.RegisterCommand | src/commands.ts:399-405 | the name is bound to the handler, replacing any earlier binding, and the other bindings are kept |
| Commands.CommandsRegistry.RunCommand | src/commands.ts:407-419 | a bound name runs its handler with the same name and arguments; an unknown name exits with status 1 |
| Commands.RegistryDispatch | src/commands.ts:399-419 | registering a name twice keeps the later handler, other names keep theirs, and an unregistered name exits with status 1 |
| Commands.ChosenLimit | src/commands.ts:327-337 | the browse limit is always positive: the parsed first argument when that is a positive integer, and 2 otherwise |
| Commands.BrowseLimit | src/commands.ts:327-337 | the limit set by the statements is `ChosenLimit` |
| Commands.TruncateDescription | src/commands.ts:358-364 | a description over 150 characters becomes its first 150 followed by "..."; a shorter one is unchanged |
| Commands.ShowPost | src/commands.ts:348-367 | title, URL and date are shown as stored; the feed line shows the joined feed's name, or "Unknown feed" when there is no feed or its name is empty; a description line appears iff the description is non-empty, truncated |
| Commands.ShowPosts | src/commands.ts:348-368 | one shown entry per fetched post, in order |
| Commands.HandlerBrowse | src/commands.ts:322-369 | shows the rows of `getPostsForUser` under `ChosenLimit`, at most that many, each via `ShowPost` |
| Commands.AggInterval | src/commands.ts:288-294 | a missing argument gives the usage error; otherwise success iff the argument matches the duration pattern, and the duration error when it does not |
| Commands.HandlerAgg | src/commands.ts:288-299 | a refused argument throws before any tick and both tables are untouched; otherwise the banner shows the formatted interval, the first tick runs at once, and its failure is caught, never thrown |

## Left out

- Network fetch with its User-Agent header, and the XML parser: the model
  starts from the parser's output tree (`Rss.Node`). The tree's leaves are
  text, or integers where the parser turned numeric text into a number.
  Fractional numbers and booleans are not modelled.
- The repeating timer, its interval and the SIGINT shutdown of `handlerAgg`
  are not modelled: ticks are timer-driven and may overlap. The model
  covers the validation, the banner and the immediate first tick.
- `getNextFeedToFetch` is not part of this model, since its definition is
  not in the source shown. Its result is a parameter, and no selection
  order is assumed. The definition of `markFeedFetched` is missing as well.
  It is modelled as setting the feed's last-fetched time to the current
  time, or failing with a database error.
- `parsePublishedDate` (`new Date(...)`) is a parameter from the parsed
  field to an optional timestamp.
- The database driver's conversion of a parsed field to a text column is a
  parameter (`Scrape.Env.bind`).
- `parseInt`'s leniency in `handlerBrowse` is not modelled: the parsed
  integer is an input.
- JavaScript number precision in `parseDuration` and `formatDuration` is
  not modelled: milliseconds are unbounded naturals, and a number is shown
  in plain decimal (no exponent form).
- Commands.ShowPost: the publication date is shown as the stored
  timestamp (`None` for the "Unknown" case); its locale-dependent
  `toLocaleString` text is not modelled.
- String length is counted in Dafny characters rather than UTF-16 code
  units.
- Posts.NewestFollowedPosts: ties between posts with equal `publishedAt` are
  returned in a stable order of the model's choosing. PostgreSQL promises
  no order among ties. NULL dates are placed first, as PostgreSQL does in
  descending order.
- Drizzle and PostgreSQL mechanics are not modelled: tables are in-memory
  sequences, and row ids come from the caller. The schema is not part of
  this model, so `createFeedFollow` has no unique constraint on
  (user, feed) and ids are assumed fresh.
- `createdAt` and `updatedAt` columns are not modelled.
- Console output is not modelled: `printFeed`, `listAllFeeds`,
  `handlerFollowing`, `handlerUsers`, and the log lines of `scrapeFeeds`
  other than its final counts and its error.
- `runCommand` is not modelled for names inherited from JavaScript's
  object prototype (such as `constructor`). In the source these find a
  function instead of reporting an unknown command.
- The file system, `JSON.stringify`/`JSON.parse` and the home-directory
  path: the config file is an optional parsed JSON value, and a write
  always succeeds.
- src/login.ts, src/index.ts, src/reset.ts, src/db/migrate.ts,
  drizzle.config.ts, `handlerAddFeed`, `handlerFollow`, `handlerUnfollow`
  and `handlerRegister` are not part of this model: they are argument
  checks and calls into the modelled operations, or process plumbing.
