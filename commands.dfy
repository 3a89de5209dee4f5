/** The command layer of src/commands.ts: the handler registry and its
    dispatcher, the logged-in middleware, the `browse` limit and description
    rules, and the validation prefix of `agg` with its immediate first tick. */
module Commands {
  import opened Wrappers
  import opened Feeds
  import opened FeedFollows
  import opened Posts
  import opened Config
  import opened Duration
  import opened Scrape

  /** What a handler runs against: the config file's content and the users
      table. */
  datatype World = World(configFile: Option<Json>, users: seq<User>)

  /** How a handler's promise settles. */
  datatype Outcome = Done | Threw(message: string)

  /** `CommandHandler`: command name and arguments. */
  type CommandHandler = (World, string, seq<string>) -> Outcome

  /** `UserCommandHandler`: command name, the logged-in user and arguments. */
  type UserCommandHandler = (World, string, User, seq<string>) -> Outcome

  function UserNotFound(userName: string): string {
    "User " + userName + " not found"
  }

  /** `middlewareLoggedIn(handler)`: read the config, look the current user
      up, and call the handler with that user. The handler runs exactly when
      the configured user exists, with the same command name and arguments;
      otherwise the wrapper throws the config error or "User <name> not
      found" without calling it. */
  function MiddlewareLoggedIn(handler: UserCommandHandler): (r: CommandHandler)
    ensures forall w: World, cmdName: string, args: seq<string> | ReadConfigFrom(w.configFile).Err? ::
      r(w, cmdName, args) == Threw(ReadConfigFrom(w.configFile).error)
    ensures forall w: World, cmdName: string, args: seq<string> | ReadConfigFrom(w.configFile).Ok? ::
      var name := ReadConfigFrom(w.configFile).value.currentUserName;
      && (UserByName(w.users, name).None? ==> r(w, cmdName, args) == Threw(UserNotFound(name)))
      && (UserByName(w.users, name).Some? ==> r(w, cmdName, args) == handler(w, cmdName, UserByName(w.users, name).value, args))
  {
    (w: World, cmdName: string, args: seq<string>) =>
      match ReadConfigFrom(w.configFile)
      case Err(e) => Threw(e)
      case Ok(config) =>
        match UserByName(w.users, config.currentUserName)
        case None => Threw(UserNotFound(config.currentUserName))
        case Some(user) => handler(w, cmdName, user, args)
  }

  /** What `runCommand` leads to: the handler's settled promise, or the
      process exiting with a status. */
  datatype RunOutcome = Ran(outcome: Outcome) | Exited(status: int)

  /** `CommandsRegistry`: command names bound to handlers. */
  class CommandsRegistry {
    var handlers: map<string, CommandHandler>

    constructor ()
      ensures handlers == map[]
    {
      handlers := map[];
    }

    /** `registerCommand`: bind the name, replacing an earlier binding. */
    method RegisterCommand(cmdName: string, handler: CommandHandler)
      modifies this
      ensures handlers == old(handlers)[cmdName := handler]
    {
      handlers := handlers[cmdName := handler];
    }

    /** `runCommand`: call the bound handler with the same name and
        arguments; an unknown name exits with status 1. */
    method RunCommand(w: World, cmdName: string, args: seq<string>) returns (r: RunOutcome)
      ensures cmdName in handlers ==> r == Ran(handlers[cmdName](w, cmdName, args))
      ensures cmdName !in handlers ==> r == Exited(1)
    {
      if cmdName in handlers {
        var handler := handlers[cmdName];
        r := Ran(handler(w, cmdName, args));
      } else {
        r := Exited(1);
      }
    }
  }

  /** Registering twice under one name keeps the later handler, other names
      keep theirs, and a name never registered exits with status 1. */
  method RegistryDispatch(w: World, name: string, other: string, unknown: string, args: seq<string>,
                          first: CommandHandler, second: CommandHandler, third: CommandHandler)
    returns (a: RunOutcome, b: RunOutcome, c: RunOutcome)
    requires name != other && unknown != name && unknown != other
    ensures a == Ran(second(w, name, args))
    ensures b == Ran(third(w, other, args))
    ensures c == Exited(1)
  {
    var registry := new CommandsRegistry();
    registry.RegisterCommand(name, first);
    registry.RegisterCommand(other, third);
    registry.RegisterCommand(name, second);
    a := registry.RunCommand(w, name, args);
    b := registry.RunCommand(w, other, args);
    c := registry.RunCommand(w, unknown, args);
  }

  const DefaultBrowseLimit := 2
  const MaxDescriptionLength := 150

  /** The limit of `handlerBrowse`: 2 unless the first argument parses to a
      positive integer. `parsedFirstArg` is `parseInt(args[0], 10)`, `None`
      standing for NaN; it is ignored when there is no argument. */
  function ChosenLimit(args: seq<string>, parsedFirstArg: Option<int>): (limit: nat)
    ensures limit > 0
    ensures |args| > 0 && parsedFirstArg.Some? && parsedFirstArg.value > 0 ==> limit == parsedFirstArg.value
    ensures !(|args| > 0 && parsedFirstArg.Some? && parsedFirstArg.value > 0) ==> limit == DefaultBrowseLimit
  {
    if |args| > 0 && parsedFirstArg.Some? && parsedFirstArg.value > 0 then parsedFirstArg.value
    else DefaultBrowseLimit
  }

  /** The statements of `handlerBrowse` that set its limit. */
  method BrowseLimit(args: seq<string>, parsedFirstArg: Option<int>) returns (limit: nat)
    ensures limit == ChosenLimit(args, parsedFirstArg)
  {
    limit := DefaultBrowseLimit;
    if |args| > 0 {
      if parsedFirstArg.Some? && parsedFirstArg.value > 0 {
        limit := parsedFirstArg.value;
      }
    }
  }

  /** A description over 150 characters is cut to its first 150 followed by
      "..."; a shorter one is shown whole. */
  function TruncateDescription(d: string): (r: string)
    ensures |r| <= MaxDescriptionLength + 3
    ensures |d| <= MaxDescriptionLength ==> r == d
    ensures |d| > MaxDescriptionLength ==>
      |r| == MaxDescriptionLength + 3 && r[..MaxDescriptionLength] == d[..MaxDescriptionLength]
      && r[MaxDescriptionLength..] == "..."
  {
    if |d| > MaxDescriptionLength then d[..MaxDescriptionLength] + "..." else d
  }

  const UnknownFeed := "Unknown feed"

  /** What `browse` shows of one post: its feed's name, or "Unknown feed"
      when the join found no feed or an empty name; the description line
      appears only for a non-empty description. */
  datatype PostLine = PostLine(title: string, feed: string, url: string, publishedAt: Option<int>,
                               description: Option<string>)

  function ShowPost(v: PostRow): (line: PostLine)
    ensures line.title == v.post.title && line.url == v.post.url && line.publishedAt == v.post.publishedAt
    ensures v.feed.Some? && v.feed.value.name != "" ==> line.feed == v.feed.value.name
    ensures !(v.feed.Some? && v.feed.value.name != "") ==> line.feed == UnknownFeed
    ensures line.description.Some? <==> v.post.description.Some? && v.post.description.value != ""
    ensures line.description.Some? ==> line.description.value == TruncateDescription(v.post.description.value)
  {
    var p := v.post;
    var feed := if v.feed.Some? && v.feed.value.name != "" then v.feed.value.name else UnknownFeed;
    var d := if p.description.Some? && p.description.value != "" then Some(TruncateDescription(p.description.value))
             else None;
    PostLine(p.title, feed, p.url, p.publishedAt, d)
  }

  /** The `for` loop of `handlerBrowse` over the fetched rows. */
  method ShowPosts(shown: seq<PostRow>) returns (lines: seq<PostLine>)
    ensures |lines| == |shown|
    ensures forall i :: 0 <= i < |lines| ==> lines[i] == ShowPost(shown[i])
  {
    lines := [];
    for i := 0 to |shown|
      invariant |lines| == i
      invariant forall j :: 0 <= j < i ==> lines[j] == ShowPost(shown[j])
    {
      lines := lines + [ShowPost(shown[i])];
    }
  }

  /** `handlerBrowse` for `user`: the newest posts of the followed feeds, as
      many as the limit allows, each shown with its feed's name and a
      truncated description; an empty result is the "No posts found" case. */
  method HandlerBrowse(user: User, args: seq<string>, parsedFirstArg: Option<int>,
                       posts: seq<Post>, follows: seq<FeedFollow>, feeds: seq<Feed>)
    returns (lines: seq<PostLine>)
    ensures var limit := ChosenLimit(args, parsedFirstArg);
      var shown := GetPostsForUser(posts, follows, feeds, user.id, limit);
      |lines| == |shown| <= limit
      && forall i :: 0 <= i < |lines| ==> lines[i] == ShowPost(shown[i])
  {
    var limit := BrowseLimit(args, parsedFirstArg);
    var shown := GetPostsForUser(posts, follows, feeds, user.id, limit);
    lines := ShowPosts(shown);
  }

  const AggUsage := "Usage: agg <time_between_reqs>"

  /** The validation prefix of `handlerAgg`: a missing argument or an
      argument outside the duration pattern is refused. */
  function AggInterval(args: seq<string>): (r: Result<nat>)
    ensures |args| == 0 ==> r == Err(AggUsage)
    ensures r.Ok? <==> |args| > 0 && MatchesDurationPattern(args[0])
    ensures |args| > 0 && r.Err? ==> r.error == InvalidFormat(args[0])
  {
    if |args| < 1 then Err(AggUsage)
    else
      ParseDurationAcceptsExactly(args[0]);
      ParseDuration(args[0])
  }

  /** The start of the aggregation loop: the interval, the banner it logs,
      and the report of the tick it runs at once. */
  datatype AggStart = AggStart(intervalMs: nat, banner: string, firstTick: ScrapeReport)

  /** `handlerAgg` up to and including its immediate first tick: validation
      comes first, and a refused argument leaves both tables untouched; the
      first tick's rejection is caught and logged, never thrown. */
  method HandlerAgg(args: seq<string>, selected: Result<Option<Feed>>, table: FeedTable, store: PostStore, env: Env)
    returns (r: Result<AggStart>)
    requires store.Valid()
    modifies table, store
    ensures store.Valid()
    ensures AggInterval(args).Err? ==>
      r == Err(AggInterval(args).error) && table.feeds == old(table.feeds) && store.posts == old(store.posts)
    ensures AggInterval(args).Ok? ==>
      && r.Ok?
      && r.value.intervalMs == AggInterval(args).value
      && r.value.banner == "Collecting feeds every " + Render(DurationParts(r.value.intervalMs))
      && (table.feeds, store.posts, r.value.firstTick) == Tick(selected, old(table.feeds), old(store.posts), env)
  {
    if |args| < 1 {
      return Err(AggUsage);
    }
    var interval := ParseDuration(args[0]);
    if interval.Err? {
      return Err(interval.error);
    }
    var shown := FormatDuration(interval.value);
    var report := ScrapeFeeds(selected, table, store, env);
    r := Ok(AggStart(interval.value, "Collecting feeds every " + shown, report));
  }
}
