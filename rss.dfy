/** The part of `fetchFeed` that runs after the XML parser (src/rss.ts:31-81):
    it checks for an RSS channel with its required metadata and turns the
    channel's `item` property into an ordered list of complete items. */
module Rss {
  import opened Wrappers

  /** A value of the XML parser's output tree: element text, text the parser
      read as a number, an element with children (keyed by tag name), or the
      array it builds for a repeated tag. */
  datatype Node = Text(text: string) | Num(number: int) | Obj(fields: map<string, Node>) | Arr(elements: seq<Node>)

  /** JavaScript truthiness of a property read, `None` being `undefined`. */
  predicate Truthy(v: Option<Node>) {
    match v
    case None => false
    case Some(Text(s)) => s != ""
    case Some(Num(n)) => n != 0
    case Some(_) => true
  }

  /** The property read `n.key`: only an element with children has named
      properties; on text, numbers and arrays it is `undefined`. */
  function Get(n: Node, key: string): Option<Node> {
    match n
    case Obj(fields) => if key in fields then Some(fields[key]) else None
    case _ => None
  }

  datatype RssItem = RssItem(title: Node, link: Node, description: Node, pubDate: Node)

  datatype Channel = Channel(title: Node, link: Node, description: Node, items: seq<RssItem>)

  datatype RssFeed = RssFeed(channel: Channel)

  const InvalidFeed := "Invalid RSS feed"
  const MissingMetadata := "Missing channel metadata"

  /** An item is kept only when its title, link, description and pubDate are
      all truthy: stricter than RSS 2.0, where an item needs only a title or a
      description. */
  predicate Complete(n: Node) {
    Truthy(Get(n, "title")) && Truthy(Get(n, "link"))
    && Truthy(Get(n, "description")) && Truthy(Get(n, "pubDate"))
  }

  /** The four fields of a complete item, copied as they are. */
  function ItemFields(n: Node): RssItem
    requires Complete(n)
  {
    RssItem(Get(n, "title").value, Get(n, "link").value,
            Get(n, "description").value, Get(n, "pubDate").value)
  }

  /** The `map` to item-or-null followed by the `filter` of the nulls. */
  function KeepComplete(ns: seq<Node>): (r: seq<RssItem>)
    ensures |r| <= |ns|
  {
    if ns == [] then []
    else (if Complete(ns[0]) then [ItemFields(ns[0])] else []) + KeepComplete(ns[1..])
  }

  /** The parse result has an `rss` root with a `channel`, both truthy. */
  predicate HasChannel(parsed: Node) {
    Truthy(Get(parsed, "rss")) && Truthy(Get(Get(parsed, "rss").value, "channel"))
  }

  function ChannelOf(parsed: Node): Node
    requires HasChannel(parsed)
  {
    Get(Get(parsed, "rss").value, "channel").value
  }

  /** The required channel elements of section "Required channel elements"
      of RSS 2.0: title, link and description, each truthy. */
  predicate HasMetadata(channel: Node) {
    Truthy(Get(channel, "title")) && Truthy(Get(channel, "link")) && Truthy(Get(channel, "description"))
  }

  /** `fetchFeed` after parsing: validation, then item normalisation. */
  function NormaliseFeed(parsed: Node): (r: Result<RssFeed>)
    ensures r == Err(InvalidFeed) <==> !HasChannel(parsed)
    ensures r == Err(MissingMetadata) <==> HasChannel(parsed) && !HasMetadata(ChannelOf(parsed))
    ensures r.Ok? <==> HasChannel(parsed) && HasMetadata(ChannelOf(parsed))
    ensures r.Ok? ==> var c := ChannelOf(parsed);
      && Some(r.value.channel.title) == Get(c, "title")
      && Some(r.value.channel.link) == Get(c, "link")
      && Some(r.value.channel.description) == Get(c, "description")
  {
    if !HasChannel(parsed) then Err(InvalidFeed)
    else
      var channel := ChannelOf(parsed);
      if !HasMetadata(channel) then Err(MissingMetadata)
      else
        var raw := Get(channel, "item");
        var items :=
          if !Truthy(raw) then []
          else match raw.value
            case Arr(elements) => KeepComplete(elements)
            case single => if Complete(single) then [ItemFields(single)] else [];
        Ok(RssFeed(Channel(Get(channel, "title").value, Get(channel, "link").value,
                           Get(channel, "description").value, items)))
  }

  /** Each position moved one place to the right. */
  function Shift(s: seq<nat>): (r: seq<nat>)
    ensures |r| == |s| && forall j :: 0 <= j < |s| ==> r[j] == s[j] + 1
  {
    if s == [] then [] else [s[0] + 1] + Shift(s[1..])
  }

  /** The positions of the complete items, in increasing order. */
  function CompleteIndices(ns: seq<Node>): (idx: seq<nat>)
    ensures forall j :: 0 <= j < |idx| ==> idx[j] < |ns| && Complete(ns[idx[j]])
  {
    if ns == [] then []
    else (if Complete(ns[0]) then [0] else []) + Shift(CompleteIndices(ns[1..]))
  }

  predicate Increasing(s: seq<nat>) {
    forall j, k :: 0 <= j < k < |s| ==> s[j] < s[k]
  }

  /** Shifting increasing positions one place right, after an optional
      position 0, keeps them increasing. */
  lemma ShiftIncreasing(head: bool, rest: seq<nat>)
    requires Increasing(rest)
    ensures Increasing((if head then [0] else []) + Shift(rest))
  {
    var h := if head then 1 else 0;
    var idx := (if head then [0] else []) + Shift(rest);
    forall j, k | 0 <= j < k < |idx| ensures idx[j] < idx[k] {
      assert idx[k] == rest[k - h] + 1;
      if j >= h {
        assert idx[j] == rest[j - h] + 1;
      }
    }
  }

  /** The complete items' positions are strictly increasing. */
  lemma {:induction false} CompleteIndicesIncreasing(ns: seq<Node>)
    ensures Increasing(CompleteIndices(ns))
  {
    if ns != [] {
      CompleteIndicesIncreasing(ns[1..]);
      ShiftIncreasing(Complete(ns[0]), CompleteIndices(ns[1..]));
    }
  }

  /** A position found in `rest` is found one place further right after the
      shift. */
  lemma ShiftContains(head: bool, rest: seq<nat>, i: nat)
    requires i > 0 && i - 1 in rest
    ensures i in (if head then [0] else []) + Shift(rest)
  {
    var j :| 0 <= j < |rest| && rest[j] == i - 1;
    var idx := (if head then [0] else []) + Shift(rest);
    assert idx[|idx| - |rest| + j] == i;
  }

  /** No complete item's position is missed. */
  lemma {:induction false} CompleteIndicesExact(ns: seq<Node>)
    ensures forall i :: 0 <= i < |ns| && Complete(ns[i]) ==> i in CompleteIndices(ns)
  {
    if ns != [] {
      CompleteIndicesExact(ns[1..]);
      forall i | 0 < i < |ns| && Complete(ns[i]) ensures i in CompleteIndices(ns) {
        assert ns[1..][i - 1] == ns[i];
        ShiftContains(Complete(ns[0]), CompleteIndices(ns[1..]), i);
      }
    }
  }

  /** The kept items are exactly the complete ones, copied field for field,
      in their original order: `KeepComplete(ns)[j]` is the copy of the j-th
      complete element. */
  lemma {:induction false} KeepCompleteSelects(ns: seq<Node>)
    ensures var out, idx := KeepComplete(ns), CompleteIndices(ns);
      |out| == |idx| && forall j :: 0 <= j < |out| ==> out[j] == ItemFields(ns[idx[j]])
  {
    if ns != [] {
      KeepCompleteSelects(ns[1..]);
      var rest := CompleteIndices(ns[1..]);
      forall j | 0 <= j < |rest| ensures ns[1..][rest[j]] == ns[rest[j] + 1] {
      }
    }
  }

  /** When every item is complete, all N of them come out, in order. */
  lemma {:induction false} KeepCompleteAllComplete(ns: seq<Node>)
    requires forall i :: 0 <= i < |ns| ==> Complete(ns[i])
    ensures |KeepComplete(ns)| == |ns|
    ensures forall i :: 0 <= i < |ns| ==> KeepComplete(ns)[i] == ItemFields(ns[i])
  {
    if ns != [] {
      KeepCompleteAllComplete(ns[1..]);
      assert forall i :: 1 <= i < |ns| ==> ns[1..][i - 1] == ns[i];
    }
  }

  /** An accepted feed without an `item` property has no items. */
  lemma NoItemsStillValid(parsed: Node)
    requires HasChannel(parsed) && HasMetadata(ChannelOf(parsed))
    requires Get(ChannelOf(parsed), "item") == None
    ensures NormaliseFeed(parsed).Ok? && NormaliseFeed(parsed).value.channel.items == []
  {
  }

  /** An array of items becomes the complete ones, in order. */
  lemma ArrayOfItems(parsed: Node, elements: seq<Node>)
    requires HasChannel(parsed) && HasMetadata(ChannelOf(parsed))
    requires Get(ChannelOf(parsed), "item") == Some(Arr(elements))
    ensures NormaliseFeed(parsed).Ok?
    ensures var items, idx := NormaliseFeed(parsed).value.channel.items, CompleteIndices(elements);
      && |items| <= |elements|
      && |items| == |idx|
      && (forall j :: 0 <= j < |items| ==> items[j] == ItemFields(elements[idx[j]]))
  {
    KeepCompleteSelects(elements);
  }

  /** A single item (not an array) gives a one-element list when it is
      complete and an empty list otherwise. */
  lemma SingleItem(parsed: Node, item: Node)
    requires HasChannel(parsed) && HasMetadata(ChannelOf(parsed))
    requires Get(ChannelOf(parsed), "item") == Some(item) && !item.Arr?
    ensures NormaliseFeed(parsed).Ok?
    ensures Complete(item) ==> NormaliseFeed(parsed).value.channel.items == [ItemFields(item)]
    ensures !Complete(item) ==> NormaliseFeed(parsed).value.channel.items == []
  {
  }
}
