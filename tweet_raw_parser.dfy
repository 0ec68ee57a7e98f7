/** Decoding one timeline page into cursors and raw posts
  * (stweet/tweets_by_user_runner/tweet_raw_parser.py). */
module TweetRawParser {
  import opened Wrappers
  import opened Json

  /** A pagination token of a page. Its two parts are taken from the entry as they are,
    * whatever JSON they hold. */
  datatype Cursor = Cursor(cursorType: Json, value: Json)

  /** One post: the `tweet_results.result` object it was decoded from (kept as a tree where
    * the program keeps its `json.dumps` text) and the local time it was fetched at. */
  datatype UserTweetRaw = UserTweetRaw(rawValue: Json, downloadedAt: int)

  /** What one timeline entry contributes to a page. */
  datatype Entry = CursorEntry(cursor: Cursor) | TweetEntry(tweet: UserTweetRaw)

  const CursorEntryType := JStr("TimelineTimelineCursor")
  const ItemEntryType := JStr("TimelineTimelineItem")
  const ModuleEntryType := JStr("TimelineTimelineModule")
  const TweetItemType := JStr("TimelineTweet")
  const AddEntriesType := JStr("TimelineAddEntries")

  /** The post an `itemContent` object carries, if its `itemType` says it is a post. */
  function TweetOfItemContent(itemContent: Json, now: int): Result<Option<Entry>, JsonError> {
    var itemType :- Get(itemContent, "itemType");
    if itemType == TweetItemType then
      var tweetResults :- Get(itemContent, "tweet_results");
      var result :- Get(tweetResults, "result");
      Success(Some(TweetEntry(UserTweetRaw(result, now))))
    else
      Success(None)
  }

  /** Classifies the `content` object of one timeline entry by its `entryType`. A cursor entry
    * gives its cursor, a single item gives its post, a module gives the post of its first item
    * only, and anything else gives nothing. A missing key or an empty module fails. */
  function ParseTweetsEntryContent(content: Json, now: int): Result<Option<Entry>, JsonError> {
    var entryType :- Get(content, "entryType");
    if entryType == CursorEntryType then
      var cursorType :- Get(content, "cursorType");
      var value :- Get(content, "value");
      Success(Some(CursorEntry(Cursor(cursorType, value))))
    else if entryType == ItemEntryType then
      var itemContent :- Get(content, "itemContent");
      TweetOfItemContent(itemContent, now)
    else if entryType == ModuleEntryType then
      var items :- Get(content, "items");
      var first :- First(items);
      var item :- Get(first, "item");
      var itemContent :- Get(item, "itemContent");
      TweetOfItemContent(itemContent, now)
    else
      Success(None)
  }

  /** `_parse_tweets_entry_content(it['content'])` for one element of the entry list. */
  function ParseEntry(entry: Json, now: int): Result<Option<Entry>, JsonError> {
    var content :- Get(entry, "content");
    ParseTweetsEntryContent(content, now)
  }

  /** The entry list comprehension of `get_all_tweets_from_json`: each entry is classified in
    * order, and the first entry that fails makes the whole page fail. */
  function ParseEntries(entries: seq<Json>, now: int): Result<seq<Option<Entry>>, JsonError> {
    if entries == [] then
      Success([])
    else
      var head :- ParseEntry(entries[0], now);
      var tail :- ParseEntries(entries[1..], now);
      Success([head] + tail)
  }

  /** The entries that are not `None`, in their order. */
  function Present(parsed: seq<Option<Entry>>): seq<Entry> {
    if parsed == [] then []
    else if parsed[0].Some? then [parsed[0].value] + Present(parsed[1..])
    else Present(parsed[1..])
  }

  /** `it['type'] == 'TimelineAddEntries'` for one instruction, when the subscript succeeds. */
  predicate IsAddEntries(instruction: Json) {
    Get(instruction, "type") == Success(AddEntriesType)
  }

  /** The instructions whose `type` is `TimelineAddEntries`, in order. Python evaluates the
    * condition on every instruction, so one without a `type` fails the whole page. */
  function AddEntriesInstructions(instructions: seq<Json>): Result<seq<Json>, JsonError> {
    if instructions == [] then
      Success([])
    else
      var kind :- Get(instructions[0], "type");
      var rest :- AddEntriesInstructions(instructions[1..]);
      if kind == AddEntriesType then Success([instructions[0]] + rest) else Success(rest)
  }

  /** `data.user.result.timeline_v2.timeline.instructions` of a response body. */
  function Instructions(body: Json): Result<Json, JsonError> {
    var data :- Get(body, "data");
    var user :- Get(data, "user");
    var result :- Get(user, "result");
    var timelineV2 :- Get(result, "timeline_v2");
    var timeline :- Get(timelineV2, "timeline");
    Get(timeline, "instructions")
  }

  /** The `entries` of the first `TimelineAddEntries` instruction; with no such instruction the
    * `[0]` of the program raises IndexError. */
  function PageEntries(body: Json): Result<seq<Json>, JsonError> {
    var instructionsValue :- Instructions(body);
    var instructions :- Items(instructionsValue);
    var adds :- AddEntriesInstructions(instructions);
    if adds == [] then Failure(IndexError)
    else
      var entries :- Get(adds[0], "entries");
      Items(entries)
  }

  /** All cursors and posts of one page, in entry order. */
  function GetAllTweetsFromJson(body: Json, now: int): Result<seq<Entry>, JsonError> {
    var entries :- PageEntries(body);
    var parsed :- ParseEntries(entries, now);
    Success(Present(parsed))
  }

  // ---------------------------------------------------------------------------------------
  // Properties of the entry classification

  /** A cursor entry yields the cursor made of its `cursorType` and `value`, whatever they hold;
    * without either key the entry fails with the KeyError of the first key missing. */
  lemma CursorEntryYieldsCursor(content: Json, now: int)
    requires Get(content, "entryType") == Success(CursorEntryType)
    ensures "cursorType" in content.fields && "value" in content.fields ==>
              ParseTweetsEntryContent(content, now) ==
              Success(Some(CursorEntry(Cursor(content.fields["cursorType"], content.fields["value"]))))
    ensures "cursorType" !in content.fields ==>
              ParseTweetsEntryContent(content, now) == Failure(KeyError(JStr("cursorType")))
    ensures "cursorType" in content.fields && "value" !in content.fields ==>
              ParseTweetsEntryContent(content, now) == Failure(KeyError(JStr("value")))
  {
  }

  /** A single-item entry yields a post, stamped `now`, exactly when its `itemType` is
    * `TimelineTweet`; any other item type yields nothing. */
  lemma ItemEntryYieldsTweet(content: Json, now: int)
    requires Get(content, "entryType") == Success(ItemEntryType)
    requires Get(content, "itemContent").Success?
    ensures var itemContent := content.fields["itemContent"];
            ParseTweetsEntryContent(content, now) == TweetOfItemContent(itemContent, now) &&
            (Get(itemContent, "itemType").Success? && itemContent.fields["itemType"] != TweetItemType ==>
               ParseTweetsEntryContent(content, now) == Success(None)) &&
            (Get(itemContent, "itemType") == Success(TweetItemType) &&
             Get(itemContent, "tweet_results").Success? &&
             Get(itemContent.fields["tweet_results"], "result").Success? ==>
               ParseTweetsEntryContent(content, now) ==
               Success(Some(TweetEntry(UserTweetRaw(itemContent.fields["tweet_results"].fields["result"], now)))))
  {
  }

  /** Only the first item of a module entry is inspected: replacing every later item, by
    * anything at all, does not change what the entry yields. */
  lemma ModuleEntryReadsFirstItemOnly(content: Json, first: Json, rest: seq<Json>, otherRest: seq<Json>, now: int)
    requires Get(content, "entryType") == Success(ModuleEntryType)
    requires Get(content, "items") == Success(JArr([first] + rest))
    ensures var changed := JObj(content.fields["items" := JArr([first] + otherRest)]);
            ParseTweetsEntryContent(content, now) == ParseTweetsEntryContent(changed, now)
  {
    var changed := JObj(content.fields["items" := JArr([first] + otherRest)]);
    assert Get(changed, "entryType") == Success(ModuleEntryType);
  }

  /** A module entry with an empty item list fails with IndexError rather than yielding
    * nothing. */
  lemma EmptyModuleEntryFails(content: Json, now: int)
    requires Get(content, "entryType") == Success(ModuleEntryType)
    requires Get(content, "items") == Success(JArr([]))
    ensures ParseTweetsEntryContent(content, now) == Failure(IndexError)
  {
  }

  /** An entry of any other type yields nothing, and an entry without `entryType` fails. */
  lemma OtherEntryYieldsNothing(content: Json, now: int)
    ensures Get(content, "entryType").Success? &&
            content.fields["entryType"] !in {CursorEntryType, ItemEntryType, ModuleEntryType} ==>
              ParseTweetsEntryContent(content, now) == Success(None)
    ensures Get(content, "entryType").Failure? ==>
              ParseTweetsEntryContent(content, now) == Failure(Get(content, "entryType").error)
  {
  }

  /** The entry list parses exactly when every entry does, and then gives one result per entry,
    * in entry order. */
  lemma {:induction false} ParseEntriesPointwise(entries: seq<Json>, now: int)
    ensures ParseEntries(entries, now).Success? <==>
              forall i :: 0 <= i < |entries| ==> ParseEntry(entries[i], now).Success?
    ensures ParseEntries(entries, now).Success? ==>
              |ParseEntries(entries, now).value| == |entries| &&
              forall i :: 0 <= i < |entries| ==> ParseEntry(entries[i], now) == Success(ParseEntries(entries, now).value[i])
  {
    if entries != [] {
      ParseEntriesPointwise(entries[1..], now);
      assert forall i :: 1 <= i < |entries| ==> entries[i] == entries[1..][i - 1];
    }
  }

  /** Dropping the `None` results keeps the others in order: it distributes over
    * concatenation and never lengthens the list. */
  lemma {:induction false} PresentKeepsOrder(xs: seq<Option<Entry>>, ys: seq<Option<Entry>>)
    ensures Present(xs + ys) == Present(xs) + Present(ys)
    ensures |Present(xs)| <= |xs|
    ensures forall e :: e in Present(xs) <==> Some(e) in xs
  {
    if xs == [] {
      assert xs + ys == ys;
    } else {
      PresentKeepsOrder(xs[1..], ys);
      assert (xs + ys)[0] == xs[0];
      assert (xs + ys)[1..] == xs[1..] + ys;
      assert xs == [xs[0]] + xs[1..];
    }
  }

  /** The selected instructions are those of type `TimelineAddEntries`; a missing `type` on any
    * instruction fails; and the first one selected is the first such instruction. */
  lemma {:induction false} AddEntriesSelectsFirst(instructions: seq<Json>)
    ensures AddEntriesInstructions(instructions).Success? <==>
              forall i :: 0 <= i < |instructions| ==> Get(instructions[i], "type").Success?
    ensures AddEntriesInstructions(instructions) == Success([]) ==>
              forall i :: 0 <= i < |instructions| ==> !IsAddEntries(instructions[i])
    ensures AddEntriesInstructions(instructions).Success? ==>
              forall x :: x in AddEntriesInstructions(instructions).value ==> x in instructions && IsAddEntries(x)
    ensures AddEntriesInstructions(instructions).Success? &&
            (forall i :: 0 <= i < |instructions| ==> !IsAddEntries(instructions[i])) ==>
              AddEntriesInstructions(instructions).value == []
    ensures forall k :: 0 <= k < |instructions| && IsAddEntries(instructions[k]) &&
                        (forall i :: 0 <= i < |instructions| ==> Get(instructions[i], "type").Success?) &&
                        (forall j :: 0 <= j < k ==> !IsAddEntries(instructions[j])) ==>
              AddEntriesInstructions(instructions).Success? &&
              AddEntriesInstructions(instructions).value != [] &&
              AddEntriesInstructions(instructions).value[0] == instructions[k]
  {
    if instructions != [] {
      AddEntriesSelectsFirst(instructions[1..]);
      assert forall i :: 1 <= i < |instructions| ==> instructions[i] == instructions[1..][i - 1];
      forall k | 0 <= k < |instructions| && IsAddEntries(instructions[k]) &&
                 (forall i :: 0 <= i < |instructions| ==> Get(instructions[i], "type").Success?) &&
                 (forall j :: 0 <= j < k ==> !IsAddEntries(instructions[j]))
        ensures AddEntriesInstructions(instructions).Success? &&
                AddEntriesInstructions(instructions).value != [] &&
                AddEntriesInstructions(instructions).value[0] == instructions[k]
      {
        if k > 0 {
          assert instructions[1..][k - 1] == instructions[k];
          assert forall j :: 0 <= j < k - 1 ==> instructions[1..][j] == instructions[j + 1];
        }
      }
    }
  }

  /** A page without a `TimelineAddEntries` instruction is an IndexError, not an empty page. */
  lemma NoAddEntriesIsIndexError(body: Json, instructions: seq<Json>, now: int)
    requires Instructions(body) == Success(JArr(instructions))
    requires forall i :: 0 <= i < |instructions| ==>
               Get(instructions[i], "type").Success? && !IsAddEntries(instructions[i])
    ensures GetAllTweetsFromJson(body, now) == Failure(IndexError)
  {
    AddEntriesSelectsFirst(instructions);
    assert Items(JArr(instructions)) == Success(instructions);
    assert PageEntries(body) == Failure(IndexError);
  }

  /** The entries read are those of the first `TimelineAddEntries` instruction. */
  lemma FirstAddEntriesIsRead(body: Json, instructions: seq<Json>, k: nat)
    requires Instructions(body) == Success(JArr(instructions))
    requires forall i :: 0 <= i < |instructions| ==> Get(instructions[i], "type").Success?
    requires k < |instructions| && IsAddEntries(instructions[k])
    requires forall j :: 0 <= j < k ==> !IsAddEntries(instructions[j])
    ensures PageEntries(body) ==
              match Get(instructions[k], "entries")
              case Failure(e) => Failure(e)
              case Success(entries) => Items(entries)
  {
    AddEntriesSelectsFirst(instructions);
  }

  /** A missing key or a non-object anywhere on the path to the instructions fails the page
    * with that error; it is never read as an empty page. */
  lemma MissingPathFails(body: Json, now: int)
    requires Instructions(body).Failure?
    ensures GetAllTweetsFromJson(body, now) == Failure(Instructions(body).error)
  {
  }

  /** A parsed page holds, in entry order, what each entry yields, the "nothing" results
    * dropped; so it has at most as many elements as the page has entries. */
  lemma PageKeepsEntryOrder(body: Json, now: int)
    requires GetAllTweetsFromJson(body, now).Success?
    ensures PageEntries(body).Success?
    ensures var entries := PageEntries(body).value;
            ParseEntries(entries, now).Success? &&
            |ParseEntries(entries, now).value| == |entries| &&
            GetAllTweetsFromJson(body, now).value == Present(ParseEntries(entries, now).value) &&
            |GetAllTweetsFromJson(body, now).value| <= |entries| &&
            forall i :: 0 <= i < |entries| ==> ParseEntry(entries[i], now) == Success(ParseEntries(entries, now).value[i])
  {
    var entries := PageEntries(body).value;
    ParseEntriesPointwise(entries, now);
    PresentKeepsOrder(ParseEntries(entries, now).value, []);
  }
}
