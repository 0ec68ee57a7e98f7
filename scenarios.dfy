/** Concrete timeline pages and the runs over them: the behaviour a user of the scraper sees
  * on small, fully written-out responses. */
module Scenarios {
  import opened Wrappers
  import opened Json
  import opened TweetRawParser
  import opened TweetsByUserTask
  import opened TweetsByUserContext
  import opened Collaborators
  import opened RunnerSpec
  import opened RunnerProperties

  /** A post object as the API nests it under `tweet_results.result`. */
  function PostJson(id: string): Json {
    JObj(map["rest_id" := JStr(id)])
  }

  /** The `itemContent` of an item that holds a post. */
  function PostItemContent(post: Json): Json {
    JObj(map["itemType" := TweetItemType, "tweet_results" := JObj(map["result" := post])])
  }

  function ItemEntryJson(post: Json): Json {
    JObj(map["content" := JObj(map["entryType" := ItemEntryType, "itemContent" := PostItemContent(post)])])
  }

  /** A grouped entry holding two posts. */
  function ModuleEntryJson(first: Json, second: Json): Json {
    var item := (post: Json) => JObj(map["item" := JObj(map["itemContent" := PostItemContent(post)])]);
    JObj(map["content" := JObj(map["entryType" := ModuleEntryType, "items" := JArr([item(first), item(second)])])])
  }

  function CursorEntryJson(kind: string, value: string): Json {
    JObj(map["content" := JObj(map["entryType" := CursorEntryType, "cursorType" := JStr(kind), "value" := JStr(value)])])
  }

  /** A response body whose only instruction adds `entries`. */
  function PageJson(entries: seq<Json>): Json {
    var timeline := JObj(map["instructions" := JArr([JObj(map["type" := AddEntriesType, "entries" := JArr(entries)])])]);
    JObj(map["data" := JObj(map["user" := JObj(map["result" := JObj(map["timeline_v2" := JObj(map["timeline" := timeline])])])])])
  }

  lemma ItemEntryParses(post: Json, now: int)
    ensures ParseEntry(ItemEntryJson(post), now) == Success(Some(TweetEntry(UserTweetRaw(post, now))))
  {
    assert Get(ItemEntryJson(post), "content").value.fields["entryType"] == ItemEntryType;
  }

  lemma CursorEntryParses(kind: string, value: string, now: int)
    ensures ParseEntry(CursorEntryJson(kind, value), now) == Success(Some(CursorEntry(Cursor(JStr(kind), JStr(value)))))
  {
    assert Get(CursorEntryJson(kind, value), "content").value.fields["entryType"] == CursorEntryType;
  }

  /** A grouped entry with two posts yields the first post only; the second is dropped. */
  lemma ModuleWithTwoPostsYieldsFirst(first: Json, second: Json, now: int)
    ensures ParseEntry(ModuleEntryJson(first, second), now) == Success(Some(TweetEntry(UserTweetRaw(first, now))))
  {
    var content := Get(ModuleEntryJson(first, second), "content").value;
    assert content.fields["entryType"] == ModuleEntryType;
    var items := content.fields["items"];
    assert First(items) == Success(JObj(map["item" := JObj(map["itemContent" := PostItemContent(first)])]));
  }

  /** A page is found, and its entries are parsed in order. */
  lemma PageParses(entries: seq<Json>, now: int)
    ensures ResponseWithNotFound(PageJson(entries)) == Success(false)
    ensures PageEntries(PageJson(entries)) == Success(entries)
  {
    var instruction := JObj(map["type" := AddEntriesType, "entries" := JArr(entries)]);
    assert Get(instruction, "type") == Success(AddEntriesType);
    assert [instruction][1..] == [];
    assert AddEntriesInstructions([]) == Success([]);
    assert [instruction] + [] == [instruction];
    assert AddEntriesInstructions([instruction]) == Success([instruction]);
  }

  /** One single-post entry per post, in order. */
  function PostEntries(posts: seq<Json>): seq<Json> {
    seq(|posts|, i requires 0 <= i < |posts| => ItemEntryJson(posts[i]))
  }

  /** The records the scraper makes of `posts` fetched at `now`. */
  function Records(posts: seq<Json>, now: int): seq<UserTweetRaw> {
    seq(|posts|, i requires 0 <= i < |posts| => UserTweetRaw(posts[i], now))
  }

  /** A page with a top cursor, the posts, and a bottom cursor, as the API sends it. */
  function PostsPage(top: string, posts: seq<Json>, bottom: string): Json {
    PageJson([CursorEntryJson("Top", top)] + PostEntries(posts) + [CursorEntryJson("Bottom", bottom)])
  }

  /** Dropping the `None`s of a list holding none leaves its values. */
  lemma {:induction false} PresentOfAllPresent(parsed: seq<Option<Entry>>, entries: seq<Entry>)
    requires |parsed| == |entries| && forall i :: 0 <= i < |parsed| ==> parsed[i] == Some(entries[i])
    ensures Present(parsed) == entries
  {
    if parsed != [] {
      PresentOfAllPresent(parsed[1..], entries[1..]);
    }
  }

  /** A page whose every entry yields something parses to exactly those things, in order. */
  lemma PageOfEntriesParses(entries: seq<Json>, parsed: seq<Entry>, now: int)
    requires |entries| == |parsed| && forall i :: 0 <= i < |entries| ==> ParseEntry(entries[i], now) == Success(Some(parsed[i]))
    ensures GetAllTweetsFromJson(PageJson(entries), now) == Success(parsed)
  {
    PageParses(entries, now);
    ParseEntriesPointwise(entries, now);
    PresentOfAllPresent(ParseEntries(entries, now).value, parsed);
  }

  /** The posts of a page of posts only are its records, and it has no cursor. */
  lemma {:induction false} PostsOnly(posts: seq<Json>, now: int)
    ensures var entries := seq(|posts|, i requires 0 <= i < |posts| => TweetEntry(UserTweetRaw(posts[i], now)));
            Tweets(entries) == Records(posts, now) && Cursors(entries) == []
  {
    if posts != [] {
      PostsOnly(posts[1..], now);
      var entries := seq(|posts|, i requires 0 <= i < |posts| => TweetEntry(UserTweetRaw(posts[i], now)));
      var rest := seq(|posts| - 1, i requires 0 <= i < |posts| - 1 => TweetEntry(UserTweetRaw(posts[1..][i], now)));
      assert entries[1..] == rest;
      assert Records(posts, now) == [UserTweetRaw(posts[0], now)] + Records(posts[1..], now);
    }
  }

  /** What a page of posts between a top and a bottom cursor parses to. */
  function PostsPageEntries(top: string, posts: seq<Json>, bottom: string, now: int): seq<Entry> {
    [CursorEntry(Cursor(JStr("Top"), JStr(top)))] +
    seq(|posts|, i requires 0 <= i < |posts| => TweetEntry(UserTweetRaw(posts[i], now))) +
    [CursorEntry(Cursor(JStr("Bottom"), JStr(bottom)))]
  }

  lemma PostsPageParses(top: string, posts: seq<Json>, bottom: string, now: int)
    ensures GetAllTweetsFromJson(PostsPage(top, posts, bottom), now) == Success(PostsPageEntries(top, posts, bottom, now))
    ensures ResponseWithNotFound(PostsPage(top, posts, bottom)) == Success(false)
  {
    var entries := [CursorEntryJson("Top", top)] + PostEntries(posts) + [CursorEntryJson("Bottom", bottom)];
    var parsed := PostsPageEntries(top, posts, bottom, now);
    forall i | 0 <= i < |entries| ensures ParseEntry(entries[i], now) == Success(Some(parsed[i])) {
      if i == 0 {
        CursorEntryParses("Top", top, now);
      } else if i == |entries| - 1 {
        CursorEntryParses("Bottom", bottom, now);
      } else {
        ItemEntryParses(posts[i - 1], now);
      }
    }
    PageOfEntriesParses(entries, parsed, now);
    PageParses(entries, now);
  }

  /** Such a page holds the posts' records, and the run goes on from its bottom cursor. */
  lemma PostsPageContent(top: string, posts: seq<Json>, bottom: string, now: int)
    ensures Tweets(PostsPageEntries(top, posts, bottom, now)) == Records(posts, now)
    ensures NextCursor(PostsPageEntries(top, posts, bottom, now)) == Some(Cursor(JStr("Bottom"), JStr(bottom)))
  {
    var topCursor := Cursor(JStr("Top"), JStr(top));
    var bottomCursor := Cursor(JStr("Bottom"), JStr(bottom));
    var middle := seq(|posts|, i requires 0 <= i < |posts| => TweetEntry(UserTweetRaw(posts[i], now)));
    PostsOnly(posts, now);
    TweetsDistribute([CursorEntry(topCursor)] + middle, [CursorEntry(bottomCursor)]);
    TweetsDistribute([CursorEntry(topCursor)], middle);
    SecondCursorIsKept([], topCursor, middle, bottomCursor, []);
    assert [] + [CursorEntry(topCursor)] + middle + [CursorEntry(bottomCursor)] + [] ==
           PostsPageEntries(top, posts, bottom, now);
  }

  /** One step over such a page: the filter sees the page's records, the cursor moves to the
    * bottom cursor, and the kept records are counted and exported. */
  lemma StepOverPostsPage(task: Task, s: ContextState, top: string, posts: seq<Json>, bottom: string, now: int)
    requires Filter(task, s.allDownloadTweetsCount, Records(posts, now)).Success?
    ensures var cut := Filter(task, s.allDownloadTweetsCount, Records(posts, now)).value;
            Step(task, s, Response(true, PostsPage(top, posts, bottom)), now) ==
              Advanced(ContextState(Some(Cursor(JStr("Bottom"), JStr(bottom))), s.stop || cut.stops,
                                    s.requestsCount + 1, s.allDownloadTweetsCount + |cut.kept|),
                       Some(cut.kept))
  {
    PostsPageParses(top, posts, bottom, now);
    PostsPageContent(top, posts, bottom, now);
    NormalPageAdvances(task, s, Response(true, PostsPage(top, posts, bottom)), now);
  }

  /** With a limit of 5, a first page of 3 posts and a second of 4: two requests, the second
    * from the first page's bottom cursor; 3 records exported and then the first 2 of the
    * second page; the run finishes with 5. */
  lemma LimitOfFiveOverTwoPages(top1: string, posts1: seq<Json>, bottom1: string,
                                top2: string, posts2: seq<Json>, bottom2: string, now: int)
    requires |posts1| == 3 && |posts2| == 4
    ensures var task := Task("42", tweetsLimit := Some(5));
            var script := [Response(true, PostsPage(top1, posts1, bottom1)), Response(true, PostsPage(top2, posts2, bottom2))];
            RunSpec(task, FreshState, script, now) ==
              Trace(Finished(5),
                    ContextState(Some(Cursor(JStr("Bottom"), JStr(bottom2))), true, 2, 5),
                    [Request("42", None), Request("42", Some(Cursor(JStr("Bottom"), JStr(bottom1))))],
                    [Records(posts1, now), Records(posts2, now)[..2]])
  {
    var task := Task("42", tweetsLimit := Some(5));
    var r1 := Response(true, PostsPage(top1, posts1, bottom1));
    var r2 := Response(true, PostsPage(top2, posts2, bottom2));
    var script := [r1, r2];
    var s1 := ContextState(Some(Cursor(JStr("Bottom"), JStr(bottom1))), false, 1, 3);
    var s2 := ContextState(Some(Cursor(JStr("Bottom"), JStr(bottom2))), true, 2, 5);
    LimitModeCutsAtLimit(task, 0, Records(posts1, now));
    StepOverPostsPage(task, FreshState, top1, posts1, bottom1, now);
    LimitModeCutsAtLimit(task, 3, Records(posts2, now));
    StepOverPostsPage(task, s1, top2, posts2, bottom2, now);
    assert script[1..] == [r2] && [r2][1..] == [];
    RunSpecStepAdvances(task, s1, [r2], now, s2, Some(Records(posts2, now)[..2]));
    RunSpecStepAdvances(task, FreshState, script, now, s1, Some(Records(posts1, now)));
  }
}
