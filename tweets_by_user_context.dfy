/** The mutable state of one run. stweet/tweets_by_user_runner/tweets_by_user_context.py is not
  * part of this model; its fields and its one method are as the runner uses them
  * (stweet/tweets_by_user_runner/tweets_by_user_runner.py:50-56,68-69,75-76,84-96). */
module TweetsByUserContext {
  import opened Wrappers
  import opened TweetRawParser

  /** A snapshot of the context's four fields. */
  datatype ContextState = ContextState(
    cursor: Option<Cursor>,
    stop: bool,
    requestsCount: nat,
    allDownloadTweetsCount: nat)

  /** The state of a context made with no arguments. */
  const FreshState := ContextState(None, false, 0, 0)

  class Context {
    var cursor: Option<Cursor>
    var stop: bool
    var requestsCount: nat
    var allDownloadTweetsCount: nat

    function State(): ContextState
      reads this
    {
      ContextState(cursor, stop, requestsCount, allDownloadTweetsCount)
    }

    /** A fresh context: no cursor yet, not stopped, nothing requested or downloaded. */
    constructor ()
      ensures State() == FreshState
    {
      cursor := None;
      stop := false;
      requestsCount := 0;
      allDownloadTweetsCount := 0;
    }

    /** Records one more request that brought `count` posts. */
    method AddDownloadedTweetsCountInRequest(count: nat)
      modifies this
      ensures State() == old(State()).(requestsCount := old(requestsCount) + 1,
                                       allDownloadTweetsCount := old(allDownloadTweetsCount) + count)
    {
      requestsCount := requestsCount + 1;
      allDownloadTweetsCount := allDownloadTweetsCount + count;
    }
  }
}
