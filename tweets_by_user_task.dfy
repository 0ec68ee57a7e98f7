/** The immutable description of one scraping job
  * (stweet/tweets_by_user_runner/tweets_by_user_task.py). */
module TweetsByUserTask {
  import opened Wrappers

  /** Whose posts to fetch, and when to stop: at the first post created at or before `until`
    * when it is given, otherwise after `tweetsLimit` posts. Instants are integers. Being a
    * datatype value, a task cannot change once built. */
  datatype Task = Task(userId: string, until: Option<int> := None, tweetsLimit: Option<int> := Some(80))
  {
    /** The program tests `until` for truth; an instant is always true, so a given `until`
      * selects the until mode and the limit is then never read. */
    predicate UntilMode() {
      until.Some?
    }
  }

  /** The defaults of the constructor: no `until` and a limit of 80; whatever is given is
    * stored unchanged. */
  lemma TaskDefaults(userId: string, until: int, tweetsLimit: int)
    ensures Task(userId).until == None && Task(userId).tweetsLimit == Some(80)
    ensures !Task(userId).UntilMode() && Task(userId, Some(until)).UntilMode()
    ensures var t := Task(userId, Some(until), Some(tweetsLimit));
            t.userId == userId && t.until == Some(until) && t.tweetsLimit == Some(tweetsLimit)
  {
  }
}
