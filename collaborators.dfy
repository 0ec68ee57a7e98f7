/** The runner's external collaborators, reduced to what the runner observes of them: a web
  * client that answers each request from a script of responses, and output sinks that log
  * every batch they are given. */
module Collaborators {
  import opened Wrappers
  import opened Json
  import opened TweetRawParser

  /** A response: whether it succeeded, and its body as decoded JSON. */
  datatype Response = Response(success: bool, body: Json)

  /** What a request for the next page is built from: the user and the cursor to continue at. */
  datatype Request = Request(userId: string, cursor: Option<Cursor>)

  class WebClient {
    /** The responses still to be served, in order. */
    var script: seq<Response>
    /** Every request sent so far, in order. */
    var requests: seq<Request>

    constructor (script: seq<Response>)
      ensures this.script == script && requests == []
    {
      this.script := script;
      requests := [];
    }

    /** Sends `request` and returns the next scripted response. */
    method RunRequest(request: Request) returns (response: Response)
      requires script != []
      modifies this
      ensures response == old(script[0])
      ensures script == old(script[1..]) && requests == old(requests) + [request]
    {
      response := script[0];
      script := script[1..];
      requests := requests + [request];
    }
  }

  class RawDataOutput {
    /** Every batch exported to this sink, in order. */
    var exported: seq<seq<UserTweetRaw>>

    constructor ()
      ensures exported == []
    {
      exported := [];
    }

    method ExportRawData(batch: seq<UserTweetRaw>)
      modifies this
      ensures exported == old(exported) + [batch]
    {
      exported := exported + [batch];
    }
  }
}
