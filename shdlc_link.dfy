/** The SHDLC link beneath the SCC1 command layer.  The real link is a
    foreign library (framing, CRC, serial I/O); here it is a scripted
    transport: it answers each request with the next scripted reply and
    records every request it receives, so that "which exchanges were made"
    is a statement about `log`. */
module ShdlcLink {
  import opened Scc1Types

  /** The reply the link gives when its script is `script`. */
  function NextReply(script: seq<Option<Bytes>>): Option<Bytes>
  {
    if script == [] then None else script[0]
  }

  /** The script left after one exchange. */
  function RestOf(script: seq<Option<Bytes>>): (rest: seq<Option<Bytes>>)
    ensures script != [] ==> |rest| == |script| - 1 && script == [script[0]] + rest
    ensures script == [] ==> rest == []
  {
    if script == [] then [] else script[1..]
  }

  class ScriptedLink {
    /** Every request handed to the link, oldest first. */
    var log: seq<Request>
    /** The replies still to be given, in order; `None` is "no data". */
    var script: seq<Option<Bytes>>

    constructor (replies: seq<Option<Bytes>>)
      ensures log == [] && script == replies
    {
      log := [];
      script := replies;
    }

    /** The reply the next exchange will give. */
    function Peek(): Option<Bytes>
      reads this
    {
      NextReply(script)
    }

    /** One request/response exchange (the library's `execute`). */
    method Execute(request: Request) returns (reply: Option<Bytes>)
      modifies this
      ensures log == old(log) + [request]
      ensures reply == NextReply(old(script)) && script == RestOf(old(script))
    {
      reply := NextReply(script);
      script := RestOf(script);
      log := log + [request];
    }
  }
}
