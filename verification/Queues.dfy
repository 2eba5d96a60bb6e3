/** The mutex-protected queue pair of one reactor (src/shard/cross_reactor_queue.hpp).  Each operation holds
    one lock, so each is one step of the system. */
module Queues {
  import opened Bytes
  import opened Shard

  class CrossReactorQueues {
    var requests: seq<Fwd>
    var responses: seq<Rsp>

    constructor ()
      ensures requests == [] && responses == []
    {
      requests, responses := [], [];
    }

    method PushRequest(f: Fwd)
      modifies this`requests
      ensures requests == old(requests) + [f]
    {
      requests := requests + [f];
    }

    method TryPopRequest() returns (f: Option<Fwd>)
      modifies this`requests
      ensures old(requests) == [] ==> f == None && requests == []
      ensures old(requests) != [] ==> f.Some? && [f.value] + requests == old(requests)
    {
      if requests == [] {
        return None;
      }
      f := Some(requests[0]);
      requests := requests[1..];
    }

    method PushResponse(x: Rsp)
      modifies this`responses
      ensures responses == old(responses) + [x]
    {
      responses := responses + [x];
    }

    method TryPopResponse() returns (x: Option<Rsp>)
      modifies this`responses
      ensures old(responses) == [] ==> x == None && responses == []
      ensures old(responses) != [] ==> x.Some? && [x.value] + responses == old(responses)
    {
      if responses == [] {
        return None;
      }
      x := Some(responses[0]);
      responses := responses[1..];
    }
  }
}
