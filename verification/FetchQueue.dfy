/** The task that serves all requests to the server, one at a time, from a queue fed by a channel. */
module FetchQueue {
  import opened Wrappers

  type FetchRequest = nat

  class FetchTask {
    /** Sent and not yet received. */
    var channel: seq<FetchRequest>
    /** What the rest of the sync is still going to send before it drops its senders, in order. */
    var future: seq<FetchRequest>
    var queue: seq<FetchRequest>
    /** Answered by the server so far. */
    var served: seq<FetchRequest>

    constructor (channel: seq<FetchRequest>, future: seq<FetchRequest>)
      ensures this.channel == channel && this.future == future && queue == [] && served == []
    {
      this.channel, this.future, queue, served := channel, future, [], [];
    }

    /** Every request there is, in the order of sending. */
    function All(): seq<FetchRequest>
      reads this
    {
      served + queue + channel + future
    }

    /** Other tasks send any number of requests while this one is not looking. */
    method Elapse()
      modifies this`channel, this`future
      ensures channel + future == old(channel + future)
    {
      var k :| 0 <= k <= |future|;
      channel, future := channel + future[..k], future[k..];
    }

    /** Waits for a request; None when all senders are gone. */
    method Recv() returns (r: Option<FetchRequest>)
      modifies this`channel, this`future
      ensures r.None? ==> old(channel + future) == channel + future == []
      ensures r.Some? ==> old(channel + future) == [r.value] + (channel + future)
    {
      Elapse();
      if channel == [] {
        if future == [] {
          return None;
        }
        channel, future := [future[0]], future[1..];
      }
      assert channel + future == [channel[0]] + (channel[1..] + future);
      r := Some(channel[0]);
      channel := channel[1..];
    }

    /** Looks for a request; `disconnected` tells a closed channel from one that is empty for now. */
    method TryRecv() returns (r: Option<FetchRequest>, disconnected: bool)
      modifies this`channel, this`future
      ensures r.None? ==> old(channel + future) == channel + future && (disconnected ==> channel + future == [])
      ensures r.Some? ==> old(channel + future) == [r.value] + (channel + future)
      ensures old(channel + future) == [] ==> r.None? && disconnected
    {
      Elapse();
      if channel == [] {
        return None, future == [];
      }
      assert channel + future == [channel[0]] + (channel[1..] + future);
      r, disconnected := Some(channel[0]), false;
      channel := channel[1..];
    }

    /** True exactly when nothing is queued and nothing more will come; otherwise something is queued. */
    method ReceiveFetchRequests() returns (closed: bool)
      modifies this`channel, this`future, this`queue
      ensures queue + (channel + future) == old(queue + (channel + future))
      ensures |queue| >= |old(queue)|
      ensures closed <==> old(queue + (channel + future)) == []
      ensures !closed ==> queue != []
    {
      if queue == [] {
        var request := Recv();
        if request.Some? {
          queue := queue + [request.value];
        }
      }
      while true
        invariant queue + (channel + future) == old(queue + (channel + future))
        invariant |queue| >= |old(queue)| && (queue == [] ==> channel + future == [])
        decreases |channel + future|
      {
        ghost var before, waiting := queue, channel + future;
        var request, disconnected := TryRecv();
        if request.Some? {
          assert before + waiting == (before + [request.value]) + (channel + future);
          queue := queue + [request.value];
        } else if disconnected && queue == [] {
          return true;
        } else {
          break;
        }
      }
      return false;
    }

    method SelectFetchRequest() returns (r: Option<FetchRequest>)
      modifies this`queue
      ensures r.None? ==> old(queue) == queue == []
      ensures r.Some? ==> old(queue) == [r.value] + queue
    {
      if queue == [] {
        return None;
      }
      r := Some(queue[0]);
      queue := queue[1..];
    }

    /** The loop ends, with every request there was or would be answered once, in the order of sending. */
    method Fetch()
      modifies this
      ensures served == old(All())
      ensures queue == channel == future == []
    {
      ghost var all := All();
      while true
        invariant All() == all
        decreases |queue| + |channel| + |future|
      {
        ghost var before, sizes := queue + (channel + future), |queue| + |channel| + |future|;
        assert all == served + before;
        var closed := ReceiveFetchRequests();
        assert |queue + (channel + future)| == sizes;
        if closed {
          assert served + [] == served;
          return;
        }
        var request := SelectFetchRequest();
        if request.Some? {
          assert served + before == (served + [request.value]) + queue + channel + future;
          served := served + [request.value];
        }
      }
    }
  }
}
