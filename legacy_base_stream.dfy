/** The legacy `BaseDecoderStream` of lib/streams/base.js. It behaves as the one of
    src/streams/base.ts except that `_push` gives back `undefined` (None here) when it
    queues a packet; `_read` only tests the result for falsiness, so nothing observable
    changes. */
module LegacyBaseStream {
  import opened Wrappers
  import opened Bytes
  import opened Reorder

  /** JavaScript truthiness of `_push`'s result: `undefined` and `false` are falsy. */
  function Truthy(v: Option<bool>): (b: bool)
    ensures b <==> v == Some(true)
  {
    v.Some? && v.value
  }

  class BaseDecoderStream {
    var isFlowing: bool
    var bufferQueue: seq<Packet>

    ghost var emitted: seq<Packet>
    ghost var verdicts: seq<bool>
    ghost var added: multiset<Packet>

    /** Flowing implies nothing is queued; the queue is ascending; nothing is lost. */
    ghost predicate Valid()
      reads this
    {
      Ascending(bufferQueue)
      && (isFlowing ==> bufferQueue == [])
      && multiset(emitted) + multiset(bufferQueue) == added
      && |verdicts| == |emitted|
    }

    constructor()
      ensures Valid()
      ensures isFlowing && bufferQueue == []
      ensures emitted == [] && added == multiset{}
    {
      isFlowing := true;
      bufferQueue := [];
      emitted := [];
      verdicts := [];
      added := multiset{};
    }

    /** Readable's `push`, whose answer comes from the consumer. */
    method Push(d: Packet) returns (accepted: bool)
      modifies this
      ensures emitted == old(emitted) + [d] && verdicts == old(verdicts) + [accepted]
      ensures isFlowing == old(isFlowing) && bufferQueue == old(bufferQueue) && added == old(added)
    {
      accepted := *;
      emitted := emitted + [d];
      verdicts := verdicts + [accepted];
    }

    /** `_push`: the verdict of `push` while flowing, `undefined` after queuing. */
    method PushData(d: Packet) returns (result: Option<bool>)
      modifies this
      ensures added == old(added)
      ensures old(isFlowing) ==>
        result.Some? && emitted == old(emitted) + [d] && verdicts == old(verdicts) + [result.value]
        && bufferQueue == old(bufferQueue) && isFlowing == result.value
      ensures !old(isFlowing) ==>
        result.None? && emitted == old(emitted) && verdicts == old(verdicts)
        && bufferQueue == Enqueue(old(bufferQueue), d) && !isFlowing
    {
      if isFlowing {
        var accepted := Push(d);
        if !accepted {
          isFlowing := false;
        }
        result := Some(accepted);
      } else {
        bufferQueue := Enqueue(bufferQueue, d);
        result := None;
      }
    }

    /** `add`: one packet in, passed through `_push`. */
    method Add(chunk: seq<byte>, sequenceNumber: int)
      requires Valid()
      modifies this
      ensures Valid()
      ensures added == old(added) + multiset{Packet(chunk, sequenceNumber)}
      ensures old(isFlowing) ==> |verdicts| == |old(verdicts)| + 1 && verdicts[..|old(verdicts)|] == old(verdicts)
      ensures !old(isFlowing) ==> verdicts == old(verdicts)
      ensures old(isFlowing) ==>
        emitted == old(emitted) + [Packet(chunk, sequenceNumber)] && bufferQueue == old(bufferQueue)
        && isFlowing == verdicts[|verdicts| - 1]
      ensures !old(isFlowing) ==>
        emitted == old(emitted) && bufferQueue == Enqueue(old(bufferQueue), Packet(chunk, sequenceNumber))
        && !isFlowing
    {
      var d := Packet(chunk, sequenceNumber);
      if !isFlowing {
        EnqueueAscending(bufferQueue, d);
      }
      var _ := PushData(d);
      added := added + multiset{d};
    }

    /** `bufferQueue.deq()`. */
    method Dequeue() returns (d: Packet)
      requires Ascending(bufferQueue) && |bufferQueue| > 0
      modifies this`bufferQueue
      ensures IsLeast(multiset(old(bufferQueue)), d)
      ensures old(bufferQueue) == [d] + bufferQueue
    {
      HeadIsLeast(bufferQueue);
      d := bufferQueue[0];
      bufferQueue := bufferQueue[1..];
    }

    /** The loop of `_read`, which stops on the first falsy `_push` result. */
    method Drain()
      requires isFlowing && Ascending(bufferQueue) && |verdicts| == |emitted|
      modifies this
      ensures added == old(added) && |verdicts| == |emitted|
      ensures |old(verdicts)| <= |verdicts| && verdicts[..|old(verdicts)|] == old(verdicts)
      ensures |old(emitted)| <= |emitted| && emitted[..|old(emitted)|] == old(emitted)
      ensures emitted[|old(emitted)|..] + bufferQueue == old(bufferQueue)
      ensures forall k :: |old(emitted)| <= k < |emitted| - 1 ==> verdicts[k]
      ensures isFlowing ==> bufferQueue == [] && forall k :: |old(emitted)| <= k < |emitted| ==> verdicts[k]
      ensures !isFlowing ==> |emitted| > |old(emitted)| && !verdicts[|verdicts| - 1]
    {
      ghost var e0, q0 := emitted, bufferQueue;
      ghost var drained: seq<Packet> := [];
      while |bufferQueue| > 0
        invariant isFlowing && added == old(added)
        invariant |old(verdicts)| <= |verdicts| && verdicts[..|old(verdicts)|] == old(verdicts)
        invariant emitted == e0 + drained && |verdicts| == |emitted|
        invariant drained + bufferQueue == q0
        invariant forall k :: |e0| <= k < |emitted| ==> verdicts[k]
        decreases |bufferQueue|
      {
        SplitAscending(drained, bufferQueue);
        var d := Dequeue();
        assert drained + [d] + bufferQueue == q0;
        drained := drained + [d];
        var pushed := PushData(d);
        if !Truthy(pushed) {
          break;
        }
      }
      assert emitted[|e0|..] == drained;
    }

    /** `_read`: the same contract as the src version. */
    method Read()
      requires Valid()
      modifies this
      ensures Valid()
      ensures added == old(added) && |old(emitted)| <= |emitted| && emitted[..|old(emitted)|] == old(emitted)
      ensures |old(verdicts)| <= |verdicts| && verdicts[..|old(verdicts)|] == old(verdicts)
      ensures emitted[|old(emitted)|..] + bufferQueue == old(bufferQueue)
      ensures Ascending(emitted[|old(emitted)|..]) && Precedes(emitted[|old(emitted)|..], bufferQueue)
      ensures forall k :: |old(emitted)| <= k < |emitted| - 1 ==> verdicts[k]
      ensures isFlowing <==> (|emitted| == |old(emitted)| || verdicts[|verdicts| - 1])
    {
      ghost var e0, q0 := emitted, bufferQueue;
      isFlowing := true;
      if |bufferQueue| > 0 {
        Drain();
      }
      TakeFront(e0, q0, emitted, bufferQueue);
    }
  }
}
