/** `BaseDecoderStream` of src/streams/base.ts: a readable stream that passes audio
    chunks downstream while the consumer keeps up, and parks them in a queue ordered by
    sequence number while it does not. */
module BaseStream {
  import opened Bytes
  import opened Reorder

  class BaseDecoderStream {
    var isFlowing: bool
    var bufferQueue: seq<Packet>

    /** The packets whose chunks went to Readable's `push`, in order, with the verdict
        `push` gave each, and every packet ever given to `add`. */
    ghost var emitted: seq<Packet>
    ghost var verdicts: seq<bool>
    ghost var added: multiset<Packet>

    /** Between calls: the queue is in ascending order, a flowing stream has nothing
        queued, and no chunk is lost or duplicated: what was emitted plus what is queued
        is what was added. */
    ghost predicate Valid()
      reads this
    {
      Ascending(bufferQueue)
      && (isFlowing ==> bufferQueue == [])
      && multiset(emitted) + multiset(bufferQueue) == added
      && |verdicts| == |emitted|
    }

    constructor()
      ensures Valid()
      ensures isFlowing && bufferQueue == []
      ensures emitted == [] && added == multiset{}
    {
      isFlowing := true;
      bufferQueue := [];
      emitted := [];
      verdicts := [];
      added := multiset{};
    }

    /** Readable's `push`: hands the chunk to the consumer, which answers whether it wants
        more. The answer depends on code outside this model, so it is left open. */
    method Push(d: Packet) returns (accepted: bool)
      modifies this
      ensures emitted == old(emitted) + [d] && verdicts == old(verdicts) + [accepted]
      ensures isFlowing == old(isFlowing) && bufferQueue == old(bufferQueue) && added == old(added)
    {
      accepted := *;
      emitted := emitted + [d];
      verdicts := verdicts + [accepted];
    }

    /** `_push`: while flowing, emit and stop flowing exactly when `push` refuses; otherwise
        queue the packet and answer false. */
    method PushData(d: Packet) returns (result: bool)
      modifies this
      ensures added == old(added)
      ensures old(isFlowing) ==>
        emitted == old(emitted) + [d] && verdicts == old(verdicts) + [result]
        && bufferQueue == old(bufferQueue) && isFlowing == result
      ensures !old(isFlowing) ==>
        emitted == old(emitted) && verdicts == old(verdicts)
        && bufferQueue == Enqueue(old(bufferQueue), d) && !isFlowing && !result
    {
      if isFlowing {
        result := Push(d);
        if !result {
          isFlowing := false;
        }
      } else {
        bufferQueue := Enqueue(bufferQueue, d);
        result := false;
      }
    }

    /** `add`: one packet in, passed through `_push`. */
    method Add(chunk: seq<byte>, sequenceNumber: int)
      requires Valid()
      modifies this
      ensures Valid()
      ensures added == old(added) + multiset{Packet(chunk, sequenceNumber)}
      ensures old(isFlowing) ==> |verdicts| == |old(verdicts)| + 1 && verdicts[..|old(verdicts)|] == old(verdicts)
      ensures !old(isFlowing) ==> verdicts == old(verdicts)
      ensures old(isFlowing) ==>
        emitted == old(emitted) + [Packet(chunk, sequenceNumber)] && bufferQueue == old(bufferQueue)
        && isFlowing == verdicts[|verdicts| - 1]
      ensures !old(isFlowing) ==>
        emitted == old(emitted) && bufferQueue == Enqueue(old(bufferQueue), Packet(chunk, sequenceNumber))
        && !isFlowing
    {
      var d := Packet(chunk, sequenceNumber);
      if !isFlowing {
        EnqueueAscending(bufferQueue, d);
      }
      var _ := PushData(d);
      added := added + multiset{d};
    }

    /** `bufferQueue.deq()`: removes and returns an entry of least sequence number. */
    method Dequeue() returns (d: Packet)
      requires Ascending(bufferQueue) && |bufferQueue| > 0
      modifies this`bufferQueue
      ensures IsLeast(multiset(old(bufferQueue)), d)
      ensures old(bufferQueue) == [d] + bufferQueue
    {
      HeadIsLeast(bufferQueue);
      d := bufferQueue[0];
      bufferQueue := bufferQueue[1..];
    }

    /** The loop of `_read`: while entries are queued, dequeue the least and `_push` it,
        returning right after the first one `push` refuses. */
    method Drain()
      requires isFlowing && Ascending(bufferQueue) && |verdicts| == |emitted|
      modifies this
      ensures added == old(added) && |verdicts| == |emitted|
      ensures |old(verdicts)| <= |verdicts| && verdicts[..|old(verdicts)|] == old(verdicts)
      ensures |old(emitted)| <= |emitted| && emitted[..|old(emitted)|] == old(emitted)
      ensures emitted[|old(emitted)|..] + bufferQueue == old(bufferQueue)
      ensures forall k :: |old(emitted)| <= k < |emitted| - 1 ==> verdicts[k]
      ensures isFlowing ==> bufferQueue == [] && forall k :: |old(emitted)| <= k < |emitted| ==> verdicts[k]
      ensures !isFlowing ==> |emitted| > |old(emitted)| && !verdicts[|verdicts| - 1]
    {
      ghost var e0, q0 := emitted, bufferQueue;
      ghost var drained: seq<Packet> := [];
      while |bufferQueue| > 0
        invariant isFlowing && added == old(added)
        invariant |old(verdicts)| <= |verdicts| && verdicts[..|old(verdicts)|] == old(verdicts)
        invariant emitted == e0 + drained && |verdicts| == |emitted|
        invariant drained + bufferQueue == q0
        invariant forall k :: |e0| <= k < |emitted| ==> verdicts[k]
        decreases |bufferQueue|
      {
        SplitAscending(drained, bufferQueue);
        var d := Dequeue();
        assert drained + [d] + bufferQueue == q0;
        drained := drained + [d];
        var pushed := PushData(d);
        if !pushed {
          break;
        }
      }
      assert emitted[|e0|..] == drained;
    }

    /** `_read`: the consumer wants more. Resume flowing and drain the queue least sequence
        number first, stopping right after the first chunk `push` refuses; that chunk has
        been emitted and is not queued again. */
    method Read()
      requires Valid()
      modifies this
      ensures Valid()
      ensures added == old(added) && |old(emitted)| <= |emitted| && emitted[..|old(emitted)|] == old(emitted)
      ensures |old(verdicts)| <= |verdicts| && verdicts[..|old(verdicts)|] == old(verdicts)
      ensures emitted[|old(emitted)|..] + bufferQueue == old(bufferQueue)
      ensures Ascending(emitted[|old(emitted)|..]) && Precedes(emitted[|old(emitted)|..], bufferQueue)
      ensures forall k :: |old(emitted)| <= k < |emitted| - 1 ==> verdicts[k]
      ensures isFlowing <==> (|emitted| == |old(emitted)| || verdicts[|verdicts| - 1])
    {
      ghost var e0, q0 := emitted, bufferQueue;
      isFlowing := true;
      if |bufferQueue| > 0 {
        Drain();
      }
      TakeFront(e0, q0, emitted, bufferQueue);
    }
  }
}
