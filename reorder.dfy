/** The ordering behind `BaseDecoderStream`'s buffer queue: a priority queue built with
    the comparator `(a, b) => b.sequenceNumber - a.sequenceNumber`, so `deq` yields an
    entry of least sequence number. The queue is kept as a sequence in ascending order. */
module Reorder {
  import opened Bytes

  /** `{ chunk, sequenceNumber }`: decrypted audio and its RTP sequence number. */
  datatype Packet = Packet(chunk: seq<byte>, sequenceNumber: int)

  /** Packets in ascending sequence-number order. */
  predicate Ascending(s: seq<Packet>) {
    forall a, b :: 0 <= a < b < |s| ==> s[a].sequenceNumber <= s[b].sequenceNumber
  }

  /** Every packet of `s` comes no later than every packet of `t`. */
  predicate Precedes(s: seq<Packet>, t: seq<Packet>) {
    forall k, e :: 0 <= k < |s| && 0 <= e < |t| ==> s[k].sequenceNumber <= t[e].sequenceNumber
  }

  /** `d` is an entry `deq` may return: in the queue, and no entry has a smaller number. */
  predicate IsLeast(q: multiset<Packet>, d: Packet) {
    d in q && forall e :: e in q ==> d.sequenceNumber <= e.sequenceNumber
  }

  /** `enq`: the queue with `d` added; `d` goes after the entries with a number no
      greater than its own. */
  function Enqueue(q: seq<Packet>, d: Packet): (r: seq<Packet>)
    ensures |r| == |q| + 1 && multiset(r) == multiset(q) + multiset{d}
    decreases |q|
  {
    if |q| == 0 then [d]
    else if d.sequenceNumber < q[0].sequenceNumber then [d] + q
    else
      assert q == [q[0]] + q[1..];
      [q[0]] + Enqueue(q[1..], d)
  }

  /** A lower bound of the queue and of `d` bounds every entry of the enqueued queue. */
  lemma {:induction false} EnqueueBound(q: seq<Packet>, d: Packet, lo: int)
    requires lo <= d.sequenceNumber && forall k :: 0 <= k < |q| ==> lo <= q[k].sequenceNumber
    ensures forall k :: 0 <= k < |Enqueue(q, d)| ==> lo <= Enqueue(q, d)[k].sequenceNumber
    decreases |q|
  {
    if |q| > 0 && d.sequenceNumber >= q[0].sequenceNumber {
      var rest := Enqueue(q[1..], d);
      EnqueueBound(q[1..], d, lo);
      assert Enqueue(q, d) == [q[0]] + rest;
    }
  }

  /** An entry no greater than any of an ascending queue may go in front of it. */
  lemma ConsAscending(x: Packet, s: seq<Packet>)
    requires Ascending(s) && forall k :: 0 <= k < |s| ==> x.sequenceNumber <= s[k].sequenceNumber
    ensures Ascending([x] + s)
  {
    forall a, b | 0 <= a < b < |s| + 1
      ensures ([x] + s)[a].sequenceNumber <= ([x] + s)[b].sequenceNumber
    {
      assert ([x] + s)[b] == s[b - 1];
      if a > 0 {
        assert ([x] + s)[a] == s[a - 1];
      }
    }
  }

  /** Inserting into an ascending queue keeps it ascending. */
  lemma {:induction false} EnqueueAscending(q: seq<Packet>, d: Packet)
    requires Ascending(q)
    ensures Ascending(Enqueue(q, d))
    decreases |q|
  {
    if |q| == 0 {
      assert Enqueue(q, d) == [d];
    } else if d.sequenceNumber < q[0].sequenceNumber {
      assert forall k :: 0 <= k < |q| ==> q[0].sequenceNumber <= q[k].sequenceNumber;
      ConsAscending(d, q);
    } else {
      var rest := Enqueue(q[1..], d);
      assert q == [q[0]] + q[1..];
      SplitAscending([q[0]], q[1..]);
      EnqueueAscending(q[1..], d);
      EnqueueBound(q[1..], d, q[0].sequenceNumber);
      ConsAscending(q[0], rest);
    }
  }

  /** The head of an ascending queue is an entry `deq` may return. */
  lemma HeadIsLeast(q: seq<Packet>)
    requires Ascending(q) && |q| > 0
    ensures IsLeast(multiset(q), q[0])
  {
    forall e | e in multiset(q)
      ensures q[0].sequenceNumber <= e.sequenceNumber
    {
      var i :| 0 <= i < |q| && q[i] == e;
    }
  }

  /** Both halves of an ascending queue are ascending, and the first comes before the second. */
  lemma SplitAscending(s: seq<Packet>, t: seq<Packet>)
    requires Ascending(s + t)
    ensures Ascending(s) && Ascending(t) && Precedes(s, t)
  {
    forall a, b | 0 <= a < b < |s|
      ensures s[a].sequenceNumber <= s[b].sequenceNumber
    {
      assert s[a] == (s + t)[a] && s[b] == (s + t)[b];
    }
    forall a, b | 0 <= a < b < |t|
      ensures t[a].sequenceNumber <= t[b].sequenceNumber
    {
      assert t[a] == (s + t)[|s| + a] && t[b] == (s + t)[|s| + b];
    }
    forall k, e | 0 <= k < |s| && 0 <= e < |t|
      ensures s[k].sequenceNumber <= t[e].sequenceNumber
    {
      assert s[k] == (s + t)[k] && t[e] == (s + t)[|s| + e];
    }
  }

  /** Moving a front part of an ascending queue onto the end of an output: that part is
      ascending and comes before what stays queued, and no packet is lost or duplicated. */
  lemma TakeFront(e0: seq<Packet>, q0: seq<Packet>, out: seq<Packet>, q: seq<Packet>)
    requires Ascending(q0)
    requires |e0| <= |out| && out[..|e0|] == e0 && out[|e0|..] + q == q0
    ensures Ascending(out[|e0|..]) && Precedes(out[|e0|..], q) && Ascending(q)
    ensures multiset(out) + multiset(q) == multiset(e0) + multiset(q0)
  {
    SplitAscending(out[|e0|..], q);
    assert out == e0 + out[|e0|..];
    assert out + q == e0 + q0;
  }

  /** Packets given while paused come out least sequence number first, whatever their
      arrival order: 3, 1, 2 are queued as 1, 2, 3. */
  lemma {:induction false} QueueOrder(c1: seq<byte>, c2: seq<byte>, c3: seq<byte>)
    ensures Enqueue(Enqueue(Enqueue([], Packet(c3, 3)), Packet(c1, 1)), Packet(c2, 2))
         == [Packet(c1, 1), Packet(c2, 2), Packet(c3, 3)]
  {
    var q1 := Enqueue([], Packet(c3, 3));
    assert q1 == [Packet(c3, 3)];
    var q2 := Enqueue(q1, Packet(c1, 1));
    assert q2 == [Packet(c1, 1), Packet(c3, 3)];
    assert q2[1..] == [Packet(c3, 3)];
    assert Enqueue(q2[1..], Packet(c2, 2)) == [Packet(c2, 2), Packet(c3, 3)];
  }

  /** Sequence numbers compare as plain integers, with no allowance for the 16-bit RTP
      counter wrapping: after 65535, packet 0 is dequeued first. */
  lemma NoWrapAround(a: seq<byte>, b: seq<byte>)
    ensures Enqueue([Packet(a, 65535)], Packet(b, 0)) == [Packet(b, 0), Packet(a, 65535)]
  {
  }
}
