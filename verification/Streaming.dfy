/** Buffering with a limit, and `body_iter`: relaying an upstream body chunk by chunk under
    the response cap. */
module Streaming {
  import opened Texts

  type Byte = b: int | 0 <= b < 256
  type Bytes = seq<Byte>

  function Concat(chunks: seq<Bytes>): Bytes {
    if chunks == [] then [] else Concat(chunks[..|chunks| - 1]) + chunks[|chunks| - 1]
  }

  function Size(chunks: seq<Bytes>): nat {
    |Concat(chunks)|
  }

  /** Chunks are laid end to end, in their order. */
  lemma {:induction false} ConcatInOrder(a: seq<Bytes>, b: seq<Bytes>)
    ensures Concat(a + b) == Concat(a) + Concat(b)
    ensures forall chunk: Bytes :: Concat([chunk]) == chunk
    decreases |b|
  {
    assert forall chunk: Bytes :: [chunk][..0] == [];
    if b == [] {
      assert a + b == a;
    } else {
      var last := |b| - 1;
      assert (a + b)[..|a + b| - 1] == a + b[..last];
      ConcatInOrder(a, b[..last]);
    }
  }

  lemma {:induction false} PrefixSize(chunks: seq<Bytes>, n: nat)
    requires n <= |chunks|
    ensures Size(chunks[..n]) <= Size(chunks)
    decreases |chunks|
  {
    if n < |chunks| {
      assert chunks[..|chunks| - 1][..n] == chunks[..n];
      PrefixSize(chunks[..|chunks| - 1], n);
    } else {
      assert chunks[..n] == chunks;
    }
  }

  /** The buffering loop: extend, and give up as soon as the buffer exceeds the limit (0 for
      none). Stopping early refuses exactly the bodies that are too large as a whole. */
  method Buffer(chunks: seq<Bytes>, limit: nat) returns (body: Option<Bytes>)
    ensures body == if limit > 0 && Size(chunks) > limit then None else Some(Concat(chunks))
  {
    var buffer: Bytes := [];
    for i := 0 to |chunks|
      invariant buffer == Concat(chunks[..i])
      invariant limit > 0 ==> |buffer| <= limit
    {
      assert chunks[..i + 1][..i] == chunks[..i];
      buffer := buffer + chunks[i];
      if limit > 0 && |buffer| > limit {
        PrefixSize(chunks, i + 1);
        return None;
      }
    }
    assert chunks[..|chunks|] == chunks;
    return Some(buffer);
  }

  /** How the upstream's iteration goes on after its last chunk: it ends, it fails, or the
      handler is cancelled while waiting for more. */
  datatype Ending = Ends | ReadError | Cancelled

  datatype StreamResult = Completed | ClientDisconnected | TruncatedTooLarge | UpstreamReadError

  predicate Fits(chunks: seq<Bytes>, n: nat, cap: nat)
    requires n <= |chunks|
  {
    cap == 0 || Size(chunks[..n]) <= cap
  }

  /** Number of chunks the client is there to take: it may close the stream when handed
      chunk `leavesAt`. */
  function Wanted(chunks: seq<Bytes>, leavesAt: Option<nat>): nat {
    if leavesAt.Some? && leavesAt.value < |chunks| then leavesAt.value + 1 else |chunks|
  }

  /** `n` is the most chunks that can be relayed whole within the cap to this client. */
  ghost predicate LongestFit(chunks: seq<Bytes>, cap: nat, leavesAt: Option<nat>, n: nat) {
    n <= Wanted(chunks, leavesAt) && Fits(chunks, n, cap) &&
    forall k | n < k <= Wanted(chunks, leavesAt) :: !Fits(chunks, k, cap)
  }

  /** `body_iter`, up to the close and the stream event in its `finally`. */
  method BodyIter(chunks: seq<Bytes>, ending: Ending, cap: nat, leavesAt: Option<nat>)
    returns (yielded: seq<Bytes>, sent: nat, result: StreamResult)
    ensures |yielded| <= |chunks| && yielded == chunks[..|yielded|]
    ensures LongestFit(chunks, cap, leavesAt, |yielded|)
    ensures cap > 0 ==> Size(yielded) <= cap
    ensures cap == 0 ==> |yielded| == if leavesAt.Some? && leavesAt.value < |chunks| then leavesAt.value + 1 else |chunks|
    ensures result == TruncatedTooLarge <==> |yielded| < Wanted(chunks, leavesAt)
    ensures result == TruncatedTooLarge ==> sent == Size(chunks[..|yielded| + 1]) > cap >= Size(yielded) && cap > 0
    ensures result != TruncatedTooLarge ==> sent == if cap > 0 then Size(yielded) else 0
    ensures result == Completed <==>
            yielded == chunks && ending == Ends && (leavesAt.None? || leavesAt.value >= |chunks|)
    ensures result == UpstreamReadError <==>
            yielded == chunks && ending == ReadError && (leavesAt.None? || leavesAt.value >= |chunks|)
  {
    yielded, sent, result := [], 0, ClientDisconnected;
    var n := |chunks|;
    for i := 0 to n
      invariant yielded == chunks[..i]
      invariant sent == if cap > 0 then Size(yielded) else 0
      invariant Fits(chunks, i, cap)
      invariant leavesAt.None? || leavesAt.value >= i
      invariant result == ClientDisconnected
    {
      assert chunks[..i + 1][..i] == chunks[..i];
      if cap > 0 {
        sent := sent + |chunks[i]|;
        if sent > cap {
          forall k | i < k <= Wanted(chunks, leavesAt) ensures !Fits(chunks, k, cap) {
            assert chunks[..k][..i + 1] == chunks[..i + 1];
            PrefixSize(chunks[..k], i + 1);
          }
          return yielded, sent, TruncatedTooLarge;
        }
      }
      yielded := yielded + [chunks[i]];
      assert yielded == chunks[..i + 1];
      if leavesAt == Some(i) {
        return yielded, sent, ClientDisconnected;
      }
    }
    assert chunks[..n] == chunks;
    result := match ending case Ends => Completed case ReadError => UpstreamReadError case Cancelled => ClientDisconnected;
  }
}
