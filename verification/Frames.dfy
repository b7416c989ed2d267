/** The frames of one job's result stream. Box sealing is an ideal authenticated channel:
    a box opens only under its own key, and then to exactly what was sealed. */
module Frames {
  import opened Common

  const U32_MAX: nat := 0xFFFF_FFFF

  /** What a chunk box holds: the plaintext of a chunk, or bytes that do not decode as one. */
  datatype Plain = ChunkPlain(jobId: string, seqNo: nat, delta: string) | Garbled

  datatype Box = Sealed(key: nat, plain: Plain) | Junk

  function Open(box: Box, key: nat): Option<Plain> {
    if box.Sealed? && box.key == key then Some(box.plain) else None
  }

  /** A provider frame as routed to a relay, decoded or undecodable. */
  datatype Frame =
    | ChunkFrame(jobId: string, box: Box)
    | BadChunk
    | DoneFrame(jobId: string, promptTokens: int, finishReason: string)
    | BadDone
    | ErrorFrame(code: string)

  /** The provider's `u32` counter after `k` tokens: it saturates. */
  function SeqNo(k: nat): nat {
    if k < U32_MAX then k else U32_MAX
  }

  /** The frame an honest provider sends for its `k`-th token. */
  function TokenFrame(jobId: string, key: nat, k: nat, token: string): Frame {
    ChunkFrame(jobId, Sealed(key, ChunkPlain(jobId, SeqNo(k), token)))
  }

  function TokenFrames(jobId: string, key: nat, tokens: seq<string>): (r: seq<Frame>)
    ensures |r| == |tokens|
    ensures forall k | 0 <= k < |r| :: r[k] == TokenFrame(jobId, key, k, tokens[k])
  {
    seq(|tokens|, k requires 0 <= k < |tokens| => TokenFrame(jobId, key, k, tokens[k]))
  }

  /** The token callback of `handle_job`: number, seal, queue. */
  class TokenSealer {
    const jobId: string
    const key: nat
    var counter: nat
    var queue: seq<Frame>
    ghost var tokens: seq<string>

    ghost predicate Valid()
      reads this
    {
      counter == SeqNo(|tokens|) && queue == TokenFrames(jobId, key, tokens)
    }

    constructor (jobId: string, key: nat)
      ensures Valid() && tokens == [] && this.jobId == jobId && this.key == key
    {
      this.jobId, this.key := jobId, key;
      counter, queue, tokens := 0, [], [];
    }

    /** A token that does not serialise is dropped and uses no number. */
    method OnToken(token: string, serialises: bool)
      requires Valid()
      modifies this
      ensures Valid() && tokens == (if serialises then old(tokens) + [token] else old(tokens))
      ensures queue
           == if serialises then old(queue) + [TokenFrame(jobId, key, |old(tokens)|, token)] else old(queue)
    {
      if !serialises {
        return;
      }
      queue := queue + [ChunkFrame(jobId, Sealed(key, ChunkPlain(jobId, counter, token)))];
      counter := if counter < U32_MAX then counter + 1 else U32_MAX;
      tokens := tokens + [token];
    }
  }
}
