/** The bounded buffer for a sandboxed process's output. */
module CappedSink {
  type Byte = b: int | 0 <= b < 0x100

  function Concat(chunks: seq<seq<Byte>>): seq<Byte> {
    if chunks == [] then [] else Concat(chunks[..|chunks| - 1]) + chunks[|chunks| - 1]
  }

  function Take(s: seq<Byte>, n: nat): seq<Byte> {
    if |s| <= n then s else s[..n]
  }

  /** Something was pushed after the buffer was full, if only an empty chunk, or did not fit. */
  ghost predicate Overrun(pushed: seq<seq<Byte>>, maxBytes: nat) {
    |Concat(pushed)| > maxBytes || exists i | 0 <= i < |pushed| :: |Concat(pushed[..i])| >= maxBytes
  }

  lemma OverrunSnoc(pushed: seq<seq<Byte>>, chunk: seq<Byte>, maxBytes: nat)
    ensures Concat(pushed + [chunk]) == Concat(pushed) + chunk
    ensures Overrun(pushed + [chunk], maxBytes) <==>
              Overrun(pushed, maxBytes) || |Concat(pushed)| >= maxBytes || |Concat(pushed)| + |chunk| > maxBytes
  {
    var more := pushed + [chunk];
    assert more[..|pushed|] == pushed;
    assert forall i | 0 <= i < |pushed| :: more[..i] == pushed[..i];
  }

  class Sink {
    const maxBytes: nat
    var chunks: seq<seq<Byte>>
    var total: nat
    var truncated: bool
    ghost var pushed: seq<seq<Byte>>

    ghost predicate Valid()
      reads this
    {
      && Concat(chunks) == Take(Concat(pushed), maxBytes) && total == |Concat(chunks)|
      && (truncated <==> Overrun(pushed, maxBytes))
    }

    constructor (maxBytes: nat)
      ensures Valid() && this.maxBytes == maxBytes && pushed == []
    {
      this.maxBytes := maxBytes;
      chunks, total, truncated, pushed := [], 0, false, [];
    }

    /** Keeps the first maxBytes bytes of everything pushed, and says whether anything was dropped or refused. */
    method Push(chunk: seq<Byte>)
      requires Valid()
      modifies this
      ensures Valid() && pushed == old(pushed) + [chunk]
    {
      OverrunSnoc(pushed, chunk, maxBytes);
      pushed := pushed + [chunk];
      if total >= maxBytes {
        truncated := true;
        return;
      }
      if total + |chunk| > maxBytes {
        OverrunSnoc(chunks, chunk[..maxBytes - total], maxBytes);
        chunks := chunks + [chunk[..maxBytes - total]];
        total := maxBytes;
        truncated := true;
        return;
      }
      OverrunSnoc(chunks, chunk, maxBytes);
      chunks := chunks + [chunk];
      total := total + |chunk|;
    }

    method Contents() returns (bytes: seq<Byte>)
      requires Valid()
      ensures bytes == Take(Concat(pushed), maxBytes)
    {
      bytes := [];
      for i := 0 to |chunks|
        invariant bytes == Concat(chunks[..i])
      {
        assert chunks[..i + 1][..i] == chunks[..i];
        bytes := bytes + chunks[i];
      }
      assert chunks[..|chunks|] == chunks;
    }
  }
}
