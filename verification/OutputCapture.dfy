/** Capturing a run's output up to a limit while draining the pipe to its end
    (services/sandbox-runner/app/executors.py). */
module OutputCapture {
  import opened Common

  type Byte = x: int | 0 <= x < 256

  /** A pipe whose writer is done or killed: what is left to read, as the reads will return it. */
  class Pipe {
    var chunks: seq<seq<Byte>>
    var closed: bool

    constructor (chunks: seq<seq<Byte>>)
      ensures this.chunks == chunks && !closed
    {
      this.chunks, closed := chunks, false;
    }

    /** An empty read is the end of the stream. */
    method Read() returns (chunk: seq<Byte>)
      modifies this`chunks
      ensures old(chunks) == [] ==> chunk == [] && chunks == []
      ensures old(chunks) != [] ==> chunk == old(chunks)[0] && chunks == old(chunks)[1..]
    {
      chunk := [];
      if chunks != [] {
        chunk, chunks := chunks[0], chunks[1..];
      }
    }

    method Close()
      modifies this`closed
      ensures closed
    {
      closed := true;
    }
  }

  function Cap(limit: int): (n: nat) {
    if limit < 0 then 0 else limit
  }

  function Joined(chunks: seq<seq<Byte>>): (stream: seq<Byte>) {
    if chunks == [] then [] else chunks[0] + Joined(chunks[1..])
  }

  class CappedBuffer {
    const limit: int
    var buf: seq<Byte>
    var truncated: bool

    /** The buffer and the flag after this much of the stream. */
    predicate Holds(stream: seq<Byte>)
      reads this
    {
      buf == Prefix(stream, Cap(limit)) && (truncated <==> |stream| > Cap(limit))
    }

    constructor (limit: int)
      ensures this.limit == limit && Holds([])
    {
      this.limit, buf, truncated := limit, [], false;
    }

    method Add(chunk: seq<Byte>, ghost stream: seq<Byte>)
      requires Holds(stream)
      modifies this`buf, this`truncated
      ensures chunk != [] ==> Holds(stream + chunk)
      ensures chunk == [] ==> buf == old(buf) && (truncated <==> old(truncated) || |buf| >= limit)
    {
      var remaining := limit - |buf|;
      if remaining <= 0 {
        truncated := true;
        return;
      }
      if |chunk| > remaining {
        truncated := true;
      }
      buf := buf + (if |chunk| <= remaining then chunk else chunk[..remaining]);
    }
  }

  /** An empty read would be the end of the stream. */
  predicate NoneEmpty(chunks: seq<seq<Byte>>) {
    forall c | c in chunks :: c != []
  }

  lemma NextChunk(seen: seq<Byte>, chunks: seq<seq<Byte>>)
    requires chunks != [] && NoneEmpty(chunks)
    ensures chunks[0] != [] && NoneEmpty(chunks[1..])
    ensures seen + Joined(chunks) == seen + chunks[0] + Joined(chunks[1..])
  {
    assert chunks[0] in chunks && forall c | c in chunks[1..] :: c in chunks;
    assert Joined(chunks) == chunks[0] + Joined(chunks[1..]);
  }

  /** Whatever the chunk sizes, the sink ends with the prefix of the stream up to its limit, flagged
      exactly when the stream was longer; and the pipe is read to its end and closed. */
  method Pump(pipe: Pipe, sink: CappedBuffer)
    requires sink.Holds([])
    requires NoneEmpty(pipe.chunks)
    modifies pipe, sink`buf, sink`truncated
    ensures sink.buf == Prefix(Joined(old(pipe.chunks)), Cap(sink.limit))
    ensures sink.truncated <==> |Joined(old(pipe.chunks))| > Cap(sink.limit)
    ensures pipe.chunks == [] && pipe.closed
  {
    ghost var seen: seq<Byte> := [];
    ghost var all := Joined(pipe.chunks);
    while true
      invariant sink.Holds(seen) && seen + Joined(pipe.chunks) == all
      invariant NoneEmpty(pipe.chunks)
      decreases |pipe.chunks|
    {
      if pipe.chunks != [] {
        NextChunk(seen, pipe.chunks);
      }
      var chunk := pipe.Read();
      if chunk == [] {
        break;
      }
      sink.Add(chunk, seen);
      seen := seen + chunk;
    }
    assert seen == all;
    pipe.Close();
  }
}
