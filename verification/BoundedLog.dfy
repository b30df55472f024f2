/** The log receiver: it stores at most a limit of what a process writes, and drains all of it. */
module BoundedLog {
  import opened Basics

  /** The pipe from the process: what each read returns, until the first empty one. */
  class Stream {
    var pending: seq<seq<byte>>

    constructor (blocks: seq<seq<byte>>)
      ensures pending == blocks
    {
      pending := blocks;
    }

    method Read() returns (block: seq<byte>)
      modifies this
      ensures old(pending) == [] ==> block == [] && pending == []
      ensures old(pending) != [] ==> block == old(pending)[0] && pending == old(pending)[1..]
    {
      if pending == [] { return []; }
      block := pending[0];
      pending := pending[1..];
    }
  }

  /** Everything that reads return before the first empty one. */
  function Drained(blocks: seq<seq<byte>>): seq<byte> {
    if blocks == [] || blocks[0] == [] then [] else blocks[0] + Drained(blocks[1..])
  }

  /** An unbuffered file. The k-th write takes `answer(k)` bytes if it can, and fails when that is nothing. */
  class LogFile {
    const answer: nat -> int
    var content: seq<byte>
    var calls: nat
    /** The number of calls that failed. */
    ghost var failures: nat

    constructor (answer: nat -> int)
      ensures content == [] && calls == 0 && failures == 0 && this.answer == answer
    {
      this.answer := answer;
      content, calls, failures := [], 0, 0;
    }

    method Write(piece: seq<byte>) returns (written: nat)
      requires piece != []
      modifies this
      ensures written == (if answer(old(calls)) <= 0 then 0 else Min(answer(old(calls)), |piece|))
      ensures content == old(content) + piece[..written] && calls == old(calls) + 1
      ensures failures == old(failures) + if written == 0 then 1 else 0
    {
      written := if answer(calls) <= 0 then 0 else Min(answer(calls), |piece|);
      content, calls := content + piece[..written], calls + 1;
      if written == 0 { failures := failures + 1; }
    }
  }

  datatype Report = Report(limit: nat, received: nat, stored: nat, discarded: nat, complete: bool, failure: Option<string>)

  class Receiver {
    const limit: nat
    const file: LogFile
    var total: nat
    var stored: nat
    var failure: Option<string>

    /** What is stored is the beginning of what was received: all of it up to the limit unless a write failed, and then no
        write followed the one that failed. */
    ghost predicate Holds(received: seq<byte>)
      reads this, file
    {
      && total == |received| && stored <= limit && stored <= |received| && file.content == received[..stored]
      && (failure.None? ==> stored == Min(limit, total) && file.failures == 0)
      && (failure.Some? ==> failure == Some("write-failed") && stored < Min(limit, total) && file.failures == 1)
    }

    constructor (limit: nat, answer: nat -> int)
      ensures this.limit == limit && Holds([])
      ensures fresh(file) && file.answer == answer
    {
      this.limit := limit;
      file := new LogFile(answer);
      total, stored, failure := 0, 0, None;
    }

    /** Writes until all of the piece is written or a write makes no progress. */
    method Store(piece: seq<byte>)
      requires failure.None? && file.failures == 0
      modifies this`stored, this`failure, file
      ensures old(stored) <= stored <= old(stored) + |piece|
      ensures file.content == old(file.content) + piece[..stored - old(stored)]
      ensures failure.None? ==> stored == old(stored) + |piece| && file.failures == 0
      ensures failure.Some? ==> failure == Some("write-failed") && stored < old(stored) + |piece| && file.failures == 1
    {
      var offset := 0;
      while offset < |piece|
        invariant 0 <= offset <= |piece| && stored == old(stored) + offset && failure.None? && file.failures == 0
        invariant file.content == old(file.content) + piece[..offset]
        decreases |piece| - offset
      {
        var written := file.Write(piece[offset..]);
        if written == 0 {
          failure := Some("write-failed");
          return;
        }
        assert piece[..offset] + piece[offset..][..written] == piece[..offset + written];
        offset, stored := offset + written, stored + written;
      }
    }

    method Accept(block: seq<byte>, ghost received: seq<byte>)
      requires Holds(received)
      modifies this`total, this`stored, this`failure, file
      ensures Holds(received + block)
      ensures old(failure).Some? ==> file.content == old(file.content) && file.calls == old(file.calls)
    {
      total := total + |block|;
      var piece := if failure.None? then block[..Min(|block|, limit - stored)] else [];
      if piece != [] {
        ghost var before := stored;
        Store(piece);
        assert failure.None? ==> stored == Min(limit, total);
        StoredSlice(received, block, before, stored);
      }
    }

    /** `flushed` says whether the final flush to disk succeeds. */
    method Collect(stream: Stream, flushed: bool) returns (r: Report)
      requires Holds([])
      modifies this`total, this`stored, this`failure, file, stream
      ensures var input := Drained(old(stream.pending));
              && r.received == |input| && r.stored <= r.limit == limit && r.received == r.stored + r.discarded && r.complete
              && file.content == input[..r.stored]
              && (r.failure.None? ==> r.stored == Min(limit, |input|))
              && (r.stored < Min(limit, |input|) <==> file.failures == 1)
              && file.failures <= 1
              && (r.failure == if !flushed then Some("flush-failed") else if file.failures == 1 then Some("write-failed") else None)
      ensures stream.pending == [] || exists k :: 0 < k <= |old(stream.pending)| && stream.pending == old(stream.pending)[k..]
                                                   && old(stream.pending)[k - 1] == []
    {
      ghost var input := Drained(stream.pending);
      ghost var received: seq<byte>, k := [], 0;
      while true
        invariant Holds(received) && input == received + Drained(stream.pending)
        invariant 0 <= k <= |old(stream.pending)| && stream.pending == old(stream.pending)[k..]
        decreases |stream.pending|
      {
        var block := stream.Read();
        if block == [] {
          break;
        }
        k := k + 1;
        Accept(block, received);
        assert input == received + (block + Drained(stream.pending));
        received := received + block;
      }
      if !flushed { failure := Some("flush-failed"); }
      r := Report(limit, total, stored, total - stored, true, failure);
    }
  }

  lemma StoredSlice(received: seq<byte>, block: seq<byte>, before: nat, stored: nat)
    requires before == |received| && before <= stored <= before + |block|
    ensures (received + block)[..stored] == received + block[..stored - before]
  {
  }
}
