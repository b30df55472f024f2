/** The observer of a program's output: a capped capture, a sliding window and a marker search, fed chunk by chunk. */
module OutputObserver {
  import opened Basics

  const WINDOW := 65536

  /** The UTF-8 form of the line that announces a new candidate configuration. */
  const MARKER: seq<byte> := [0xE5, 0x80, 0x99, 0xE9, 0x80, 0x89, 0xE9, 0x85, 0x8D, 0xE7, 0xBD, 0xAE,
                              0xE5, 0xB7, 0xB2, 0xE7, 0x94, 0x9F, 0xE6, 0x88, 0x90, 0xEF, 0xBC, 0x9A]

  // ---------------------------------------------------------------- functions of the whole stream

  function Flatten(chunks: seq<seq<byte>>): seq<byte> {
    if chunks == [] then [] else Flatten(chunks[..|chunks| - 1]) + chunks[|chunks| - 1]
  }

  function Suffix(s: seq<byte>, n: nat): seq<byte> {
    if |s| > n then s[|s| - n..] else s
  }

  function Prefix(s: seq<byte>, n: nat): seq<byte> {
    if |s| > n then s[..n] else s
  }

  predicate OccursAt(marker: seq<byte>, s: seq<byte>, i: nat) {
    i + |marker| <= |s| && s[i..i + |marker|] == marker
  }

  predicate Occurs(marker: seq<byte>, s: seq<byte>) {
    exists i :: 0 <= i <= |s| && OccursAt(marker, s, i)
  }

  /** The chunks that came before the one that passed the limit. */
  function Captured(chunks: seq<seq<byte>>, limit: nat): seq<byte> {
    if chunks == [] || |Flatten(chunks)| <= limit then Flatten(chunks) else Captured(chunks[..|chunks| - 1], limit)
  }

  // ---------------------------------------------------------------- one chunk more

  lemma SuffixOfSuffix(s: seq<byte>, chunk: seq<byte>, n: nat)
    ensures Suffix(Suffix(s, n) + chunk, n) == Suffix(s + chunk, n)
  {
  }

  lemma SuffixOfLong(s: seq<byte>, chunk: seq<byte>, n: nat)
    requires |chunk| >= n
    ensures Suffix(s + chunk, n) == Suffix(chunk, n)
  {
  }

  /** The kept end of the stream and the beginning of the next chunk leave that end as it is needed. */
  lemma SuffixOfShort(s: seq<byte>, chunk: seq<byte>, n: nat)
    requires |chunk| < n
    ensures Suffix(Suffix(s, n) + Prefix(chunk, n), n) == Suffix(s + chunk, n)
  {
    SuffixOfSuffix(s, chunk, n);
  }

  lemma OccursInPart(marker: seq<byte>, a: seq<byte>, s: seq<byte>, b: seq<byte>)
    requires Occurs(marker, s)
    ensures Occurs(marker, a + s + b)
  {
    var i :| 0 <= i <= |s| && OccursAt(marker, s, i);
    assert (a + s + b)[|a| + i..|a| + i + |marker|] == s[i..i + |marker|];
    assert OccursAt(marker, a + s + b, |a| + i);
  }

  lemma SliceInside(t: seq<byte>, lo: nat, hi: nat, i: nat, j: nat)
    requires lo <= i <= j <= hi <= |t|
    ensures t[lo..hi][i - lo..j - lo] == t[i..j]
  {
    var part := t[lo..hi];
    forall k | 0 <= k < j - i ensures part[i - lo..j - lo][k] == t[i..j][k] {
      assert part[i - lo..j - lo][k] == part[i - lo + k];
    }
    assert part[i - lo..j - lo] == t[i..j];
  }

  lemma SeamSlice(s: seq<byte>, chunk: seq<byte>, a: nat, b: nat)
    requires a <= |s| && b <= |chunk|
    ensures (s + chunk)[|s| - a..|s| + b] == s[|s| - a..] + chunk[..b]
  {
  }

  lemma OccursInSlice(marker: seq<byte>, t: seq<byte>, lo: nat, hi: nat, i: nat)
    requires OccursAt(marker, t, i) && lo <= i && i + |marker| <= hi <= |t|
    ensures Occurs(marker, t[lo..hi])
  {
    SliceInside(t, lo, hi, i, i + |marker|);
    assert OccursAt(marker, t[lo..hi], i - lo);
  }

  /** An occurrence that is neither in the stream so far nor in the new chunk lies across the seam. */
  lemma OccursAcross(marker: seq<byte>, s: seq<byte>, chunk: seq<byte>, i: nat)
    requires |marker| >= 1 && OccursAt(marker, s + chunk, i)
    ensures Occurs(marker, s) || Occurs(marker, chunk)
            || Occurs(marker, Suffix(s, |marker| - 1) + Prefix(chunk, |marker| - 1))
  {
    var m, t := |marker|, s + chunk;
    if i + m <= |s| {
      OccursInSlice(marker, t, 0, |s|, i);
      assert t[0..|s|] == s;
    } else if i >= |s| {
      OccursInSlice(marker, t, |s|, |t|, i);
      assert t[|s|..|t|] == chunk;
    } else {
      var a, b := Suffix(s, m - 1), Prefix(chunk, m - 1);
      OccursInSlice(marker, t, |s| - |a|, |s| + |b|, i);
      SeamSlice(s, chunk, |a|, |b|);
      assert s[|s| - |a|..] == a && chunk[..|b|] == b;
    }
  }

  lemma OccursInSeam(marker: seq<byte>, s: seq<byte>, chunk: seq<byte>, a: nat, b: nat)
    requires a <= |s| && b <= |chunk| && Occurs(marker, s[a..] + chunk[..b])
    ensures Occurs(marker, s + chunk)
  {
    OccursInPart(marker, s[..a], s[a..] + chunk[..b], chunk[b..]);
    assert s == s[..a] + s[a..] && chunk == chunk[..b] + chunk[b..];
    assert s[..a] + (s[a..] + chunk[..b]) + chunk[b..] == s + chunk;
  }

  lemma OccursOneMore(marker: seq<byte>, s: seq<byte>, chunk: seq<byte>)
    requires |marker| >= 1
    ensures Occurs(marker, s + chunk) <==>
              Occurs(marker, s) || Occurs(marker, chunk)
              || Occurs(marker, Suffix(s, |marker| - 1) + Prefix(chunk, |marker| - 1))
  {
    var a, b := Suffix(s, |marker| - 1), Prefix(chunk, |marker| - 1);
    if Occurs(marker, s + chunk) {
      var i :| 0 <= i <= |s + chunk| && OccursAt(marker, s + chunk, i);
      OccursAcross(marker, s, chunk, i);
    } else {
      assert s[0..] + chunk[..0] == s && s[|s|..] + chunk[..|chunk|] == chunk;
      assert s[|s| - |a|..] == a && chunk[..|b|] == b;
      if Occurs(marker, s) { OccursInSeam(marker, s, chunk, 0, 0); }
      if Occurs(marker, chunk) { OccursInSeam(marker, s, chunk, |s|, |chunk|); }
      if Occurs(marker, a + b) { OccursInSeam(marker, s, chunk, |s| - |a|, |b|); }
    }
  }

  /** Once past the limit, nothing more is captured. */
  lemma CapturedOneMore(chunks: seq<seq<byte>>, chunk: seq<byte>, limit: nat)
    ensures Flatten(chunks + [chunk]) == Flatten(chunks) + chunk
    ensures Captured(chunks + [chunk], limit) ==
              if |Flatten(chunks)| + |chunk| <= limit then Flatten(chunks) + chunk else Captured(chunks, limit)
  {
    assert (chunks + [chunk])[..|chunks|] == chunks;
  }

  // ---------------------------------------------------------------- the buffer

  datatype Snapshot<T> = Snapshot(text: Option<T>, complete: bool, candidateCreated: bool, capturedBytes: nat)

  class OutputBuffer {
    const limit: nat
    var data: seq<byte>
    var window: seq<byte>
    var overflow: bool
    var failed: bool
    var candidate: bool
    var markerTail: seq<byte>
    /** The chunks received. */
    ghost var chunks: seq<seq<byte>>

    ghost function Stream(): seq<byte>
      reads this
    {
      Flatten(chunks)
    }

    /** Every field is a function of the chunks, and all but the captured bytes of an overflowed buffer are functions of the
        stream alone. */
    ghost predicate Valid()
      reads this
    {
      && data == Captured(chunks, limit)
      && (overflow <==> |Stream()| > limit)
      && window == Suffix(Stream(), WINDOW)
      && markerTail == Suffix(Stream(), |MARKER| - 1)
      && (candidate <==> Occurs(MARKER, Stream()))
    }

    constructor (limit: nat)
      requires limit > 0
      ensures Valid() && chunks == [] && !failed && this.limit == limit
    {
      this.limit := limit;
      data, window, markerTail := [], [], [];
      overflow, failed, candidate := false, false, false;
      chunks := [];
    }

    method Append(chunk: seq<byte>)
      requires Valid()
      modifies this
      ensures Valid() && chunks == old(chunks) + [chunk] && failed == old(failed)
    {
      CapturedOneMore(chunks, chunk, limit);
      Capture(chunk);
      Search(chunk);
      Slide(chunk);
      ghost var stream := Stream() + chunk;
      chunks := chunks + [chunk];
      assert Stream() == stream;
    }

    method Capture(chunk: seq<byte>)
      requires data == Captured(chunks, limit) && (overflow <==> |Stream()| > limit)
      modifies this`data, this`overflow
      ensures data == Captured(chunks + [chunk], limit) && (overflow <==> |Stream()| + |chunk| > limit)
    {
      CapturedOneMore(chunks, chunk, limit);
      CapturedFits(chunks, limit);
      if |chunk| > limit - |data| { overflow := true; }
      if !overflow { data := data + chunk; }
    }

    method Search(chunk: seq<byte>)
      requires markerTail == Suffix(Stream(), |MARKER| - 1) && (candidate <==> Occurs(MARKER, Stream()))
      modifies this`candidate, this`markerTail
      ensures markerTail == Suffix(Stream() + chunk, |MARKER| - 1) && (candidate <==> Occurs(MARKER, Stream() + chunk))
    {
      var scan := markerTail + Prefix(chunk, |MARKER| - 1);
      OccursOneMore(MARKER, Stream(), chunk);
      if Occurs(MARKER, scan) || Occurs(MARKER, chunk) { candidate := true; }
      if |chunk| >= |MARKER| - 1 {
        SuffixOfLong(Stream(), chunk, |MARKER| - 1);
        markerTail := Suffix(chunk, |MARKER| - 1);
      } else {
        SuffixOfShort(Stream(), chunk, |MARKER| - 1);
        markerTail := Suffix(scan, |MARKER| - 1);
      }
    }

    method Slide(chunk: seq<byte>)
      requires window == Suffix(Stream(), WINDOW)
      modifies this`window
      ensures window == Suffix(Stream() + chunk, WINDOW)
    {
      SuffixOfSuffix(Stream(), chunk, WINDOW);
      if |chunk| >= WINDOW {
        SuffixOfLong(Stream(), chunk, WINDOW);
        window := Suffix(chunk, WINDOW);
      } else {
        if |window| + |chunk| > WINDOW { window := window[|window| + |chunk| - WINDOW..]; }
        window := window + chunk;
      }
    }

    method MarkReadFailure()
      requires Valid()
      modifies this`failed
      ensures Valid() && failed
    {
      failed := true;
    }

    /** `decode` reads the bytes as text, if they are well encoded. */
    method TakeSnapshot<T>(decode: seq<byte> -> Option<T>) returns (s: Snapshot<T>)
      requires Valid()
      ensures s.complete <==> |Stream()| <= limit && !failed && decode(Stream()).Some?
      ensures s.text == if s.complete then decode(Stream()) else None
      ensures s.candidateCreated <==> Occurs(MARKER, Stream())
      ensures s.capturedBytes == |Captured(chunks, limit)|
    {
      if overflow || failed { return Snapshot(None, false, candidate, |data|); }
      var text := decode(data);
      return Snapshot(text, text.Some?, candidate, |data|);
    }
  }

  lemma {:induction false} CapturedFits(chunks: seq<seq<byte>>, limit: nat)
    ensures |Captured(chunks, limit)| <= limit && Captured(chunks, limit) <= Flatten(chunks)
    ensures Captured(chunks, limit) == Flatten(chunks) <==> |Flatten(chunks)| <= limit
    decreases |chunks|
  {
    if chunks != [] {
      CapturedFits(chunks[..|chunks| - 1], limit);
    }
  }

  /** Two buffers of one limit that were given the same stream, however it was cut, agree in everything but what an overflowed
      one has captured. */
  lemma ChunkingIsIrrelevant(a: OutputBuffer, b: OutputBuffer)
    requires a.Valid() && b.Valid() && a.Stream() == b.Stream() && a.limit == b.limit
    ensures a.overflow == b.overflow && a.candidate == b.candidate && a.window == b.window && a.markerTail == b.markerTail
    ensures !a.overflow ==> a.data == b.data == a.Stream()
  {
    CapturedFits(a.chunks, a.limit);
    CapturedFits(b.chunks, b.limit);
  }

  /** What an overflowed buffer has captured does depend on the cutting: of one stream it can be any number of bytes up to the
      limit. */
  lemma AnyCountIsPossible(stream: seq<byte>, limit: nat, k: nat)
    requires |stream| > limit >= k
    ensures var chunks := [stream[..k], stream[k..]];
            Flatten(chunks) == stream && Captured(chunks, limit) == stream[..k]
  {
    CapturedOneMore([], stream[..k], limit);
    CapturedOneMore([stream[..k]], stream[k..], limit);
    assert [] + [stream[..k]] == [stream[..k]];
  }
}
