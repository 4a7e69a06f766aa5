/** The cyclic download source, internal/api/speedtest_download.go:9-76. */
module CyclicSource {
  import opened Options

  // ----- the cyclic stream -----

  lemma RemainderIsUnique(x: int, q: int, r: int, len: int)
    requires 0 <= r < len && x == q * len + r
    ensures x % len == r
  {
    var d := x / len - q;
    assert d * len == r - x % len;
    MultipleIsFar(d, len);
  }

  lemma MultipleIsFar(d: int, len: int)
    requires len > 0
    ensures d >= 1 ==> d * len >= len
    ensures d <= -1 ==> d * len <= -len
  {
    if d >= 1 { assert (d - 1) * len >= 0; }
    if d <= -1 { assert (d + 1) * len <= 0; }
  }

  lemma ModOfSum(a: nat, b: nat, len: nat)
    requires len > 0
    ensures (a % len + b) % len == (a + b) % len
  {
    var x := a % len + b;
    assert a + b == (a / len + x / len) * len + x % len;
    RemainderIsUnique(a + b, a / len + x / len, x % len, len);
  }

  function At<T>(source: seq<T>, k: nat): T
    requires |source| > 0
  {
    source[k % |source|]
  }

  lemma AtSum<T>(source: seq<T>, a: nat, b: nat)
    requires |source| > 0
    ensures At(source, a % |source| + b) == At(source, a + b)
  {
    ModOfSum(a, b, |source|);
  }

  lemma AtWithin<T>(source: seq<T>, k: nat)
    requires k < |source|
    ensures At(source, k) == source[k]
  {
    RemainderIsUnique(k, 0, k, |source|);
  }

  /** `n` bytes of the source repeated for ever, from position `from`. */
  function Cycle<T>(source: seq<T>, from: nat, n: nat): (s: seq<T>)
    requires |source| > 0
    ensures |s| == n && forall i | 0 <= i < n :: s[i] == At(source, from + i)
  {
    seq(n, i requires 0 <= i => At(source, from + i))
  }

  lemma CycleAppend<T>(source: seq<T>, from: nat, m: nat, n: nat)
    requires |source| > 0
    ensures Cycle(source, from, m) + Cycle(source, (from + m) % |source|, n) == Cycle(source, from, m + n)
  {
    hide At;
    var next := (from + m) % |source|;
    forall i | 0 <= i < n
      ensures Cycle(source, next, n)[i] == Cycle(source, from, m + n)[m + i]
    {
      AtSum(source, from + m, i);
      assert from + m + i == from + (m + i);
    }
  }

  lemma CycleWithin<T>(source: seq<T>, from: nat, n: nat)
    requires from + n <= |source| && |source| > 0
    ensures Cycle(source, from, n) == source[from..from + n]
  {
    forall i | 0 <= i < n
      ensures Cycle(source, from, n)[i] == source[from..from + n][i]
    {
      AtWithin(source, from + i);
    }
  }

  // ----- the writer and the chunk loop -----

  class Offset {
    var value: int

    constructor ()
      ensures value == 0
    {
      value := 0;
    }
  }

  /** A response writer. Its n-th write fails after some of the bytes, or succeeds. */
  class ResponseWriter<T> {
    const failsAfter: nat -> Option<nat>
    var sent: seq<T>
    var writes: nat
    var flushes: nat

    constructor (failsAfter: nat -> Option<nat>)
      ensures this.failsAfter == failsAfter && sent == [] && flushes == 0
    {
      this.failsAfter := failsAfter;
      sent, writes, flushes := [], 0, 0;
    }

    method Write(data: seq<T>) returns (ok: bool)
      modifies this
      ensures flushes == old(flushes)
      ensures ok ==> sent == old(sent) + data
      ensures exists n :: 0 <= n <= |data| && sent == old(sent) + data[..n]
      ensures !ok ==> exists k :: failsAfter(k).Some?
    {
      var outcome := failsAfter(writes);
      writes := writes + 1;
      ok := outcome.None?;
      var n := if ok || outcome.value > |data| then |data| else outcome.value;
      sent := sent + data[..n];
      assert data[..|data|] == data;
    }

    method Flush()
      modifies this`flushes
      ensures flushes == old(flushes) + 1
    {
      flushes := flushes + 1;
    }
  }

  function StartOf(offset: int, len: nat): int { if offset >= len then 0 else offset }

  /** An offset within the source is kept; one past its end starts over. */
  lemma OffsetStartsOver(offset: nat, len: nat)
    requires 0 < len
    ensures 0 <= StartOf(offset, len) < len
    ensures StartOf(offset, len) == if offset < len then offset % len else 0
  {
  }

  /** Writes exactly `chunkSize` bytes of the repeated source from the offset and leaves
      the offset at the next one; on a failed write, some front of those bytes. */
  method WriteChunkFromSource<T>(w: ResponseWriter<T>, source: seq<T>, chunkSize: int, offset: Offset?)
    returns (ok: bool)
    requires offset != null ==> offset.value >= 0
    modifies w, offset
    ensures var valid := |source| > 0 && chunkSize > 0 && offset != null;
            && (!valid ==> !ok && w.sent == old(w.sent) && (offset != null ==> offset.value == old(offset.value)))
            && (valid && (forall k :: w.failsAfter(k).None?) ==> ok)
    ensures w.flushes == old(w.flushes)
    ensures |source| > 0 && chunkSize > 0 && offset != null ==>
              var start := StartOf(old(offset.value), |source|);
              && 0 <= offset.value < |source|
              && (ok ==> && w.sent == old(w.sent) + Cycle(source, start, chunkSize)
                         && offset.value == (start + chunkSize) % |source|)
              && (exists n :: 0 <= n <= chunkSize && w.sent == old(w.sent) + Cycle(source, start, n))
  {
    if |source| == 0 || chunkSize <= 0 || offset == null { return false; }
    ghost var begin := StartOf(offset.value, |source|);
    var remaining := chunkSize;
    assert old(w.sent) == old(w.sent) + Cycle(source, begin, 0);
    while remaining > 0
      invariant 0 <= remaining <= chunkSize && w.flushes == old(w.flushes)
      invariant w.sent == old(w.sent) + Cycle(source, begin, chunkSize - remaining)
      invariant 0 <= offset.value && StartOf(offset.value, |source|) == (begin + (chunkSize - remaining)) % |source|
      invariant remaining < chunkSize ==> offset.value < |source|
    {
      ghost var done, before := chunkSize - remaining, w.sent;
      var start := offset.value;
      if start >= |source| {
        start := 0;
        offset.value := 0;
      }
      var available := |source| - start;
      var toWrite := if remaining < available then remaining else available;
      if toWrite <= 0 { assert false; }
      var written := w.Write(source[start..start + toWrite]);
      FrontOfWrite(source, begin, done, start, toWrite, old(w.sent), before, source[start..start + toWrite], w.sent);
      if !written { return false; }
      remaining := remaining - toWrite;
      offset.value := start + toWrite;
      if offset.value >= |source| { offset.value := 0; }
      NextOffset(begin, done, start, toWrite, |source|);
    }
    return true;
  }

  lemma FrontOfWrite<T>(source: seq<T>, begin: nat, done: nat, start: nat, toWrite: nat, sent: seq<T>, before: seq<T>,
                        piece: seq<T>, after: seq<T>)
    requires 0 < toWrite && start + toWrite <= |source| && start == (begin + done) % |source|
    requires before == sent + Cycle(source, begin, done)
    requires piece == source[start..start + toWrite]
    requires exists n :: 0 <= n <= |piece| && after == before + piece[..n]
    ensures exists n :: 0 <= n <= done + toWrite && after == sent + Cycle(source, begin, n)
    ensures after == before + piece ==> after == sent + Cycle(source, begin, done + toWrite)
  {
    var n :| 0 <= n <= toWrite && after == before + piece[..n];
    assert piece[..n] == source[start..start + n];
    CycleWithin(source, start, n);
    CycleAppend(source, begin, done, n);
    assert after == sent + Cycle(source, begin, done + n);
    CycleWithin(source, start, toWrite);
    CycleAppend(source, begin, done, toWrite);
  }

  lemma NextOffset(begin: nat, done: nat, start: nat, toWrite: nat, len: nat)
    requires len > 0 && start + toWrite <= len && start == (begin + done) % len
    ensures (begin + (done + toWrite)) % len == if start + toWrite >= len then 0 else start + toWrite
  {
    ModOfSum(begin + done, toWrite, len);
    if start + toWrite < len {
      RemainderIsUnique(start + toWrite, 0, start + toWrite, len);
    }
  }

  // ----- the whole download -----

  const FLUSH_INTERVAL := 8

  /** How a download ended: the deadline passed, the client left, or a write failed. */
  datatype End = DeadlinePassed | ClientGone | WriteFailed

  ghost predicate SentSoFar<T>(source: seq<T>, chunkSize: int, chunks: nat, offset: int, sent: seq<T>) {
    if |source| > 0 && chunkSize > 0 then
      offset == chunks * chunkSize % |source| && sent == Cycle(source, 0, chunks * chunkSize)
    else
      chunks == 0 && offset == 0 && sent == []
  }

  lemma NextChunk<T>(source: seq<T>, chunkSize: int, chunks: nat, offset: int, sent: seq<T>, n: nat)
    requires |source| > 0 && 0 < chunkSize && n <= chunkSize && SentSoFar(source, chunkSize, chunks, offset, sent)
    ensures sent + Cycle(source, offset, n) == Cycle(source, 0, chunks * chunkSize + n)
    ensures chunks * chunkSize + n <= (chunks + 1) * chunkSize
    ensures n == chunkSize ==>
        SentSoFar(source, chunkSize, chunks + 1, (offset + n) % |source|, sent + Cycle(source, offset, n))
  {
    CycleAppend(source, 0, chunks * chunkSize, n);
    ModOfSum(chunks * chunkSize, n, |source|);
    assert (chunks + 1) * chunkSize == chunks * chunkSize + chunkSize;
  }

  /** However many chunks go out, and however they divide the source, byte k of the
      response is source[k mod len], and a download cut short has sent a front of that. */
  method StreamDownload<T>(w: ResponseWriter<T>, source: seq<T>, chunkSize: int, canFlush: bool,
                           deadline: int, now: nat -> int, gone: nat -> bool, latest: nat)
    returns (end: End, chunks: nat)
    requires now(latest) >= deadline && w.sent == []
    modifies w
    ensures forall k | 0 <= k < |w.sent| :: |source| > 0 && w.sent[k] == At(source, k)
    ensures end != WriteFailed ==> |w.sent| == chunks * chunkSize
    ensures |source| > 0 && chunkSize > 0 ==> chunks * chunkSize <= |w.sent| <= (chunks + 1) * chunkSize
    ensures |source| > 0 && chunkSize > 0 && (forall k :: w.failsAfter(k).None?) ==> end != WriteFailed
    ensures forall j | 0 <= j < chunks :: now(j) < deadline && !gone(j)
    ensures match end
            case DeadlinePassed => now(chunks) >= deadline
            case ClientGone => now(chunks) < deadline && gone(chunks)
            case WriteFailed => now(chunks) < deadline && !gone(chunks)
    ensures w.flushes == old(w.flushes)
            + if !canFlush then 0 else chunks / FLUSH_INTERVAL + if end == DeadlinePassed then 1 else 0
  {
    var offset := new Offset();
    chunks := 0;
    while now(chunks) < deadline
      invariant chunks <= latest
      invariant forall j | 0 <= j < chunks :: now(j) < deadline && !gone(j)
      invariant fresh(offset) && 0 <= offset.value
      invariant SentSoFar(source, chunkSize, chunks, offset.value, w.sent)
      invariant w.flushes == old(w.flushes) + if canFlush then chunks / FLUSH_INTERVAL else 0
      decreases latest - chunks
    {
      if gone(chunks) { return ClientGone, chunks; }
      ghost var before, start := w.sent, offset.value;
      var ok := WriteChunkFromSource(w, source, chunkSize, offset);
      if |source| > 0 && chunkSize > 0 {
        ghost var n :| 0 <= n <= chunkSize && w.sent == before + Cycle(source, start, n);
        NextChunk(source, chunkSize, chunks, start, before, n);
        NextChunk(source, chunkSize, chunks, start, before, chunkSize);
      }
      if !ok { return WriteFailed, chunks; }
      chunks := chunks + 1;
      if canFlush && chunks % FLUSH_INTERVAL == 0 { w.Flush(); }
    }
    if canFlush { w.Flush(); }
    return DeadlinePassed, chunks;
  }
}
