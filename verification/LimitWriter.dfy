/** ajagent/internal/limitwriter.go: the truncating output buffer of one process stream. */
module LimitWriter {
  import opened Text

  newtype int64 = x: int | -0x8000_0000_0000_0000 <= x < 0x8000_0000_0000_0000

  // LogLimitKB is a uint32, and a Go slice cannot be longer than the address space.
  const MAX_LIMIT: int := 0xFFFF_FFFF * 1000
  const MAX_SLICE: int := 0x1_0000_0000_0000

  /** The state of a writer as a value; `cancels` counts the calls of its cancel function. */
  datatype Writer = Writer(written: nat, buf: seq<byte>, limitReached: bool, cancels: nat)

  const FRESH: Writer := Writer(0, [], false, 0)

  /** One `Write(p)`; `hasCancel` tells whether a cancel function was supplied. */
  function Step(limit: nat, hasCancel: bool, w: Writer, p: seq<byte>): Writer
    requires w.written <= limit
  {
    if w.written + |p| >= limit then
      if w.limitReached then w
      else Writer(limit, w.buf + p[..limit - w.written], true, w.cancels + if hasCancel then 1 else 0)
    else w.(written := w.written + |p|, buf := w.buf + p)
  }

  /** What a writer holds once it was handed the bytes `seen` in `calls` calls, in closed form. */
  ghost predicate Holds(limit: nat, hasCancel: bool, w: Writer, seen: seq<byte>, calls: nat) {
    && w.buf == seen[..Min(|seen|, limit)]
    && w.written == |w.buf|
    && (w.limitReached <==> calls > 0 && |seen| >= limit)
    && w.cancels == (if w.limitReached && hasCancel then 1 else 0)
    && (calls == 0 ==> seen == [])
  }

  lemma {:induction false} StepHolds(limit: nat, hasCancel: bool, w: Writer, seen: seq<byte>, calls: nat, p: seq<byte>)
    requires Holds(limit, hasCancel, w, seen, calls)
    ensures Holds(limit, hasCancel, Step(limit, hasCancel, w, p), seen + p, calls + 1)
  {
    var all := seen + p;
    if w.written + |p| >= limit {
      if w.limitReached {
        assert all[..limit] == seen[..limit];
      } else {
        assert seen == seen[..Min(|seen|, limit)];
        assert all[..limit] == seen + p[..limit - |seen|];
      }
    } else {
      assert seen[..Min(|seen|, limit)] == seen;
      assert all[..|all|] == all;
    }
  }

  /** The writer after a whole sequence of writes. */
  function After(limit: nat, hasCancel: bool, chunks: seq<seq<byte>>): (w: Writer)
    ensures w.written <= limit
  {
    if chunks == [] then FRESH
    else Step(limit, hasCancel, After(limit, hasCancel, chunks[..|chunks| - 1]), chunks[|chunks| - 1])
  }

  /**
   * For any sequence of writes: the buffer is the first min(total, limit) bytes of the
   * concatenation, the flag tells total >= limit (once anything was written at all), and
   * cancel was called exactly once if the flag is up and never otherwise.
   */
  lemma {:induction false} AfterHolds(limit: nat, hasCancel: bool, chunks: seq<seq<byte>>)
    ensures Holds(limit, hasCancel, After(limit, hasCancel, chunks), Concat(chunks), |chunks|)
  {
    if chunks != [] {
      var init := chunks[..|chunks| - 1];
      AfterHolds(limit, hasCancel, init);
      StepHolds(limit, hasCancel, After(limit, hasCancel, init), Concat(init), |init|, chunks[|chunks| - 1]);
    }
  }

  /**
   * How the bytes were cut into chunks does not matter, with one exception, which is exact: under
   * a limit of 0 any write, even an empty one, is told apart from none.
   */
  lemma {:induction false} ChunkingIsIrrelevant(limit: nat, hasCancel: bool, a: seq<seq<byte>>, b: seq<seq<byte>>)
    requires Concat(a) == Concat(b)
    ensures After(limit, hasCancel, a) == After(limit, hasCancel, b) <==> limit > 0 || (a == [] <==> b == [])
  {
    AfterHolds(limit, hasCancel, a);
    AfterHolds(limit, hasCancel, b);
  }

  /** Writes that are never empty leave a state that depends on their bytes alone, whatever the limit. */
  lemma {:induction false} OnlyBytesMatter(limit: nat, hasCancel: bool, chunks: seq<seq<byte>>)
    requires forall i | 0 <= i < |chunks| :: chunks[i] != []
    ensures After(limit, hasCancel, chunks) == After(limit, hasCancel, if Concat(chunks) == [] then [] else [Concat(chunks)])
  {
    var whole := Concat(chunks);
    if chunks != [] {
      assert whole == Concat(chunks[..|chunks| - 1]) + chunks[|chunks| - 1];
      ConcatOne(whole);
      ChunkingIsIrrelevant(limit, hasCancel, chunks, [whole]);
    }
  }

  /** Only a zero limit makes chunking visible: an empty write raises the flag, no write does not. */
  lemma {:induction false} ZeroLimitSeesEmptyWrites(hasCancel: bool)
    ensures Concat<byte>([[]]) == Concat<byte>([])
    ensures After(0, hasCancel, [[]]).limitReached && !After(0, hasCancel, []).limitReached
  {
    assert Concat<byte>([[]]) == Concat<byte>([[]][..0]) + [];
    AfterHolds(0, hasCancel, [[]]);
    AfterHolds(0, hasCancel, []);
  }

  lemma {:induction false} OneMoreWrite(limit: nat, hasCancel: bool, chunks: seq<seq<byte>>, p: seq<byte>)
    ensures After(limit, hasCancel, chunks + [p]) == Step(limit, hasCancel, After(limit, hasCancel, chunks), p)
  {
    assert (chunks + [p])[..|chunks|] == chunks;
  }

  /** The flag is sticky, and no further write changes the buffer. */
  lemma {:induction false} FlagIsSticky(limit: nat, hasCancel: bool, chunks: seq<seq<byte>>, more: seq<seq<byte>>)
    requires After(limit, hasCancel, chunks).limitReached
    ensures After(limit, hasCancel, chunks + more) == After(limit, hasCancel, chunks)
  {
    if more == [] {
      assert chunks + more == chunks;
    } else {
      var init, last := more[..|more| - 1], more[|more| - 1];
      FlagIsSticky(limit, hasCancel, chunks, init);
      AfterHolds(limit, hasCancel, chunks);
      assert chunks + more == (chunks + init) + [last];
      OneMoreWrite(limit, hasCancel, chunks + init, last);
    }
  }

  /** While the flag is down nothing was truncated. */
  lemma {:induction false} NothingLostBelowLimit(limit: nat, hasCancel: bool, chunks: seq<seq<byte>>)
    requires !After(limit, hasCancel, chunks).limitReached
    ensures After(limit, hasCancel, chunks).buf == Concat(chunks)
  {
    AfterHolds(limit, hasCancel, chunks);
  }

  /** The writer object. Its fields are the Go struct's; `seen` and `calls` record its history. */
  class LimitExceededWriter {
    const limit: int64
    const hasCancel: bool
    var written: int64
    var buf: seq<byte>
    var limitReached: bool
    var cancels: nat
    ghost var seen: seq<byte>
    ghost var calls: nat

    ghost predicate Valid()
      reads this
    {
      && 0 <= limit as int <= MAX_LIMIT
      && written >= 0
      && Holds(limit as int, hasCancel, State(), seen, calls)
    }

    function State(): Writer
      requires written >= 0
      reads this
    {
      Writer(written as nat, buf, limitReached, cancels)
    }

    constructor (limit: int64, hasCancel: bool)
      requires 0 <= limit as int <= MAX_LIMIT
      ensures Valid() && this.limit == limit && this.hasCancel == hasCancel
      ensures State() == FRESH && seen == [] && calls == 0
    {
      this.limit := limit;
      this.hasCancel := hasCancel;
      written, buf, limitReached, cancels := 0, [], false, 0;
      seen, calls := [], 0;
    }

    /**
     * `Write`. All arithmetic is on int64, so that it verifies means no sum overflows and the
     * slice `p[:allowed]` is in bounds. The caller is always told that all of p was taken.
     */
    method Write(p: seq<byte>) returns (n: int64)
      requires Valid()
      requires |p| < MAX_SLICE
      modifies this
      ensures Valid()
      ensures n as int == |p|
      ensures seen == old(seen) + p && calls == old(calls) + 1
      ensures State() == Step(limit as int, hasCancel, old(State()), p)
    {
      StepHolds(limit as int, hasCancel, State(), seen, calls, p);
      n := |p| as int64;
      if written + n >= limit {
        if !limitReached {
          limitReached := true;
          var allowed := limit - written;
          if allowed > 0 {
            buf := buf + p[..allowed];
            written := written + allowed;
          }
          if hasCancel {
            cancels := cancels + 1;
          }
        }
      } else {
        written := written + n;
        buf := buf + p;
      }
      seen, calls := seen + p, calls + 1;
    }

    /** `LimitReached` */
    method LimitReached() returns (reached: bool)
      requires Valid()
      ensures reached <==> calls > 0 && |seen| >= limit as int
    {
      reached := limitReached;
    }
  }
}
