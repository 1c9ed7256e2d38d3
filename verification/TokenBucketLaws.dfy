/** What the copy loop guarantees over every clock and every rate sequence. */
module TokenBucketLaws {
  import opened Common
  import opened Arith
  import opened TokenBucket

  /** One call of the copy: its file, its parameters and the two clock readings before the loop. */
  datatype Job = Job(cfg: Config, src: Bytes, copyStart: real, start: real) {
    predicate Valid() { 0 < cfg.chunkSize && copyStart <= start }

    function After(ticks: seq<Tick>): Copy
      requires Valid()
    {
      Run(cfg, src, Start(copyStart, start), ticks)
    }

    function Chunk(): real { cfg.chunkSize as real }
  }

  function Front<T>(s: seq<T>): seq<T>
    requires s != []
  {
    s[..|s| - 1]
  }

  function Last<T>(s: seq<T>): T
    requires s != []
  {
    s[|s| - 1]
  }

  /** The clock reading at the head of the latest iteration. */
  function HeadTime(job: Job, ticks: seq<Tick>): real { if ticks == [] then job.start else Last(ticks).now }

  /** The latest clock reading of all. */
  function LastTime(job: Job, ticks: seq<Tick>): real { if ticks == [] then job.start else Last(ticks).reportNow }

  /** The clock never goes backwards and no sampled rate is negative. */
  predicate Ordered(job: Job, ticks: seq<Tick>) {
    ticks == [] ||
    (Ordered(job, Front(ticks)) && 0 <= Last(ticks).rate &&
     LastTime(job, Front(ticks)) <= Last(ticks).now <= Last(ticks).reportNow)
  }

  /** The loop really carried out every one of the ticks: it had not ended before the last. */
  predicate Performed(job: Job, ticks: seq<Tick>)
    requires job.Valid()
  {
    ticks == [] || job.After(Front(ticks)).phase.Running?
  }

  predicate RatesAtMost(ticks: seq<Tick>, r: int) { RatesAtMostFrom(ticks, 0, r) }

  /** No rate sampled by iteration i or a later one exceeds r. */
  predicate RatesAtMostFrom(ticks: seq<Tick>, i: nat, r: int) { forall k :: i <= k < |ticks| ==> ticks[k].rate <= r }

  /** The sum of rate times elapsed time over all iterations. */
  function Credit(job: Job, ticks: seq<Tick>): real
  {
    if ticks == [] then 0.0
    else Credit(job, Front(ticks)) + Earned(Last(ticks).now - HeadTime(job, Front(ticks)), Last(ticks).rate)
  }

  /** What one iteration throws away: everything on a pause, otherwise the overflow. */
  function DiscardAt(cfg: Config, s: Copy, t: Tick): real
  {
    if t.rate == 0 then s.tokens
    else Max(0.0, s.tokens + Earned(t.now - s.last, t.rate) - Capacity(cfg, t.rate))
  }

  function Discarded(job: Job, ticks: seq<Tick>): real
    requires job.Valid()
  {
    if ticks == [] then 0.0
    else Discarded(job, Front(ticks)) + DiscardAt(job.cfg, job.After(Front(ticks)), Last(ticks))
  }

  lemma EarnedNonneg(elapsed: real, rate: int)
    requires 0.0 <= elapsed && 0 <= rate
    ensures 0.0 <= Earned(elapsed, rate)
  {
  }

  ghost predicate GoodCopy(job: Job, s: Copy) {
    && s.copied <= |job.src|
    && s.dst == job.src[..s.copied]
    && 0.0 <= s.tokens
    && (s.phase.Finished? ==> s.copied == |job.src| && job.Chunk() <= s.tokens)
    && !s.phase.AssertionFailed?
  }

  /** Any single iteration: every byte written was paid for and nothing is created. */
  lemma StepConserves(job: Job, s: Copy, t: Tick)
    requires job.Valid() && GoodCopy(job, s) && s.phase.Running?
    requires 0 <= t.rate && s.last <= t.now
    ensures var s' := Step(job.cfg, job.src, s, t);
      && GoodCopy(job, s')
      && s'.last == t.now
      && s'.copied as real + s'.tokens + DiscardAt(job.cfg, s, t)
         == s.copied as real + s.tokens + Earned(t.now - s.last, t.rate)
      && 0.0 <= DiscardAt(job.cfg, s, t)
      && s'.tokens <= Capacity(job.cfg, t.rate)
      && s.copied <= s'.copied
      && (s'.copied - s.copied) as real + s'.tokens <= Capacity(job.cfg, t.rate)
  {
    EarnedNonneg(t.now - s.last, t.rate);
    if t.rate == 0 {
      assert Earned(t.now - s.last, 0) == 0.0;
    }
  }

  lemma RefillIs(cfg: Config, s: Copy, t: Tick)
    ensures var most := (if cfg.chunkSize <= t.rate then t.rate else cfg.chunkSize) as real;
      var refilled := s.tokens + (t.now - s.last) * t.rate as real;
      Refill(cfg, s, t) == if refilled <= most then refilled else most
  {
  }

  lemma ReadIs(src: Bytes, pos: nat, chunk: nat)
    requires pos <= |src|
    ensures var n := if chunk <= |src| - pos then chunk else |src| - pos;
      Read(src, pos, chunk) == src[pos..pos + n] && |Read(src, pos, chunk)| == n
  {
  }

  /**
   What one iteration does, in the numbers of the loop: the refill is clamped at the rate
   or the chunk size, whichever is larger, and a read needs a whole chunk of tokens.
   */
  lemma IterationExact(job: Job, s: Copy, t: Tick)
    requires job.Valid() && s.phase.Running? && s.copied <= |job.src|
    ensures var s' := Step(job.cfg, job.src, s, t);
      var chunk, left := job.cfg.chunkSize, |job.src| - s.copied;
      var most := (if chunk <= t.rate then t.rate else chunk) as real;
      var refilled := s.tokens + (t.now - s.last) * t.rate as real;
      var held := if refilled <= most then refilled else most;
      var n := if chunk <= left then chunk else left;
      && s'.last == t.now
      && s'.phase == (if t.rate < 0 then AssertionFailed
                      else if 0 < t.rate && chunk as real <= held && left == 0 then Finished
                      else Running)
      && (if 0 < t.rate && chunk as real <= held then
            && s'.copied == s.copied + n && s'.dst == s.dst + job.src[s.copied..s.copied + n]
            && s'.tokens == held - n as real
          else
            && s'.copied == s.copied && s'.dst == s.dst
            && s'.tokens == if t.rate < 0 then s.tokens else if t.rate == 0 then 0.0 else held)
  {
    hide MaybeReport, Refill, Read;
    RefillIs(job.cfg, s, t);
    ReadIs(job.src, s.copied, job.cfg.chunkSize);
  }

  lemma PerformedFront(job: Job, ticks: seq<Tick>)
    requires job.Valid() && ticks != [] && Performed(job, ticks)
    ensures Performed(job, Front(ticks))
  {
  }

  /**
   Token conservation. Over any clock and any changing or pausing rates, the bytes
   written, the balance and what the clamp and the pauses threw away add up to the
   bytes the rates were worth; the destination is a prefix of the source throughout.
   */
  lemma {:induction false} TokenConservation(job: Job, ticks: seq<Tick>)
    requires job.Valid() && Ordered(job, ticks) && Performed(job, ticks)
    ensures var s := job.After(ticks);
      && GoodCopy(job, s)
      && s.last == HeadTime(job, ticks)
      && s.copied as real + s.tokens + Discarded(job, ticks) == Credit(job, ticks)
      && 0.0 <= Discarded(job, ticks)
      && (ticks != [] ==> s.tokens <= Capacity(job.cfg, Last(ticks).rate))
  {
    if ticks != [] {
      PerformedFront(job, ticks);
      TokenConservation(job, Front(ticks));
      StepConserves(job, job.After(Front(ticks)), Last(ticks));
    }
  }

  /** The in-loop assertion fails in the first iteration that samples a negative rate, and writes nothing. */
  lemma FailsOnNegativeRate(job: Job, ticks: seq<Tick>)
    requires job.Valid() && ticks != [] && Performed(job, ticks)
    ensures job.After(ticks).phase.AssertionFailed? <==> Last(ticks).rate < 0
    ensures Last(ticks).rate < 0 ==> job.After(ticks).dst == job.After(Front(ticks)).dst
  {
  }

  // ---- Rate limit -------------------------------------------------------------

  lemma EarnedAdds(a: real, b: real, rate: int)
    ensures Earned(a, rate) + Earned(b, rate) == Earned(a + b, rate)
  {
  }

  lemma EarnedMono(elapsed: real, r: int, q: int)
    requires 0.0 <= elapsed && r <= q
    ensures Earned(elapsed, r) <= Earned(elapsed, q)
  {
  }

  lemma {:induction false} PrefixOrdered(job: Job, ticks: seq<Tick>, i: nat)
    requires job.Valid() && Ordered(job, ticks) && Performed(job, ticks) && i <= |ticks|
    ensures Ordered(job, ticks[..i]) && Performed(job, ticks[..i])
  {
    if i == |ticks| {
      assert ticks[..i] == ticks;
    } else {
      PerformedFront(job, ticks);
      PrefixOrdered(job, Front(ticks), i);
      assert Front(ticks)[..i] == ticks[..i];
    }
  }

  lemma {:induction false} CreditWithin(job: Job, ticks: seq<Tick>, i: nat, r: int)
    requires Ordered(job, ticks) && i <= |ticks| && RatesAtMostFrom(ticks, i, r)
    ensures HeadTime(job, ticks[..i]) <= HeadTime(job, ticks) <= LastTime(job, ticks)
    ensures Credit(job, ticks) - Credit(job, ticks[..i]) <= Earned(HeadTime(job, ticks) - HeadTime(job, ticks[..i]), r)
  {
    hide Earned;
    if i == |ticks| {
      assert ticks[..i] == ticks;
      EarnedAdds(0.0, 0.0, r);
    } else {
      var front, t := Front(ticks), Last(ticks);
      CreditWithin(job, front, i, r);
      assert front[..i] == ticks[..i];
      EarnedMono(t.now - HeadTime(job, front), t.rate, r);
      EarnedAdds(HeadTime(job, front) - HeadTime(job, ticks[..i]), t.now - HeadTime(job, front), r);
    }
  }

  lemma CreditBounded(job: Job, ticks: seq<Tick>, r: int)
    requires Ordered(job, ticks) && RatesAtMost(ticks, r)
    ensures job.start <= HeadTime(job, ticks) <= LastTime(job, ticks)
    ensures Credit(job, ticks) <= Earned(HeadTime(job, ticks) - job.start, r)
  {
    CreditWithin(job, ticks, 0, r);
  }

  /**
   The rate limit: while no sampled rate exceeds r, at most r bytes per second have
   been written since the start. A copy that has ended has been worth a whole further
   chunk, because the read that finds the end of the file needs one too.
   */
  lemma RateLimit(job: Job, ticks: seq<Tick>, r: int)
    requires job.Valid() && Ordered(job, ticks) && Performed(job, ticks) && RatesAtMost(ticks, r)
    ensures var s := job.After(ticks);
      && s.copied as real <= Earned(s.last - job.start, r)
      && (s.phase.Finished? ==>
            && (|job.src| + job.cfg.chunkSize) as real <= Credit(job, ticks)
            && (|job.src| + job.cfg.chunkSize) as real <= Earned(s.last - job.start, r))
  {
    hide Run, Step, Earned;
    TokenConservation(job, ticks);
    CreditBounded(job, ticks, r);
  }

  // ---- Burst limit ------------------------------------------------------------

  /**
   The burst limit: the iterations i..j of a copy write at most one capacity, as the
   rate of iteration i sets it, plus what the later iterations were worth, whatever
   the rate does in between.
   */
  lemma {:induction false} BurstLimit(job: Job, ticks: seq<Tick>, i: nat)
    requires job.Valid() && Ordered(job, ticks) && Performed(job, ticks) && i < |ticks|
    ensures var written := job.After(ticks).copied - job.After(ticks[..i]).copied;
      && 0 <= written
      && written as real + job.After(ticks).tokens
         <= Capacity(job.cfg, ticks[i].rate) + Credit(job, ticks) - Credit(job, ticks[..i + 1])
  {
    hide Step, Earned, Capacity;
    var front, t := Front(ticks), Last(ticks);
    PerformedFront(job, ticks);
    TokenConservation(job, front);
    StepConserves(job, job.After(front), t);
    assert front[..i] == ticks[..i];
    if i == |front| {
      assert ticks[..i + 1] == ticks && ticks[..i] == front;
    } else {
      BurstLimit(job, front, i);
      assert front[..i + 1] == ticks[..i + 1];
    }
  }

  /** From any iteration on, what is written and left over was in the balance or was worth something since. */
  lemma {:induction false} WindowConserves(job: Job, ticks: seq<Tick>, i: nat)
    requires job.Valid() && Ordered(job, ticks) && Performed(job, ticks) && i <= |ticks|
    ensures var s, s' := job.After(ticks[..i]), job.After(ticks);
      && s.copied <= s'.copied
      && (s'.copied - s.copied) as real + s'.tokens <= s.tokens + Credit(job, ticks) - Credit(job, ticks[..i])
  {
    hide Step, Earned;
    if i == |ticks| {
      assert ticks[..i] == ticks;
    } else {
      var front := Front(ticks);
      PerformedFront(job, ticks);
      TokenConservation(job, front);
      StepConserves(job, job.After(front), Last(ticks));
      WindowConserves(job, front, i);
      assert front[..i] == ticks[..i];
    }
  }

  /**
   The rate limit over a window. From iteration i on let no sampled rate exceed r,
   whatever was sampled before. Then at most r bytes per second are written since, plus
   the balance at the window's start or one capacity at rate r, whichever is less.
   */
  lemma WindowLimit(job: Job, ticks: seq<Tick>, i: nat, r: int)
    requires job.Valid() && Ordered(job, ticks) && Performed(job, ticks)
    requires i <= |ticks| && RatesAtMostFrom(ticks, i, r)
    ensures var s, s' := job.After(ticks[..i]), job.After(ticks);
      var written, elapsed := (s'.copied - s.copied) as real, HeadTime(job, ticks) - HeadTime(job, ticks[..i]);
      && 0.0 <= written && 0.0 <= elapsed
      && written + s'.tokens <= s.tokens + Earned(elapsed, r)
      && (i < |ticks| ==> written + s'.tokens <= Capacity(job.cfg, r) + Earned(elapsed, r))
  {
    hide Run, Step, Earned, Capacity;
    WindowConserves(job, ticks, i);
    CreditWithin(job, ticks, i, r);
    if i < |ticks| {
      BurstLimit(job, ticks, i);
      CreditWithin(job, ticks, i + 1, r);
      PrefixOrdered(job, ticks, i + 1);
      CreditWithin(job, ticks[..i + 1], i, r);
      assert ticks[..i + 1][..i] == ticks[..i];
      CapacityMono(job.cfg, ticks[i].rate, r);
      SampledRate(job, ticks[..i + 1]);
      var end := HeadTime(job, ticks);
      EarnedGrows(end - HeadTime(job, ticks[..i + 1]), end - HeadTime(job, ticks[..i]), r);
    }
  }

  lemma CapacityMono(cfg: Config, r: int, q: int)
    requires r <= q
    ensures Capacity(cfg, r) <= Capacity(cfg, q)
  {
  }

  lemma SampledRate(job: Job, ticks: seq<Tick>)
    requires Ordered(job, ticks) && ticks != []
    ensures 0 <= Last(ticks).rate
  {
  }

  /** A longer time is worth no less. */
  lemma EarnedGrows(a: real, b: real, r: int)
    requires a <= b && 0 <= r
    ensures Earned(a, r) <= Earned(b, r)
  {
  }

  // ---- Total correctness ------------------------------------------------------

  function Pauses(ticks: seq<Tick>): nat
  {
    if ticks == [] then 0 else Pauses(Front(ticks)) + if Last(ticks).rate == 0 then 1 else 0
  }

  function Writes(job: Job, ticks: seq<Tick>): nat
    requires job.Valid()
  {
    if ticks == [] then 0
    else Writes(job, Front(ticks)) +
         if job.After(Front(ticks)).copied < job.After(ticks).copied then 1 else 0
  }

  /** An iteration that neither pauses nor reads: it goes to sleep for lack of tokens. */
  predicate Waits(job: Job, s: Copy, t: Tick) {
    s.phase.Running? && 0 < t.rate && Refill(job.cfg, s, t) < job.Chunk()
  }

  /** Every waiting iteration was worth at least q. */
  predicate WaitsEarn(job: Job, ticks: seq<Tick>, q: real)
    requires job.Valid()
  {
    ticks == [] ||
    (WaitsEarn(job, Front(ticks), q) &&
     (Waits(job, job.After(Front(ticks)), Last(ticks)) ==>
        q <= Earned(Last(ticks).now - job.After(Front(ticks)).last, Last(ticks).rate)))
  }

  /** The least number of chunks that hold n bytes. */
  function Chunks(n: int, chunk: int): nat
    requires 0 < chunk
    decreases n
  {
    if n <= 0 then 0 else 1 + Chunks(n - chunk, chunk)
  }

  lemma {:induction false} ChunksBound(n: int, chunk: int, w: nat)
    requires 0 < chunk && (w == 0 || (w - 1) * chunk < n)
    ensures w <= Chunks(n, chunk)
    decreases w
  {
    if w != 0 {
      assert 0 <= (w - 1) * chunk;
      assert (w - 1) * chunk == (w - 2) * chunk + chunk;
      ChunksBound(n - chunk, chunk, w - 1);
    }
  }

  lemma {:induction false} WritesFillChunks(job: Job, ticks: seq<Tick>)
    requires job.Valid() && Ordered(job, ticks)
    ensures var s, w := job.After(ticks), Writes(job, ticks);
      && GoodCopy(job, s)
      && (s.copied == |job.src| || s.copied == w * job.cfg.chunkSize)
      && (w == 0 || (w - 1) * job.cfg.chunkSize < |job.src|)
  {
    hide Step, Earned, Capacity, Refill;
    if ticks != [] {
      var front := Front(ticks);
      WritesFillChunks(job, front);
      StillAfterEnd(job, front, Last(ticks));
      if job.After(front).phase.Running? {
        LastIsHead(job, front);
        StepConserves(job, job.After(front), Last(ticks));
        StepReads(job, job.After(front), Last(ticks), Writes(job, front));
      }
    }
  }

  lemma StillAfterEnd(job: Job, ticks: seq<Tick>, t: Tick)
    requires job.Valid()
    ensures var s := job.After(ticks); !s.phase.Running? ==> Step(job.cfg, job.src, s, t) == s
  {
  }

  /** One iteration leaves the amount written alone, or adds a whole chunk or the rest of the file. */
  lemma StepReads(job: Job, s: Copy, t: Tick, w: nat)
    requires job.Valid() && GoodCopy(job, s) && s.phase.Running? && 0 <= t.rate
    requires s.copied == |job.src| || s.copied == w * job.cfg.chunkSize
    ensures var s' := Step(job.cfg, job.src, s, t);
      s'.copied == s.copied ||
      (s.copied < |job.src| && s.copied == w * job.cfg.chunkSize &&
       (s'.copied == |job.src| || s'.copied == (w + 1) * job.cfg.chunkSize))
  {
  }

  lemma LastIsHead(job: Job, ticks: seq<Tick>)
    requires job.Valid() && Ordered(job, ticks) && job.After(ticks).phase.Running?
    ensures job.After(ticks).last == HeadTime(job, ticks) <= LastTime(job, ticks)
  {
  }

  /** The iterations that pauses and writes, k + 1 iterations each, do not account for. */
  function Unpaid(n: int, paid: int, k: nat): int { n - (k + 1) * paid }

  /** What n waiting iterations are worth at least. */
  function Worth(n: int, q: real): real { n as real * q }

  /** The measure behind termination: the iterations not accounted for filled the bucket. */
  lemma {:induction false} ProgressMeasure(job: Job, ticks: seq<Tick>, q: real, k: nat)
    requires job.Valid() && Ordered(job, ticks) && WaitsEarn(job, ticks, q)
    requires 0.0 < q && job.Chunk() <= Worth(k, q)
    requires job.After(ticks).phase.Running?
    ensures Worth(Unpaid(|ticks|, Pauses(ticks) + Writes(job, ticks), k), q)
            <= Min(job.After(ticks).tokens, job.Chunk())
  {
    hide Step, Waits, Earned, Worth, Unpaid;
    UnpaidStart(k, q);
    if ticks != [] {
      var front, t := Front(ticks), Last(ticks);
      StillAfterEnd(job, front, t);
      ProgressMeasure(job, front, q, k);
      WritesFillChunks(job, front);
      LastIsHead(job, front);
      var s := job.After(front);
      MeasureStep(job, s, t, q);
      var paid := Pauses(front) + Writes(job, front);
      UnpaidStep(|front|, paid, k, q);
    }
  }

  /** A running iteration either waits, gaining q tokens below a full chunk, or pauses, or writes. */
  lemma MeasureStep(job: Job, s: Copy, t: Tick, q: real)
    requires job.Valid() && GoodCopy(job, s) && s.phase.Running?
    requires 0 <= t.rate && s.last <= t.now
    ensures var s' := Step(job.cfg, job.src, s, t);
      && 0.0 <= Min(s'.tokens, job.Chunk()) <= job.Chunk()
      && (Waits(job, s, t) && q <= Earned(t.now - s.last, t.rate) ==>
            t.rate != 0 && s'.copied == s.copied && Min(s.tokens, job.Chunk()) + q <= Min(s'.tokens, job.Chunk()))
      && (!Waits(job, s, t) && s'.phase.Running? ==>
            if t.rate == 0 then s'.copied == s.copied else s.copied < s'.copied)
  {
    StepConserves(job, s, t);
    hide Earned;
  }

  lemma UnpaidStart(k: nat, q: real)
    ensures Worth(Unpaid(0, 0, k), q) == 0.0
  {
  }

  lemma UnpaidStep(n: int, paid: int, k: nat, q: real)
    ensures Worth(Unpaid(n + 1, paid, k), q) == Worth(Unpaid(n, paid, k), q) + q
    ensures Worth(Unpaid(n + 1, paid + 1, k), q) == Worth(Unpaid(n, paid, k), q) - Worth(k, q)
  {
  }

  lemma RunningBound(job: Job, ticks: seq<Tick>, q: real, k: nat)
    requires job.Valid() && Ordered(job, ticks) && WaitsEarn(job, ticks, q)
    requires 0.0 < q && job.Chunk() <= Worth(k, q)
    requires job.After(ticks).phase.Running?
    ensures |ticks| < (k + 1) * (Pauses(ticks) + Chunks(|job.src|, job.cfg.chunkSize) + 1)
  {
    hide Run, Step, Chunks;
    ProgressMeasure(job, ticks, q, k);
    WritesFillChunks(job, ticks);
    var c, w := Chunks(|job.src|, job.cfg.chunkSize), Writes(job, ticks);
    ChunksBound(|job.src|, job.cfg.chunkSize, w);
    var paid := Pauses(ticks) + w;
    LeFromScaled(Unpaid(|ticks|, paid, k), k, q);
    PaidMono(k, paid, Pauses(ticks) + c);
  }

  lemma LeFromScaled(a: int, b: int, q: real)
    requires 0.0 < q && Worth(a, q) <= Worth(b, q)
    ensures a <= b
  {
  }

  lemma PaidMono(k: nat, a: nat, b: nat)
    requires a <= b
    ensures (k + 1) * a + k < (k + 1) * (b + 1)
  {
  }

  /**
   Total correctness of the copy. If every waiting iteration is worth at least q > 0,
   then after (k+1) * (pauses + chunks + 1) iterations, k times q making a chunk, the
   loop has ended and the destination equals the source.
   */
  lemma CopyTerminates(job: Job, ticks: seq<Tick>, q: real, k: nat)
    requires job.Valid() && Ordered(job, ticks) && WaitsEarn(job, ticks, q)
    requires 0.0 < q && job.Chunk() <= Worth(k, q)
    requires (k + 1) * (Pauses(ticks) + Chunks(|job.src|, job.cfg.chunkSize) + 1) <= |ticks|
    ensures job.After(ticks).phase.Finished? && job.After(ticks).dst == job.src
  {
    hide Run, Step, Chunks;
    WritesFillChunks(job, ticks);
    if job.After(ticks).phase.Running? {
      RunningBound(job, ticks, q, k);
    }
  }
}
