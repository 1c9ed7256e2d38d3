/**
 The rate-limited copy loop of the migrater (src/migrater/token_bucket.py).

 Everything the loop reads from outside is an input: one Tick per iteration holds
 the clock and the rate read at its head, and the clock and the rate read by the
 progress reporter, which every iteration calls exactly once.
 */
module TokenBucket {
  import opened Arith
  import opened Common

  /** A file on the parallel file system; opening it for writing truncates it. */
  class File {
    var content: Bytes

    constructor (content: Bytes)
      ensures this.content == content
    {
      this.content := content;
    }
  }

  datatype Config = Config(chunkSize: int, hasCallback: bool, updateInterval: real)

  datatype Tick = Tick(now: real, rate: int, reportNow: real, reportRate: int)

  datatype Report = Report(
    time: real,
    bytesCopied: int,
    totalBytes: nat,
    remainingBytes: int,
    interval: real,
    intervalThroughput: real,
    averageThroughput: real,
    configuredRate: int,
    chunkSize: int)

  /** The variables that the nested progress reporter owns. */
  datatype Reporter = Reporter(start: real, time: real, bytes: nat, reports: seq<Report>)

  function MaxInt(a: int, b: int): int { if a >= b then a else b }

  function MakeReport(cfg: Config, total: nat, r: Reporter, copied: nat, now: real, rate: int): Report
    requires r.time < now
  {
    var interval, elapsedTotal := now - r.time, now - r.start;
    Report(
      now, copied, total, MaxInt(0, total - copied), interval,
      (copied - r.bytes) as real / interval,
      if elapsedTotal > 0.0 then copied as real / elapsedTotal else 0.0,
      rate, cfg.chunkSize)
  }

  function MaybeReport(cfg: Config, total: nat, r: Reporter, force: bool, copied: nat, now: real, rate: int): Reporter
  {
    var interval := now - r.time;
    if !cfg.hasCallback then r
    else if !force && interval < cfg.updateInterval then r
    else if interval <= 0.0 then r
    else r.(time := now, bytes := copied, reports := r.reports + [MakeReport(cfg, total, r, copied, now, rate)])
  }

  datatype Phase = Running | Finished | AssertionFailed

  datatype Copy = Copy(phase: Phase, tokens: real, last: real, copied: nat, dst: Bytes, reporter: Reporter)

  /** At most n bytes of src from position pos; empty at the end of the file. */
  function Read(src: Bytes, pos: nat, n: nat): Bytes
  {
    if |src| <= pos then [] else if |src| <= pos + n then src[pos..] else src[pos..pos + n]
  }

  function Capacity(cfg: Config, rate: int): real { MaxInt(rate, cfg.chunkSize) as real }

  /** The tokens that `elapsed` seconds at `rate` are worth. */
  function Earned(elapsed: real, rate: int): real { elapsed * rate as real }

  /** The balance after one refill, clamped to the capacity. */
  function Refill(cfg: Config, s: Copy, t: Tick): real
  {
    var capacity := Capacity(cfg, t.rate);
    Min(Min(capacity, s.tokens + Earned(t.now - s.last, t.rate)), capacity)
  }

  /** One iteration of the copy loop; a loop that has ended stays as it is. */
  function Step(cfg: Config, src: Bytes, s: Copy, t: Tick): Copy
    requires 0 < cfg.chunkSize
  {
    if !s.phase.Running? then s
    else if t.rate < 0 then s.(phase := AssertionFailed, last := t.now)
    else if t.rate == 0 then
      s.(tokens := 0.0, last := t.now,
         reporter := MaybeReport(cfg, |src|, s.reporter, true, s.copied, t.reportNow, t.reportRate))
    else
      var tokens := Refill(cfg, s, t);
      if tokens < cfg.chunkSize as real then
        s.(tokens := tokens, last := t.now,
           reporter := MaybeReport(cfg, |src|, s.reporter, false, s.copied, t.reportNow, t.reportRate))
      else
        var data := Read(src, s.copied, cfg.chunkSize);
        if data == [] then
          s.(phase := Finished, tokens := tokens, last := t.now,
             reporter := MaybeReport(cfg, |src|, s.reporter, true, s.copied, t.reportNow, t.reportRate))
        else
          var copied := s.copied + |data|;
          s.(tokens := tokens - |data| as real, last := t.now, copied := copied, dst := s.dst + data,
             reporter := MaybeReport(cfg, |src|, s.reporter, false, copied, t.reportNow, t.reportRate))
  }

  /** The state before the first iteration: copyStart and last are two clock readings. */
  function Start(copyStart: real, last: real): Copy
  {
    Copy(Running, 0.0, last, 0, [], Reporter(copyStart, copyStart, 0, []))
  }

  function Run(cfg: Config, src: Bytes, s: Copy, ticks: seq<Tick>): Copy
    requires 0 < cfg.chunkSize
  {
    if ticks == [] then s
    else Step(cfg, src, Run(cfg, src, s, ticks[..|ticks| - 1]), ticks[|ticks| - 1])
  }

  /** Ticks after the loop has ended change nothing. */
  lemma {:induction false} RunFrozen(cfg: Config, src: Bytes, s: Copy, ticks: seq<Tick>, i: nat)
    requires 0 < cfg.chunkSize && i <= |ticks|
    requires i == |ticks| || !Run(cfg, src, s, ticks[..i]).phase.Running?
    ensures Run(cfg, src, s, ticks) == Run(cfg, src, s, ticks[..i])
  {
    if i == |ticks| {
      assert ticks[..i] == ticks;
    } else {
      var init := ticks[..|ticks| - 1];
      assert init[..i] == ticks[..i];
      RunFrozen(cfg, src, s, init, i);
    }
  }

  datatype Outcome = SourceMissing | BadArgument | Stopped(state: Copy)

  /**
   The copy, driven by as many iterations as there are ticks. `source` is None when
   the source file does not exist; only then is the destination left as it was.
   */
  method TokenBucketCopy(source: Option<Bytes>, dst: File, cfg: Config, initialRate: int,
                         copyStart: real, start: real, ticks: seq<Tick>)
    returns (outcome: Outcome)
    modifies dst
    ensures outcome == SourceMissing <==> source == None
    ensures source == None ==> dst.content == old(dst.content)
    ensures source.Some? && (initialRate < 0 || cfg.chunkSize <= 0) ==> outcome == BadArgument && dst.content == []
    ensures source.Some? && 0 <= initialRate && 0 < cfg.chunkSize ==>
              outcome == Stopped(Run(cfg, source.value, Start(copyStart, start), ticks)) &&
              dst.content == outcome.state.dst
  {
    hide MaybeReport, Earned, Capacity, Min, Read;
    if source == None {
      return SourceMissing;
    }
    var src := source.value;
    dst.content := [];
    var copied: nat, reporter := 0, Reporter(copyStart, copyStart, 0, []);
    if initialRate < 0 || cfg.chunkSize <= 0 {
      return BadArgument;
    }
    var tokens, last := 0.0, start;
    var phase := Running;
    ghost var s0 := Start(copyStart, start);
    var i := 0;
    while i < |ticks| && phase == Running
      invariant 0 <= i <= |ticks|
      invariant Copy(phase, tokens, last, copied, dst.content, reporter) == Run(cfg, src, s0, ticks[..i])
    {
      var t := ticks[i];
      ghost var s := Copy(phase, tokens, last, copied, dst.content, reporter);
      assert ticks[..i + 1][..i] == ticks[..i];
      assert Run(cfg, src, s0, ticks[..i + 1]) == Step(cfg, src, s, t);
      i := i + 1;
      var elapsed := t.now - last;
      last := t.now;
      if t.rate < 0 {
        phase := AssertionFailed;
        break;
      }
      if t.rate == 0 {
        tokens := 0.0;
        reporter := MaybeReport(cfg, |src|, reporter, true, copied, t.reportNow, t.reportRate);
        continue;
      }
      var capacity := Capacity(cfg, t.rate);
      tokens := Min(capacity, tokens + Earned(elapsed, t.rate));
      tokens := Min(tokens, capacity);
      assert tokens == Refill(cfg, s, t);
      if tokens < cfg.chunkSize as real {
        reporter := MaybeReport(cfg, |src|, reporter, false, copied, t.reportNow, t.reportRate);
        continue;
      }
      var data := Read(src, copied, cfg.chunkSize);
      if data == [] {
        phase := Finished;
        reporter := MaybeReport(cfg, |src|, reporter, true, copied, t.reportNow, t.reportRate);
        break;
      }
      dst.content := dst.content + data;
      copied := copied + |data|;
      tokens := tokens - |data| as real;
      reporter := MaybeReport(cfg, |src|, reporter, false, copied, t.reportNow, t.reportRate);
    }
    RunFrozen(cfg, src, s0, ticks, i);
    outcome := Stopped(Copy(phase, tokens, last, copied, dst.content, reporter));
  }
}
