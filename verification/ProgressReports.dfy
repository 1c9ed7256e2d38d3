/** What the progress reports of a copy say, over every run of the loop. */
module ProgressReports {
  import opened Arith
  import opened TokenBucket
  import opened TokenBucketLaws

  /** The bytes that one report accounts for. */
  function Covered(rep: Report): real { rep.intervalThroughput * rep.interval }

  function Reported(reports: seq<Report>): real
  {
    if reports == [] then 0.0 else Reported(Front(reports)) + Covered(Last(reports))
  }

  /** One report of a file of `total` bytes, copied at rates of at most r. */
  predicate SoundReport(rep: Report, total: nat, r: int) {
    && 0 <= rep.bytesCopied && 0 <= rep.remainingBytes
    && rep.bytesCopied + rep.remainingBytes == rep.totalBytes == total
    && 0.0 < rep.interval
    && rep.averageThroughput <= r as real
  }

  /** Every report is sound, and each continues from the one before it. */
  predicate SoundReports(reports: seq<Report>, total: nat, r: int) {
    reports == [] ||
    (SoundReports(Front(reports), total, r) && SoundReport(Last(reports), total, r) &&
     (|reports| == 1 || Follows(Last(Front(reports)), Last(reports))))
  }

  predicate Follows(a: Report, b: Report) { a.bytesCopied <= b.bytesCopied && a.time < b.time }

  predicate SoundReporter(rp: Reporter, job: Job, r: int) {
    && rp.start == job.copyStart <= rp.time
    && SoundReports(rp.reports, |job.src|, r)
    && Reported(rp.reports) == rp.bytes as real
    && (rp.reports != [] ==> Last(rp.reports).bytesCopied == rp.bytes && Last(rp.reports).time == rp.time)
  }

  lemma MaybeReportSound(rp: Reporter, job: Job, r: int, force: bool, copied: nat, now: real, rate: int)
    requires SoundReporter(rp, job, r)
    requires rp.bytes <= copied <= |job.src|
    requires rp.time <= now && copied as real <= Earned(now - job.copyStart, r)
    ensures var rp' := MaybeReport(job.cfg, |job.src|, rp, force, copied, now, rate);
      && SoundReporter(rp', job, r)
      && rp'.bytes <= copied && rp'.time <= now
  {
  }

  // ---- Every field of every report ----------------------------------------------

  /** The time and the bytes of the latest report, or those at the start of the copy. */
  function ReportTime(job: Job, reports: seq<Report>): real {
    if reports == [] then job.copyStart else Last(reports).time
  }

  function ReportBytes(reports: seq<Report>): int { if reports == [] then 0 else Last(reports).bytesCopied }

  /**
   A report after these: its interval and average throughput are what their names say,
   measured from the report before and from the start of the copy.
   */
  predicate ExactReport(job: Job, reports: seq<Report>, rep: Report) {
    && 0.0 < rep.interval == rep.time - ReportTime(job, reports)
    && rep.intervalThroughput * rep.interval == (rep.bytesCopied - ReportBytes(reports)) as real
    && rep.averageThroughput * (rep.time - job.copyStart) == rep.bytesCopied as real
    && rep.totalBytes == |job.src| && rep.remainingBytes == |job.src| - rep.bytesCopied
    && rep.chunkSize == job.cfg.chunkSize
  }

  predicate ExactReports(job: Job, reports: seq<Report>) {
    reports == [] || (ExactReports(job, Front(reports)) && ExactReport(job, Front(reports), Last(reports)))
  }

  /** What the last iteration reports, and when it does. */
  predicate ReportsWhenDue(job: Job, before: Copy, after: Copy, t: Tick) {
    var passed := t.reportNow - ReportTime(job, before.reporter.reports);
    var forced := t.rate == 0 || after.phase.Finished?;
    var due := job.cfg.hasCallback && 0.0 < passed && (forced || job.cfg.updateInterval <= passed);
    if due then
      && after.reporter.reports != [] && Front(after.reporter.reports) == before.reporter.reports
      && var rep := Last(after.reporter.reports);
         && rep.time == t.reportNow && rep.configuredRate == t.reportRate && rep.bytesCopied == after.copied
    else after.reporter.reports == before.reporter.reports
  }

  /** The reporter's own variables are those of its latest report. */
  predicate Remembers(job: Job, rp: Reporter) {
    && rp.start == job.copyStart <= rp.time
    && rp.time == ReportTime(job, rp.reports) && rp.bytes == ReportBytes(rp.reports)
    && ExactReports(job, rp.reports)
  }

  lemma NewReportExact(rp: Reporter, job: Job, copied: nat, now: real, rate: int)
    requires rp.start == job.copyStart <= rp.time < now && copied <= |job.src|
    requires rp.time == ReportTime(job, rp.reports) && rp.bytes == ReportBytes(rp.reports)
    ensures var rep := MakeReport(job.cfg, |job.src|, rp, copied, now, rate);
      && ExactReport(job, rp.reports, rep)
      && rep.time == now && rep.bytesCopied == copied && rep.configuredRate == rate
  {
    DivMul((copied - rp.bytes) as real, now - rp.time);
    DivMul(copied as real, now - rp.start);
  }

  lemma RemembersStep(rp: Reporter, job: Job, force: bool, copied: nat, now: real, rate: int)
    requires Remembers(job, rp) && copied <= |job.src|
    ensures var rp' := MaybeReport(job.cfg, |job.src|, rp, force, copied, now, rate);
      && Remembers(job, rp')
      && var passed := now - ReportTime(job, rp.reports);
         if job.cfg.hasCallback && 0.0 < passed && (force || job.cfg.updateInterval <= passed) then
           && rp'.reports != [] && Front(rp'.reports) == rp.reports
           && Last(rp'.reports).time == now && Last(rp'.reports).configuredRate == rate
           && Last(rp'.reports).bytesCopied == copied
         else rp'.reports == rp.reports
  {
    hide MakeReport, ExactReport;
    if rp.time < now {
      NewReportExact(rp, job, copied, now, rate);
    }
  }

  /**
   The progress reports, exactly. In every run every field of every report is what its
   name says, and each iteration reports if and only if there is a callback, the clock has
   moved since the report before, and a pause or the end forces it or the interval has passed.
   */
  lemma {:induction false} ReportsExact(job: Job, ticks: seq<Tick>)
    requires job.Valid() && Ordered(job, ticks) && Performed(job, ticks)
    ensures ExactReports(job, job.After(ticks).reporter.reports)
    ensures ticks != [] ==> ReportsWhenDue(job, job.After(Front(ticks)), job.After(ticks), Last(ticks))
    ensures Remembers(job, job.After(ticks).reporter)
  {
    hide Step, MaybeReport, ExactReports;
    if ticks == [] {
      StartRemembers(job);
    } else {
      var front, t := Front(ticks), Last(ticks);
      PerformedFront(job, ticks);
      ReportsExact(job, front);
      TokenConservation(job, ticks);
      StepReporter(job, job.After(front), t);
      RemembersStep(job.After(front).reporter, job, t.rate == 0 || job.After(ticks).phase.Finished?,
                    job.After(ticks).copied, t.reportNow, t.reportRate);
    }
  }

  lemma StartRemembers(job: Job)
    requires job.Valid()
    ensures Remembers(job, job.After([]).reporter)
  {
  }

  /** Every iteration calls the reporter once, forced on a pause and at the end. */
  lemma StepReporter(job: Job, s: Copy, t: Tick)
    requires job.Valid() && s.phase.Running? && 0 <= t.rate
    ensures var s' := Step(job.cfg, job.src, s, t);
      s'.reporter == MaybeReport(job.cfg, |job.src|, s.reporter, t.rate == 0 || s'.phase.Finished?,
                                 s'.copied, t.reportNow, t.reportRate)
  {
  }

  /**
   Report soundness. In every run whose sampled rates are at most r, each report's
   average throughput is at most r and its bytes copied and remaining make up the
   file; the reported bytes never decrease, the times increase, and the reported
   throughputs times their intervals add up to the bytes of the last report.
   */
  lemma {:induction false} ReportsSound(job: Job, ticks: seq<Tick>, r: int)
    requires job.Valid() && Ordered(job, ticks) && Performed(job, ticks)
    requires RatesAtMost(ticks, r) && 0 <= r
    ensures var s := job.After(ticks);
      && SoundReporter(s.reporter, job, r)
      && s.reporter.bytes <= s.copied
      && s.reporter.time <= LastTime(job, ticks)
  {
    hide Step, Earned, MaybeReport, SoundReporter, Credit, Discarded, DiscardAt, Capacity;
    if ticks == [] {
      StartSound(job, r);
    } else {
      var front, t := Front(ticks), Last(ticks);
      PerformedFront(job, ticks);
      ReportsSound(job, front, r);
      TokenConservation(job, front);
      StepConserves(job, job.After(front), t);
      StepReporter(job, job.After(front), t);
      RateLimit(job, ticks, r);
      CreditBounded(job, ticks, r);
      EarnedGrows(t.now - job.start, t.reportNow - job.copyStart, r);
      var s, s' := job.After(front), job.After(ticks);
      MaybeReportSound(s.reporter, job, r, t.rate == 0 || s'.phase.Finished?, s'.copied, t.reportNow, t.reportRate);
    }
  }

  lemma StartSound(job: Job, r: int)
    requires job.Valid()
    ensures SoundReporter(job.After([]).reporter, job, r)
  {
  }

  /**
   The last report of a finished copy says that nothing remains exactly when the clock
   had moved since the report before the final one, or that one was already complete.
   */
  lemma FinalReport(job: Job, ticks: seq<Tick>, r: int)
    requires job.Valid() && Ordered(job, ticks) && Performed(job, ticks)
    requires RatesAtMost(ticks, r) && 0 <= r
    requires job.cfg.hasCallback && job.After(ticks).phase.Finished?
    ensures var before, after := job.After(Front(ticks)).reporter, job.After(ticks).reporter;
      (after.reports != [] && Last(after.reports).remainingBytes == 0) <==>
      (before.time < Last(ticks).reportNow || (before.reports != [] && before.bytes == |job.src|))
  {
    var front, t := Front(ticks), Last(ticks);
    PerformedFront(job, ticks);
    ReportsSound(job, front, r);
    ReportsSound(job, ticks, r);
    TokenConservation(job, ticks);
    StepReporter(job, job.After(front), t);
    hide Step, Earned;
  }

  lemma Extend(job: Job, ticks: seq<Tick>, t: Tick)
    requires job.Valid() && Ordered(job, ticks)
    requires 0 <= t.rate && LastTime(job, ticks) <= t.now <= t.reportNow
    ensures Ordered(job, ticks + [t]) && Last(ticks + [t]) == t && Front(ticks + [t]) == ticks
    ensures job.After(ticks + [t]) == Step(job.cfg, job.src, job.After(ticks), t)
  {
  }

  /** Two one-byte chunks and the end of the file, all read at one clock reading. */
  lemma StalledSteps(job: Job, t: Tick)
    requires job == Job(Config(1, true, 0.5), [7, 7], 0.0, 0.0) && t == Tick(1.0, 10, 1.0, 10)
    ensures var s1 := Step(job.cfg, job.src, Start(0.0, 0.0), t);
      var s2 := Step(job.cfg, job.src, s1, t);
      var s3 := Step(job.cfg, job.src, s2, t);
      && s1.phase.Running? && s2.phase.Running? && s3.phase.Finished? && s3.dst == job.src
      && s3.reporter.reports != [] && Last(s3.reporter.reports).remainingBytes == 1
  {
  }

  /** The final report can be missing: the last report of this finished copy shows one byte remaining. */
  lemma FinalReportSkipped() returns (job: Job, ticks: seq<Tick>)
    ensures job.Valid() && Ordered(job, ticks) && Performed(job, ticks) && job.cfg.hasCallback
    ensures job.After(ticks).phase.Finished? && job.After(ticks).dst == job.src
    ensures job.After(ticks).reporter.reports != [] && Last(job.After(ticks).reporter.reports).remainingBytes == 1
  {
    hide Step;
    job := Job(Config(1, true, 0.5), [7, 7], 0.0, 0.0);
    var t := Tick(1.0, 10, 1.0, 10);
    var one := [] + [t];
    var two := one + [t];
    ticks := two + [t];
    Extend(job, [], t);
    Extend(job, one, t);
    Extend(job, two, t);
    StalledSteps(job, t);
  }
}
