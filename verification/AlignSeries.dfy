/** The step-wise alignment of bandwidth series (benchmarks/e2e/plot_accumulated_bw.py). */
module AlignSeries {
  import opened Arith

  datatype Event = Event(time: real, worker: nat, rate: real)

  /** ValueError is what Python's min raises on an empty list. */
  datatype Result = ValueError | Aligned(timeline: seq<real>, rates: seq<seq<real>>)

  function Shorter(a: nat, b: nat): nat { if a <= b then a else b }

  // ---- Building the events ----------------------------------------------------

  /** The first n pairs of one worker's series. */
  function SeriesEvents(worker: nat, times: seq<real>, rates: seq<real>, n: nat): seq<Event>
    requires n <= |times| && n <= |rates|
  {
    seq(n, i requires 0 <= i < n => Event(times[i], worker, rates[i]))
  }

  /** The pairs of the first n workers, worker by worker; a longer list of a pair is cut off. */
  function AllEvents(times: seq<seq<real>>, rates: seq<seq<real>>, n: nat): seq<Event>
    requires n <= |times| && n <= |rates|
  {
    if n == 0 then []
    else AllEvents(times, rates, n - 1) +
         SeriesEvents(n - 1, times[n - 1], rates[n - 1], Shorter(|times[n - 1]|, |rates[n - 1]|))
  }

  lemma {:induction false} WorkersInRange(times: seq<seq<real>>, rates: seq<seq<real>>, n: nat)
    requires n <= |times| && n <= |rates|
    ensures forall e :: e in AllEvents(times, rates, n) ==> e.worker < n
  {
    if n != 0 {
      WorkersInRange(times, rates, n - 1);
    }
  }

  /** The number of pairs of the first n workers. */
  function Offset(times: seq<seq<real>>, rates: seq<seq<real>>, n: nat): nat
    requires n <= |times| && n <= |rates|
  {
    if n == 0 then 0 else Offset(times, rates, n - 1) + Shorter(|times[n - 1]|, |rates[n - 1]|)
  }

  /** Where each pair stands: after all pairs of earlier workers, in the order of its own series. */
  lemma {:induction false} EventPosition(times: seq<seq<real>>, rates: seq<seq<real>>, n: nat, w: nat, i: nat)
    requires w < n <= |times| && n <= |rates| && i < |times[w]| && i < |rates[w]|
    ensures |AllEvents(times, rates, n)| == Offset(times, rates, n)
    ensures Offset(times, rates, w) + i < |AllEvents(times, rates, n)|
    ensures AllEvents(times, rates, n)[Offset(times, rates, w) + i] == Event(times[w][i], w, rates[w][i])
  {
    AllEventsLength(times, rates, n - 1);
    if w < n - 1 {
      EventPosition(times, rates, n - 1, w, i);
    }
  }

  lemma {:induction false} AllEventsLength(times: seq<seq<real>>, rates: seq<seq<real>>, n: nat)
    requires n <= |times| && n <= |rates|
    ensures |AllEvents(times, rates, n)| == Offset(times, rates, n)
  {
    if n != 0 {
      AllEventsLength(times, rates, n - 1);
    }
  }

  // ---- The stable sort --------------------------------------------------------

  function InsertStable(sorted: seq<Event>, e: Event): seq<Event> {
    if sorted == [] || sorted[|sorted| - 1].time <= e.time then sorted + [e]
    else InsertStable(sorted[..|sorted| - 1], e) + [sorted[|sorted| - 1]]
  }

  /** Python's sort by time: it keeps the order of events with equal times. */
  function StableSort(events: seq<Event>): seq<Event> {
    if events == [] then [] else InsertStable(StableSort(events[..|events| - 1]), events[|events| - 1])
  }

  predicate SortedByTime(events: seq<Event>) {
    |events| <= 1 ||
    (SortedByTime(events[..|events| - 1]) && events[|events| - 2].time <= events[|events| - 1].time)
  }

  lemma {:induction false} SortedPairs(events: seq<Event>, i: nat, j: nat)
    requires SortedByTime(events) && i <= j < |events|
    ensures events[i].time <= events[j].time
    decreases |events|
  {
    var n := |events| - 1;
    if j < n {
      SortedPairs(events[..n], i, j);
    } else if i < n {
      SortedPairs(events[..n], i, n - 1);
    }
  }

  /** The events with exactly this time, in order. */
  function At(events: seq<Event>, t: real): seq<Event> {
    if events == [] then [] else At(events[..|events| - 1], t) + OneAt(events[|events| - 1], t)
  }

  function OneAt(e: Event, t: real): seq<Event> { if e.time == t then [e] else [] }

  lemma AtSnoc(events: seq<Event>, e: Event, t: real)
    ensures At(events + [e], t) == At(events, t) + OneAt(e, t)
  {
  }

  lemma {:induction false} InsertSorted(sorted: seq<Event>, e: Event)
    requires SortedByTime(sorted)
    ensures var inserted := InsertStable(sorted, e);
      && SortedByTime(inserted) && |inserted| == |sorted| + 1
      && inserted[|sorted|] == if sorted == [] || sorted[|sorted| - 1].time <= e.time then e else sorted[|sorted| - 1]
  {
    var n := |sorted|;
    if n == 0 || sorted[n - 1].time <= e.time {
      assert (sorted + [e])[..n] == sorted;
    } else {
      InsertSorted(sorted[..n - 1], e);
      var inner := InsertStable(sorted[..n - 1], e);
      assert (inner + [sorted[n - 1]])[..n] == inner;
    }
  }

  lemma {:induction false} InsertMultiset(sorted: seq<Event>, e: Event)
    ensures multiset(InsertStable(sorted, e)) == multiset(sorted) + multiset{e}
  {
    var n := |sorted|;
    if n != 0 && sorted[n - 1].time > e.time {
      InsertMultiset(sorted[..n - 1], e);
      assert sorted == sorted[..n - 1] + [sorted[n - 1]];
    }
  }

  lemma {:induction false} InsertAt(sorted: seq<Event>, e: Event, t: real)
    ensures At(InsertStable(sorted, e), t) == At(sorted, t) + OneAt(e, t)
  {
    var n := |sorted|;
    if n == 0 || sorted[n - 1].time <= e.time {
      AtSnoc(sorted, e, t);
    } else {
      var front, last := sorted[..n - 1], sorted[n - 1];
      InsertAt(front, e, t);
      AtSnoc(InsertStable(front, e), last, t);
      assert OneAt(e, t) == [] || OneAt(last, t) == [];
      assert At(front, t) + OneAt(last, t) + OneAt(e, t) == At(front, t) + OneAt(e, t) + OneAt(last, t);
    }
  }

  lemma {:induction false} SortSorted(events: seq<Event>)
    ensures SortedByTime(StableSort(events))
  {
    if events != [] {
      SortSorted(events[..|events| - 1]);
      InsertSorted(StableSort(events[..|events| - 1]), events[|events| - 1]);
    }
  }

  lemma {:induction false} SortMultiset(events: seq<Event>)
    ensures multiset(StableSort(events)) == multiset(events)
  {
    if events != [] {
      var front, e := events[..|events| - 1], events[|events| - 1];
      SortMultiset(front);
      InsertMultiset(StableSort(front), e);
      assert events == front + [e];
    }
  }

  lemma {:induction false} SortAt(events: seq<Event>, t: real)
    ensures At(StableSort(events), t) == At(events, t)
  {
    if events != [] {
      SortAt(events[..|events| - 1], t);
      InsertAt(StableSort(events[..|events| - 1]), events[|events| - 1], t);
    }
  }

  /** Sorted, the same events, and events with equal times in their old order: a stable sort. */
  lemma StableSortIsStable(events: seq<Event>)
    ensures SortedByTime(StableSort(events))
    ensures multiset(StableSort(events)) == multiset(events)
    ensures forall t :: At(StableSort(events), t) == At(events, t)
  {
    SortSorted(events);
    SortMultiset(events);
    forall t
      ensures At(StableSort(events), t) == At(events, t)
    {
      SortAt(events, t);
    }
  }

  // ---- Carry forward ----------------------------------------------------------

  /** The rate of a worker's latest event, 0 before its first. */
  function LatestRate(events: seq<Event>, worker: nat): real {
    if events == [] then 0.0
    else if events[|events| - 1].worker == worker then events[|events| - 1].rate
    else LatestRate(events[..|events| - 1], worker)
  }

  lemma {:induction false} NoRateYet(events: seq<Event>, worker: nat)
    requires forall j :: 0 <= j < |events| ==> events[j].worker != worker
    ensures LatestRate(events, worker) == 0.0
  {
    if events != [] {
      NoRateYet(events[..|events| - 1], worker);
    }
  }

  /** It is the rate of the event that no later event of the worker follows. */
  lemma {:induction false} LatestRateOf(events: seq<Event>, worker: nat, k: nat)
    requires k < |events| && events[k].worker == worker
    requires forall j :: k < j < |events| ==> events[j].worker != worker
    ensures LatestRate(events, worker) == events[k].rate
  {
    var n := |events| - 1;
    if k < n {
      assert forall j :: k < j < n ==> events[..n][j] == events[j];
      LatestRateOf(events[..n], worker, k);
    }
  }

  function Least(xs: seq<real>): real
    requires xs != []
  {
    if |xs| == 1 then xs[0] else Min(Least(xs[..|xs| - 1]), xs[|xs| - 1])
  }

  function StartTime(times: seq<seq<real>>): real
    requires times != [] && forall i :: 0 <= i < |times| ==> times[i] != []
  {
    Least(seq(|times|, i requires 0 <= i < |times| => Least(times[i])))
  }

  /** At every position of the stable time order each worker shows its latest rate so far. */
  ghost predicate CarriesForward(timeline: seq<real>, rates: seq<seq<real>>, events: seq<Event>, start: real) {
    && |timeline| == |events|
    && (forall j :: 0 <= j < |events| ==> timeline[j] == events[j].time - start)
    && (forall w :: 0 <= w < |rates| ==> |rates[w]| == |events|)
    && (forall w, j :: 0 <= w < |rates| && 0 <= j < |events| ==> rates[w][j] == LatestRate(events[..j + 1], w))
  }

  ghost predicate ShowsLatest(current: seq<real>, events: seq<Event>) {
    forall w :: 0 <= w < |current| ==> current[w] == LatestRate(events, w)
  }

  method BuildEvents(times: seq<seq<real>>, rates: seq<seq<real>>) returns (events: seq<Event>)
    ensures events == AllEvents(times, rates, Shorter(|times|, |rates|))
  {
    events := [];
    for worker := 0 to Shorter(|times|, |rates|)
      invariant events == AllEvents(times, rates, worker)
    {
      ghost var before := events;
      var n := Shorter(|times[worker]|, |rates[worker]|);
      for i := 0 to n
        invariant events == before + SeriesEvents(worker, times[worker], rates[worker], i)
      {
        events := events + [Event(times[worker][i], worker, rates[worker][i])];
      }
    }
  }

  /** Appends every worker's current rate to its line. */
  method AppendCurrent(lines: seq<seq<real>>, current: seq<real>) returns (longer: seq<seq<real>>)
    requires |lines| == |current|
    ensures |longer| == |lines|
    ensures forall w :: 0 <= w < |lines| ==> longer[w] == lines[w] + [current[w]]
  {
    longer := lines;
    for w := 0 to |current|
      invariant |longer| == |lines|
      invariant forall v :: 0 <= v < w ==> longer[v] == lines[v] + [current[v]]
      invariant forall v :: w <= v < |lines| ==> longer[v] == lines[v]
    {
      longer := longer[w := longer[w] + [current[w]]];
    }
  }

  /** The shared timeline and the aligned lines of all workers. */
  method Align(allTimes: seq<seq<real>>, allRates: seq<seq<real>>) returns (result: Result)
    ensures result == ValueError <==> allTimes == [] || exists i :: 0 <= i < |allTimes| && allTimes[i] == []
    ensures result.Aligned? ==>
              && |result.rates| == |allRates|
              && CarriesForward(result.timeline, result.rates,
                                StableSort(AllEvents(allTimes, allRates, Shorter(|allTimes|, |allRates|))),
                                StartTime(allTimes))
  {
    if allTimes == [] || exists i :: 0 <= i < |allTimes| && allTimes[i] == [] {
      return ValueError;
    }
    var start := StartTime(allTimes);
    var unsorted := BuildEvents(allTimes, allRates);
    var events := StableSort(unsorted);
    SortedWorkersInRange(allTimes, allRates, Shorter(|allTimes|, |allRates|), events);
    hide LatestRate, CarriesForward, StableSort, AllEvents, ShowsLatest;
    StartCarries(events, start, |allRates|);
    var current := seq(|allRates|, _ => 0.0);
    var timeline: seq<real> := [];
    var lines: seq<seq<real>> := seq(|allRates|, _ => []);
    for j := 0 to |events|
      invariant |current| == |lines| == |allRates|
      invariant ShowsLatest(current, events[..j])
      invariant CarriesForward(timeline, lines, events[..j], start)
    {
      var e := events[j];
      NextLatest(events, j, current);
      current := current[e.worker := e.rate];
      var before := timeline;
      timeline := timeline + [e.time - start];
      var longer := AppendCurrent(lines, current);
      CarryOn(before, lines, longer, current, events, j, start);
      lines := longer;
    }
    assert events[..|events|] == events;
    result := Aligned(timeline, lines);
  }

  lemma SortedWorkersInRange(times: seq<seq<real>>, rates: seq<seq<real>>, n: nat, events: seq<Event>)
    requires n <= |times| && n <= |rates| && events == StableSort(AllEvents(times, rates, n))
    ensures forall j :: 0 <= j < |events| ==> events[j].worker < n
  {
    var unsorted := AllEvents(times, rates, n);
    WorkersInRange(times, rates, n);
    SortMultiset(unsorted);
    forall j | 0 <= j < |events|
      ensures events[j].worker < n
    {
      assert events[j] in multiset(events);
      assert events[j] in unsorted;
    }
  }

  lemma StartCarries(events: seq<Event>, start: real, n: nat)
    ensures CarriesForward([], seq(n, _ => []), events[..0], start)
    ensures ShowsLatest(seq(n, _ => 0.0), events[..0])
  {
  }

  lemma NextLatest(events: seq<Event>, j: nat, current: seq<real>)
    requires j < |events| && events[j].worker < |current| && ShowsLatest(current, events[..j])
    ensures ShowsLatest(current[events[j].worker := events[j].rate], events[..j + 1])
  {
    var prefix := events[..j + 1];
    assert prefix[..|prefix| - 1] == events[..j] && prefix[|prefix| - 1] == events[j];
  }

  lemma CarryOn(timeline: seq<real>, lines: seq<seq<real>>, longer: seq<seq<real>>, current: seq<real>,
                events: seq<Event>, j: nat, start: real)
    requires j < |events| && CarriesForward(timeline, lines, events[..j], start)
    requires |longer| == |lines| == |current|
    requires ShowsLatest(current, events[..j + 1])
    requires forall w :: 0 <= w < |lines| ==> longer[w] == lines[w] + [current[w]]
    ensures CarriesForward(timeline + [events[j].time - start], longer, events[..j + 1], start)
  {
    hide LatestRate;
    var prefix := events[..j + 1];
    forall w, i | 0 <= w < |longer| && 0 <= i < |prefix|
      ensures longer[w][i] == LatestRate(prefix[..i + 1], w)
    {
      assert prefix[..i + 1] == events[..i + 1];
      if i < j { assert events[..j][..i + 1] == events[..i + 1]; }
    }
  }

  /** The timeline of equally long series starts at 0 and never goes back. */
  lemma TimelineFromZero(times: seq<seq<real>>, rates: seq<seq<real>>, timeline: seq<real>, lines: seq<seq<real>>)
    requires times != [] && |times| == |rates|
    requires forall i :: 0 <= i < |times| ==> times[i] != [] && |times[i]| == |rates[i]|
    requires CarriesForward(timeline, lines, StableSort(AllEvents(times, rates, |times|)), StartTime(times))
    ensures timeline != [] && timeline[0] == 0.0
    ensures forall i, j :: 0 <= i < j < |timeline| ==> timeline[i] <= timeline[j]
  {
    hide AllEvents, StableSort, SortedByTime;
    var unsorted := AllEvents(times, rates, |times|);
    var events, start := StableSort(unsorted), StartTime(times);
    SortSorted(unsorted);
    SortMultiset(unsorted);
    StartIsFirst(times, rates);
    var e :| e in unsorted && e.time == start;
    assert e in multiset(events);
    var k: nat :| k < |events| && events[k] == e;
    SortedPairs(events, 0, k);
    assert events[0] in multiset(events);
    assert events[0] in unsorted;
    forall i: nat, j: nat | i < j < |events|
      ensures events[i].time <= events[j].time
    {
      SortedPairs(events, i, j);
    }
  }

  /** The start time is the time of some event and of none later. */
  lemma StartIsFirst(times: seq<seq<real>>, rates: seq<seq<real>>)
    requires times != [] && |times| == |rates|
    requires forall i :: 0 <= i < |times| ==> times[i] != [] && |times[i]| == |rates[i]|
    ensures exists e :: e in AllEvents(times, rates, |times|) && e.time == StartTime(times)
    ensures forall e :: e in AllEvents(times, rates, |times|) ==> StartTime(times) <= e.time
  {
    hide Least;
    var mins := seq(|times|, i requires 0 <= i < |times| => Least(times[i]));
    LeastIsLeast(mins);
    var w: nat :| w < |mins| && mins[w] == StartTime(times);
    LeastIsLeast(times[w]);
    var i: nat :| i < |times[w]| && times[w][i] == StartTime(times);
    EventThere(times, rates, |times|, w, i);
    forall e | e in AllEvents(times, rates, |times|)
      ensures StartTime(times) <= e.time
    {
      var v, k := EventFrom(times, rates, |times|, e);
      LeastIsLeast(times[v]);
      assert mins[v] <= e.time;
    }
  }

  lemma {:induction false} LeastIsLeast(xs: seq<real>)
    requires xs != []
    ensures exists i: nat :: i < |xs| && xs[i] == Least(xs)
    ensures forall i :: 0 <= i < |xs| ==> Least(xs) <= xs[i]
  {
    if |xs| == 1 {
      assert xs[0] == Least(xs);
    } else {
      var n: nat := |xs| - 1;
      LeastIsLeast(xs[..n]);
      var k: nat :| k < n && xs[..n][k] == Least(xs[..n]);
      assert Least(xs) == xs[k] || Least(xs) == xs[n];
      forall i | 0 <= i < n
        ensures Least(xs) <= xs[i]
      {
        assert xs[..n][i] == xs[i];
      }
    }
  }

  lemma {:induction false} EventThere(times: seq<seq<real>>, rates: seq<seq<real>>, n: nat, w: nat, i: nat)
    requires w < n <= |times| && n <= |rates| && i < |times[w]| && i < |rates[w]|
    ensures Event(times[w][i], w, rates[w][i]) in AllEvents(times, rates, n)
  {
    if w == n - 1 {
      var own := SeriesEvents(w, times[w], rates[w], Shorter(|times[w]|, |rates[w]|));
      assert own[i] in own;
    } else {
      EventThere(times, rates, n - 1, w, i);
    }
  }

  lemma {:induction false} EventFrom(times: seq<seq<real>>, rates: seq<seq<real>>, n: nat, e: Event)
    returns (w: nat, i: nat)
    requires n <= |times| && n <= |rates| && e in AllEvents(times, rates, n)
    ensures w < n && i < |times[w]| && times[w][i] == e.time
  {
    var own := SeriesEvents(n - 1, times[n - 1], rates[n - 1], Shorter(|times[n - 1]|, |rates[n - 1]|));
    if e in own {
      w := n - 1;
      i :| 0 <= i < |own| && own[i] == e;
    } else {
      w, i := EventFrom(times, rates, n - 1, e);
    }
  }

  // ---- Accumulated lines ------------------------------------------------------

  /** The sum of the first k lines at one sample. */
  function StackedRate(lines: seq<seq<real>>, k: nat, sample: nat): real
    requires k <= |lines| && forall w :: 0 <= w < k ==> sample < |lines[w]|
  {
    if k == 0 then 0.0 else StackedRate(lines, k - 1, sample) + lines[k - 1][sample]
  }

  /** IndexError is what reading past the end of a shorter line raises. */
  datatype Stack = IndexError | Stacked(lines: seq<seq<real>>)

  /** Some line is longer than one below it. */
  predicate Ragged(lines: seq<seq<real>>) { exists w, k :: 0 <= w < k < |lines| && |lines[w]| < |lines[k]| }

  /**
   Line k accumulates the first k + 1 workers: it exceeds the line below by exactly
   worker k's line. That fails exactly when a line is longer than one below it.
   */
  method Accumulate(lines: seq<seq<real>>) returns (stack: Stack)
    ensures stack.IndexError? <==> Ragged(lines)
    ensures stack.Stacked? ==>
              |stack.lines| == |lines| && forall k :: 0 <= k < |lines| ==> |stack.lines[k]| == |lines[k]|
    ensures stack.Stacked? ==> forall k, s :: 0 <= k < |lines| && 0 <= s < |lines[k]| ==>
              stack.lines[k][s] - (if k == 0 then 0.0 else stack.lines[k - 1][s]) == lines[k][s]
  {
    var accumulated: seq<seq<real>> := [];
    for k := 0 to |lines|
      invariant |accumulated| == k
      invariant forall w, i :: 0 <= w < i < k ==> |lines[i]| <= |lines[w]|
      invariant forall i :: 0 <= i < k ==> |accumulated[i]| == |lines[i]|
      invariant forall i, s :: 0 <= i < k && 0 <= s < |lines[i]| ==> accumulated[i][s] == StackedRate(lines, i + 1, s)
    {
      if exists w :: 0 <= w < k && |lines[w]| < |lines[k]| {
        return IndexError;
      }
      var acc := seq(|lines[k]|, s requires 0 <= s < |lines[k]| => StackedRate(lines, k + 1, s));
      accumulated := accumulated + [acc];
    }
    stack := Stacked(accumulated);
  }
}
