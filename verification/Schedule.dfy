/** The expected copy time over a piecewise rate schedule (tests/token_bucket.py). */
module Schedule {
  import opened Arith

  /** A rate in bytes per second and how long it applies; duration 0 means until the copy ends. */
  datatype Phase = Phase(rate: nat, duration: nat)

  datatype CopyTime = Finishes(time: real) | Raises

  /** The bytes that the schedule allows by time t. */
  function Allowed(schedule: seq<Phase>, t: real): real {
    if schedule == [] then 0.0
    else
      var rate, duration := schedule[0].rate as real, schedule[0].duration as real;
      if duration == 0.0 || t <= duration then Times(rate, t)
      else Times(rate, duration) + Allowed(schedule[1..], t - duration)
  }

  /** The seconds and the bytes of the first k phases, run in full. */
  function Elapsed(schedule: seq<Phase>, k: nat): int
    requires k <= |schedule|
  {
    if k == 0 then 0 else Elapsed(schedule, k - 1) + schedule[k - 1].duration
  }

  function Passed(schedule: seq<Phase>, k: nat): int
    requires k <= |schedule|
  {
    if k == 0 then 0 else Passed(schedule, k - 1) + schedule[k - 1].rate * schedule[k - 1].duration
  }

  lemma {:induction false} PassedFirst(schedule: seq<Phase>, k: nat)
    requires 0 < k <= |schedule|
    ensures Elapsed(schedule, k) == schedule[0].duration + Elapsed(schedule[1..], k - 1)
    ensures Passed(schedule, k) == schedule[0].rate * schedule[0].duration + Passed(schedule[1..], k - 1)
  {
    if 1 < k {
      PassedFirst(schedule, k - 1);
    }
  }

  /**
   What a schedule allows, phase by phase: within phase k, all of the earlier phases and
   its own rate for the time since they ended; after the last phase, all of them.
   */
  lemma {:induction false} AllowedInPhase(schedule: seq<Phase>, k: nat, u: real)
    requires k <= |schedule| && 0.0 <= u && forall j :: 0 <= j < k ==> 0 < schedule[j].duration
    requires k < |schedule| ==> schedule[k].duration == 0 || u <= schedule[k].duration as real
    ensures Allowed(schedule, Elapsed(schedule, k) as real + u) ==
            Passed(schedule, k) as real + if k < |schedule| then schedule[k].rate as real * u else 0.0
    decreases k
  {
    hide Allowed;
    if k == 0 {
      InFirst(schedule, u);
    } else {
      var rest := schedule[1..];
      forall j | 0 <= j < k - 1
        ensures 0 < rest[j].duration
      {
        assert rest[j] == schedule[j + 1];
      }
      PassedFirst(schedule, k);
      AllowedInPhase(rest, k - 1, u);
      ElapsedNonnegative(rest, k - 1);
      PastFirst(schedule, Elapsed(rest, k - 1) as real + u);
    }
  }

  lemma InFirst(schedule: seq<Phase>, u: real)
    requires schedule != [] ==> schedule[0].duration == 0 || u <= schedule[0].duration as real
    ensures Allowed(schedule, u) == if schedule == [] then 0.0 else schedule[0].rate as real * u
  {
  }

  lemma {:induction false} ElapsedNonnegative(schedule: seq<Phase>, k: nat)
    requires k <= |schedule|
    ensures 0 <= Elapsed(schedule, k)
  {
    if k != 0 {
      ElapsedNonnegative(schedule, k - 1);
    }
  }

  /** The first phase is over: at its very end the rest has allowed nothing yet. */
  lemma PastFirst(schedule: seq<Phase>, later: real)
    requires schedule != [] && 0 < schedule[0].duration && 0.0 <= later
    ensures Allowed(schedule, schedule[0].duration as real + later)
            == (schedule[0].rate * schedule[0].duration) as real + Allowed(schedule[1..], later)
  {
  }

  /** t is the least time at which the schedule allows `size` bytes. */
  ghost predicate IsLeast(schedule: seq<Phase>, size: int, t: real) {
    && 0.0 <= t && size as real <= Allowed(schedule, t)
    && forall u :: 0.0 <= u < t ==> Allowed(schedule, u) < size as real
  }

  /** The schedule never allows `size` bytes. */
  ghost predicate Never(schedule: seq<Phase>, size: int) {
    forall u :: 0.0 <= u ==> Allowed(schedule, u) < size as real
  }

  lemma FinishesInPhase(schedule: seq<Phase>, size: int)
    requires schedule != [] && 0 < size && 0 < schedule[0].rate
    requires schedule[0].duration == 0 || size <= schedule[0].rate * schedule[0].duration
    ensures IsLeast(schedule, size, size as real / schedule[0].rate as real)
  {
    var rate, duration := schedule[0].rate as real, schedule[0].duration as real;
    var t := size as real / rate;
    DivMul(size as real, rate);
    DivPos(size as real, rate);
    if schedule[0].duration != 0 {
      assert size as real <= duration * rate;
      DivLe(size as real, rate, duration);
    }
    assert Allowed(schedule, t) == size as real;
    forall u | 0.0 <= u < t
      ensures Allowed(schedule, u) < size as real
    {
      TimesStrict(rate, u, t);
    }
  }

  /** A phase that the file outlasts is passed in full. */
  lemma PassesPhase(schedule: seq<Phase>, size: int, u: real)
    requires schedule != [] && 0 < schedule[0].duration && schedule[0].rate * schedule[0].duration < size
    requires 0.0 <= u
    ensures var rate, duration := schedule[0].rate as real, schedule[0].duration as real;
      && Times(rate, duration) == (schedule[0].rate * schedule[0].duration) as real
      && (u <= duration ==> Allowed(schedule, u) < size as real)
      && Allowed(schedule, duration + u) == Times(rate, duration) + Allowed(schedule[1..], u)
  {
  }

  lemma ShiftPhase(schedule: seq<Phase>, size: int)
    requires schedule != [] && 0 < schedule[0].duration && schedule[0].rate * schedule[0].duration < size
    ensures var left := size - schedule[0].rate * schedule[0].duration;
      && (forall t :: IsLeast(schedule[1..], left, t) ==> IsLeast(schedule, size, schedule[0].duration as real + t))
      && (Never(schedule[1..], left) ==> Never(schedule, size))
  {
    hide Allowed, Times;
    var left, duration := size - schedule[0].rate * schedule[0].duration, schedule[0].duration as real;
    forall t | IsLeast(schedule[1..], left, t)
      ensures IsLeast(schedule, size, duration + t)
    {
      PassesPhase(schedule, size, t);
      forall u | 0.0 <= u < duration + t
        ensures Allowed(schedule, u) < size as real
      {
        BeforeOrAfter(schedule, size, u);
      }
    }
    if Never(schedule[1..], left) {
      forall u | 0.0 <= u
        ensures Allowed(schedule, u) < size as real
      {
        BeforeOrAfter(schedule, size, u);
      }
    }
  }

  lemma BeforeOrAfter(schedule: seq<Phase>, size: int, u: real)
    requires schedule != [] && 0 < schedule[0].duration && schedule[0].rate * schedule[0].duration < size
    requires 0.0 <= u
    ensures var left, duration := size - schedule[0].rate * schedule[0].duration, schedule[0].duration as real;
      if u <= duration then Allowed(schedule, u) < size as real
      else (Allowed(schedule, u) < size as real <==> Allowed(schedule[1..], u - duration) < left as real)
  {
    hide Allowed, Times;
    var duration := schedule[0].duration as real;
    PassesPhase(schedule, size, u);
    if duration < u {
      PassesPhase(schedule, size, u - duration);
      assert duration + (u - duration) == u;
    }
  }

  /** What is left of the schedule and of the file answers for the whole, `spent` seconds later. */
  ghost predicate Reduces(schedule: seq<Phase>, size: int, rest: seq<Phase>, left: int, spent: real) {
    && (forall t :: IsLeast(rest, left, t) ==> IsLeast(schedule, size, spent + t))
    && (Never(rest, left) ==> Never(schedule, size))
  }

  lemma ReducesPast(schedule: seq<Phase>, size: int, rest: seq<Phase>, left: int, spent: real)
    requires Reduces(schedule, size, rest, left, spent)
    requires rest != [] && 0 < rest[0].duration && rest[0].rate * rest[0].duration < left
    ensures Reduces(schedule, size, rest[1..], left - rest[0].rate * rest[0].duration, spent + rest[0].duration as real)
  {
    hide IsLeast, Never;
    ShiftPhase(rest, left);
    var d, later, left' := rest[0].duration as real, rest[1..], left - rest[0].rate * rest[0].duration;
    forall t | IsLeast(later, left', t)
      ensures IsLeast(schedule, size, spent + d + t)
    {
      assert spent + (d + t) == spent + d + t;
    }
  }

  lemma ReducesEnd(schedule: seq<Phase>, size: int, rest: seq<Phase>, left: int, spent: real)
    requires Reduces(schedule, size, rest, left, spent)
    requires rest != [] && 0 < left && 0 < rest[0].rate
    requires rest[0].duration == 0 || left <= rest[0].rate * rest[0].duration
    ensures var t := spent + left as real / rest[0].rate as real; IsLeast(schedule, size, t) && !Never(schedule, size)
  {
    hide IsLeast, Never;
    FinishesInPhase(rest, left);
    LeastNotNever(schedule, size, spent + left as real / rest[0].rate as real);
  }

  /**
   The least time at which the bytes allowed by the schedule reach the file size; the
   method raises exactly when there is no such time.
   */
  method ExpectedCopyTime(fileSize: int, schedule: seq<Phase>) returns (result: CopyTime)
    ensures result.Finishes? ==> IsLeast(schedule, fileSize, result.time)
    ensures result.Raises? <==> Never(schedule, fileSize)
  {
    hide IsLeast, Never, Reduces, Allowed;
    var remaining, totalTime := fileSize, 0.0;
    var i := 0;
    AtStart(schedule, fileSize);
    while i < |schedule|
      invariant 0 <= i <= |schedule|
      invariant Reduces(schedule, fileSize, schedule[i..], remaining, totalTime)
      invariant remaining <= 0 ==> totalTime == 0.0 && remaining == fileSize
    {
      if remaining <= 0 {
        break;
      }
      var rate, duration := schedule[i].rate, schedule[i].duration;
      ghost var rest := schedule[i..];
      assert rest[0] == schedule[i] && rest[1..] == schedule[i + 1..];
      if duration == 0 {
        if rate == 0 {
          DeadEnd(schedule, fileSize, rest, remaining, totalTime);
          return Raises;
        }
        ReducesEnd(schedule, fileSize, rest, remaining, totalTime);
        totalTime := totalTime + remaining as real / rate as real;
        return Finishes(totalTime);
      }
      if rate == 0 {
        ReducesPast(schedule, fileSize, rest, remaining, totalTime);
        totalTime := totalTime + duration as real;
        i := i + 1;
        continue;
      }
      var bytesCopiedInWindow := rate * duration;
      if remaining <= bytesCopiedInWindow {
        ReducesEnd(schedule, fileSize, rest, remaining, totalTime);
        totalTime := totalTime + remaining as real / rate as real;
        return Finishes(totalTime);
      }
      ReducesPast(schedule, fileSize, rest, remaining, totalTime);
      remaining := remaining - bytesCopiedInWindow;
      totalTime := totalTime + duration as real;
      i := i + 1;
    }
    if remaining > 0 {
      DeadEnd(schedule, fileSize, schedule[i..], remaining, totalTime);
      return Raises;
    }
    NothingNeeded(schedule, fileSize);
    result := Finishes(totalTime);
  }

  lemma AtStart(schedule: seq<Phase>, size: int)
    ensures Reduces(schedule, size, schedule[0..], size, 0.0)
  {
  }

  lemma NothingNeeded(schedule: seq<Phase>, size: int)
    requires size <= 0
    ensures IsLeast(schedule, size, 0.0) && !Never(schedule, size)
  {
  }

  /** An exhausted schedule, or a pause without end, allows nothing more. */
  lemma DeadEnd(schedule: seq<Phase>, size: int, rest: seq<Phase>, left: int, spent: real)
    requires Reduces(schedule, size, rest, left, spent)
    requires 0 < left && (rest == [] || rest[0] == Phase(0, 0))
    ensures Never(schedule, size)
  {
  }

  lemma LeastNotNever(schedule: seq<Phase>, size: int, t: real)
    requires IsLeast(schedule, size, t)
    ensures !Never(schedule, size)
  {
  }
}
