/**
 How far stale grants can overshoot the bandwidth. Every heartbeat re-decides one
 worker's rate only; the other workers keep rates that were decided on older registries.
 */
module OvershootLaws {
  import opened Arith
  import opened Sums
  import opened Cluster
  import opened Policies
  import opened PolicyLaws
  import opened Orchestrator

  /** All weights that the policy can ever use lie in [lo, hi]. */
  ghost predicate WeightBounds(p: Policy, lo: real, hi: real) {
    && 0.0 < lo <= hi
    && if p.StaticPriority? then forall id :: lo <= StaticWeight(p, id) <= hi
       else lo <= LowWeight(p) && HighWeight(p) <= hi
  }

  lemma BoundsHold(p: Policy, workers: Registry, now: real, lo: real, hi: real)
    requires p.Valid() && WeightBounds(p, lo, hi)
    ensures WeightsWithin(p, workers, now, lo, hi)
  {
    if !p.StaticPriority? {
      WeightRange(p, workers, now);
    }
  }

  /** Every valid policy has such bounds: a static priority map is finite. */
  lemma BoundsExist(p: Policy) returns (lo: real, hi: real)
    requires p.Valid()
    ensures WeightBounds(p, lo, hi)
  {
    if p.StaticPriority? {
      lo, hi := StaticBounds(p, p.priorities);
    } else {
      lo, hi := LowWeight(p), HighWeight(p);
    }
  }

  lemma {:induction false} StaticBounds(p: Policy, seen: map<string, real>) returns (lo: real, hi: real)
    requires p.Valid() && p.StaticPriority?
    ensures 0.0 < lo <= p.defaultPriority <= hi
    ensures forall id :: id in seen || id !in p.priorities ==> lo <= StaticWeight(p, id) <= hi
    decreases |seen|
  {
    if seen == map[] {
      lo, hi := p.defaultPriority, p.defaultPriority;
    } else {
      var id :| id in seen;
      RemoveShrinks(seen, id);
      lo, hi := StaticBounds(p, seen - {id});
      lo, hi := Min(lo, StaticWeight(p, id)), Max(hi, StaticWeight(p, id));
      assert forall i :: i in seen ==> i == id || i in seen - {id};
    }
  }

  /** The order of last decision among the sharers: the oldest grant first. */
  ghost function Order(p: Policy, messages: seq<Message>): seq<string>
    requires p.Valid()
  {
    if messages == [] then []
    else
      var order := Order(p, messages[..|messages| - 1]);
      match messages[|messages| - 1]
      case Heartbeat(b, _) =>
        Without(order, b.id) + if b.id in Sharers(p, Run(p, messages).workers) then [b.id] else []
      case Disconnect(id) => if id == "" then order else Without(order, id)
  }

  ghost function Without(order: seq<string>, id: string): seq<string> {
    if id in order then
      var i :| 0 <= i < |order| && order[i] == id;
      order[..i] + order[i + 1..]
    else order
  }

  /** The most that the worker at position k of the order can have been granted. */
  function Cap(bandwidth: real, lo: real, hi: real, k: nat): real
    requires 0.0 < lo <= hi
  {
    CapPositive(lo, hi, k);
    Share(bandwidth, hi, hi + Times(lo, k as real))
  }

  lemma CapPositive(lo: real, hi: real, k: nat)
    requires 0.0 < lo <= hi
    ensures 0.0 < hi + Times(lo, k as real)
  {
  }

  function CapSum(bandwidth: real, lo: real, hi: real, n: nat): real
    requires 0.0 < lo <= hi
  {
    if n == 0 then 0.0 else CapSum(bandwidth, lo, hi, n - 1) + Cap(bandwidth, lo, hi, n - 1)
  }

  lemma CapDecreases(bandwidth: real, lo: real, hi: real, k: nat)
    requires 0.0 <= bandwidth && 0.0 < lo <= hi
    ensures Cap(bandwidth, lo, hi, k + 1) <= Cap(bandwidth, lo, hi, k)
  {
    hide Share, Times;
    CapPositive(lo, hi, k);
    TimesMono(lo, k as real, (k + 1) as real);
    ShareAtLeast(bandwidth, hi, hi, hi + Times(lo, k as real), hi + Times(lo, (k + 1) as real));
  }

  /** Grants along an order, each within the cap of its position. */
  ghost predicate Capped(order: seq<string>, granted: map<string, real>, bandwidth: real, lo: real, hi: real)
    requires 0.0 < lo <= hi
  {
    forall k: nat :: k < |order| ==> order[k] in granted && granted[order[k]] <= Cap(bandwidth, lo, hi, k)
  }

  lemma WithoutEnumerates(order: seq<string>, keys: set<string>, id: string)
    requires Enumerates(order, keys)
    ensures Enumerates(Without(order, id), keys - {id})
    ensures id !in Without(order, id)
  {
  }

  lemma WithoutCapped(order: seq<string>, id: string, granted: map<string, real>, bandwidth: real, lo: real, hi: real)
    requires 0.0 <= bandwidth && 0.0 < lo <= hi && Capped(order, granted, bandwidth, lo, hi)
    ensures Capped(Without(order, id), granted, bandwidth, lo, hi)
  {
    hide Cap;
    if id in order {
      var i: nat :| i < |order| && order[i] == id && Without(order, id) == order[..i] + order[i + 1..];
      forall k: nat | k < |order| - 1 {
        CapDecreases(bandwidth, lo, hi, k);
      }
    }
  }

  lemma AppendCapped(order: seq<string>, keys: set<string>, id: string, granted: map<string, real>, rate: real,
                     bandwidth: real, lo: real, hi: real)
    requires 0.0 < lo <= hi && Enumerates(order, keys) && id !in keys
    requires Capped(order, granted, bandwidth, lo, hi) && rate <= Cap(bandwidth, lo, hi, |order|)
    ensures Enumerates(order + [id], keys + {id})
    ensures Capped(order + [id], granted[id := rate], bandwidth, lo, hi)
  {
  }

  lemma KeyedRun(p: Policy, messages: seq<Message>)
    requires p.Valid()
    ensures Keyed(Run(p, messages).workers)
  {
  }

  /** A grant just decided: the other n sharers weigh at least lo each, so it is within the cap of position n. */
  lemma FreshGrantCapped(p: Policy, id: string, workers: Registry, now: real, lo: real, hi: real, n: nat)
    requires p.Valid() && Keyed(workers) && 0.0 <= p.bandwidth && WeightBounds(p, lo, hi)
    requires id in Sharers(p, workers) && |Sharers(p, workers) - {id}| == n
    ensures Decide(p, id, workers, now).action == StartFlush
    ensures Decide(p, id, workers, now).rate <= Cap(p.bandwidth, lo, hi, n)
  {
    hide Weights, Decide, Share, Times;
    TimesAdd(lo, 0.0, 0.0);
    BoundsHold(p, workers, now, lo, hi);
    GrantIsShare(p, id, workers, now);
    var weights := Weights(p, workers, now);
    var others := weights - {id};
    SumRemove(weights, id);
    assert others.Keys == Sharers(p, workers) - {id};
    assert |others.Keys| == |others|;
    SumBounds(others, lo, hi);
    CapPositive(lo, hi, n);
    TimesMono(lo, 0.0, n as real);
    LargerPart(p.bandwidth, weights[id], hi, Times(lo, n as real), Sum(weights));
  }

  lemma LargerPart(bandwidth: real, w: real, hi: real, rest: real, total: real)
    requires 0.0 <= bandwidth && 0.0 < w <= hi && 0.0 <= rest && w + rest <= total
    ensures Share(bandwidth, w, total) <= Share(bandwidth, hi, hi + rest)
  {
    hide Times;
    FractionOfRest(w, hi, rest, total);
    ShareFactor(bandwidth, w, total);
    ShareFactor(bandwidth, hi, hi + rest);
    TimesMono(bandwidth, w / total, hi / (hi + rest));
  }

  lemma ShareFactor(bandwidth: real, weight: real, total: real)
    requires 0.0 < total
    ensures Share(bandwidth, weight, total) == Times(bandwidth, weight / total)
  {
  }

  lemma FractionOfRest(w: real, hi: real, rest: real, total: real)
    requires 0.0 < w <= hi && 0.0 <= rest && w + rest <= total
    ensures w / total <= hi / (hi + rest)
  {
    CrossLe(w, total, hi, hi + rest);
    MulMono(w, hi, rest);
    MulMono(w + rest, total, hi);
  }

  /** In every reachable state the order lists the sharers, each grant within the cap of its position. */
  lemma {:induction false} OrderCapped(p: Policy, messages: seq<Message>, lo: real, hi: real)
    requires p.Valid() && 0.0 <= p.bandwidth && WeightBounds(p, lo, hi)
    ensures Enumerates(Order(p, messages), Sharers(p, Run(p, messages).workers))
    ensures Capped(Order(p, messages), Run(p, messages).granted, p.bandwidth, lo, hi)
  {
    if messages == [] {
      assert Sharers(p, Run(p, messages).workers) == {};
    } else {
      var front, m := messages[..|messages| - 1], messages[|messages| - 1];
      OrderCapped(p, front, lo, hi);
      var order, s := Order(p, front), Run(p, front);
      var sharers := Sharers(p, s.workers);
      match m {
        case Heartbeat(b, decidedAt) =>
          HeartbeatCapped(p, messages, b, decidedAt, lo, hi);
        case Disconnect(id) =>
          if id != "" {
            hide Cap;
            WithoutEnumerates(order, sharers, id);
            WithoutCapped(order, id, s.granted, p.bandwidth, lo, hi);
            assert Sharers(p, s.workers - {id}) == sharers - {id};
          }
      }
    }
  }

  lemma HeartbeatCapped(p: Policy, messages: seq<Message>, b: Beat, decidedAt: real, lo: real, hi: real)
    requires p.Valid() && 0.0 <= p.bandwidth && WeightBounds(p, lo, hi)
    requires messages != [] && messages[|messages| - 1] == Message.Heartbeat(b, decidedAt)
    requires var front := messages[..|messages| - 1];
      && Enumerates(Order(p, front), Sharers(p, Run(p, front).workers))
      && Capped(Order(p, front), Run(p, front).granted, p.bandwidth, lo, hi)
    ensures Enumerates(Order(p, messages), Sharers(p, Run(p, messages).workers))
    ensures Capped(Order(p, messages), Run(p, messages).granted, p.bandwidth, lo, hi)
  {
    hide Decide, Cap, Updated, Sharers, Enumerates, Capped;
    var front := messages[..|messages| - 1];
    var order, s, s' := Order(p, front), Run(p, front), Run(p, messages);
    var others := Sharers(p, s.workers) - {b.id};
    WithoutEnumerates(order, Sharers(p, s.workers), b.id);
    WithoutCapped(order, b.id, s.granted, p.bandwidth, lo, hi);
    UpdatedSharers(p, s.workers, b);
    var rest := Without(order, b.id);
    assert s' == Handle(p, s, messages[|messages| - 1]);
    if b.id in Sharers(p, s'.workers) {
      assert others + {b.id} == Sharers(p, s'.workers);
      KeyedRun(p, messages);
      EnumerationSize(rest, others);
      FreshGrantCapped(p, b.id, s'.workers, decidedAt, lo, hi, |rest|);
      AppendCapped(rest, others, b.id, s.granted, s'.granted[b.id], p.bandwidth, lo, hi);
      assert Order(p, messages) == rest + [b.id];
    } else {
      assert others == Sharers(p, s'.workers);
      assert Order(p, messages) == rest;
      NoGrant(p, b.id, s'.workers, decidedAt);
    }
  }

  lemma NoGrant(p: Policy, id: string, workers: Registry, now: real)
    requires p.Valid() && id in workers && id !in Sharers(p, workers)
    ensures Decide(p, id, workers, now) == HOLD
  {
  }

  /** A heartbeat changes the sharing of its sender only. */
  lemma UpdatedSharers(p: Policy, workers: Registry, b: Beat)
    ensures b.id in Updated(workers, b)
    ensures Sharers(p, Updated(workers, b)) - {b.id} == Sharers(p, workers) - {b.id}
  {
  }

  lemma {:induction false} EnumerationSize(ids: seq<string>, keys: set<string>)
    requires Enumerates(ids, keys)
    ensures |ids| == |keys|
    decreases |ids|
  {
    if ids == [] {
      assert keys == {};
    } else {
      EnumerationFront(ids, keys);
      EnumerationSize(ids[..|ids| - 1], keys - {ids[|ids| - 1]});
    }
  }

  /** The last rates granted to the workers that share the bandwidth now. */
  ghost function SharedGrants(p: Policy, s: System): map<string, real> {
    map id | id in Sharers(p, s.workers) && id in s.granted :: s.granted[id]
  }

  lemma {:induction false} CappedTotal(order: seq<string>, granted: map<string, real>,
                                         bandwidth: real, lo: real, hi: real)
    requires 0.0 < lo <= hi && Capped(order, granted, bandwidth, lo, hi)
    ensures Total(Along(order, granted)) <= CapSum(bandwidth, lo, hi, |order|)
    decreases |order|
  {
    if order != [] {
      hide Cap;
      var n := |order| - 1;
      assert order[..n] + [order[n]] == order;
      CappedTotal(order[..n], granted, bandwidth, lo, hi);
      assert Along(order, granted)[..n] == Along(order[..n], granted);
    }
  }

  /**
   The overshoot bound. In every reachable state, over any interleaving of heartbeats
   and disconnects, the last-granted rates of the n workers that share the bandwidth
   add up to at most the sum over k < n of bandwidth * hi / (hi + k * lo).
   */
  lemma StaleGrantOvershoot(p: Policy, messages: seq<Message>, lo: real, hi: real)
    requires p.Valid() && 0.0 <= p.bandwidth && WeightBounds(p, lo, hi)
    ensures var s := Run(p, messages);
      && SharedGrants(p, s).Keys == Sharers(p, s.workers)
      && Sum(SharedGrants(p, s)) <= CapSum(p.bandwidth, lo, hi, |Sharers(p, s.workers)|)
  {
    hide Run, Order, Cap;
    OrderCapped(p, messages, lo, hi);
    var s, order := Run(p, messages), Order(p, messages);
    var sharers, grants := Sharers(p, s.workers), SharedGrants(p, s);
    forall id | id in sharers
      ensures id in s.granted
    {
      assert id in order;
      var k :| 0 <= k < |order| && order[k] == id;
    }
    assert grants.Keys == sharers;
    SumAlong(order, grants);
    EnumerationSize(order, sharers);
    assert Capped(order, grants, p.bandwidth, lo, hi);
    CappedTotal(order, grants, p.bandwidth, lo, hi);
  }

  // ---- The harmonic bound -----------------------------------------------------

  function OneOver(n: nat): real
    requires 0 < n
  {
    1.0 / n as real
  }

  /** 1 + 1/2 + ... + 1/n */
  function Harmonic(n: nat): real { if n == 0 then 0.0 else Harmonic(n - 1) + OneOver(n) }

  lemma {:induction false} CapSumHarmonic(bandwidth: real, n: nat)
    ensures CapSum(bandwidth, 1.0, 1.0, n) == Times(bandwidth, Harmonic(n))
  {
    TimesAdd(bandwidth, 0.0, 0.0);
    if n != 0 {
      CapSumHarmonic(bandwidth, n - 1);
      TimesAdd(bandwidth, Harmonic(n - 1), OneOver(n));
      CapUnit(bandwidth, n);
      hide Times, Cap;
    }
  }

  lemma CapUnit(bandwidth: real, n: nat)
    requires 0 < n
    ensures Cap(bandwidth, 1.0, 1.0, n - 1) == Times(bandwidth, OneOver(n)) == bandwidth / n as real
  {
  }

  /** Under the two fair-share policies the bound is the bandwidth times the harmonic number of n. */
  lemma FairShareOvershoot(p: Policy, messages: seq<Message>)
    requires 0.0 <= p.bandwidth && (p.UniformFairShare? || p.ActiveFairShare?)
    ensures var s := Run(p, messages);
      Sum(SharedGrants(p, s)) <= Times(p.bandwidth, Harmonic(|Sharers(p, s.workers)|))
  {
    hide Run, SharedGrants, CapSum;
    StaleGrantOvershoot(p, messages, 1.0, 1.0);
    CapSumHarmonic(p.bandwidth, |Sharers(p, Run(p, messages).workers)|);
  }

  // ---- The bound is reached ---------------------------------------------------

  function Name(k: nat): string { seq(k, _ => 'w') }

  function Joining(k: nat): Message { Message.Heartbeat(Beat(Name(k), 1.0, false, 0, 0, 0.0), 0.0) }

  /** n workers that become active one after the other and heartbeat once each. */
  function Arrivals(n: nat): seq<Message> { seq(n, i requires 0 <= i => Joining(i)) }

  ghost predicate Arrived(s: System, n: nat) {
    && (forall k: nat :: Name(k) in s.workers <==> k < n)
    && (forall id :: id in s.workers ==> s.workers[id].checkpointSize > 0.0)
    && |s.workers| == n && s.granted.Keys == s.workers.Keys
  }

  /** The state after n arrivals: n sharers whose grants add up to the bandwidth times H(n). */
  ghost predicate AtBound(p: Policy, s: System, n: nat) {
    && Arrived(s, n) && |Sharers(p, s.workers)| == n
    && Sum(SharedGrants(p, s)) == Times(p.bandwidth, Harmonic(n))
  }

  /** For every n some run reaches the harmonic bound exactly, so no smaller bound holds. */
  lemma {:induction false} FairShareOvershootReached(p: Policy, n: nat)
    requires p.UniformFairShare? || p.ActiveFairShare?
    ensures AtBound(p, Run(p, Arrivals(n)), n)
  {
    if n == 0 {
      assert Arrivals(0) == [];
      assert Sharers(p, map[]) == {};
      assert SharedGrants(p, System(map[], map[])) == map[];
      TimesAdd(p.bandwidth, 0.0, 0.0);
    } else {
      hide Handle, Joining, AtBound;
      var m := n - 1;
      FairShareOvershootReached(p, m);
      assert Arrivals(n)[..m] == Arrivals(m);
      ArrivalStep(p, Run(p, Arrivals(m)), m);
    }
  }

  lemma ArrivalStep(p: Policy, s: System, m: nat)
    requires p.UniformFairShare? || p.ActiveFairShare?
    requires AtBound(p, s, m)
    ensures AtBound(p, Handle(p, s, Joining(m)), m + 1)
  {
    hide Handle, Joining, Arrived, SharedGrants, Sharers, Times, OneOver, Sum;
    ArrivalGrant(p, s, m);
    TimesAdd(p.bandwidth, Harmonic(m), OneOver(m + 1));
  }

  lemma ArrivalGrant(p: Policy, s: System, m: nat)
    requires p.UniformFairShare? || p.ActiveFairShare?
    requires Arrived(s, m)
    ensures var s' := Handle(p, s, Joining(m));
      && Arrived(s', m + 1) && |Sharers(p, s'.workers)| == m + 1
      && Sum(SharedGrants(p, s')) == Sum(SharedGrants(p, s)) + Times(p.bandwidth, OneOver(m + 1))
  {
    hide Handle, Joining, Arrived, ActiveIds, Times, OneOver, Sum;
    ArrivedNext(p, s, m);
    ArrivalShares(p, s, m);
    var s' := Handle(p, s, Joining(m));
    var id := Name(m);
    var grants, grants' := SharedGrants(p, s), SharedGrants(p, s');
    assert grants' - {id} == grants;
    SumRemove(grants', id);
  }

  lemma ArrivedNext(p: Policy, s: System, m: nat)
    requires p.UniformFairShare? || p.ActiveFairShare?
    requires Arrived(s, m)
    ensures Arrived(Handle(p, s, Joining(m)), m + 1)
  {
  }

  /** The newcomer is granted the bandwidth over m + 1; nobody else's sharing changes. */
  lemma ArrivalShares(p: Policy, s: System, m: nat)
    requires p.UniformFairShare? || p.ActiveFairShare?
    requires Arrived(s, m)
    ensures var s', id := Handle(p, s, Joining(m)), Name(m);
      && s'.workers.Keys == s.workers.Keys + {id} && |s'.workers.Keys| == m + 1
      && ActiveIds(s.workers) == s.workers.Keys && ActiveIds(s'.workers) == s'.workers.Keys
      && s'.granted == s.granted[id := Times(p.bandwidth, OneOver(m + 1))]
      && id !in s.workers && s.granted.Keys == s.workers.Keys
  {
    hide Sum, Weights;
    var workers := Updated(s.workers, Joining(m).b);
    assert workers.Keys == s.workers.Keys + {Name(m)};
    assert ActiveIds(workers) == workers.Keys;
    assert ActiveIds(s.workers) == s.workers.Keys;
    CapUnit(p.bandwidth, m + 1);
  }
}
