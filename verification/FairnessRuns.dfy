/**
 Whole sequential runs of the limiter under a nondecreasing clock: what a bounded number of
 principals can be charged, and when the bounded map of buckets is as good as an unbounded one.
 */
module FairnessRuns {
  import opened Basics
  import opened Pacers
  import opened Fairness

  /** One call: Admit with its two clock readings, TrySharedOnly, or one of the advisory checks. */
  datatype Op =
    | Admit(principal: string, victim: string, t1: real, t2: real)
    | SharedOnly(at: real)
    | AskShared(at: real)
    | AskPrincipal(principal: string, at: real)
  {
    function Start(): real { if Admit? then t1 else at }
    function End(): real { if Admit? then t2 else at }
  }

  datatype Outcome = Admission(result: AdmitResult) | Flag(ok: bool)

  function Step(l: Limiter, op: Op): (Limiter, Outcome) {
    match op
    case Admit(p, v, t1, t2) => var (l', r) := l.Admit(p, v, t1, t2); (l', Admission(r))
    case SharedOnly(t) => var (s, ok) := l.shared.Take(t); (l.(shared := s), Flag(ok))
    case AskShared(t) => (l.(shared := l.shared.Refill(t)), Flag(l.shared.Take(t).1))
    case AskPrincipal(p, t) =>
      (if p in l.buckets then l.(buckets := l.buckets[p := l.buckets[p].Refill(t)]) else l,
       Flag(l.PrincipalAvailable(p, t)))
  }

  ghost predicate LegalStep(l: Limiter, from: real, op: Op) {
    && from <= op.Start() <= op.End()
    && (op.Admit? ==> l.MayEvict(op.principal, op.victim))
  }

  ghost predicate LegalRun(l: Limiter, from: real, ops: seq<Op>)
    decreases ops
  {
    ops != [] ==> LegalStep(l, from, ops[0]) && LegalRun(Step(l, ops[0]).0, ops[0].End(), ops[1..])
  }

  function Results(l: Limiter, ops: seq<Op>): seq<Outcome>
    decreases ops
  {
    if ops == [] then [] else [Step(l, ops[0]).1] + Results(Step(l, ops[0]).0, ops[1..])
  }

  function Final(l: Limiter, ops: seq<Op>): Limiter
    decreases ops
  {
    if ops == [] then l else Final(Step(l, ops[0]).0, ops[1..])
  }

  lemma StepKeepsValid(l: Limiter, from: real, op: Op)
    requires l.Valid() && l.NotAfter(from) && LegalStep(l, from, op)
    ensures Step(l, op).0.Valid() && Step(l, op).0.NotAfter(op.End())
    ensures Step(l, op).0.principalRate == l.principalRate && Step(l, op).0.principalBurst == l.principalBurst
    ensures Step(l, op).0.capacity == l.capacity
  {
    match op {
      case Admit(p, v, t1, t2) =>
        AdmitKeepsValid(l, p, v, t1, t2);
        AdmitNotAfter(l, p, v, t1, t2);
      case SharedOnly(t) => StaysInRange(l.shared, t);
      case AskShared(t) => StaysInRange(l.shared, t);
      case AskPrincipal(p, t) =>
        if p in l.buckets {
          ChargeKeepsValid(l, p, t);
          StaysInRange(l.buckets[p], t);
        }
    }
    hide Bucket.Refill, Bucket.Take, Limiter.Admit;
  }

  lemma AdmitNotAfter(l: Limiter, p: string, v: string, t1: real, t2: real)
    requires l.Valid() && l.MayEvict(p, v) && l.NotAfter(t1) && t1 <= t2
    ensures l.Admit(p, v, t1, t2).0.NotAfter(t2)
  {
    LookupKeepsValid(l, p, v);
    var looked := l.Lookup(p, v);
    assert looked.NotAfter(t1);
    StaysInRange(looked.buckets[p], t1);
    StaysInRange(l.shared, t2);
    AdmitParts(l, p, v, t1, t2);
    hide Bucket.Refill, Bucket.Take, Limiter.Admit, Limiter.Lookup;
  }

  /** Every reachable limiter is valid: tokens in [0, burst] and at most `capacity` buckets. */
  lemma {:induction false} ReachableIsValid(l: Limiter, from: real, ops: seq<Op>)
    requires l.Valid() && l.NotAfter(from) && LegalRun(l, from, ops)
    ensures Final(l, ops).Valid()
    ensures |Final(l, ops).buckets| <= l.capacity
    ensures forall p :: p in Final(l, ops).buckets ==> 0.0 <= Final(l, ops).buckets[p].tokens <= l.principalBurst
    decreases ops
  {
    if ops != [] {
      StepKeepsValid(l, from, ops[0]);
      ReachableIsValid(Step(l, ops[0]).0, ops[0].End(), ops[1..]);
    }
  }

  // ------------------------------------- how much k principals can be charged

  /** A call that cost the principal a token: Admitted or SharedExhausted. */
  function Charges(o: Outcome): nat {
    if o.Admission? && o.result != PrincipalExhausted then 1 else 0
  }

  function Charged(l: Limiter, ops: seq<Op>): nat
    decreases ops
  {
    if ops == [] then 0 else Charges(Step(l, ops[0]).1) + Charged(Step(l, ops[0]).0, ops[1..])
  }

  ghost predicate Distinct(ps: seq<string>) {
    forall i, j :: 0 <= i < j < |ps| ==> ps[i] != ps[j]
  }

  /** Only principals of `ps` have buckets or make calls. */
  ghost predicate Within(l: Limiter, ops: seq<Op>, ps: seq<string>) {
    && (forall p :: p in l.buckets ==> p in ps)
    && (forall i :: 0 <= i < |ops| && ops[i].Admit? ==> ops[i].principal in ps)
  }

  /** No call of the run evicts a bucket. */
  ghost predicate EvictsNothing(l: Limiter, ops: seq<Op>)
    decreases ops
  {
    ops != [] ==>
      (ops[0].Admit? ==> !l.Evicts(ops[0].principal)) && EvictsNothing(Step(l, ops[0]).0, ops[1..])
  }

  function LevelOf(l: Limiter, p: string, t: real): real {
    if p in l.buckets then l.buckets[p].Level(t) else l.principalBurst
  }

  /** Tokens the principals `ps` could spend at time t, an absent bucket counting as a full one. */
  function Allowance(l: Limiter, ps: seq<string>, t: real): real
    decreases ps
  {
    if ps == [] then 0.0 else LevelOf(l, ps[0], t) + Allowance(l, ps[1..], t)
  }

  /** k copies of an amount. Proofs hide the product and use the laws below it. */
  function Times(k: nat, x: real): real {
    k as real * x
  }

  lemma TimesLaws(k: nat, x: real, y: real)
    ensures Times(k + 1, x) == Times(k, x) + x
    ensures Times(k, x + y) == Times(k, x) + Times(k, y)
    ensures 0.0 <= x ==> 0.0 <= Times(k, x)
    ensures Times(0, x) == 0.0
  {
  }

  /** Tokens k principals earn between two instants. */
  function Earned(k: nat, from: real, to: real, rate: real): real {
    Times(k, Earn(to - from, rate))
  }

  lemma EarnedAdds(k: nat, from: real, mid: real, to: real, rate: real)
    ensures Earned(k, from, mid, rate) + Earned(k, mid, to, rate) == Earned(k, from, to, rate)
  {
    hide Earn, Times;
    EarnSplits(from, mid, to, rate);
    TimesLaws(k, Earn(mid - from, rate), Earn(to - mid, rate));
  }

  lemma EarnedNonNegative(k: nat, from: real, to: real, rate: real)
    requires from <= to && 0.0 <= rate
    ensures 0.0 <= Earned(k, from, to, rate)
  {
    hide Earn, Times;
    EarnNonNegative(to - from, rate);
    TimesLaws(k, Earn(to - from, rate), 0.0);
  }

  lemma LevelOfRange(l: Limiter, p: string, t: real)
    requires l.Valid()
    ensures 0.0 <= LevelOf(l, p, t) <= l.principalBurst
  {
    hide Earn;
    if p in l.buckets {
      StaysInRange(l.buckets[p], t);
    }
  }

  lemma LevelOfGrows(l: Limiter, p: string, t1: real, t2: real)
    requires l.Valid() && l.NotAfter(t1) && t1 <= t2
    ensures LevelOf(l, p, t2) <= LevelOf(l, p, t1) + Earn(t2 - t1, l.principalRate)
    ensures 0.0 <= Earn(t2 - t1, l.principalRate)
  {
    hide Earn;
    EarnNonNegative(t2 - t1, l.principalRate);
    if p in l.buckets {
      LevelGrows(l.buckets[p], t1, t2);
    }
  }

  lemma {:induction false} AllowanceRange(l: Limiter, ps: seq<string>, t: real)
    requires l.Valid()
    ensures 0.0 <= Allowance(l, ps, t) <= Times(|ps|, l.principalBurst)
    decreases ps
  {
    hide LevelOf, Times;
    TimesLaws(if ps == [] then 0 else |ps[1..]|, l.principalBurst, 0.0);
    if ps != [] {
      AllowanceRange(l, ps[1..], t);
      LevelOfRange(l, ps[0], t);
    }
  }

  lemma {:induction false} AllowanceGrows(l: Limiter, ps: seq<string>, t1: real, t2: real)
    requires l.Valid() && l.NotAfter(t1) && t1 <= t2
    ensures Allowance(l, ps, t2) <= Allowance(l, ps, t1) + Earned(|ps|, t1, t2, l.principalRate)
    decreases ps
  {
    hide LevelOf, Times, Earn;
    TimesLaws(if ps == [] then 0 else |ps[1..]|, Earn(t2 - t1, l.principalRate), 0.0);
    if ps != [] {
      AllowanceGrows(l, ps[1..], t1, t2);
      LevelOfGrows(l, ps[0], t1, t2);
    }
  }

  /** Spending `cost` of one principal's level takes that much off the allowance. */
  lemma {:induction false} AllowanceSpent(l: Limiter, l': Limiter, ps: seq<string>, t: real, p: string, cost: real)
    requires Distinct(ps)
    requires LevelOf(l', p, t) == LevelOf(l, p, t) - cost
    requires forall q :: q in ps && q != p ==> LevelOf(l', q, t) == LevelOf(l, q, t)
    ensures Allowance(l', ps, t) == Allowance(l, ps, t) - (if p in ps then cost else 0.0)
    decreases ps
  {
    if ps != [] {
      AllowanceSpent(l, l', ps[1..], t, p, cost);
    }
  }

  lemma {:induction false} FewerThan(s: set<string>, ps: seq<string>, p: string)
    requires Distinct(ps) && (forall q :: q in s ==> q in ps) && p in ps && p !in s
    ensures |s| < |ps|
    decreases ps
  {
    var rest := s - {ps[0]};
    if ps[0] == p {
      if s != {} {
        var q :| q in s;
        AtMost(s, ps[1..]);
      }
    } else {
      FewerThan(rest, ps[1..], p);
    }
  }

  lemma {:induction false} AtMost(s: set<string>, ps: seq<string>)
    requires Distinct(ps) && forall q :: q in s ==> q in ps
    ensures |s| <= |ps|
    decreases ps
  {
    if ps != [] {
      AtMost(s - {ps[0]}, ps[1..]);
    } else {
      assert s == {};
    }
  }

  /** One call costs the allowance what it charges; time gives back at most |ps| refills. */
  lemma StepCost(l: Limiter, from: real, op: Op, ps: seq<string>)
    requires l.Valid() && l.NotAfter(from) && LegalStep(l, from, op)
    requires Distinct(ps) && |ps| <= l.capacity && Within(l, [op], ps)
    ensures op.Admit? ==> !l.Evicts(op.principal)
    ensures forall p :: p in Step(l, op).0.buckets ==> p in ps
    ensures Allowance(Step(l, op).0, ps, op.End()) + Charges(Step(l, op).1) as real
            <= Allowance(l, ps, from) + Earned(|ps|, from, op.End(), l.principalRate)
  {
    hide Bucket.Refill, Bucket.Level, Times;
    if op.Admit? {
      assert [op][0].principal in ps;
      if op.principal !in l.buckets {
        FewerThan(l.buckets.Keys, ps, op.principal);
      }
      AdmitCost(l, from, op, ps);
    } else {
      AllowanceGrows(l, ps, from, op.End());
      AdviceIsFree(l, from, op, ps);
    }
  }

  lemma AdviceIsFree(l: Limiter, from: real, op: Op, ps: seq<string>)
    requires !op.Admit? && l.Valid() && l.NotAfter(from) && LegalStep(l, from, op) && Distinct(ps)
    ensures Allowance(Step(l, op).0, ps, op.End()) == Allowance(l, ps, op.End())
  {
    hide Earn;
    var p := if op.AskPrincipal? then op.principal else "";
    if op.AskPrincipal? && p in l.buckets {
      RefillComposes(l.buckets[p], op.at, op.at);
    }
    AllowanceSpent(l, Step(l, op).0, ps, op.End(), p, 0.0);
  }

  /** The limiter after the principal stage of an Admit, before the shared stage. */
  function AfterCharge(l: Limiter, op: Op): Limiter
    requires op.Admit?
  {
    Step(l, op).0.(shared := l.shared)
  }

  lemma ChargeCost(l: Limiter, from: real, op: Op, ps: seq<string>)
    requires op.Admit? && l.Valid() && l.NotAfter(from) && LegalStep(l, from, op)
    requires Distinct(ps) && op.principal in ps && !l.Evicts(op.principal)
    ensures AfterCharge(l, op).Valid() && AfterCharge(l, op).NotAfter(op.t1)
    ensures Allowance(AfterCharge(l, op), ps, op.t1) == Allowance(l, ps, op.t1) - Charges(Step(l, op).1) as real
  {
    hide Earn;
    var p := op.principal;
    var b := l.Lookup(p, op.victim).buckets[p];
    StepKeepsValid(l, from, op);
    StaysInRange(b, op.t1);
    LevelAfterTake(b, op.t1, op.t1);
    EarnNothing(b.rate);
    assert LevelOf(l, p, op.t1) == b.Level(op.t1);
    AllowanceSpent(l, AfterCharge(l, op), ps, op.t1, p, Charges(Step(l, op).1) as real);
  }

  /** The charge is counted at t1; the time up to t2 only adds refills. */
  lemma AdmitCost(l: Limiter, from: real, op: Op, ps: seq<string>)
    requires op.Admit? && l.Valid() && l.NotAfter(from) && LegalStep(l, from, op)
    requires Distinct(ps) && op.principal in ps && !l.Evicts(op.principal)
    ensures Allowance(Step(l, op).0, ps, op.End()) + Charges(Step(l, op).1) as real
            <= Allowance(l, ps, from) + Earned(|ps|, from, op.End(), l.principalRate)
  {
    hide Bucket.Refill, Bucket.Level, Times;
    var l1, r := AfterCharge(l, op), l.principalRate;
    ChargeCost(l, from, op, ps);
    AllowanceGrows(l, ps, from, op.t1);
    AllowanceGrows(l1, ps, op.t1, op.t2);
    SameAllowance(l1, Step(l, op).0, ps, op.t2);
    EarnedAdds(|ps|, from, op.t1, op.t2, r);
  }

  lemma {:induction false} SameAllowance(l: Limiter, l': Limiter, ps: seq<string>, t: real)
    requires l.buckets == l'.buckets && l.principalBurst == l'.principalBurst
    ensures Allowance(l, ps, t) == Allowance(l', ps, t)
    decreases ps
  {
    if ps != [] {
      SameAllowance(l, l', ps[1..], t);
    }
  }

  /** The running form: charges so far plus the remaining allowance never exceed the initial budget. */
  lemma {:induction false} ChargedWithinAllowance(l: Limiter, from: real, to: real, ops: seq<Op>, ps: seq<string>)
    requires l.Valid() && l.NotAfter(from) && LegalRun(l, from, ops) && from <= to
    requires forall i :: 0 <= i < |ops| ==> ops[i].End() <= to
    requires Distinct(ps) && |ps| <= l.capacity && Within(l, ops, ps)
    ensures EvictsNothing(l, ops)
    ensures Charged(l, ops) as real <= Allowance(l, ps, from) + Earned(|ps|, from, to, l.principalRate)
    decreases ops
  {
    hide Bucket.Refill, Bucket.Level, Times;
    if ops == [] {
      AllowanceRange(l, ps, from);
      EarnedNonNegative(|ps|, from, to, l.principalRate);
    } else {
      var op, rest := ops[0], ops[1..];
      assert Within(l, [op], ps);
      StepKeepsValid(l, from, op);
      StepCost(l, from, op, ps);
      forall i | 0 <= i < |rest| && rest[i].Admit? ensures rest[i].principal in ps {
        assert ops[i + 1].principal in ps;
      }
      ChargedWithinAllowance(Step(l, op).0, op.End(), to, rest, ps);
      EarnedAdds(|ps|, from, op.End(), to, l.principalRate);
    }
  }

  /**
   With at most `capacity` distinct principals nothing is evicted, and in any window [from, to] the
   charged admissions of all of them are at most |ps| bursts plus what |ps| buckets earn in it.
   */
  lemma ChargedInWindow(l: Limiter, from: real, to: real, ops: seq<Op>, ps: seq<string>)
    requires l.Valid() && l.NotAfter(from) && LegalRun(l, from, ops) && from <= to
    requires forall i :: 0 <= i < |ops| ==> ops[i].End() <= to
    requires Distinct(ps) && |ps| <= l.capacity && Within(l, ops, ps)
    ensures EvictsNothing(l, ops)
    ensures Charged(l, ops) as real <= Times(|ps|, l.principalBurst) + Earned(|ps|, from, to, l.principalRate)
  {
    hide Bucket.Refill, Bucket.Level, Times;
    ChargedWithinAllowance(l, from, to, ops, ps);
    AllowanceRange(l, ps, from);
  }

  /** The budget spelled out: k bursts, and k times the rate over the length of the window. */
  lemma ChargedInPlainTerms(l: Limiter, from: real, to: real, ops: seq<Op>, ps: seq<string>)
    requires l.Valid() && l.NotAfter(from) && LegalRun(l, from, ops) && from <= to
    requires forall i :: 0 <= i < |ops| ==> ops[i].End() <= to
    requires Distinct(ps) && |ps| <= l.capacity && Within(l, ops, ps)
    ensures Charged(l, ops) as real <=
            |ps| as real * l.principalBurst + |ps| as real * ((to - from) * l.principalRate)
  {
    hide *;
    ChargedInWindow(l, from, to, ops, ps);
    BudgetMeans(|ps|, l.principalBurst, from, to, l.principalRate);
  }

  lemma BudgetMeans(k: nat, burst: real, from: real, to: real, rate: real)
    ensures Times(k, burst) == k as real * burst && Earned(k, from, to, rate) == k as real * ((to - from) * rate)
  {
  }

  /** A window long enough for k bursts to stop mattering against an app rate shared `divisor` ways. */
  predicate LongWindow(k: nat, rate: real, divisor: int, burst: real, length: real) {
    length * rate * (divisor - k) as real > k as real * burst * divisor as real
  }

  /** Fewer principals than the divisor cannot sustain the app rate: long windows stay below it. */
  lemma FewPrincipalsStayBelowRate(
      l: Limiter, rate: real, divisor: int, from: real, to: real, ops: seq<Op>, ps: seq<string>)
    requires l.Valid() && l.NotAfter(from) && LegalRun(l, from, ops) && from <= to
    requires forall i :: 0 <= i < |ops| ==> ops[i].End() <= to
    requires Distinct(ps) && |ps| <= l.capacity && Within(l, ops, ps)
    requires 1 <= divisor && |ps| < divisor && 0.0 < rate && l.principalRate == rate / divisor as real
    requires LongWindow(|ps|, rate, divisor, l.principalBurst, to - from)
    ensures Charged(l, ops) as real < (to - from) * rate
  {
    hide *;
    ChargedInWindow(l, from, to, ops, ps);
    BelowRate(|ps|, rate, divisor, l.principalBurst, l.principalRate, from, to);
  }

  lemma BelowRate(k: nat, rate: real, divisor: int, burst: real, share: real, from: real, to: real)
    requires 1 <= divisor && share == rate / divisor as real
    requires LongWindow(k, rate, divisor, burst, to - from)
    ensures Times(k, burst) + Earned(k, from, to, share) < (to - from) * rate
  {
    var n, d, g := divisor as real, (to - from) * rate, (to - from) * share;
    assert share * n == rate;
    assert g * n == (to - from) * (share * n) == d;
    BelowProduct(k as real, d, n, burst, g);
  }

  lemma BelowProduct(k: real, d: real, n: real, burst: real, g: real)
    requires 0.0 < n && g * n == d && d * (n - k) > k * burst * n
    ensures k * burst + k * g < d
  {
    var total := k * burst + k * g;
    assert k * (g * n) == k * d;
    assert total * n == k * burst * n + k * (g * n);
    assert total * n < d * n;
    CancelFactor(total, d, n);
  }

  lemma CancelFactor(a: real, b: real, n: real)
    requires 0.0 < n && a * n < b * n
    ensures a < b
  {
    if a - b >= 0.0 {
      EarnNonNegative(a - b, n);
    }
  }

  // -------------------------- bounded map against a map that never evicts

  /** The same call on a limiter that has room for one more bucket. */
  function StepUnbounded(u: Limiter, op: Op): (Limiter, Outcome) {
    Step(u.(capacity := |u.buckets| + 1), op)
  }

  function ResultsUnbounded(u: Limiter, ops: seq<Op>): seq<Outcome>
    decreases ops
  {
    if ops == [] then [] else [StepUnbounded(u, ops[0]).1] + ResultsUnbounded(StepUnbounded(u, ops[0]).0, ops[1..])
  }

  /** Every bucket the run evicts is full once refilled to the instant of the eviction. */
  ghost predicate EvictsOnlyFull(l: Limiter, ops: seq<Op>)
    decreases ops
  {
    ops != [] ==>
      && (var op := ops[0];
          op.Admit? && l.Evicts(op.principal) && op.victim in l.buckets ==>
            l.buckets[op.victim].Level(op.t1) == l.principalBurst)
      && EvictsOnlyFull(Step(l, ops[0]).0, ops[1..])
  }

  /** The unbounded limiter has the bounded one's buckets, and beyond them only full ones. */
  ghost predicate Simulates(l: Limiter, u: Limiter, now: real) {
    && u.BucketsValid() && u.NotAfter(now)
    && u.shared == l.shared && u.principalRate == l.principalRate && u.principalBurst == l.principalBurst
    && (forall p :: p in l.buckets ==> p in u.buckets && u.buckets[p] == l.buckets[p])
    && (forall p :: p in u.buckets && p !in l.buckets ==> u.buckets[p].Level(now) == u.principalBurst)
  }

  lemma FullStaysFull(b: Bucket, t1: real, t2: real)
    requires b.Valid() && b.NotAfter(t1) && t1 <= t2 && b.Level(t1) == b.burst
    ensures b.Level(t2) == b.burst
    ensures b.Refill(t2) == Fresh(b.rate, b.burst).Refill(t2)
    ensures b.Take(t2) == Fresh(b.rate, b.burst).Take(t2)
    ensures b.Take(t2).1 <==> b.burst >= 1.0
  {
    hide Earn;
    LevelGrows(b, t1, t2);
    StaysInRange(b, t2);
    assert b.Refill(t2).last == Some(t2);
  }

  /** No call at `t` or later tells the bucket from a fresh one. */
  ghost predicate ActsFresh(b: Bucket, t: real) {
    && b.Level(t) == b.burst && b.Refill(t).Level(t) == b.burst
    && b.Take(t) == Fresh(b.rate, b.burst).Take(t)
    && (b.Take(t).1 <==> b.burst >= 1.0)
  }

  lemma ExtraBucketsAreFull(l: Limiter, u: Limiter, from: real, t: real)
    requires Simulates(l, u, from) && from <= t
    ensures forall p :: p in u.buckets && p !in l.buckets ==> ActsFresh(u.buckets[p], t)
  {
    hide Earn;
    forall p | p in u.buckets && p !in l.buckets ensures ActsFresh(u.buckets[p], t) {
      FullStaysFull(u.buckets[p], from, t);
      RefillComposes(u.buckets[p], t, t);
    }
  }

  /** What both limiters find when they look the principal up. */
  lemma LookupSimulated(l: Limiter, u: Limiter, from: real, op: Op)
    requires op.Admit? && l.Valid() && l.NotAfter(from) && LegalStep(l, from, op) && Simulates(l, u, from)
    requires l.Evicts(op.principal) ==> l.buckets[op.victim].Level(op.t1) == l.principalBurst
    ensures var p := op.principal;
            var lm := l.Lookup(p, op.victim).buckets;
            var um := u.(capacity := |u.buckets| + 1).Lookup(p, op.victim).buckets;
            && um[p].Take(op.t1) == lm[p].Take(op.t1)
            && (forall q :: q in lm && q != p ==> q in um && um[q] == lm[q])
            && (forall q :: q in um && q !in lm ==> um[q].Level(op.t2) == u.principalBurst)
  {
    ExtraBucketsAreFull(l, u, from, op.t1);
    ExtraBucketsAreFull(l, u, from, op.t2);
    if l.Evicts(op.principal) {
      FullStaysFull(l.buckets[op.victim], op.t1, op.t2);
    }
    hide Bucket.Refill, Bucket.Level, Bucket.Take, Bucket.Valid, Bucket.NotAfter;
  }

  lemma AdmitSimulated(l: Limiter, u: Limiter, from: real, op: Op)
    requires op.Admit? && l.Valid() && l.NotAfter(from) && LegalStep(l, from, op) && Simulates(l, u, from)
    requires l.Evicts(op.principal) ==> l.buckets[op.victim].Level(op.t1) == l.principalBurst
    ensures Step(l, op).1 == StepUnbounded(u, op).1
    ensures Simulates(Step(l, op).0, StepUnbounded(u, op).0, op.End())
  {
    var w, p, v := u.(capacity := |u.buckets| + 1), op.principal, op.victim;
    StepKeepsValid(w, from, op);
    LookupSimulated(l, u, from, op);
    AdmitParts(l, p, v, op.t1, op.t2);
    AdmitParts(w, p, v, op.t1, op.t2);
    hide Bucket.Refill, Bucket.Level, Bucket.Take, Bucket.Valid, Bucket.NotAfter, Limiter.Lookup, Limiter.Admit;
    hide Limiter.BucketsValid, Limiter.NotAfter;
    var l', u' := Step(l, op).0, StepUnbounded(u, op).0;
    assert l'.shared == u'.shared && Step(l, op).1 == StepUnbounded(u, op).1;
    assert u'.principalRate == l'.principalRate && u'.principalBurst == l'.principalBurst;
    assert l'.buckets[p] == u'.buckets[p];
    hide Step, StepUnbounded;
  }

  lemma SharedCallSimulated(l: Limiter, u: Limiter, from: real, op: Op)
    requires !op.Admit? && !op.AskPrincipal?
    requires l.Valid() && l.NotAfter(from) && LegalStep(l, from, op) && Simulates(l, u, from)
    ensures Step(l, op).1 == StepUnbounded(u, op).1
    ensures Simulates(Step(l, op).0, StepUnbounded(u, op).0, op.End())
  {
    StepKeepsValid(u.(capacity := |u.buckets| + 1), from, op);
    ExtraBucketsAreFull(l, u, from, op.at);
    assert StepUnbounded(u, op).0.buckets == u.buckets && Step(l, op).0.buckets == l.buckets;
    hide Bucket.Refill, Bucket.Level, Bucket.Take, Bucket.Valid, Bucket.NotAfter;
    hide Limiter.BucketsValid, Limiter.NotAfter;
  }

  lemma AskSimulated(l: Limiter, u: Limiter, from: real, op: Op)
    requires op.AskPrincipal?
    requires l.Valid() && l.NotAfter(from) && LegalStep(l, from, op) && Simulates(l, u, from)
    ensures Step(l, op).1 == StepUnbounded(u, op).1
    ensures Simulates(Step(l, op).0, StepUnbounded(u, op).0, op.End())
  {
    var p, l', u' := op.principal, Step(l, op).0, StepUnbounded(u, op).0;
    StepKeepsValid(u.(capacity := |u.buckets| + 1), from, op);
    ExtraBucketsAreFull(l, u, from, op.at);
    hide Bucket.Refill, Bucket.Level, Bucket.Take, Bucket.Valid, Bucket.NotAfter;
    hide Limiter.BucketsValid, Limiter.NotAfter;
    assert u'.buckets == if p in u.buckets then u.buckets[p := u.buckets[p].Refill(op.at)] else u.buckets;
    assert l'.buckets == if p in l.buckets then l.buckets[p := u.buckets[p].Refill(op.at)] else l.buckets;
    assert l'.shared == l.shared && u'.shared == u.shared;
    assert Step(l, op).1 == StepUnbounded(u, op).1;
    hide Step, StepUnbounded;
  }

  /** Bounding the map changes no result of a run whose evicted buckets are all full. */
  lemma {:induction false} BoundedRefinesUnbounded(l: Limiter, u: Limiter, from: real, ops: seq<Op>)
    requires l.Valid() && l.NotAfter(from) && LegalRun(l, from, ops) && Simulates(l, u, from)
    requires EvictsOnlyFull(l, ops)
    ensures Results(l, ops) == ResultsUnbounded(u, ops)
    decreases ops
  {
    if ops != [] {
      if ops[0].Admit? {
        AdmitSimulated(l, u, from, ops[0]);
      } else if ops[0].AskPrincipal? {
        AskSimulated(l, u, from, ops[0]);
      } else {
        SharedCallSimulated(l, u, from, ops[0]);
      }
      StepKeepsValid(l, from, ops[0]);
      BoundedRefinesUnbounded(Step(l, ops[0]).0, StepUnbounded(u, ops[0]).0, ops[0].End(), ops[1..]);
    }
  }

  // ------------------------------ a full bucket is exactly a forgettable one

  function Copies(t: real, n: nat): (calls: seq<Call>)
    ensures |calls| == n && forall i :: 0 <= i < n ==> calls[i] == TryTake(t)
  {
    seq(n, i => TryTake(t))
  }

  lemma RefillAgain(b: Bucket, t: real)
    requires b.Valid() && b.NotAfter(t)
    ensures b.Refill(t).Valid() && b.Refill(t).last == Some(t)
    ensures b.last == Some(t) ==> b.Refill(t) == b
  {
    hide Earn;
    StaysInRange(b, t);
  }

  /** n takes at one instant are all granted, and leave n fewer tokens, if the bucket holds n. */
  lemma {:induction false} TakesAtOnce(b: Bucket, t: real, n: nat, rest: seq<Call>)
    requires b.Valid() && b.last == Some(t) && b.tokens >= n as real && Nondecreasing(t, rest)
    ensures Nondecreasing(t, Copies(t, n) + rest)
    ensures TakeResults(b, Copies(t, n) + rest)
            == seq(n, i => true) + TakeResults(b.(tokens := b.tokens - n as real), rest)
    decreases n
  {
    hide Bucket.Refill;
    if n == 0 {
      assert Copies(t, 0) + rest == rest;
      assert b.(tokens := b.tokens - 0.0) == b;
    } else {
      var calls, next := Copies(t, n) + rest, b.(tokens := b.tokens - 1.0);
      assert calls[0] == TryTake(t) && calls[1..] == Copies(t, n - 1) + rest;
      RefillAgain(b, t);
      assert b.Take(t) == (next, true);
      TakesAtOnce(next, t, n - 1, rest);
      assert TakeResults(b, calls) == [true] + TakeResults(next, calls[1..]);
      assert [true] + seq(n - 1, i => true) == seq(n, i => true);
    }
  }

  /** The outcome of one more take at a later instant, once n tokens have been taken at `now`. */
  lemma LastTake(b: Bucket, now: real, n: nat, later: real)
    requires b.Valid() && b.last == Some(now) && b.tokens >= n as real && now <= later
    ensures var left := b.(tokens := b.tokens - n as real);
            var calls := Copies(now, n) + [TryTake(later)];
            && Nondecreasing(now, calls)
            && |TakeResults(b, calls)| == n + 1 && TakeResults(b, calls)[n] == left.Take(later).1
  {
    hide Earn;
    TakesAtOnce(b, now, n, [TryTake(later)]);
    var left := b.(tokens := b.tokens - n as real);
    assert TakeResults(left, [TryTake(later)]) == [left.Take(later).1] + TakeResults(left.Take(later).0, []);
  }

  /** Reading the clock first changes no result. */
  lemma RefillFirst(b: Bucket, now: real, calls: seq<Call>)
    requires b.Valid() && b.NotAfter(now) && Nondecreasing(now, calls)
    ensures TakeResults(b, calls) == TakeResults(b.Refill(now), calls)
  {
    hide Bucket.Refill;
    var c := b.Refill(now);
    RefillAgain(b, now);
    forall t | now <= t ensures b.Refill(t) == c.Refill(t) {
      RefillComposes(b, now, t);
    }
    assert Indistinguishable(b, c, now) && Indistinguishable(c, c, now);
    IndistinguishableRuns(b, c, now, calls);
    IndistinguishableRuns(c, c, now, calls);
  }

  /** A bucket that is not full can be told from a fresh one: take all whole tokens, wait, take once more. */
  lemma NotFullIsObservable(b: Bucket, now: real) returns (calls: seq<Call>)
    requires b.Valid() && b.NotAfter(now) && 0.0 < b.rate && 1.0 <= b.burst
    requires b.Level(now) < b.burst
    ensures Nondecreasing(now, calls) && forall i :: 0 <= i < |calls| ==> calls[i].TryTake?
    ensures TakeResults(b, calls) != TakeResults(Fresh(b.rate, b.burst), calls)
  {
    var c, full := b.Refill(now), Fresh(b.rate, b.burst).Refill(now);
    RefillAgain(b, now);
    assert full == Bucket(b.burst, b.rate, b.burst, Some(now));
    hide Bucket.Refill;
    var k, later := TellingMoment(c, full, now);
    calls := Copies(now, k) + [TryTake(later)];
    LastTake(c, now, k, later);
    LastTake(full, now, k, later);
    RefillFirst(b, now, calls);
    RefillFirst(Fresh(b.rate, b.burst), now, calls);
  }

  lemma TellingMoment(c: Bucket, full: Bucket, now: real) returns (k: nat, later: real)
    requires c.Valid() && c.last == Some(now) && full == c.(tokens := c.burst)
    requires 0.0 < c.rate && 1.0 <= c.burst && c.tokens < c.burst
    ensures k as real <= c.tokens && now <= later
    ensures !c.(tokens := c.tokens - k as real).Take(later).1
    ensures full.(tokens := full.tokens - k as real).Take(later).1
  {
    k := c.tokens.Floor;
    later := now;
    var left := c.burst - k as real;
    hide Earn;
    if left < 1.0 {
      later := WaitFor(now, 1.0 - left, c.rate);
    }
  }

  lemma WaitFor(now: real, missing: real, rate: real) returns (later: real)
    requires 0.0 < missing && 0.0 < rate
    ensures now < later && Earn(later - now, rate) == missing
  {
    later := now + missing / rate;
    assert missing / rate > 0.0;
  }

  /** Dropping a bucket is unobservable if and only if it is full once refilled. */
  lemma ForgettableIffFull(b: Bucket, now: real)
    requires b.Valid() && b.NotAfter(now) && 0.0 < b.rate && 1.0 <= b.burst
    ensures b.Level(now) == b.burst
            <==> forall calls :: Nondecreasing(now, calls) ==>
                                   TakeResults(b, calls) == TakeResults(Fresh(b.rate, b.burst), calls)
  {
    hide Earn;
    StaysInRange(b, now);
    if b.Level(now) == b.burst {
      forall calls | Nondecreasing(now, calls)
        ensures TakeResults(b, calls) == TakeResults(Fresh(b.rate, b.burst), calls)
      {
        forall t | now <= t ensures b.Refill(t) == Fresh(b.rate, b.burst).Refill(t) {
          FullStaysFull(b, now, t);
        }
        var full := Fresh(b.rate, b.burst);
        assert Indistinguishable(b, full, now) && Indistinguishable(full, full, now);
        IndistinguishableRuns(b, full, now, calls);
        IndistinguishableRuns(full, full, now, calls);
      }
    } else {
      var calls := NotFullIsObservable(b, now);
    }
  }

  // ------------------------- what callers of the limiter can see of an eviction

  function Forget(u: Limiter, v: string): Limiter {
    u.(buckets := u.buckets - {v})
  }

  /** Calls under a nondecreasing clock. */
  ghost predicate Clocked(from: real, ops: seq<Op>)
    decreases ops
  {
    ops != [] ==> from <= ops[0].Start() <= ops[0].End() && Clocked(ops[0].End(), ops[1..])
  }

  lemma StepAddsOneBucket(l: Limiter, op: Op)
    ensures |Step(l, op).0.buckets| <= |l.buckets| + 1 && Step(l, op).0.capacity == l.capacity
  {
    var m := Step(l, op).0.buckets;
    match op {
      case Admit(p, v, t1, t2) =>
        var kept := if l.Evicts(p) then l.buckets - {v} else l.buckets;
        assert kept.Keys <= l.buckets.Keys && m.Keys <= l.buckets.Keys + {p};
        assert |m.Keys| <= |l.buckets.Keys + {p}| <= |l.buckets.Keys| + 1 by {
          Subset(m.Keys, l.buckets.Keys + {p});
        }
      case AskPrincipal(p, t) => assert m.Keys == l.buckets.Keys;
      case _ =>
    }
  }

  lemma {:induction false} Subset(s: set<string>, t: set<string>)
    requires s <= t
    ensures |s| <= |t|
    decreases s
  {
    if s != {} {
      var x :| x in s;
      Subset(s - {x}, t - {x});
    }
  }

  /** A limiter with room for one bucket per call evicts nothing, so every clocked run of it is legal. */
  lemma {:induction false} RoomyRuns(l: Limiter, from: real, ops: seq<Op>)
    requires l.capacity >= |l.buckets| + |ops| && Clocked(from, ops)
    ensures LegalRun(l, from, ops) && EvictsOnlyFull(l, ops)
    decreases ops
  {
    if ops != [] {
      StepAddsOneBucket(l, ops[0]);
      RoomyRuns(Step(l, ops[0]).0, ops[0].End(), ops[1..]);
    }
  }

  /** One admission of v after another, each at one instant. */
  function Admissions(v: string, calls: seq<Call>): seq<Op>
    decreases calls
  {
    if calls == [] then [] else [Admit(v, "", calls[0].at, calls[0].at)] + Admissions(v, calls[1..])
  }

  lemma {:induction false} AdmissionsAreClocked(v: string, from: real, calls: seq<Call>)
    requires Nondecreasing(from, calls)
    ensures Clocked(from, Admissions(v, calls))
    decreases calls
  {
    if calls != [] {
      AdmissionsAreClocked(v, calls[0].at, calls[1..]);
      assert Admissions(v, calls)[1..] == Admissions(v, calls[1..]);
    }
  }

  /** The bucket a principal's next admission finds. */
  function BucketOf(u: Limiter, v: string): Bucket {
    if v in u.buckets then u.buckets[v] else Fresh(u.principalRate, u.principalBurst)
  }

  lemma AdmitFindsBucket(u: Limiter, v: string, t: real)
    ensures var (u', r) := StepUnbounded(u, Admit(v, "", t, t));
            && BucketOf(u', v) == BucketOf(u, v).Take(t).0
            && (r == Admission(PrincipalExhausted) <==> !BucketOf(u, v).Take(t).1)
  {
    AdmitParts(u.(capacity := |u.buckets| + 1), v, "", t, t);
    hide Bucket.Take, Bucket.Refill;
  }

  /** A refusal by the principal's own bucket shows, whatever the shared bucket answers. */
  lemma {:induction false} AdmissionsShowTakes(u: Limiter, w: Limiter, v: string, calls: seq<Call>)
    requires forall i :: 0 <= i < |calls| ==> calls[i].TryTake?
    requires ResultsUnbounded(u, Admissions(v, calls)) == ResultsUnbounded(w, Admissions(v, calls))
    ensures TakeResults(BucketOf(u, v), calls) == TakeResults(BucketOf(w, v), calls)
    decreases calls
  {
    hide BucketOf, StepUnbounded, Bucket.Take;
    if calls != [] {
      var op, rest := Admissions(v, calls)[0], Admissions(v, calls[1..]);
      assert Admissions(v, calls)[1..] == rest;
      var (u', r) := StepUnbounded(u, op);
      var (w', q) := StepUnbounded(w, op);
      assert ResultsUnbounded(u, [op] + rest)[0] == r && ResultsUnbounded(w, [op] + rest)[0] == q;
      assert ResultsUnbounded(u, [op] + rest)[1..] == ResultsUnbounded(u', rest);
      assert ResultsUnbounded(w, [op] + rest)[1..] == ResultsUnbounded(w', rest);
      AdmitFindsBucket(u, v, calls[0].at);
      AdmitFindsBucket(w, v, calls[0].at);
      AdmissionsShowTakes(u', w', v, calls[1..]);
    }
  }

  lemma FullBucketIsForgettable(u: Limiter, v: string, now: real, ops: seq<Op>)
    requires u.BucketsValid() && u.NotAfter(now) && v in u.buckets && Clocked(now, ops)
    requires u.buckets[v].Level(now) == u.principalBurst
    ensures ResultsUnbounded(Forget(u, v), ops) == ResultsUnbounded(u, ops)
  {
    var w := Forget(u, v);
    var l := w.(capacity := |w.buckets| + |ops| + 1);
    assert l.Valid() && l.NotAfter(now) && Simulates(l, u, now) && Simulates(l, w, now);
    RoomyRuns(l, now, ops);
    BoundedRefinesUnbounded(l, u, now, ops);
    BoundedRefinesUnbounded(l, w, now, ops);
  }

  /** A run of admissions that tells the eviction of a bucket that is not full. */
  lemma UnfullBucketIsMissed(u: Limiter, v: string, now: real) returns (ops: seq<Op>)
    requires v in u.buckets && u.buckets[v].Valid() && u.buckets[v].NotAfter(now)
    requires u.buckets[v].rate == u.principalRate && u.buckets[v].burst == u.principalBurst
    requires 0.0 < u.principalRate && 1.0 <= u.principalBurst && u.buckets[v].Level(now) < u.principalBurst
    ensures Clocked(now, ops) && ResultsUnbounded(Forget(u, v), ops) != ResultsUnbounded(u, ops)
  {
    var calls := NotFullIsObservable(u.buckets[v], now);
    ops := Admissions(v, calls);
    AdmissionsAreClocked(v, now, calls);
    hide Bucket.Refill, Bucket.Valid, Bucket.Level, Admissions, ResultsUnbounded, TakeResults;
    if ResultsUnbounded(Forget(u, v), ops) == ResultsUnbounded(u, ops) {
      AdmissionsShowTakes(Forget(u, v), u, v, calls);
    }
  }

  /**
   Evicting a bucket from a limiter goes unseen by every later run of calls, of any principals, on a limiter that
   evicts nothing more, if and only if the bucket is full once refilled.
   */
  lemma EvictionUnseenIffFull(u: Limiter, v: string, now: real)
    requires u.BucketsValid() && u.NotAfter(now) && v in u.buckets
    requires 0.0 < u.principalRate && 1.0 <= u.principalBurst
    ensures u.buckets[v].Level(now) == u.principalBurst
            <==> forall ops :: Clocked(now, ops) ==> ResultsUnbounded(Forget(u, v), ops) == ResultsUnbounded(u, ops)
  {
    StaysInRange(u.buckets[v], now);
    assert u.buckets[v].Level(now) <= u.principalBurst;
    hide Bucket.Refill, Bucket.Level, ResultsUnbounded, Clocked, Forget;
    if u.buckets[v].Level(now) == u.principalBurst {
      forall ops | Clocked(now, ops) ensures ResultsUnbounded(Forget(u, v), ops) == ResultsUnbounded(u, ops) {
        FullBucketIsForgettable(u, v, now, ops);
      }
    } else {
      var ops := UnfullBucketIsMissed(u, v, now);
    }
  }

  // ------------------------------------------ stored counts are stale counts

  function Shared(tokens: real, at: real): Bucket { Bucket(tokens, 2.0, 100.0, Some(at)) }

  function Own(tokens: real, at: real): Bucket { Bucket(tokens, 1.0, 2.0, Some(at)) }

  function State(shared: Bucket, buckets: map<string, Bucket>): Limiter { Limiter(shared, 1.0, 2.0, 2, buckets) }

  /** p spends its share at 0; at 10, when p has long refilled, q spends one token and r arrives. */
  function ChurnOp(i: nat): Op {
    if i <= 1 then Admit("p", "", 0.0, 0.0)
    else if i == 2 then Admit("q", "", 10.0, 10.0)
    else if i == 3 then Admit("r", "q", 10.0, 10.0)
    else if i == 4 then Admit("q", "r", 10.0, 10.0)
    else Admit("q", "", 10.0, 10.0)
  }

  /** The limiter before call i. */
  function ChurnState(i: nat): Limiter {
    if i == 0 then State(Fresh(2.0, 100.0), map[])
    else if i == 1 then State(Shared(99.0, 0.0), map["p" := Own(1.0, 0.0)])
    else if i == 2 then State(Shared(98.0, 0.0), map["p" := Own(0.0, 0.0)])
    else if i == 3 then State(Shared(99.0, 10.0), map["p" := Own(0.0, 0.0), "q" := Own(1.0, 10.0)])
    else if i == 4 then State(Shared(98.0, 10.0), map["p" := Own(0.0, 0.0), "r" := Own(1.0, 10.0)])
    else if i == 5 then State(Shared(97.0, 10.0), map["p" := Own(0.0, 0.0), "q" := Own(1.0, 10.0)])
    else State(Shared(96.0, 10.0), map["p" := Own(0.0, 0.0), "q" := Own(0.0, 10.0)])
  }

  /** The bucket call i finds or creates. */
  function ChurnFinds(i: nat): Bucket {
    if i == 1 then Own(1.0, 0.0) else if i == 5 then Own(1.0, 10.0) else Fresh(1.0, 2.0)
  }

  lemma ChurnLookup(i: nat)
    requires i < 6
    ensures var l, op, next := ChurnState(i), ChurnOp(i), ChurnState(i + 1).buckets;
            var found := l.Lookup(op.principal, op.victim).buckets;
            && l.MayEvict(op.principal, op.victim)
            && found[op.principal] == ChurnFinds(i)
            && op.principal in next && found[op.principal := next[op.principal]] == next
  {
    hide Bucket.Refill, Bucket.Take, Bucket.Level, Bucket.Valid, Limiter.Admit;
    var m := ChurnState(i).buckets;
    assert |m| == |m.Keys|;
    if i == 0 {
      assert m.Keys == {};
    } else if i <= 2 {
      assert m.Keys == {"p"};
    } else if i == 4 {
      assert m.Keys == {"p", "r"};
    } else {
      assert m.Keys == {"p", "q"};
    }
  }

  lemma ChurnTakes(i: nat)
    requires i < 6
    ensures ChurnFinds(i).Take(ChurnOp(i).t1) == (ChurnState(i + 1).buckets[ChurnOp(i).principal], true)
    ensures ChurnState(i).shared.Take(ChurnOp(i).t2) == (ChurnState(i + 1).shared, true)
    ensures var l, l' := ChurnState(i), ChurnState(i + 1); l' == l.(buckets := l'.buckets, shared := l'.shared)
  {
  }

  lemma ChurnStep(i: nat)
    requires i < 6
    ensures Step(ChurnState(i), ChurnOp(i)) == (ChurnState(i + 1), Admission(Admitted))
  {
    var l, l', op := ChurnState(i), ChurnState(i + 1), ChurnOp(i);
    assert op.Admit?;
    ChurnLookup(i);
    ChurnTakes(i);
    AdmitParts(l, op.principal, op.victim, op.t1, op.t2);
    hide ChurnState, ChurnOp, ChurnFinds, Bucket.Take, Limiter.Lookup, Limiter.Admit;
  }

  function ChurnFrom(i: nat): seq<Op>
    decreases 6 - i
  {
    if i >= 6 then [] else [ChurnOp(i)] + ChurnFrom(i + 1)
  }

  lemma {:induction false} ChurnRun(i: nat, from: real)
    requires i <= 6 && (i < 6 ==> from <= ChurnOp(i).t1)
    ensures LegalRun(ChurnState(i), from, ChurnFrom(i))
    ensures Results(ChurnState(i), ChurnFrom(i)) == seq(6 - i, _ => Admission(Admitted))
    decreases 6 - i
  {
    hide Step, ChurnState;
    if i < 6 {
      ChurnStep(i);
      ChurnLookup(i);
      assert ChurnFrom(i)[1..] == ChurnFrom(i + 1);
      ChurnRun(i + 1, ChurnOp(i).t2);
      assert [Admission(Admitted)] + seq(6 - (i + 1), _ => Admission(Admitted)) == seq(6 - i, _ => Admission(Admitted));
    }
  }

  lemma FullestIsNotFull()
    ensures var l := ChurnState(3);
            IsFullest(l.buckets, "q") && l.buckets["q"].Level(10.0) < l.buckets["p"].Level(10.0) == l.principalBurst
  {
  }

  /**
   Eviction compares counts that are not refilled first, so it can drop a spent bucket and keep a
   full one. In this run q is admitted three times at one instant with a burst of two: the churn
   reset its share.
   */
  lemma ChurnResetsAShare()
    ensures ChurnState(0).Valid() && LegalRun(ChurnState(0), 0.0, ChurnFrom(0))
    ensures Results(ChurnState(0), ChurnFrom(0)) == seq(6, _ => Admission(Admitted))
    ensures forall i :: i in {2, 4, 5} ==> ChurnOp(i).principal == "q" && ChurnOp(i).t1 == 10.0
    ensures ChurnState(0).principalBurst == 2.0
    ensures var l := ChurnState(3);
            IsFullest(l.buckets, "q") && l.buckets["q"].Level(10.0) < l.buckets["p"].Level(10.0) == l.principalBurst
  {
    FullestIsNotFull();
    ChurnRun(0, 0.0);
    assert ChurnState(0).buckets == map[];
    hide Bucket.Refill, Bucket.Level, Results, LegalRun, IsFullest, ChurnFrom;
  }
}
