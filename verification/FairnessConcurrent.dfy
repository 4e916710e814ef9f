/**
 Concurrent calls on one AppLimiter. Admit is three separate critical sections: look the pacer up
 under the limiter's lock, take from that pacer under its own, take from the shared pacer under its
 own. Any number of callers interleave, a looked-up pacer may be evicted before it is used, and the
 clock readings are arbitrary. An eviction reads the buckets one by one, each under its own lock, so
 callers that already hold a pacer go on taking while it scans.
 */
module FairnessConcurrent {
  import opened Basics
  import opened Pacers
  import F = Fairness

  /** Where a caller of Admit is: holding a pacer, or charged and about to try the shared bucket. */
  datatype Stage = AtPrincipal(pacer: nat) | AtShared

  /** The pacer objects ever created, and the map from principals to the live ones. */
  datatype Pool = Pool(pacers: map<nat, Bucket>, index: map<string, nat>, rate: real, burst: real, capacity: nat) {

    ghost predicate BucketsValid() {
      && 0.0 <= rate && 0.0 <= burst
      && forall k :: k in pacers ==> pacers[k].Valid() && pacers[k].rate == rate && pacers[k].burst == burst
    }

    /** At most `capacity` principals, each with a pacer of its own. */
    ghost predicate IndexValid() {
      && 1 <= capacity && |index| <= capacity
      && (forall p :: p in index ==> index[p] in pacers)
      && (forall p, q :: p in index && q in index && p != q ==> index[p] != index[q])
    }

    predicate Evicts(principal: string) {
      principal !in index && |index| >= capacity
    }

    /** Tokens stored for a principal, not refilled first. */
    function Stored(p: string): real
      requires p in index && index[p] in pacers
    {
      pacers[index[p]].tokens
    }

    /** An evicted pacer leaves the index, not the heap: a caller may still hold it. */
    function Lookup(principal: string, victim: string, id: nat): Pool {
      if principal in index then this
      else
        var kept := if Evicts(principal) then index - {victim} else index;
        this.(index := kept[principal := id], pacers := pacers[id := Fresh(rate, burst)])
    }
  }

  datatype Tally = Tally(charged: nat, admitted: nat, sharedExhausted: nat, principalExhausted: nat, retries: nat)

  /** An eviction under way, under the limiter's lock: the counts read so far, and the first largest of them. */
  datatype Scan = Scan(caller: nat, principal: string, seen: map<string, real>, best: Option<string>) {

    ghost predicate BestOfSeen() {
      match best
      case None => seen == map[]
      case Some(v) => v in seen && forall k :: k in seen ==> seen[k] <= seen[v]
    }
  }

  datatype System = System(
      pool: Pool, shared: Bucket, callers: map<nat, Stage>, tally: Tally, scan: Option<Scan>) {

    ghost function Charging(): set<nat> {
      set c | c in callers && callers[c].AtShared?
    }

    /** Shared tokens handed out so far, to Admit calls and to retries. */
    function SharedGrants(): nat { tally.admitted + tally.retries }

    /** Callers hold pacers that exist. */
    ghost predicate CallersValid() {
      forall c :: c in callers && callers[c].AtPrincipal? ==> callers[c].pacer in pool.pacers
    }

    /** Every principal token taken was admitted, refused by the shared bucket, or is still on its way. */
    ghost predicate Accounted() {
      tally.charged == tally.admitted + tally.sharedExhausted + |Charging()|
    }

    /** While a scan runs its caller holds no pacer and the map stays as it was, full. */
    ghost predicate ScanValid() {
      scan.Some? ==>
        && scan.value.caller !in callers && pool.Evicts(scan.value.principal)
        && scan.value.seen.Keys <= pool.index.Keys && scan.value.BestOfSeen()
    }

    ghost predicate Valid() {
      shared.Valid() && pool.BucketsValid() && pool.IndexValid() && CallersValid() && Accounted() && ScanValid()
    }
  }

  datatype Step =
    | Enter(caller: nat, principal: string, id: nat)
    | BeginScan(caller: nat, principal: string)
    | ReadCount(principal: string)
    | EndScan(id: nat)
    | ChargePrincipal(caller: nat, now: real)
    | ChargeShared(caller: nat, now: real)
    | RetryShared(now: real)
    | AskShared(now: real)
    | AskPrincipal(principal: string, now: real)

  /** A scan holds the limiter's lock; whoever has looked up already, and the shared bucket, need not wait for it. */
  ghost predicate Enabled(s: System, step: Step)
    requires s.Valid()
  {
    match step
    case Enter(c, p, id) =>
      s.scan == None && c !in s.callers && !s.pool.Evicts(p) && (p !in s.pool.index ==> id !in s.pool.pacers)
    case BeginScan(c, p) => s.scan == None && c !in s.callers && s.pool.Evicts(p)
    case ReadCount(k) => s.scan.Some? && k in s.pool.index && k !in s.scan.value.seen
    case EndScan(id) => s.scan.Some? && s.scan.value.seen.Keys == s.pool.index.Keys && id !in s.pool.pacers
    case ChargePrincipal(c, _) => c in s.callers && s.callers[c].AtPrincipal?
    case ChargeShared(c, _) => c in s.callers && s.callers[c].AtShared?
    case AskPrincipal(_, _) => s.scan == None
    case _ => true
  }

  function EnterStep(s: System, c: nat, p: string, v: string, id: nat): System {
    var pool := s.pool.Lookup(p, v, id);
    s.(pool := pool, callers := s.callers[c := AtPrincipal(pool.index[p])], scan := None)
  }

  /** One bucket read: it becomes the best if it beats every one before it. */
  function ReadStep(s: System, k: string): System
    requires s.scan.Some? && k in s.pool.index && s.pool.index[k] in s.pool.pacers
    requires s.scan.value.best.Some? ==> s.scan.value.best.value in s.scan.value.seen
  {
    var scan, tokens := s.scan.value, s.pool.Stored(k);
    var better := scan.best.None? || tokens > scan.seen[scan.best.value];
    s.(scan := Some(scan.(seen := scan.seen[k := tokens], best := if better then Some(k) else scan.best)))
  }

  /** The scan has read the whole, full map, so it has a victim, and drops it for the new principal. */
  function EndScanStep(s: System, id: nat): System
    requires s.scan.Some? && s.scan.value.best.Some?
  {
    EnterStep(s, s.scan.value.caller, s.scan.value.principal, s.scan.value.best.value, id)
  }

  lemma ScanHasVictim(s: System)
    requires s.Valid() && s.scan.Some? && s.scan.value.seen.Keys == s.pool.index.Keys
    ensures s.scan.value.best.Some? && s.scan.value.best.value in s.pool.index
  {
    hide Bucket.Refill, Bucket.Valid, Pool.BucketsValid;
    assert |s.pool.index| == |s.pool.index.Keys|;
  }

  function ChargePrincipalStep(s: System, c: nat, now: real): System
    requires c in s.callers && s.callers[c].AtPrincipal? && s.callers[c].pacer in s.pool.pacers
  {
    var k := s.callers[c].pacer;
    var (b, ok) := s.pool.pacers[k].Take(now);
    var pool := s.pool.(pacers := s.pool.pacers[k := b]);
    if ok then
      s.(pool := pool, callers := s.callers[c := AtShared], tally := s.tally.(charged := s.tally.charged + 1))
    else
      s.(pool := pool, callers := s.callers - {c},
         tally := s.tally.(principalExhausted := s.tally.principalExhausted + 1))
  }

  function ChargeSharedStep(s: System, c: nat, now: real): System {
    var (b, ok) := s.shared.Take(now);
    var tally := if ok then s.tally.(admitted := s.tally.admitted + 1)
                 else s.tally.(sharedExhausted := s.tally.sharedExhausted + 1);
    s.(shared := b, callers := s.callers - {c}, tally := tally)
  }

  function AskPrincipalStep(s: System, p: string, now: real): System
    requires p in s.pool.index ==> s.pool.index[p] in s.pool.pacers
  {
    if p !in s.pool.index then s
    else
      var k := s.pool.index[p];
      s.(pool := s.pool.(pacers := s.pool.pacers[k := s.pool.pacers[k].Refill(now)]))
  }

  function Apply(s: System, step: Step): System
    requires s.Valid() && Enabled(s, step)
  {
    match step
    case Enter(c, p, id) => EnterStep(s, c, p, "", id)
    case BeginScan(c, p) => s.(scan := Some(Scan(c, p, map[], None)))
    case ReadCount(k) => ReadStep(s, k)
    case EndScan(id) => ScanHasVictim(s); EndScanStep(s, id)
    case ChargePrincipal(c, now) => ChargePrincipalStep(s, c, now)
    case ChargeShared(c, now) => ChargeSharedStep(s, c, now)
    case RetryShared(now) =>
      var (b, ok) := s.shared.Take(now);
      s.(shared := b, tally := s.tally.(retries := s.tally.retries + if ok then 1 else 0))
    case AskShared(now) => s.(shared := s.shared.Refill(now))
    case AskPrincipal(p, now) => AskPrincipalStep(s, p, now)
  }

  lemma LookupKeepsPool(pool: Pool, p: string, v: string, id: nat)
    requires pool.BucketsValid() && pool.IndexValid()
    requires (p !in pool.index ==> id !in pool.pacers) && (pool.Evicts(p) ==> v in pool.index)
    ensures pool.Lookup(p, v, id).BucketsValid() && pool.Lookup(p, v, id).IndexValid()
    ensures p in pool.Lookup(p, v, id).index
  {
    if p !in pool.index {
      LookupSize(pool, p, v, id);
    }
    assert pool.Lookup(p, v, id).BucketsValid();
    hide Bucket.Refill, Bucket.Valid, Pool.BucketsValid;
  }

  lemma LookupSize(pool: Pool, p: string, v: string, id: nat)
    requires 1 <= pool.capacity && |pool.index| <= pool.capacity && p !in pool.index
    requires pool.Evicts(p) ==> v in pool.index
    ensures |pool.Lookup(p, v, id).index| <= pool.capacity
  {
    var kept := if pool.Evicts(p) then pool.index - {v} else pool.index;
    assert kept.Keys == if pool.Evicts(p) then pool.index.Keys - {v} else pool.index.Keys;
    assert pool.Lookup(p, v, id).index.Keys == kept.Keys + {p};
  }

  lemma PacerChangeKeepsPool(pool: Pool, k: nat, b: Bucket)
    requires pool.BucketsValid() && pool.IndexValid() && k in pool.pacers
    requires b.Valid() && b.rate == pool.rate && b.burst == pool.burst
    ensures var pool' := pool.(pacers := pool.pacers[k := b]); pool'.BucketsValid() && pool'.IndexValid()
  {
    hide Bucket.Refill, Bucket.Valid;
  }

  lemma EnterKeepsValid(s: System, c: nat, p: string, v: string, id: nat)
    requires s.Valid() && c !in s.callers
    requires (p !in s.pool.index ==> id !in s.pool.pacers) && (s.pool.Evicts(p) ==> v in s.pool.index)
    ensures EnterStep(s, c, p, v, id).Valid()
  {
    LookupKeepsPool(s.pool, p, v, id);
    var s' := EnterStep(s, c, p, v, id);
    assert s'.Charging() == s.Charging();
    hide Bucket.Refill, Bucket.Valid, Pool.BucketsValid;
  }

  lemma ReadKeepsValid(s: System, k: string)
    requires s.Valid() && Enabled(s, ReadCount(k))
    ensures ReadStep(s, k).Valid()
  {
    var s' := ReadStep(s, k);
    assert s'.Charging() == s.Charging();
    hide Bucket.Refill, Bucket.Valid, Pool.BucketsValid, Pool.IndexValid, Bucket.Take;
  }

  lemma ChargePrincipalKeepsValid(s: System, c: nat, now: real)
    requires s.Valid() && Enabled(s, ChargePrincipal(c, now))
    ensures ChargePrincipalStep(s, c, now).Valid()
  {
    var k := s.callers[c].pacer;
    var (b, ok) := s.pool.pacers[k].Take(now);
    StaysInRange(s.pool.pacers[k], now);
    PacerChangeKeepsPool(s.pool, k, b);
    var s' := ChargePrincipalStep(s, c, now);
    assert c !in s.Charging();
    assert s'.Charging() == if ok then s.Charging() + {c} else s.Charging();
    hide Bucket.Refill, Bucket.Valid, Pool.BucketsValid, Pool.IndexValid;
  }

  lemma ChargeSharedKeepsValid(s: System, c: nat, now: real)
    requires s.Valid() && Enabled(s, ChargeShared(c, now))
    ensures ChargeSharedStep(s, c, now).Valid()
  {
    StaysInRange(s.shared, now);
    assert c in s.Charging() && ChargeSharedStep(s, c, now).Charging() == s.Charging() - {c};
    hide Bucket.Refill, Bucket.Valid, Pool.BucketsValid, Pool.IndexValid;
  }

  /** Every step of every caller keeps the invariant, the capacity bound and the accounting of charges. */
  lemma StepKeepsValid(s: System, step: Step)
    requires s.Valid() && Enabled(s, step)
    ensures Apply(s, step).Valid()
  {
    match step {
      case Enter(c, p, id) => EnterKeepsValid(s, c, p, "", id);
      case BeginScan(c, p) => assert Apply(s, step).Charging() == s.Charging();
      case ReadCount(k) => ReadKeepsValid(s, k);
      case EndScan(id) =>
        ScanHasVictim(s);
        EnterKeepsValid(s, s.scan.value.caller, s.scan.value.principal, s.scan.value.best.value, id);
      case ChargePrincipal(c, now) => ChargePrincipalKeepsValid(s, c, now);
      case ChargeShared(c, now) => ChargeSharedKeepsValid(s, c, now);
      case RetryShared(now) => StaysInRange(s.shared, now);
      case AskShared(now) => StaysInRange(s.shared, now);
      case AskPrincipal(p, now) =>
        if p in s.pool.index {
          var k := s.pool.index[p];
          StaysInRange(s.pool.pacers[k], now);
          PacerChangeKeepsPool(s.pool, k, s.pool.pacers[k].Refill(now));
        }
    }
    assert step.RetryShared? || step.AskShared? || step.AskPrincipal? ==> Apply(s, step).callers == s.callers;
    hide Bucket.Refill, Bucket.Valid, Pool.BucketsValid, Pool.IndexValid;
    hide EnterStep, EndScanStep, ReadStep, ChargePrincipalStep, ChargeSharedStep;
  }

  // -------------------------------------------------------------------- runs

  ghost predicate LegalRun(s: System, steps: seq<Step>)
    decreases steps
  {
    s.Valid() && (steps != [] ==> Enabled(s, steps[0]) && LegalRun(Apply(s, steps[0]), steps[1..]))
  }

  function Final(s: System, steps: seq<Step>): System
    requires LegalRun(s, steps)
    decreases steps
  {
    if steps == [] then s else Final(Apply(s, steps[0]), steps[1..])
  }

  /** A run is legal as soon as each of its steps is enabled: the invariant is never the obstacle. */
  ghost predicate EnabledRun(s: System, steps: seq<Step>)
    requires s.Valid()
    decreases steps
  {
    steps != [] ==>
      Enabled(s, steps[0]) && (StepKeepsValid(s, steps[0]); EnabledRun(Apply(s, steps[0]), steps[1..]))
  }

  lemma {:induction false} EnabledRunsAreLegal(s: System, steps: seq<Step>)
    requires s.Valid() && EnabledRun(s, steps)
    ensures LegalRun(s, steps)
    decreases steps
  {
    if steps != [] {
      StepKeepsValid(s, steps[0]);
      EnabledRunsAreLegal(Apply(s, steps[0]), steps[1..]);
    }
  }

  lemma {:induction false} LegalEndsValid(s: System, steps: seq<Step>)
    requires LegalRun(s, steps)
    ensures Final(s, steps).Valid()
    decreases steps
  {
    if steps != [] {
      LegalEndsValid(Apply(s, steps[0]), steps[1..]);
    }
  }

  /**
   However calls, scans and evictions interleave, the map stays within its capacity, and every principal token
   taken was admitted, refused by the shared bucket, or belongs to a caller on its way there.
   */
  lemma ReachableAccounts(s: System, steps: seq<Step>)
    requires s.Valid() && EnabledRun(s, steps)
    ensures LegalRun(s, steps)
    ensures var f := Final(s, steps);
            && f.Valid() && |f.pool.index| <= f.pool.capacity
            && f.tally.charged == f.tally.admitted + f.tally.sharedExhausted + |f.Charging()|
  {
    EnabledRunsAreLegal(s, steps);
    LegalEndsValid(s, steps);
  }

  // ------------------------------- the sections, one after another, are an admission

  /** What the map holds, as values. */
  function Buckets(pool: Pool): map<string, Bucket>
    requires forall p :: p in pool.index ==> pool.index[p] in pool.pacers
  {
    map p | p in pool.index :: pool.pacers[pool.index[p]]
  }

  /** The limiter as a value, without the callers on their way through it. */
  function View(s: System): F.Limiter
    requires forall p :: p in s.pool.index ==> s.pool.index[p] in s.pool.pacers
  {
    F.Limiter(s.shared, s.pool.rate, s.pool.burst, s.pool.capacity, Buckets(s.pool))
  }

  lemma BucketsAfterLookup(pool: Pool, p: string, v: string, id: nat)
    requires (forall q :: q in pool.index ==> pool.index[q] in pool.pacers) && (p !in pool.index ==> id !in pool.pacers)
    ensures |Buckets(pool)| == |pool.index|
    ensures Buckets(pool.Lookup(p, v, id)) ==
            if p in pool.index then Buckets(pool)
            else (if pool.Evicts(p) then Buckets(pool) - {v} else Buckets(pool))[p := Fresh(pool.rate, pool.burst)]
  {
    assert Buckets(pool).Keys == pool.index.Keys;
    assert |Buckets(pool)| == |Buckets(pool).Keys| && |pool.index| == |pool.index.Keys|;
  }

  /** The lookup section is the lookup of the value, with the same victim. */
  lemma LookupIsLookup(s: System, c: nat, p: string, v: string, id: nat)
    requires s.Valid() && c !in s.callers
    requires (p !in s.pool.index ==> id !in s.pool.pacers) && (s.pool.Evicts(p) ==> v in s.pool.index)
    ensures EnterStep(s, c, p, v, id).Valid() && p in EnterStep(s, c, p, v, id).pool.index
    ensures View(EnterStep(s, c, p, v, id)) == View(s).Lookup(p, v)
  {
    EnterKeepsValid(s, c, p, v, id);
    LookupKeepsPool(s.pool, p, v, id);
    BucketsAfterLookup(s.pool, p, v, id);
    assert View(s).Evicts(p) <==> s.pool.Evicts(p);
    hide Bucket.Refill, Bucket.Valid, Bucket.Take, Pool.BucketsValid, Buckets, System.Valid;
  }

  lemma ChargeIsTake(s: System, c: nat, p: string, now: real)
    requires s.Valid() && c in s.callers && p in s.pool.index && s.callers[c] == AtPrincipal(s.pool.index[p])
    ensures var s', b := ChargePrincipalStep(s, c, now), s.pool.pacers[s.pool.index[p]].Take(now);
            && s'.Valid() && View(s') == View(s).(buckets := View(s).buckets[p := b.0])
            && (c in s'.callers <==> b.1) && (b.1 ==> s'.callers[c] == AtShared)
            && s'.tally.principalExhausted == s.tally.principalExhausted + (if b.1 then 0 else 1)
            && s'.tally.admitted == s.tally.admitted && s'.tally.sharedExhausted == s.tally.sharedExhausted
  {
    ChargePrincipalKeepsValid(s, c, now);
    hide Bucket.Refill, Bucket.Valid, Bucket.Take, Pool.BucketsValid;
    var s' := ChargePrincipalStep(s, c, now);
    assert View(s').buckets == View(s).buckets[p := s.pool.pacers[s.pool.index[p]].Take(now).0];
  }

  /**
   Nobody in between, the three sections of a caller are the sequential admission: the same limiter is left, and
   the result is counted once, where it belongs.
   */
  lemma SectionsAreAdmit(s: System, c: nat, p: string, v: string, id: nat, t1: real, t2: real)
    requires s.Valid() && c !in s.callers
    requires (p !in s.pool.index ==> id !in s.pool.pacers) && (s.pool.Evicts(p) ==> v in s.pool.index)
    ensures var s1 := EnterStep(s, c, p, v, id);
            && s1.callers[c].AtPrincipal? && s1.callers[c].pacer in s1.pool.pacers
            && var s2 := ChargePrincipalStep(s1, c, t1);
               var s3 := if c in s2.callers then ChargeSharedStep(s2, c, t2) else s2;
               var (l, r) := View(s).Admit(p, v, t1, t2);
               && s3.Valid() && c !in s3.callers && View(s3) == l
               && var was, now := s.tally, s3.tally;
                  && now.admitted == was.admitted + (if r == F.Admitted then 1 else 0)
                  && now.sharedExhausted == was.sharedExhausted + (if r == F.SharedExhausted then 1 else 0)
                  && now.principalExhausted == was.principalExhausted + (if r == F.PrincipalExhausted then 1 else 0)
  {
    LookupIsLookup(s, c, p, v, id);
    var s1 := EnterStep(s, c, p, v, id);
    assert s1.callers[c] == AtPrincipal(s1.pool.index[p]) && s1.tally == s.tally && s1.shared == s.shared;
    ChargeIsTake(s1, c, p, t1);
    var s2 := ChargePrincipalStep(s1, c, t1);
    F.AdmitParts(View(s), p, v, t1, t2);
    if c in s2.callers {
      ChargeSharedKeepsValid(s2, c, t2);
    }
    hide Bucket.Refill, Bucket.Valid, Bucket.Take, Pool.BucketsValid, EnterStep, ChargePrincipalStep, F.Limiter.Admit;
    hide F.Limiter.Lookup;
  }

  // ------------------------------------------ what a scan can and cannot evict

  /** In the state of a legal run whose scan has read everything, the next step may end it. */
  ghost predicate Ends(s: System, id: nat) {
    s.Valid() && Enabled(s, EndScan(id))
  }

  /** The victim's count when it was read is at least every other bucket's when that one was read. */
  lemma VictimIsFullestAsRead(s: System, id: nat)
    requires Ends(s, id)
    ensures var scan, index := s.scan.value, Apply(s, EndScan(id)).pool.index;
            exists v :: v in s.pool.index && v !in index
                        && (forall k :: k in s.pool.index && k != v ==> k in index && index[k] == s.pool.index[k])
                        && (forall k :: k in s.pool.index ==> scan.seen[k] <= scan.seen[v])
  {
    var scan, index := s.scan.value, s.pool.index;
    ScanHasVictim(s);
    var v := scan.best.value;
    assert Apply(s, EndScan(id)).pool.index == (index - {v})[scan.principal := id];
    assert v in index && scan.principal !in index && scan.seen.Keys == index.Keys && scan.BestOfSeen();
    hide Apply, Ends, System.Valid, Pool.BucketsValid, Bucket.Valid;
  }

  /** Throughout the run one principal's stored count stays below x and another's at or above it. */
  ghost predicate ApartAlong(s: System, steps: seq<Step>, low: string, high: string, x: real)
    requires LegalRun(s, steps)
    decreases steps
  {
    && low in s.pool.index && high in s.pool.index && s.pool.Stored(low) < x <= s.pool.Stored(high)
    && (steps != [] ==> ApartAlong(Apply(s, steps[0]), steps[1..], low, high, x))
  }

  /** What the scan has read so far agrees with that. */
  ghost predicate ReadApart(s: System, low: string, high: string, x: real) {
    s.scan.Some? && var seen := s.scan.value.seen;
    (low in seen ==> seen[low] < x) && (high in seen ==> seen[high] >= x)
  }

  lemma {:induction false} ScanReadsApart(s: System, steps: seq<Step>, low: string, high: string, x: real)
    requires LegalRun(s, steps) && ApartAlong(s, steps, low, high, x) && ReadApart(s, low, high, x)
    requires forall i :: 0 <= i < |steps| ==> !steps[i].EndScan?
    ensures ReadApart(Final(s, steps), low, high, x)
    ensures Final(s, steps).Valid()
    decreases steps
  {
    hide Bucket.Refill, Bucket.Valid, Bucket.Take, System.Valid;
    if steps != [] {
      ScanReadsApart(Apply(s, steps[0]), steps[1..], low, high, x);
    }
  }

  /**
   When a spent bucket survives: if, from the beginning of a scan to its end, its count stays below some level
   that another bucket's count keeps, then it is not the victim, whatever takes go on in the meantime.
   */
  lemma SpentBucketSurvivesScan(s: System, steps: seq<Step>, low: string, high: string, x: real, id: nat)
    requires LegalRun(s, steps) && s.scan.Some? && s.scan.value.seen == map[]
    requires forall i :: 0 <= i < |steps| ==> !steps[i].EndScan?
    requires ApartAlong(s, steps, low, high, x) && Ends(Final(s, steps), id)
    ensures var f := Final(s, steps);
            low in f.pool.index && low in Apply(f, EndScan(id)).pool.index
            && Apply(f, EndScan(id)).pool.index[low] == f.pool.index[low]
  {
    ScanReadsApart(s, steps, low, high, x);
    var f := Final(s, steps);
    ApartAtEnd(s, steps, low, high, x);
    ScanHasVictim(f);
    assert f.scan.value.best.value != low;
    hide Bucket.Refill, Bucket.Valid, Pool.BucketsValid;
  }

  lemma {:induction false} ApartAtEnd(s: System, steps: seq<Step>, low: string, high: string, x: real)
    requires LegalRun(s, steps) && ApartAlong(s, steps, low, high, x)
    ensures low in Final(s, steps).pool.index && high in Final(s, steps).pool.index
    decreases steps
  {
    if steps != [] {
      ApartAtEnd(Apply(s, steps[0]), steps[1..], low, high, x);
    }
  }

  /** What was read is still stored. */
  ghost predicate ReadsHold(s: System)
    requires s.Valid() && s.scan.Some?
  {
    forall k :: k in s.scan.value.seen ==> s.scan.value.seen[k] == s.pool.Stored(k)
  }

  /** With no take in between, the scan is the sequential one: its victim is fullest at that instant. */
  lemma {:induction false} QuietScanEvictsFullest(s: System, steps: seq<Step>)
    requires LegalRun(s, steps) && s.scan.Some? && ReadsHold(s)
    requires forall i :: 0 <= i < |steps| ==> steps[i].ReadCount?
    ensures var f := Final(s, steps);
            && f.pool == s.pool && f.scan.Some? && f.Valid()
            && (f.scan.value.seen.Keys == f.pool.index.Keys ==>
                  && f.scan.value.best.Some? && f.scan.value.best.value in f.pool.index
                  && forall k :: k in f.pool.index ==> f.pool.Stored(k) <= f.pool.Stored(f.scan.value.best.value))
    decreases steps
  {
    hide Bucket.Refill, Bucket.Take;
    if steps == [] {
      if s.scan.value.seen.Keys == s.pool.index.Keys {
        ScanHasVictim(s);
      }
    } else {
      QuietScanEvictsFullest(Apply(s, steps[0]), steps[1..]);
    }
  }

  /** A step in front of a legal run. */
  lemma Prepend(s: System, step: Step, rest: seq<Step>)
    requires s.Valid() && Enabled(s, step) && LegalRun(Apply(s, step), rest)
    ensures LegalRun(s, [step] + rest) && Final(s, [step] + rest) == Final(Apply(s, step), rest)
  {
    hide System.Valid, Enabled, Apply;
    assert ([step] + rest)[1..] == rest;
  }

  /** A scan of two full-map principals has begun: q stores one token, and two callers hold p's full bucket of two. */
  ghost predicate Poised(s: System) {
    && s.Valid() && s.pool.index.Keys == {"p", "q"} && s.pool.burst == 2.0
    && s.pool.Stored("q") == 1.0 && s.pool.Stored("p") == 2.0 && s.pool.pacers[s.pool.index["p"]].last.None?
    && 1 in s.callers && 2 in s.callers && s.callers[1] == s.callers[2] == AtPrincipal(s.pool.index["p"])
    && s.scan.Some? && s.scan.value.seen == map[] && 2 !in s.pool.pacers
  }

  /** A new limiter with room for two principals. */
  function Idle(): System {
    System(Pool(map[], map[], 1.0, 2.0, 2), Fresh(2.0, 10.0), map[], Tally(0, 0, 0, 0, 0), None)
  }

  /** q is admitted by its own bucket once, two callers look p up, and a third arrives for r. */
  lemma PoisedIsReachable() returns (steps: seq<Step>)
    ensures LegalRun(Idle(), steps) && Poised(Final(Idle(), steps))
  {
    var s := Idle();
    var s1 := Apply(s, Enter(0, "q", 0));
    StepKeepsValid(s, Enter(0, "q", 0));
    assert s1.pool.index == map["q" := 0] && s1.pool.pacers == map[0 := Fresh(1.0, 2.0)];
    var s2 := Apply(s1, ChargePrincipal(0, 0.0));
    StepKeepsValid(s1, ChargePrincipal(0, 0.0));
    assert s2.pool.pacers == map[0 := Bucket(1.0, 1.0, 2.0, Some(0.0))] && s2.callers == map[0 := AtShared];
    steps := LookUpBoth(s2);
    Prepend(s1, ChargePrincipal(0, 0.0), steps);
    steps := [ChargePrincipal(0, 0.0)] + steps;
    Prepend(s, Enter(0, "q", 0), steps);
    steps := [Enter(0, "q", 0)] + steps;
  }

  lemma LookUpBoth(s: System) returns (steps: seq<Step>)
    requires s.Valid()
    requires s.pool == Pool(map[0 := Bucket(1.0, 1.0, 2.0, Some(0.0))], map["q" := 0], 1.0, 2.0, 2)
    requires s.callers == map[0 := AtShared] && s.scan == None
    ensures LegalRun(s, steps) && Poised(Final(s, steps))
  {
    var s1 := Apply(s, Enter(1, "p", 1));
    StepKeepsValid(s, Enter(1, "p", 1));
    assert s1.pool.index == map["q" := 0, "p" := 1];
    assert s1.pool.pacers == map[0 := Bucket(1.0, 1.0, 2.0, Some(0.0)), 1 := Fresh(1.0, 2.0)];
    steps := LookUpAgain(s1);
    Prepend(s, Enter(1, "p", 1), steps);
    steps := [Enter(1, "p", 1)] + steps;
  }

  lemma LookUpAgain(s: System) returns (steps: seq<Step>)
    requires s.Valid() && s.pool.capacity == 2 && s.pool.burst == 2.0 && s.pool.index == map["q" := 0, "p" := 1]
    requires s.pool.pacers == map[0 := Bucket(1.0, 1.0, 2.0, Some(0.0)), 1 := Fresh(1.0, 2.0)]
    requires s.callers == map[0 := AtShared, 1 := AtPrincipal(1)] && s.scan == None
    ensures LegalRun(s, steps) && Poised(Final(s, steps))
  {
    var s1 := Apply(s, Enter(2, "p", 2));
    StepKeepsValid(s, Enter(2, "p", 2));
    assert |s1.pool.index| == |s1.pool.index.Keys| && s1.pool.index.Keys == {"p", "q"};
    var s2 := Apply(s1, BeginScan(3, "r"));
    StepKeepsValid(s1, BeginScan(3, "r"));
    assert Poised(s2) && LegalRun(s2, []) && Final(s2, []) == s2;
    hide Poised;
    Prepend(s1, BeginScan(3, "r"), []);
    steps := [BeginScan(3, "r")] + [];
    Prepend(s, Enter(2, "p", 2), steps);
    steps := [Enter(2, "p", 2)] + steps;
  }

  /**
   Without such a level the emptier bucket can go: q, which stores less than p when the scan begins, is read
   first; then both tokens of p are taken, p is read as empty, and q is dropped.
   */
  lemma ScanCanDropTheEmptier(s: System) returns (steps: seq<Step>)
    requires Poised(s)
    ensures LegalRun(s, steps) && s.pool.Stored("q") < s.pool.Stored("p")
    ensures "q" !in Final(s, steps).pool.index && "p" in Final(s, steps).pool.index
  {
    var s1 := Apply(s, ReadCount("q"));
    StepKeepsValid(s, ReadCount("q"));
    assert s1.scan.value.seen == map["q" := 1.0] && s1.scan.value.best == Some("q");
    var rest := TakeBoth(s1);
    Prepend(s, ReadCount("q"), rest);
    steps := [ReadCount("q")] + rest;
  }

  lemma TakeBoth(s: System) returns (steps: seq<Step>)
    requires s.Valid() && s.pool.index.Keys == {"p", "q"} && s.pool.burst == 2.0
    requires s.pool.Stored("p") == 2.0 && s.pool.pacers[s.pool.index["p"]].last.None?
    requires 1 in s.callers && 2 in s.callers && s.callers[1] == s.callers[2] == AtPrincipal(s.pool.index["p"])
    requires s.scan.Some? && s.scan.value.seen == map["q" := 1.0] && s.scan.value.best == Some("q")
    requires 2 !in s.pool.pacers
    ensures LegalRun(s, steps) && "q" !in Final(s, steps).pool.index && "p" in Final(s, steps).pool.index
  {
    var k := s.pool.index["p"];
    var s1 := Apply(s, ChargePrincipal(1, 0.0));
    StepKeepsValid(s, ChargePrincipal(1, 0.0));
    assert s1.pool.pacers[k] == Bucket(1.0, s.pool.rate, 2.0, Some(0.0));
    var s2 := Apply(s1, ChargePrincipal(2, 0.0));
    StepKeepsValid(s1, ChargePrincipal(2, 0.0));
    assert s2.pool.pacers[k] == Bucket(0.0, s.pool.rate, 2.0, Some(0.0));
    steps := ReadAndDrop(s2);
    Prepend(s1, ChargePrincipal(2, 0.0), steps);
    steps := [ChargePrincipal(2, 0.0)] + steps;
    Prepend(s, ChargePrincipal(1, 0.0), steps);
    steps := [ChargePrincipal(1, 0.0)] + steps;
  }

  lemma ReadAndDrop(s: System) returns (steps: seq<Step>)
    requires s.Valid() && s.pool.index.Keys == {"p", "q"} && s.pool.Stored("p") == 0.0
    requires s.scan.Some? && s.scan.value.seen == map["q" := 1.0] && s.scan.value.best == Some("q")
    requires 2 !in s.pool.pacers
    ensures LegalRun(s, steps) && "q" !in Final(s, steps).pool.index && "p" in Final(s, steps).pool.index
  {
    hide Bucket.Refill, Bucket.Valid, Pool.BucketsValid;
    var s1 := Apply(s, ReadCount("p"));
    StepKeepsValid(s, ReadCount("p"));
    assert s1.scan.value.seen == map["q" := 1.0, "p" := 0.0];
    var s2 := Apply(s1, EndScan(2));
    StepKeepsValid(s1, EndScan(2));
    assert LegalRun(s2, []) && Final(s2, []) == s2;
    Prepend(s1, EndScan(2), []);
    Prepend(s, ReadCount("p"), [EndScan(2)] + []);
    steps := [ReadCount("p")] + ([EndScan(2)] + []);
  }

  // ------------------------------------------------- shared grants in a window

  /** The largest clock reading the shared bucket has seen, or `origin` if it has seen none. */
  function Horizon(b: Bucket, origin: real): real {
    if b.last.Some? then b.last.value else origin
  }

  /** `origin` is the bucket's last reading, or, before its first reading, precedes the given one. */
  ghost predicate From(b: Bucket, origin: real, now: real) {
    if b.last.Some? then origin <= b.last.value else origin <= now
  }

  /** One take or refill: tokens plus grants grow by no more than the advance of the largest reading earns. */
  lemma OneReading(b: Bucket, now: real, origin: real)
    requires b.Valid() && From(b, origin, now)
    ensures var (b', ok) := b.Take(now);
            && b'.Valid() && b'.rate == b.rate && b'.last.Some?
            && Horizon(b, origin) <= Horizon(b', origin) && origin <= b'.last.value
            && b'.tokens + (if ok then 1.0 else 0.0)
               <= b.tokens + Earn(Horizon(b', origin) - Horizon(b, origin), b.rate)
            && b.Refill(now).Valid() && b.Refill(now).rate == b.rate && b.Refill(now).last == b'.last
            && b.Refill(now).tokens <= b.tokens + Earn(Horizon(b', origin) - Horizon(b, origin), b.rate)
  {
    hide Earn;
    StaysInRange(b, now);
    EarnNothing(b.rate);
    if b.last.None? {
      EarnNonNegative(now - origin, b.rate);
    }
  }

  function Reads(step: Step): bool { step.ChargeShared? || step.RetryShared? || step.AskShared? }

  /** What a step does to the shared bucket, and how many shared tokens it hands out. */
  function SharedEffect(b: Bucket, step: Step): (Bucket, nat) {
    if !Reads(step) then (b, 0)
    else if step.AskShared? then (b.Refill(step.now), 0)
    else var (b', ok) := b.Take(step.now); (b', if ok then 1 else 0)
  }

  lemma ApplyShared(s: System, step: Step)
    requires s.Valid() && Enabled(s, step)
    ensures Apply(s, step).shared == SharedEffect(s.shared, step).0
    ensures Apply(s, step).SharedGrants() == s.SharedGrants() + SharedEffect(s.shared, step).1
  {
    hide Bucket.Refill, Bucket.Take;
  }

  function ReadsOnly(steps: seq<Step>): seq<Step>
    decreases steps
  {
    if steps == [] then [] else (if Reads(steps[0]) then [steps[0]] else []) + ReadsOnly(steps[1..])
  }

  /** The shared bucket on its own: its state and the tokens it hands out over a list of readings. */
  function Replay(b: Bucket, readings: seq<Step>): (Bucket, nat)
    decreases readings
  {
    if readings == [] then (b, 0)
    else
      var (b', n) := SharedEffect(b, readings[0]);
      var (end, m) := Replay(b', readings[1..]);
      (end, n + m)
  }

  /**
   In every interleaving the shared bucket behaves as if its own readings were the whole run: any number of
   lookups, evictions and charges or refusals of principals in between changes neither it nor what it grants.
   */
  lemma {:induction false} SharedSeesOnlyItsReadings(s: System, steps: seq<Step>)
    requires LegalRun(s, steps)
    ensures var f, (b, n) := Final(s, steps), Replay(s.shared, ReadsOnly(steps));
            f.shared == b && f.SharedGrants() == s.SharedGrants() + n
    decreases steps
  {
    hide Apply, System.SharedGrants, Bucket.Refill, Bucket.Take;
    if steps != [] {
      ApplyShared(s, steps[0]);
      SharedSeesOnlyItsReadings(Apply(s, steps[0]), steps[1..]);
      if Reads(steps[0]) {
        assert ReadsOnly(steps)[1..] == ReadsOnly(steps[1..]);
      } else {
        assert ReadsOnly(steps) == ReadsOnly(steps[1..]);
      }
    }
  }

  /** All readings of the shared bucket in the run come after `origin`. */
  ghost predicate RunFrom(origin: real, steps: seq<Step>) {
    forall i :: 0 <= i < |steps| && Reads(steps[i]) ==> origin <= steps[i].now
  }

  /** `origin` precedes everything the bucket has read, and, if it has read nothing, all it will read. */
  ghost predicate Precedes(origin: real, b: Bucket, steps: seq<Step>) {
    && (b.last.Some? ==> origin <= b.last.value)
    && (b.last.None? ==> RunFrom(origin, steps))
  }

  lemma SharedStep(b: Bucket, steps: seq<Step>, origin: real)
    requires b.Valid() && steps != [] && Precedes(origin, b, steps)
    ensures var (b', n) := SharedEffect(b, steps[0]);
            && b'.rate == b.rate && Precedes(origin, b', steps[1..])
            && b'.tokens + n as real <= b.tokens + Earn(Horizon(b', origin) - Horizon(b, origin), b.rate)
  {
    hide Earn;
    EarnNothing(b.rate);
    var step, rest := steps[0], steps[1..];
    if Reads(step) {
      assert From(b, origin, step.now);
      OneReading(b, step.now, origin);
      hide Bucket.Refill;
    } else {
      forall i | 0 <= i < |rest| && Reads(rest[i]) && b.last.None? ensures origin <= rest[i].now {
        assert steps[i + 1] == rest[i];
      }
    }
  }

  /**
   Under every interleaving, the shared grants of a run are at most the tokens it started with plus
   what the growth of the largest clock reading earns, less the tokens left.
   */
  lemma {:induction false} SharedGrantsInWindow(s: System, steps: seq<Step>, origin: real)
    requires LegalRun(s, steps) && Precedes(origin, s.shared, steps)
    ensures var f := Final(s, steps);
            && f.shared.rate == s.shared.rate
            && f.shared.tokens + f.SharedGrants() as real
               <= s.shared.tokens + s.SharedGrants() as real
                  + Earn(Horizon(f.shared, origin) - Horizon(s.shared, origin), s.shared.rate)
    decreases steps
  {
    hide Earn, Bucket.Refill, Apply, SharedEffect, Precedes, System.SharedGrants;
    EarnNothing(s.shared.rate);
    if steps != [] {
      var s', rest := Apply(s, steps[0]), steps[1..];
      ApplyShared(s, steps[0]);
      SharedStep(s.shared, steps, origin);
      SharedGrantsInWindow(s', rest, origin);
      var end := Final(s', rest).shared;
      EarnSplits(Horizon(s.shared, origin), Horizon(s'.shared, origin), Horizon(end, origin), s.shared.rate);
    }
  }

  /** The window bound in its usual form: burst plus rate times the advance of the clock. */
  lemma SharedRateHolds(s: System, steps: seq<Step>, origin: real)
    requires LegalRun(s, steps) && Precedes(origin, s.shared, steps)
    ensures var f := Final(s, steps);
            (f.SharedGrants() - s.SharedGrants()) as real
            <= s.shared.burst + Earn(Horizon(f.shared, origin) - Horizon(s.shared, origin), s.shared.rate)
  {
    hide Earn;
    SharedGrantsInWindow(s, steps, origin);
    LegalEndsValid(s, steps);
  }

  /** The same with the clock readings spelled out: once it has been read, what counts is its largest reading. */
  lemma SharedRateInPlainTerms(s: System, steps: seq<Step>)
    requires LegalRun(s, steps) && s.shared.last.Some? && Final(s, steps).shared.last.Some?
    ensures var f := Final(s, steps);
            var passed := f.shared.last.value - s.shared.last.value;
            (f.tally.admitted + f.tally.retries - s.tally.admitted - s.tally.retries) as real
            <= s.shared.burst + passed * s.shared.rate
  {
    hide *;
    var f, origin := Final(s, steps), s.shared.last.value;
    HorizonMeans(s.shared, steps);
    GrantsMean(s);
    GrantsMean(f);
    EarnMeans(f.shared.last.value - origin, s.shared.rate);
    SharedRateHolds(s, steps, origin);
    assert Horizon(f.shared, origin) == f.shared.last.value by {
      HorizonOfLast(f.shared, origin);
    }
  }

  lemma HorizonMeans(b: Bucket, steps: seq<Step>)
    requires b.last.Some?
    ensures Precedes(b.last.value, b, steps) && Horizon(b, b.last.value) == b.last.value
  {
  }

  lemma HorizonOfLast(b: Bucket, origin: real)
    requires b.last.Some?
    ensures Horizon(b, origin) == b.last.value
  {
  }

  lemma GrantsMean(s: System)
    ensures s.SharedGrants() == s.tally.admitted + s.tally.retries
  {
  }

  lemma EarnMeans(elapsed: real, rate: real)
    ensures Earn(elapsed, rate) == elapsed * rate
  {
  }
}
