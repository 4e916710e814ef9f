/**
 The activation coordinator of internal/activation/coordinator.go and the durable row transitions it
 drives (internal/db/schedule_activations.go). Instants are nanoseconds; durations are Go's int64.
 */
module Activation {
  import opened Basics

  newtype Duration = x: int | -0x8000_0000_0000_0000 <= x <= 0x7fff_ffff_ffff_ffff

  const SECOND: Duration := 1_000_000_000
  const MINUTE: Duration := 60_000_000_000
  const MAX_DELAY: Duration := 900_000_000_000

  /** schedulespec refuses a longer age, so that age * SECOND does not wrap. */
  const MAX_AGE_SECONDS := 9_223_372_036

  function MinInt(a: int, b: int): int { if a <= b then a else b }

  /** Two's-complement int64 result of an exact product. */
  function Wrap(x: int): int {
    (x + 0x8000_0000_0000_0000) % 0x1_0000_0000_0000_0000 - 0x8000_0000_0000_0000
  }

  // ------------------------------------------------------------ the backoff

  function Pow2(n: nat): (p: int)
    ensures p >= 1
  {
    if n == 0 then 1 else 2 * Pow2(n - 1)
  }

  function Base(base: int): int { if base <= 0 then MINUTE as int else base }

  /** The delay after `prior` deferrals: the base doubled that often, capped at fifteen minutes. */
  function RetryDelay(base: int, prior: int): int {
    MinInt(MAX_DELAY as int, Scaled(base, if prior < 0 then 0 else prior))
  }

  function Scaled(base: int, n: nat): int {
    Base(base) * Pow2(n)
  }

  lemma ScaledDoubles(base: int, n: nat)
    ensures Scaled(base, 0) == Base(base) && Scaled(base, n + 1) == 2 * Scaled(base, n)
  {
    assert Pow2(n + 1) == 2 * Pow2(n);
  }

  lemma ScaleUp(b: int, p: int, q: int)
    requires b >= 0 && p <= q
    ensures b * p <= b * q
  {
  }

  lemma {:induction false} Pow2Grows(m: nat, n: nat)
    requires m <= n
    ensures Pow2(m) <= Pow2(n)
    decreases n - m
  {
    if m < n {
      Pow2Grows(m + 1, n);
    }
  }

  /** More deferrals never shorten the delay, and it stays between one nanosecond and the cap. */
  lemma RetryDelayGrows(base: int, m: int, n: int)
    requires m <= n
    ensures 0 < RetryDelay(base, m) <= RetryDelay(base, n) <= MAX_DELAY as int
  {
    var m', n' := if m < 0 then 0 else m, if n < 0 then 0 else n;
    Pow2Grows(m', n');
    ScaleUp(Base(base), Pow2(m'), Pow2(n'));
    ScaleUp(Base(base), 1, Pow2(m'));
  }

  /** The first delay is the base, a minute if none is given, and each one doubles until fifteen minutes. */
  lemma RetryDelayDoubles(base: int, prior: int)
    ensures RetryDelay(base, 0) == if base <= 0 then 60_000_000_000 else MinInt(base, 900_000_000_000)
    ensures prior <= 0 ==> RetryDelay(base, prior) == RetryDelay(base, 0)
    ensures prior >= 0 ==> RetryDelay(base, prior + 1) == MinInt(900_000_000_000, 2 * RetryDelay(base, prior))
  {
    ScaledDoubles(base, 0);
    if prior >= 0 {
      ScaledDoubles(base, prior);
      RetryDelayGrows(base, prior, prior);
    }
    hide Scaled;
  }

  /** The doubling loop computes RetryDelay; that `delay * 2` fits an int64 is part of the proof. */
  method CapacityRetryDelay(base: Duration, priorDeferrals: int) returns (delay: Duration)
    ensures delay as int == RetryDelay(base as int, priorDeferrals)
  {
    var b := if base <= 0 then MINUTE else base;
    if b > MAX_DELAY {
      b := MAX_DELAY;
    }
    delay := b;
    var i := 0;
    ScaledDoubles(base as int, 0);
    hide Scaled;
    while i < priorDeferrals && delay < MAX_DELAY
      invariant 0 <= i && (i == 0 || i <= priorDeferrals)
      invariant 0 < delay <= MAX_DELAY
      invariant delay as int == MinInt(MAX_DELAY as int, Scaled(base as int, i))
      decreases priorDeferrals - i
    {
      ScaledDoubles(base as int, i);
      delay := delay * 2;
      if delay > MAX_DELAY {
        delay := MAX_DELAY;
      }
      i := i + 1;
    }
    if delay == MAX_DELAY {
      RetryDelayGrows(base as int, i, if i <= priorDeferrals then priorDeferrals else i);
    }
  }

  // --------------------------------------------------- runner results and rows

  datatype Retry = Retry(reason: string, after: Duration)

  /** Why a runner answers that it is not needed. The coordinator is not told, and treats both alike. */
  datatype NotNeededReason = AlreadyServing | NothingToServe

  /** A runner error, as the set of kinds it wraps. */
  datatype RollError = RollError(
      text: string, notNeeded: Option<NotNeededReason>, superseded: bool, unsupported: bool, targetDeleted: bool,
      waiting: Option<Retry>, capacity: Option<Retry>, retryable: Option<Retry>, repair: Option<Retry>)

  datatype Roll = Done | Failed(err: RollError) | Panicked(text: string)

  /** safeRoll: a panic becomes a repair-required error, never a lost or ordinary one. */
  function Contained(r: Roll): Roll {
    if r.Panicked? then
      var reason := "activation runner panicked: " + r.text;
      Failed(RollError(reason, None, false, false, false, None, None, None, Some(Retry(reason, 5 * SECOND))))
    else r
  }

  datatype Outcome = Succeeded | NotNeeded | Superseded | BlockedUnsupported | TargetDeleted | RolloutFailed
  datatype Status = Pending | DeferredInterval | DeferredCapacity | Repairing | Running | Terminal(outcome: Outcome)

  /** Rolling stands for the runner's other progress marks, which the store and the coordinator never test. */
  datatype Phase = Queued | StartingSurge | Rolling | Recovering | GroupedRestart | Complete

  datatype Row = Row(
      status: Status, phase: Phase, attempts: nat, deferrals: nat, deferredAt: Option<int>,
      maxAgeSeconds: int, dueAt: int, lastError: string)
  {
    /** What schedule validation guarantees of the age limit; zero or less means none. */
    predicate AgeValid() { maxAgeSeconds <= MAX_AGE_SECONDS }

    /** The age limit as the code computes it, in nanoseconds. */
    function Age(): int { Wrap(maxAgeSeconds * SECOND as int) }
  }

  datatype Transition =
    | Wait(reason: string, dueAt: int)
    | Defer(to: Status, reason: string, dueAt: int, deferredAt: int)
    | Finish(outcome: Outcome, lastError: string, countAttempt: bool)

  function OrDefault(after: Duration): int { if after <= 0 then 5 * SECOND as int else after as int }

  /** When the capacity episode of this row began, were it deferred now. */
  function Since(a: Row, finishedAt: int): int {
    if a.deferredAt.Some? then a.deferredAt.value else finishedAt
  }

  predicate Expired(a: Row, finishedAt: int) {
    a.maxAgeSeconds > 0 && finishedAt >= Since(a, finishedAt) + a.Age()
  }

  function DeferForCapacity(a: Row, capacity: Retry, finishedAt: int): Transition {
    var dueAt := finishedAt + RetryDelay(capacity.after as int, a.deferrals);
    var clipped := if a.maxAgeSeconds > 0 then MinInt(dueAt, Since(a, finishedAt) + a.Age()) else dueAt;
    Defer(DeferredCapacity, capacity.reason, clipped, finishedAt)
  }

  /** The one transition ProcessNext asks the store for, in the order the code tests the error. */
  function Decide(a: Row, r: Roll, finishedAt: int): Transition {
    if r.Done? then Finish(Succeeded, "", true)
    else
      var e := if r.Failed? then r.err else Contained(r).err;
      if e.notNeeded.Some? then Finish(if a.phase == Recovering then Succeeded else NotNeeded, "", true)
      else if e.superseded then Finish(Superseded, "", false)
      else if e.unsupported then Finish(BlockedUnsupported, e.text, true)
      else if e.targetDeleted then Finish(TargetDeleted, "", true)
      else if e.waiting.Some? then Wait(e.waiting.value.reason, finishedAt + OrDefault(e.waiting.value.after))
      else if e.capacity.Some? then
        if Expired(a, finishedAt) then
          Finish(RolloutFailed, "capacity deferral expired: " + e.capacity.value.reason, false)
        else DeferForCapacity(a, e.capacity.value, finishedAt)
      else if e.retryable.Some? && a.attempts + 1 < 3 then
        Defer(Pending, e.retryable.value.reason, finishedAt + OrDefault(e.retryable.value.after), finishedAt)
      else if e.repair.Some? then
        Defer(Repairing, e.repair.value.reason, finishedAt + OrDefault(e.repair.value.after), finishedAt)
      else Finish(RolloutFailed, e.text, true)
  }

  /** The store's update of a running row. `ownsRuntime`: replacement replicas already exist. */
  function Stored(a: Row, t: Transition, ownsRuntime: bool): Row {
    match t
    case Wait(_, dueAt) =>
      if a.phase == Recovering || a.phase == GroupedRestart then a.(status := Repairing, dueAt := dueAt)
      else a.(status := Pending, phase := Queued, dueAt := dueAt)
    case Defer(to, _, dueAt, at) =>
      var persisted := if to == DeferredCapacity && ownsRuntime then Repairing else to;
      var counted := if to == DeferredCapacity then
                       a.(deferrals := a.deferrals + 1, deferredAt := Some(Since(a, at)))
                     else a.(attempts := a.attempts + 1);
      counted.(status := persisted, phase := if persisted == Repairing then a.phase else Queued, dueAt := dueAt)
    case Finish(outcome, lastError, count) =>
      a.(status := Terminal(outcome), phase := Complete, lastError := lastError,
         attempts := a.attempts + if count then 1 else 0)
  }

  predicate Claimable(a: Row, now: int) {
    match a.status
    case Running => true
    case Terminal(_) => false
    case _ => a.dueAt <= now
  }

  /** While claims are paused only work that already owns runtime state may be claimed. */
  predicate ClaimableAsRepair(a: Row, now: int, ownsRuntime: bool) {
    Claimable(a, now) && (a.status == Running || a.status == Repairing || ownsRuntime)
  }

  function Claimed(a: Row): Row {
    var phase := if a.phase == GroupedRestart then GroupedRestart
                 else if a.status == Running || a.status == Repairing || a.phase == Recovering then Recovering
                 else StartingSurge;
    a.(status := Running, phase := phase)
  }

  /** The row once the runner has recorded its last progress mark, if any. */
  function Advanced(a: Row, progress: Option<Phase>): Row {
    if progress.Some? then a.(phase := progress.value) else a
  }

  /** The durable row after a claim, the runner's mark, and a transition the store took or did not. */
  function Settled(claimed: Row, progress: Option<Phase>, t: Transition, ownsRuntime: bool, stored: bool): Row {
    var left := Advanced(claimed, progress);
    if stored then Stored(left, t, ownsRuntime) else left
  }

  /** What a server restart does to a row left running. */
  function Requeued(a: Row, now: int): Row {
    if a.status != Running then a
    else
      a.(status := Repairing, dueAt := now, phase := if a.phase == GroupedRestart then GroupedRestart else Recovering)
  }

  /** A restart changes nothing that the next claim can see, except that it has to wait until the restart. */
  lemma RestartIsInvisibleToClaims(a: Row, now: int, later: int)
    requires now <= later && !a.status.Terminal?
    ensures Claimed(Requeued(a, now)) == Claimed(a).(dueAt := Requeued(a, now).dueAt)
    ensures Claimable(a, later) <==> Claimable(Requeued(a, now), later)
  {
  }

  /** The next capacity check: backed off, but never past the age limit. */
  method CapacityDueAt(a: Row, capacity: Retry, finishedAt: int) returns (dueAt: int)
    ensures DeferForCapacity(a, capacity, finishedAt) == Defer(DeferredCapacity, capacity.reason, dueAt, finishedAt)
  {
    var delay := CapacityRetryDelay(capacity.after, a.deferrals);
    dueAt := finishedAt + delay as int;
    if a.maxAgeSeconds > 0 && dueAt > Since(a, finishedAt) + a.Age() {
      dueAt := Since(a, finishedAt) + a.Age();
    }
  }

  /** The switch over the runner's error, tested in the order of the code; a panic is contained first. */
  method Choose(a: Row, roll: Roll, finishedAt: int) returns (t: Transition)
    ensures t == Decide(a, Contained(roll), finishedAt)
  {
    var runErr := Contained(roll);
    var outcome, lastError, countAttempt := Succeeded, "", true;
    if runErr.Failed? {
      var e := runErr.err;
      if e.notNeeded.Some? {
        if a.phase != Recovering {
          outcome := NotNeeded;
        }
      } else if e.superseded {
        outcome, countAttempt := Superseded, false;
      } else if e.unsupported {
        outcome, lastError := BlockedUnsupported, e.text;
      } else if e.targetDeleted {
        outcome := TargetDeleted;
      } else if e.waiting.Some? {
        return Wait(e.waiting.value.reason, finishedAt + OrDefault(e.waiting.value.after));
      } else if e.capacity.Some? {
        if !Expired(a, finishedAt) {
          var dueAt := CapacityDueAt(a, e.capacity.value, finishedAt);
          return Defer(DeferredCapacity, e.capacity.value.reason, dueAt, finishedAt);
        }
        outcome, countAttempt := RolloutFailed, false;
        lastError := "capacity deferral expired: " + e.capacity.value.reason;
      } else if e.retryable.Some? && a.attempts + 1 < 3 {
        var dueAt := finishedAt + OrDefault(e.retryable.value.after);
        return Defer(Pending, e.retryable.value.reason, dueAt, finishedAt);
      } else if e.repair.Some? {
        var dueAt := finishedAt + OrDefault(e.repair.value.after);
        return Defer(Repairing, e.repair.value.reason, dueAt, finishedAt);
      } else {
        outcome, lastError := RolloutFailed, e.text;
      }
    }
    return Finish(outcome, lastError, countAttempt);
  }

  // -------------------------------------------------------------- the object

  /** The release handle of one Pause; releasing twice counts once. */
  class PauseHandle {
    var released: bool

    constructor ()
      ensures !released
    {
      released := false;
    }
  }

  class Coordinator {
    var pauses: int
    /** The durable rows, and every transition ever asked of the store. */
    var rows: map<int, Row>
    ghost var asked: seq<(int, Transition)>
    ghost var held: set<PauseHandle>

    ghost predicate Valid()
      reads this, held
    {
      pauses == |held| && forall h :: h in held ==> !h.released
    }

    constructor (rows: map<int, Row>)
      ensures Valid() && this.rows == rows && held == {} && asked == []
    {
      this.rows, this.pauses, this.held, this.asked := rows, 0, {}, [];
    }

    method Pause() returns (h: PauseHandle)
      requires Valid()
      modifies this
      ensures Valid() && fresh(h) && held == old(held) + {h}
      ensures rows == old(rows) && asked == old(asked)
    {
      h := new PauseHandle();
      pauses := pauses + 1;
      held := held + {h};
    }

    method Release(h: PauseHandle)
      requires Valid() && (!h.released ==> h in held)
      modifies this, h
      ensures Valid() && h.released && held == old(held) - {h}
      ensures rows == old(rows) && asked == old(asked)
    {
      if !h.released {
        h.released := true;
        pauses := pauses - 1;
        held := held - {h};
      }
    }

    /**
     One claim. `claim` is the row the store hands out, if any; `progress` is the last mark the runner left on
     it; `stored` tells whether the store accepts the transition. Whether the row owns runtime state is read
     twice, at the claim and at the transition, and the roll may change it in between. Exactly one transition
     is asked for per claim, and it is the one Decide names.
     */
    method ProcessNext(now: int, claim: Option<int>, ownedAtClaim: bool, progress: Option<Phase>, roll: Roll,
                       finishedAt: int, ownsRuntime: bool, stored: bool)
        returns (worked: bool, failed: bool)
      requires Valid()
      requires claim.Some? ==> claim.value in rows && Claimable(rows[claim.value], now)
      requires claim.Some? && held != {} ==> ClaimableAsRepair(rows[claim.value], now, ownedAtClaim)
      modifies this
      ensures Valid() && held == old(held)
      ensures claim.None? ==> !worked && !failed && rows == old(rows) && asked == old(asked)
      ensures claim.Some? ==>
                var a := Claimed(old(rows)[claim.value]);
                var t := Decide(a, Contained(roll), finishedAt);
                && worked && asked == old(asked) + [(claim.value, t)]
                && rows == old(rows)[claim.value := Settled(a, progress, t, ownsRuntime, stored)]
                && (failed <==> !stored || (t.Finish? && t.outcome == RolloutFailed))
    {
      if claim.None? {
        return false, false;
      }
      var id := claim.value;
      var a := Claimed(rows[id]);
      var left := Advanced(a, progress);
      rows := rows[id := left];
      hide Stored, Claimed, Advanced, Decide;
      var t := Choose(a, roll, finishedAt);
      failed := Ask(id, left, t, ownsRuntime, stored);
      worked, failed := true, failed || (t.Finish? && t.outcome == RolloutFailed);
    }

    method Ask(id: int, a: Row, t: Transition, ownsRuntime: bool, stored: bool) returns (failed: bool)
      requires Valid()
      modifies this`rows, this`asked
      ensures Valid() && failed == !stored
      ensures asked == old(asked) + [(id, t)]
      ensures rows == if stored then old(rows)[id := Stored(a, t, ownsRuntime)] else old(rows)
    {
      asked := asked + [(id, t)];
      if stored {
        rows := rows[id := Stored(a, t, ownsRuntime)];
      }
      failed := !stored;
    }
  }

  // ---------------------------------------------- runs of one activation row

  /**
   One claim of the row: when, the last progress mark the runner left, what it answered, and whether the store
   took the transition.
   */
  datatype Round = Round(
      claimAt: int, progress: Option<Phase>, roll: Roll, finishedAt: int, ownsRuntime: bool, stored: bool)

  function Decision(a: Row, r: Round): Transition {
    Decide(Claimed(a), Contained(r.roll), r.finishedAt)
  }

  /** The durable row when the runner returns. */
  function Left(a: Row, r: Round): Row {
    Advanced(Claimed(a), r.progress)
  }

  function After(a: Row, r: Round): Row {
    Settled(Claimed(a), r.progress, Decision(a, r), r.ownsRuntime, r.stored)
  }

  function Final(a: Row, rounds: seq<Round>): Row
    decreases rounds
  {
    if rounds == [] then a else Final(After(a, rounds[0]), rounds[1..])
  }

  lemma {:induction false} FinalAppend(a: Row, rounds: seq<Round>, r: Round)
    ensures Final(a, rounds + [r]) == After(Final(a, rounds), r)
    decreases rounds
  {
    if rounds == [] {
      assert ([] + [r])[1..] == [];
    } else {
      assert (rounds + [r])[1..] == rounds[1..] + [r];
      FinalAppend(After(a, rounds[0]), rounds[1..], r);
    }
  }

  ghost predicate LegalRun(a: Row, from: int, rounds: seq<Round>)
    decreases rounds
  {
    rounds != [] ==>
      && from <= rounds[0].claimAt <= rounds[0].finishedAt && Claimable(a, rounds[0].claimAt)
      && LegalRun(After(a, rounds[0]), rounds[0].finishedAt, rounds[1..])
  }

  /** A capacity-deferred row knows when its episode began and is due before its age limit. */
  ghost predicate OnTime(a: Row) {
    && (a.deferrals > 0 ==> a.deferredAt.Some?)
    && (a.status == DeferredCapacity ==>
          && a.deferredAt.Some?
          && (a.maxAgeSeconds > 0 ==> a.dueAt <= a.deferredAt.value + a.maxAgeSeconds * SECOND as int))
  }

  lemma AgeDoesNotWrap(a: Row)
    requires a.AgeValid() && a.maxAgeSeconds > 0
    ensures a.Age() == a.maxAgeSeconds * SECOND as int
  {
  }

  /** Along every run: never due past the age limit, and the start of the episode never moves. */
  lemma {:induction false} NeverDuePastAgeLimit(a: Row, from: int, rounds: seq<Round>)
    requires a.AgeValid() && OnTime(a) && LegalRun(a, from, rounds)
    ensures OnTime(Final(a, rounds))
    ensures a.deferredAt.Some? ==> Final(a, rounds).deferredAt == a.deferredAt
    decreases rounds
  {
    if rounds != [] {
      if a.maxAgeSeconds > 0 {
        AgeDoesNotWrap(a);
      }
      NeverDuePastAgeLimit(After(a, rounds[0]), rounds[0].finishedAt, rounds[1..]);
    }
  }

  /** The error says capacity and none of the kinds tested before it. */
  predicate CapacityBlocked(r: Roll) {
    r.Failed? && r.err.capacity.Some? && r.err.waiting.None?
    && r.err.notNeeded.None? && !r.err.superseded && !r.err.unsupported && !r.err.targetDeleted
  }

  /** A capacity result ends the row exactly when it arrives at or after the age limit of a limited row. */
  lemma CapacityFailsExactlyAtAgeLimit(a: Row, r: Roll, finishedAt: int)
    requires a.AgeValid() && CapacityBlocked(r)
    ensures var limit := Since(a, finishedAt) + a.maxAgeSeconds * SECOND as int;
            && (Decide(a, r, finishedAt).Finish? <==> a.maxAgeSeconds > 0 && finishedAt >= limit)
            && (Decide(a, r, finishedAt).Finish? ==>
                  Decide(a, r, finishedAt).outcome == RolloutFailed && !Decide(a, r, finishedAt).countAttempt)
            && (!Decide(a, r, finishedAt).Finish? ==>
                  && finishedAt < Decide(a, r, finishedAt).dueAt
                  && (a.maxAgeSeconds > 0 ==> Decide(a, r, finishedAt).dueAt <= limit))
  {
    if a.maxAgeSeconds > 0 {
      AgeDoesNotWrap(a);
    }
    RetryDelayGrows(r.err.capacity.value.after as int, a.deferrals, a.deferrals);
  }

  /** The time of the first capacity deferral the store recorded, before or during the run. */
  function FirstDeferral(a: Row, rounds: seq<Round>): Option<int>
    decreases rounds
  {
    if a.deferredAt.Some? then a.deferredAt
    else if rounds == [] then None
    else
      var r := rounds[0];
      var t := Decision(a, r);
      if r.stored && t.Defer? && t.to == DeferredCapacity then Some(r.finishedAt)
      else FirstDeferral(After(a, r), rounds[1..])
  }

  lemma {:induction false} EpisodeBeginsOnce(a: Row, rounds: seq<Round>)
    ensures Final(a, rounds).deferredAt == FirstDeferral(a, rounds)
    ensures Final(a, rounds).maxAgeSeconds == a.maxAgeSeconds
    decreases rounds
  {
    if rounds != [] {
      EpisodeBeginsOnce(After(a, rounds[0]), rounds[1..]);
    }
  }

  /**
   Any capacity result after any run of the row. It fails the row, uncounted, exactly when the row has an age
   limit that has passed since the first deferral ever recorded; otherwise the row is deferred, and however the
   deferral is stored the row is due no later than that limit.
   */
  lemma CapacityAcrossRuns(a: Row, rounds: seq<Round>, r: Round)
    requires a.AgeValid() && CapacityBlocked(r.roll)
    ensures var b, first, t := Final(a, rounds), FirstDeferral(a, rounds), Decision(Final(a, rounds), r);
            var since := if first.Some? then first.value else r.finishedAt;
            var limit := since + a.maxAgeSeconds * SECOND as int;
            && (t.Finish? <==> a.maxAgeSeconds > 0 && r.finishedAt >= limit)
            && (t.Finish? ==> t.outcome == RolloutFailed && !t.countAttempt)
            && (!t.Finish? ==> t.Defer? && t.to == DeferredCapacity && t.dueAt > r.finishedAt)
            && (!t.Finish? ==>
                  var free := r.finishedAt + RetryDelay(r.roll.err.capacity.value.after as int, b.deferrals);
                  t.dueAt == if a.maxAgeSeconds > 0 && limit < free then limit else free)
            && (!t.Finish? && r.stored ==>
                  var c := After(b, r);
                  && c.dueAt == t.dueAt && c.deferredAt == Some(since) && c.attempts == b.attempts
                  && c.deferrals == b.deferrals + 1 && (c.status == DeferredCapacity || c.status == Repairing))
  {
    EpisodeBeginsOnce(a, rounds);
    CapacityFailsExactlyAtAgeLimit(Claimed(Final(a, rounds)), r.roll, r.finishedAt);
  }

  /** The error wraps none of the kinds that end an activation by themselves. */
  predicate NoEndingKind(e: RollError) {
    e.notNeeded.None? && !e.superseded && !e.unsupported && !e.targetDeleted
  }

  /**
   What each result that ends a row leaves of it, after any run: the status, whether an attempt was counted, and
   the error. Earlier kinds win over later ones.
   */
  lemma EndingsAcrossRuns(a: Row, rounds: seq<Round>, r: Round)
    requires r.stored && !r.roll.Panicked?
    ensures var b, f := Final(a, rounds), Final(a, rounds + [r]);
            && (r.roll.Done? ==>
                  f.status == Terminal(Succeeded) && f.attempts == b.attempts + 1 && f.lastError == "")
            && (r.roll.Failed? ==>
                  var e := r.roll.err;
                  && (e.notNeeded.Some? ==>
                        && (f.status == Terminal(Succeeded) || f.status == Terminal(NotNeeded))
                        && f.attempts == b.attempts + 1 && f.lastError == "")
                  && (e.notNeeded.None? && e.superseded ==>
                        f.status == Terminal(Superseded) && f.attempts == b.attempts && f.lastError == "")
                  && (e.notNeeded.None? && !e.superseded && e.unsupported ==>
                        && f.status == Terminal(BlockedUnsupported)
                        && f.attempts == b.attempts + 1 && f.lastError == e.text)
                  && (e.notNeeded.None? && !e.superseded && !e.unsupported && e.targetDeleted ==>
                        f.status == Terminal(TargetDeleted) && f.attempts == b.attempts + 1 && f.lastError == "")
                  && (NoEndingKind(e) && e.waiting.None? && e.capacity.None? && e.repair.None?
                      && (e.retryable.None? || b.attempts >= 2) ==>
                        f.status == Terminal(RolloutFailed) && f.attempts == b.attempts + 1 && f.lastError == e.text))
  {
    FinalAppend(a, rounds, r);
  }

  /** Asked to retry after a time that is not positive, the coordinator retries after five seconds. */
  predicate DueAfter(dueAt: int, finishedAt: int, after: Duration) {
    dueAt == finishedAt + if after as int <= 0 then 5_000_000_000 else after as int
  }

  /**
   What each result that keeps a row open leaves of it, after any run: when it is due, what was counted, and
   whether it must be repaired. A panic counts as a repair that is due in five seconds.
   */
  lemma DeferralsAcrossRuns(a: Row, rounds: seq<Round>, r: Round)
    requires r.stored
    ensures var b, f := Final(a, rounds), Final(a, rounds + [r]);
            var e := if r.roll.Failed? then r.roll.err else Contained(Panicked("")).err;
            && (r.roll.Failed? && NoEndingKind(e) && e.waiting.Some? ==>
                  && DueAfter(f.dueAt, r.finishedAt, e.waiting.value.after)
                  && f.attempts == b.attempts && f.deferrals == b.deferrals && f.deferredAt == b.deferredAt
                  && (f.status == Pending || f.status == Repairing))
            && (r.roll.Failed? && NoEndingKind(e) && e.waiting.None? && e.capacity.None? && e.retryable.Some?
                && b.attempts < 2 ==>
                  && DueAfter(f.dueAt, r.finishedAt, e.retryable.value.after)
                  && f.attempts == b.attempts + 1 && f.deferrals == b.deferrals && f.status == Pending)
            && (r.roll.Failed? && NoEndingKind(e) && e.waiting.None? && e.capacity.None?
                && (e.retryable.None? || b.attempts >= 2) && e.repair.Some? ==>
                  && DueAfter(f.dueAt, r.finishedAt, e.repair.value.after)
                  && f.attempts == b.attempts + 1 && f.deferrals == b.deferrals && f.status == Repairing)
            && (r.roll.Panicked? ==>
                  && f.dueAt == r.finishedAt + 5_000_000_000
                  && f.attempts == b.attempts + 1 && f.deferrals == b.deferrals && f.status == Repairing)
  {
    FinalAppend(a, rounds, r);
  }

  function Only(waiting: Option<Retry>, capacity: Option<Retry>, retryable: Option<Retry>, repair: Option<Retry>,
                text: string): Roll {
    Failed(RollError(text, None, false, false, false, waiting, capacity, retryable, repair))
  }

  predicate WaitingOnly(r: Roll) {
    r.Failed? && r.err.waiting.Some? && r == Only(r.err.waiting, None, None, None, r.err.text)
  }

  predicate CapacityOnly(r: Roll) {
    r.Failed? && r.err.capacity.Some? && r == Only(None, r.err.capacity, None, None, r.err.text)
  }

  predicate RetryableOnly(r: Roll) {
    r.Failed? && r.err.retryable.Some? && r == Only(None, None, r.err.retryable, None, r.err.text)
  }

  predicate RepairOnly(r: Roll) {
    r.Failed? && r.err.repair.Some? && r == Only(None, None, None, r.err.repair, r.err.text)
  }

  /** Retryable results the store recorded. */
  function Retries(rounds: seq<Round>): nat
    decreases rounds
  {
    if rounds == [] then 0
    else (if rounds[0].stored && RetryableOnly(rounds[0].roll) then 1 else 0) + Retries(rounds[1..])
  }

  lemma TerminalRowsAreNotClaimed(a: Row, from: int, rounds: seq<Round>)
    requires a.status.Terminal? && LegalRun(a, from, rounds)
    ensures rounds == []
  {
  }

  /** Some recorded capacity result of the run arrived at or after the age limit. */
  predicate RanOutOfTime(a: Row, rounds: seq<Round>)
    decreases rounds
  {
    rounds != [] &&
    ((rounds[0].stored && CapacityOnly(rounds[0].roll) && Expired(Claimed(a), rounds[0].finishedAt))
     || RanOutOfTime(After(a, rounds[0]), rounds[1..]))
  }

  /**
   The attempt budget, for every row: whatever waiting, lost store writes and capacity deferrals lie in between,
   retryable results are deferred exactly twice. The row fails with the third one or with an expired capacity
   result, and is open until then.
   */
  lemma {:induction false} RetriedTwiceThenFailed(a: Row, from: int, rounds: seq<Round>)
    requires LegalRun(a, from, rounds) && a.attempts <= 2 && !a.status.Terminal?
    requires forall i :: 0 <= i < |rounds| ==>
               RetryableOnly(rounds[i].roll) || WaitingOnly(rounds[i].roll) || CapacityOnly(rounds[i].roll)
    ensures var f := Final(a, rounds);
            && f.attempts == a.attempts + Retries(rounds) <= 3
            && (f.status.Terminal? <==> f.attempts == 3 || RanOutOfTime(a, rounds))
            && (f.status.Terminal? ==> f.status == Terminal(RolloutFailed))
    decreases rounds
  {
    if rounds != [] {
      var a', rest := After(a, rounds[0]), rounds[1..];
      if a'.status.Terminal? {
        TerminalRowsAreNotClaimed(a', rounds[0].finishedAt, rest);
      } else {
        RetriedTwiceThenFailed(a', rounds[0].finishedAt, rest);
      }
    }
  }

  /** Waiting, repair-required results and panics never fail an activation, however many there are. */
  lemma {:induction false} WaitingAndRepairNeverFail(a: Row, from: int, rounds: seq<Round>)
    requires LegalRun(a, from, rounds) && !a.status.Terminal?
    requires forall i :: 0 <= i < |rounds| ==>
               WaitingOnly(rounds[i].roll) || RepairOnly(rounds[i].roll) || rounds[i].roll.Panicked?
    ensures !Final(a, rounds).status.Terminal?
    ensures Final(a, rounds).deferrals == a.deferrals && Final(a, rounds).deferredAt == a.deferredAt
    decreases rounds
  {
    if rounds != [] {
      WaitingAndRepairNeverFail(After(a, rounds[0]), rounds[0].finishedAt, rounds[1..]);
    }
  }

  function SumDelays(base: int, prior: nat, n: nat): int
    decreases n
  {
    if n == 0 then 0 else RetryDelay(base, prior) + SumDelays(base, prior + 1, n - 1)
  }

  /** Each round is a recorded capacity deferral with the same base, not clipped by the age limit. */
  ghost predicate Unclipped(a: Row, base: int, rounds: seq<Round>)
    decreases rounds
  {
    rounds != [] ==>
      && CapacityBlocked(rounds[0].roll) && rounds[0].stored
      && Base(rounds[0].roll.err.capacity.value.after as int) == Base(base)
      && (var t := Decision(a, rounds[0]);
          t.Defer? && t.dueAt == rounds[0].finishedAt + RetryDelay(base, a.deferrals))
      && Unclipped(After(a, rounds[0]), base, rounds[1..])
  }

  /** n capacity deferrals space the claims by at least the sum of the n backed-off delays. */
  lemma {:induction false} CapacityClaimsAreSpaced(a: Row, from: int, rounds: seq<Round>, next: int, base: int)
    requires rounds != [] && LegalRun(a, from, rounds) && Unclipped(a, base, rounds)
    requires Claimable(Final(a, rounds), next)
    ensures next >= rounds[0].finishedAt + SumDelays(base, a.deferrals, |rounds|)
    ensures Final(a, rounds).deferrals == a.deferrals + |rounds|
    decreases rounds
  {
    var a', rest := After(a, rounds[0]), rounds[1..];
    assert a'.dueAt == rounds[0].finishedAt + RetryDelay(base, a.deferrals) && a'.deferrals == a.deferrals + 1;
    if rest == [] {
      assert |rounds| == 1 && Final(a, rounds) == a';
      assert SumDelays(base, a.deferrals, 1) == RetryDelay(base, a.deferrals) + SumDelays(base, a.deferrals + 1, 0);
    } else {
      assert rest[0].claimAt >= a'.dueAt;
      CapacityClaimsAreSpaced(a', rounds[0].finishedAt, rest, next, base);
    }
  }

  // ------------------------------------------------- successes that were lost

  /** The next claim of the row is marked as recovering. */
  predicate Reclaimed(a: Row) {
    Claimed(a).phase == Recovering
  }

  /** The round leaves the row open. */
  predicate LeavesOpen(a: Row, r: Round) {
    r.stored ==> !Decision(a, r).Finish?
  }

  predicate LeavesOpenAlong(a: Row, rounds: seq<Round>)
    decreases rounds
  {
    rounds == [] || (LeavesOpen(a, rounds[0]) && LeavesOpenAlong(After(a, rounds[0]), rounds[1..]))
  }

  /** What a round must do for the next claim to be recovering. */
  predicate KeepsMark(a: Row, r: Round) {
    var left, t := Left(a, r).phase, Decision(a, r);
    left != GroupedRestart &&
    (r.stored ==>
       match t
       case Wait(_, _) => left == Recovering
       case Defer(to, _, _, _) => to == Repairing || (to == DeferredCapacity && r.ownsRuntime)
       case Finish(_, _, _) => false)
  }

  lemma RecoveryMark(a: Row, r: Round)
    requires LeavesOpen(a, r)
    ensures Reclaimed(After(a, r)) <==> KeepsMark(a, r)
  {
  }

  predicate SaysNotNeeded(r: Roll) {
    r.Failed? && r.err.notNeeded.Some?
  }

  /**
   A not-needed answer on a row with any history of open rounds, whatever its reason: it is recorded as a
   success exactly when the round before it kept the mark of recovery, and as not needed otherwise.
   */
  lemma NotNeededIsRecordedByTheMark(a: Row, rounds: seq<Round>, again: Round)
    requires rounds != [] && LeavesOpenAlong(a, rounds)
    requires SaysNotNeeded(again.roll) && again.stored
    ensures var n := |rounds| - 1;
            Final(a, rounds + [again]).status
            == Terminal(if KeepsMark(Final(a, rounds[..n]), rounds[n]) then Succeeded else NotNeeded)
  {
    var n := |rounds| - 1;
    FinalAppend(a, rounds, again);
    FinalAppend(a, rounds[..n], rounds[n]);
    assert rounds == rounds[..n] + [rounds[n]];
    LastLeavesOpen(a, rounds);
    RecoveryMark(Final(a, rounds[..n]), rounds[n]);
  }

  lemma {:induction false} LastLeavesOpen(a: Row, rounds: seq<Round>)
    requires rounds != [] && LeavesOpenAlong(a, rounds)
    ensures LeavesOpen(Final(a, rounds[..|rounds| - 1]), rounds[|rounds| - 1])
    decreases rounds
  {
    if |rounds| > 1 {
      LastLeavesOpen(After(a, rounds[0]), rounds[1..]);
      assert rounds[..|rounds| - 1][1..] == rounds[1..][..|rounds| - 2];
    }
  }

  /** The runner that replaces replicas slot by slot, and the one that hands a grouped pool over. */
  datatype Runner = PerSlot | Grouped

  /** Only the grouped runner records a grouped restart, and only it works on a row that is in one. */
  predicate MayLeave(runner: Runner, a: Row, r: Round) {
    runner == PerSlot ==> Left(a, r).phase != GroupedRestart
  }

  /**
   How the runner answers when its work turns out to be published and serving: slot by slot it is not needed,
   or retires a leftover surge and succeeds; a grouped one resumes the retirements and succeeds.
   */
  predicate FindsItServing(runner: Runner, r: Roll) {
    r.Done? || (runner == PerSlot && r.Failed? && r.err.notNeeded == Some(AlreadyServing))
  }

  predicate LostAlong(runner: Runner, a: Row, rounds: seq<Round>)
    decreases rounds
  {
    rounds == [] ||
    (!rounds[0].stored && MayLeave(runner, a, rounds[0]) && LostAlong(runner, After(a, rounds[0]), rounds[1..]))
  }

  /**
   However many terminal writes in a row are lost, work that is found serving is recorded as a success, for
   either runner and every row that runner can work on.
   */
  lemma LostSuccessIsRecovered(runner: Runner, a: Row, lost: seq<Round>, again: Round)
    requires lost != [] && lost[0].roll.Done? && LostAlong(runner, a, lost)
    requires FindsItServing(runner, again.roll) && again.stored
    ensures Final(a, lost + [again]).status == Terminal(Succeeded)
  {
    FinalAppend(a, lost, again);
    if SaysNotNeeded(again.roll) {
      LostRoundsKeepMark(runner, a, lost);
    }
  }

  lemma {:induction false} LostRoundsKeepMark(runner: Runner, a: Row, lost: seq<Round>)
    requires runner == PerSlot && lost != [] && LostAlong(runner, a, lost)
    ensures Reclaimed(Final(a, lost))
    decreases lost
  {
    RecoveryMark(a, lost[0]);
    if |lost| > 1 {
      LostRoundsKeepMark(runner, After(a, lost[0]), lost[1..]);
    }
  }
}
