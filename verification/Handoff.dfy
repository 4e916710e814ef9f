/**
 The generation handoff of internal/api/apps.go: staging the outgoing identities, booting the candidate,
 switching manager selection, durable pointer and proxy route in that order, compensating when a step
 fails, and rewriting the projection. Calls that leave the process take their outcome from `Faults`.
 `history` holds the state of the world after every effect, so a claim about all of it is a claim about
 a crash at any point.
 */
module Handoff {

  datatype Generation = Previous | Candidate | Older

  /** One replica process of a generation. */
  datatype Replica = Replica(generation: Generation, index: nat)

  /** A database commit: acknowledged, committed with an error returned, or not committed. */
  datatype Commit = Acked | LostAck | NotCommitted

  /** Stopping the candidate: confirmed, or unconfirmed with some replicas possibly still running. */
  datatype Stop = Confirmed | Unconfirmed(survivors: set<nat>)

  datatype Faults = Faults(
      stages: nat -> bool,          // UpsertDeploymentReplica for outgoing row i succeeds
      records: nat -> bool,         // UpsertDeploymentReplica for candidate replica i succeeds
      boots: bool,                  // deployRun succeeds once every replica was recorded
      reRecords: nat -> bool,       // the grouped re-record of candidate replica i succeeds
      managerActivates: bool,
      promote: Commit,
      pointerReadable: bool,
      selectionRestored: bool,      // RestorePoolSelection, on whichever path needs it
      proxyActivates: bool,
      revert: Commit,
      stop: Stop,
      candidateRowsDeleted: bool,   // DeleteDeploymentReplicas(candidate), after a stop or a projection
      previousRowsDeleted: bool,    // the deferred DeleteDeploymentReplicas(previous)
      projects: nat -> bool)        // UpsertReplica for candidate replica i succeeds

  datatype World = World(
      manager: Generation, pointer: Generation, route: Generation,
      running: set<Replica>, ledger: set<Replica>, projection: map<nat, Generation>)
  {
    predicate Projected(r: Replica) {
      r.index in projection && projection[r.index] == r.generation
    }

    /** Startup recovery can find every replica that may run app code. */
    predicate Named() {
      forall r :: r in running ==> r in ledger || Projected(r)
    }

    /**
     The candidate gains authority in order and loses it in reverse: the route never runs ahead of the durable
     pointer, nor, for fixed replicas, the pointer ahead of the manager's selection.
     */
    predicate InOrder(grouped: bool) {
      && (route == Candidate ==> pointer == Candidate)
      && (!grouped && pointer == Candidate ==> manager == Candidate)
    }

    /** All three authorities name g. */
    predicate Authority(g: Generation) {
      manager == g && pointer == g && route == g
    }

    predicate Ledgered(g: Generation) {
      forall r :: r in running && r.generation == g ==> r in ledger
    }

    predicate AllLedgered() {
      forall r :: r in running ==> r in ledger
    }

    predicate NoRows(g: Generation) {
      forall r :: r in ledger ==> r.generation != g
    }

    predicate AllProjected(g: Generation) {
      forall r :: r in running && r.generation == g ==> Projected(r)
    }
  }

  /** Replicas end only if they are the candidate's, and only while the previous generation is the authority. */
  predicate StopsSafely(v: World, w: World) {
    forall r :: r in v.running && r !in w.running ==> r.generation == Candidate && v.Authority(Previous)
  }

  /** At most one authority or one store of rows differs; a transaction may move pointer and projection together. */
  predicate OneEffect(v: World, w: World) {
    || w == v.(manager := w.manager)
    || w == v.(pointer := w.pointer, projection := w.projection)
    || w == v.(route := w.route)
    || (w == v.(running := w.running) && StopsSafely(v, w))
    || w == v.(ledger := w.ledger)
  }

  /** How a handoff ended. */
  datatype Outcome =
    | Refused      // the outgoing generation could not be staged: nothing was started
    | Restored     // the candidate was dropped, the previous generation is the authority everywhere
    | KeptBoth     // the outcome is uncertain: both generations and both ledgers survive
    | Published    // the candidate is the authority

  /** The promotion is known to be durable: acknowledged, or read back after a lost acknowledgement. */
  predicate KnownPromoted(f: Faults) {
    f.promote == Acked || (f.promote == LostAck && f.pointerReadable)
  }

  /** The promotion is known not to have happened. */
  predicate KnownUnpromoted(f: Faults) {
    f.promote == NotCommitted && f.pointerReadable
  }

  /** What the cutover must come to, for every pattern of failures. */
  function CutoverOutcome(f: Faults): Outcome {
    if !f.managerActivates then Restored
    else if KnownPromoted(f) then
      if f.proxyActivates then Published
      else if f.revert == Acked && f.selectionRestored then Restored
      else KeptBoth
    else if KnownUnpromoted(f) && f.selectionRestored then Restored
    else KeptBoth
  }

  class Deploy {
    const previousGrouped: bool
    const groupedHandoff: bool
    /** Indices of the candidate's replicas. */
    const replicas: set<nat>
    const f: Faults

    // What other processes and the database hold.
    var manager: Generation
    var pointer: Generation
    var route: Generation
    var running: set<Replica>
    var ledger: set<Replica>
    var projection: map<nat, Generation>

    // The handler's own flags.
    var drainingRowsStaged: bool
    var deploymentPromoted: bool

    ghost var history: seq<World>

    ghost function Now(): World
      reads this
    {
      World(manager, pointer, route, running, ledger, projection)
    }

    /** A state a crash may leave: all running replicas are named, and authorities were switched in order. */
    ghost predicate Safe(w: World) {
      w.Named() && w.InOrder(groupedHandoff)
    }

    /** The states so far, one after every single effect. */
    ghost predicate Recorded()
      reads this`history
    {
      && (forall w :: w in history ==> Safe(w))
      && (forall i :: 0 < i < |history| ==> OneEffect(history[i - 1], history[i]))
    }

    /** Wherever a crash might have happened, this state included, it would have left a safe state. */
    ghost predicate Recoverable()
      reads this
    {
      history != [] && history[|history| - 1] == Now() && Safe(Now()) && Recorded()
    }

    constructor (w: World, previousGrouped: bool, groupedHandoff: bool, replicas: set<nat>, f: Faults)
      requires w.Named() && w.Authority(Previous)
      ensures Now() == w && Recoverable() && history == [w]
      ensures this.previousGrouped == previousGrouped && this.groupedHandoff == groupedHandoff
      ensures this.replicas == replicas && this.f == f
      ensures !drainingRowsStaged && !deploymentPromoted
    {
      this.previousGrouped, this.groupedHandoff, this.replicas, this.f := previousGrouped, groupedHandoff, replicas, f;
      manager, pointer, route := w.manager, w.pointer, w.route;
      running, ledger, projection := w.running, w.ledger, w.projection;
      drainingRowsStaged, deploymentPromoted := false, false;
      history := [w];
    }

    /** A crash may happen here: remember the state it would leave. */
    ghost method Effect()
      requires history != [] && Recorded() && Safe(Now()) && OneEffect(history[|history| - 1], Now())
      modifies this`history
      ensures Recoverable() && history == old(history) + [Now()]
    {
      history := history + [Now()];
    }

    // ------------------------------------------------------------- staging

    /** A grouped generation is recorded worker by worker; a fixed one must own every projection row. */
    predicate StagingSucceeds(w: World) {
      if previousGrouped then
        forall r :: r in w.running && r.generation == Previous ==> f.stages(r.index)
      else
        w.projection.Keys != {} && forall i :: i in w.projection ==> w.projection[i] == Previous && f.stages(i)
    }

    predicate CandidateReady() {
      && f.boots && (forall i :: i in replicas ==> f.records(i))
      && (groupedHandoff ==> forall i :: i in replicas ==> f.reRecords(i))
    }

    /** Every outgoing row could be staged: what that takes of the rows and of each single write. */
    lemma StagingMeans(w: World)
      ensures StagingSucceeds(w) <==>
                && (previousGrouped ==> forall i :: Replica(Previous, i) in w.running ==> f.stages(i))
                && (!previousGrouped ==> w.projection != map[])
                && (!previousGrouped ==> forall i :: i in w.projection ==> w.projection[i] == Previous && f.stages(i))
    {
      if w.projection.Keys == {} {
        assert w.projection == map[];
      }
      if StagingSucceeds(w) {
        forall i | previousGrouped && Replica(Previous, i) in w.running ensures f.stages(i) {
          assert Replica(Previous, i).generation == Previous;
        }
      }
      if previousGrouped && forall i :: Replica(Previous, i) in w.running ==> f.stages(i) {
        forall r | r in w.running && r.generation == Previous ensures f.stages(r.index) {
          assert r == Replica(Previous, r.index);
        }
      }
    }

    /** The outcome as a function of the failure pattern alone. */
    function HandoffOutcome(w: World): Outcome {
      if !StagingSucceeds(w) then Refused else if !CandidateReady() then Restored else CutoverOutcome(f)
    }

    /** Snapshots the serving generation into the ledger, row by row, before anything is started. */
    method PersistDrainingGeneration() returns (ok: bool)
      requires Recoverable() && pointer == Previous
      modifies this`ledger, this`history
      ensures Recoverable() && old(history) <= history && old(ledger) <= ledger
      ensures forall r :: r in ledger && r !in old(ledger) ==> r.generation == Previous
      ensures ok <==> StagingSucceeds(old(Now()))
      ensures ok && !previousGrouped ==> forall i :: i in projection ==> Replica(Previous, i) in ledger
      ensures ok && previousGrouped ==> Now().Ledgered(Previous)
    {
      hide Recorded;
      var left: set<nat>;
      if previousGrouped {
        left := set r | r in running && r.generation == Previous :: r.index;
      } else {
        left := projection.Keys;
        if left == {} {
          return false;
        }
      }
      ghost var all := left;
      while left != {}
        invariant Recoverable() && old(history) <= history && old(ledger) <= ledger && left <= all
        invariant forall r :: r in ledger && r !in old(ledger) ==> r.generation == Previous
        invariant forall i :: i in all && i !in left ==>
                    && Replica(Previous, i) in ledger && f.stages(i)
                    && (!previousGrouped ==> i in projection && projection[i] == Previous)
        decreases left
      {
        var i :| i in left;
        if !previousGrouped && projection[i] != Previous {
          return false;
        }
        if !f.stages(i) {
          return false;
        }
        ledger := ledger + {Replica(Previous, i)};
        Effect();
        left := left - {i};
      }
      return true;
    }

    // ------------------------------------------------------------- booting

    /** Each candidate replica is recorded before its guard is released; an unrecorded one never runs. */
    method BootCandidate() returns (ok: bool)
      requires Recoverable() && Now().Ledgered(Candidate)
      modifies this`running, this`ledger, this`history
      ensures Recoverable() && Now().Ledgered(Candidate)
      ensures old(history) <= history && old(ledger) <= ledger
      ensures old(running) <= running
      ensures forall r :: r in running && r !in old(running) ==> r.generation == Candidate && r.index in replicas
      ensures ok <==> f.boots && forall i :: i in replicas ==> f.records(i)
      ensures ok ==> forall i :: i in replicas ==> Replica(Candidate, i) in running
      ensures forall i :: i in replicas && f.records(i) ==> Replica(Candidate, i) in running
      ensures forall r :: r in ledger && r !in old(ledger) ==> r.generation == Candidate && r.index in replicas
    {
      hide Recorded;
      var left := replicas;
      var recorded := true;
      while left != {}
        invariant Recoverable() && Now().Ledgered(Candidate)
        invariant old(history) <= history && old(ledger) <= ledger && left <= replicas
        invariant old(running) <= running
        invariant forall r :: r in ledger && r !in old(ledger) ==> r.generation == Candidate && r.index in replicas
        invariant forall r :: r in running && r !in old(running) ==> r.generation == Candidate && r.index in replicas
        invariant recorded <==> forall i :: i in replicas && i !in left ==> f.records(i)
        invariant forall i :: i in replicas && i !in left && f.records(i) ==> Replica(Candidate, i) in running
        decreases left
      {
        var i :| i in left;
        if f.records(i) {
          ledger := ledger + {Replica(Candidate, i)};
          Effect();
          running := running + {Replica(Candidate, i)};
          Effect();
        } else {
          recorded := false;
        }
        left := left - {i};
      }
      ok := recorded && f.boots;
    }

    // ------------------------------------------------------------ stopping

    /** Confirmed, the candidate is gone; unconfirmed, some of it may still run. */
    method StopCandidate() returns (confirmed: bool)
      requires Recoverable() && Now().Authority(Previous)
      modifies this`running, this`history
      ensures Recoverable() && old(history) <= history
      ensures forall r :: r in running ==> r in old(running)
      ensures forall r :: r in old(running) && r.generation != Candidate ==> r in running
      ensures confirmed <==> f.stop.Confirmed?
      ensures confirmed ==> forall r :: r in running ==> r.generation != Candidate
      ensures !confirmed ==> forall r :: r in old(running) && r.index in f.stop.survivors ==> r in running
    {
      hide Recorded;
      confirmed := f.stop.Confirmed?;
      if confirmed {
        running := set r | r in running && r.generation != Candidate;
      } else {
        running := set r | r in running && (r.generation == Candidate ==> r.index in f.stop.survivors);
      }
      Effect();
    }

    /** Called only while all three authorities name the previous generation. */
    method StopAndForgetCandidate() returns (forgotten: bool)
      requires Recoverable() && Now().Authority(Previous) && Now().Ledgered(Candidate)
      modifies this`running, this`ledger, this`history
      ensures Recoverable() && old(history) <= history && Now().Ledgered(Candidate)
      ensures forall r :: r in running ==> r in old(running)
      ensures forall r :: r in old(running) && r.generation != Candidate ==> r in running
      ensures forgotten <==> f.stop.Confirmed? && f.candidateRowsDeleted
      ensures f.stop.Confirmed? ==> forall r :: r in running ==> r.generation != Candidate
      ensures forall r: Replica :: r.generation != Candidate ==> (r in ledger <==> r in old(ledger))
      ensures if forgotten then Now().NoRows(Candidate) else ledger == old(ledger)
    {
      hide Recorded;
      var confirmed := StopCandidate();
      if !confirmed {
        return false;
      }
      DeleteCandidateRows(f.candidateRowsDeleted);
      return f.candidateRowsDeleted;
    }

    // ------------------------------------------------------------- cutover

    /** The promote transaction, where it commits: the pointer, and a grouped candidate's projection. */
    method Promote() returns (err: bool)
      requires Recoverable() && Now().AllLedgered() && (groupedHandoff || manager == Candidate)
      modifies this`pointer, this`projection, this`history
      ensures Recoverable() && old(history) <= history
      ensures err <==> f.promote != Acked
      ensures pointer == if f.promote == NotCommitted then old(pointer) else Candidate
      ensures forall i :: i in projection ==> i in old(projection) && projection[i] == old(projection)[i]
      ensures forall i :: i in old(projection) && i !in projection ==>
                groupedHandoff && f.promote != NotCommitted && old(projection)[i] == Previous
      ensures !groupedHandoff || f.promote == NotCommitted ==> projection == old(projection)
    {
      hide Recorded;
      if f.promote != NotCommitted {
        pointer := Candidate;
        if groupedHandoff {
          projection := map i | i in projection && projection[i] != Previous :: projection[i];
        }
        Effect();
      }
      err := f.promote != Acked;
    }

    /** The compensating transaction restores the pointer and re-inserts missing projection rows. */
    method RevertActivation() returns (err: bool)
      requires Recoverable() && Now().AllLedgered() && pointer == Candidate && route == Previous
      modifies this`pointer, this`projection, this`history
      ensures Recoverable() && old(history) <= history
      ensures err <==> f.revert != Acked
      ensures pointer == if f.revert == NotCommitted then Candidate else Previous
      ensures f.revert == NotCommitted || previousGrouped ==> projection == old(projection)
      ensures f.revert != NotCommitted && !previousGrouped ==>
                forall i :: if i in old(projection) then i in projection && projection[i] == old(projection)[i]
                            else
                              && (i in projection <==> Replica(Previous, i) in ledger)
                              && (i in projection ==> projection[i] == Previous)
    {
      hide Recorded;
      if f.revert != NotCommitted {
        pointer := Previous;
        if !previousGrouped {
          var missing := set r | r in ledger && r.generation == Previous && r.index !in projection :: r.index;
          projection := projection + map i | i in missing :: Previous;
        }
        Effect();
      }
      err := f.revert != Acked;
    }

    /** The state a handoff cuts over from: everything staged and recorded, nothing switched. */
    ghost predicate ReadyToCut()
      reads this
    {
      && Recoverable() && Now().Authority(Previous) && Now().AllLedgered()
      && drainingRowsStaged && !deploymentPromoted
      && (!previousGrouped ==> OutgoingProjection())
    }

    /** A fixed previous generation still owns every projection row. */
    ghost predicate OutgoingProjection()
      reads this
    {
      Now().AllProjected(Previous) && forall i :: i in projection ==> projection[i] == Previous
    }

    /** Replicas outside the candidate are as they were. */
    ghost predicate OthersUntouched(before: World)
      reads this
    {
      forall r: Replica :: r.generation != Candidate ==>
        (r in running <==> r in before.running) && (r in ledger <==> r in before.ledger)
    }

    /** What each outcome of the cutover leaves, before the handler's deferred cleanup. */
    ghost predicate CutoverDone(outcome: Outcome, before: World)
      reads this
    {
      && Recoverable() && Now().AllLedgered() && OthersUntouched(before)
      && match outcome
         case Restored =>
           && Now().Authority(Previous) && drainingRowsStaged && !deploymentPromoted
           && (!previousGrouped ==> Now().AllProjected(Previous))
           && (f.stop.Confirmed? ==> forall r :: r in running ==> r.generation != Candidate)
           && (f.stop.Confirmed? && f.candidateRowsDeleted ==> Now().NoRows(Candidate))
         case KeptBoth =>
           route == Previous && !drainingRowsStaged && running == before.running && ledger == before.ledger
         case Published =>
           && pointer == Candidate && route == Candidate && (groupedHandoff || manager == Candidate)
           && deploymentPromoted && drainingRowsStaged && running == before.running && ledger == before.ledger
         case Refused => false
    }

    /** The selection is restored and the candidate dropped; every authority is the previous generation. */
    method DropCandidate(managerBefore: Generation)
      requires Recoverable() && Now().AllLedgered()
      requires pointer == Previous && route == Previous && managerBefore == Previous
      requires drainingRowsStaged && (!previousGrouped ==> Now().AllProjected(Previous))
      modifies this
      ensures CutoverDone(Restored, old(Now())) && old(history) <= history
    {
      hide Recorded;
      if manager != managerBefore {
        manager := managerBefore;
        Effect();
      }
      deploymentPromoted := false;
      var _ := StopAndForgetCandidate();
    }

    /** Promotion, with the durable pointer read back when its acknowledgement is missing. */
    method SettlePromotion(managerBefore: Generation) returns (outcome: Outcome)
      requires Recoverable() && Now().AllLedgered()
      requires pointer == Previous && route == Previous && managerBefore == Previous
      requires drainingRowsStaged && !deploymentPromoted && (!previousGrouped ==> OutgoingProjection())
      requires groupedHandoff || manager == Candidate
      modifies this
      ensures old(history) <= history
      ensures outcome == Published <==> f.promote != NotCommitted && (f.promote == LostAck ==> f.pointerReadable)
      ensures outcome == Restored <==> f.promote == NotCommitted && f.pointerReadable && f.selectionRestored
      ensures outcome == if KnownPromoted(f) then Published
                         else if KnownUnpromoted(f) && f.selectionRestored then Restored else KeptBoth
      ensures outcome != Published ==> CutoverDone(outcome, old(Now()))
      ensures outcome == Published ==>
                && Recoverable() && pointer == Candidate && deploymentPromoted && drainingRowsStaged
                && manager == old(manager) && route == Previous && running == old(running) && ledger == old(ledger)
                && forall i :: i in projection ==> i in old(projection) && projection[i] == old(projection)[i]
    {
      hide Recorded;
      var promoteErr := Promote();
      if !promoteErr || (f.pointerReadable && pointer == Candidate) {
        deploymentPromoted := true;
        return Published;
      }
      if f.pointerReadable && f.selectionRestored {
        DropCandidate(managerBefore);
        return Restored;
      }
      drainingRowsStaged := false;
      return KeptBoth;
    }

    /** Proxy publication, compensated by reverting the pointer and then the selection. */
    method PublishRoute(managerBefore: Generation) returns (outcome: Outcome)
      requires Recoverable() && Now().AllLedgered()
      requires pointer == Candidate && route == Previous && managerBefore == Previous
      requires drainingRowsStaged && deploymentPromoted && (groupedHandoff || manager == Candidate)
      requires !previousGrouped ==> forall i :: i in projection ==> projection[i] == Previous
      modifies this
      ensures CutoverDone(outcome, old(Now())) && old(history) <= history
      ensures outcome == if f.proxyActivates then Published
                         else if f.revert == Acked && f.selectionRestored then Restored else KeptBoth
    {
      hide Recorded;
      if f.proxyActivates {
        route := Candidate;
        Effect();
        return Published;
      }
      var revertErr := RevertActivation();
      if !revertErr && f.selectionRestored {
        DropCandidate(managerBefore);
        return Restored;
      }
      drainingRowsStaged := false;
      return KeptBoth;
    }

    method Cutover() returns (outcome: Outcome)
      requires ReadyToCut()
      modifies this
      ensures CutoverDone(outcome, old(Now())) && old(history) <= history
      ensures outcome == CutoverOutcome(f)
      ensures outcome == Published <==>
                && f.managerActivates && f.proxyActivates
                && f.promote != NotCommitted && (f.promote == LostAck ==> f.pointerReadable)
      ensures outcome == Restored <==>
                f.managerActivates ==>
                  && f.selectionRestored && (f.promote != Acked ==> f.pointerReadable)
                  && (f.promote != NotCommitted ==> !f.proxyActivates && f.revert == Acked)
    {
      hide Recorded;
      var managerBefore := manager;
      if !f.managerActivates {
        var _ := StopAndForgetCandidate();
        return Restored;
      }
      if !groupedHandoff {
        manager := Candidate;
        Effect();
      }
      outcome := SettlePromotion(managerBefore);
      if outcome == Published {
        outcome := PublishRoute(managerBefore);
      }
    }

    // ---------------------------------------------------------- projection

    /** Rewrites the projection row by row; a failed row leaves that slot as it was. */
    method PersistDeployedPool() returns (ok: bool)
      requires Recoverable() && Now().AllLedgered()
      modifies this`projection, this`history
      ensures Recoverable() && old(history) <= history
      ensures ok <==> forall i :: i in replicas ==> f.projects(i)
      ensures forall i :: i in replicas && f.projects(i) ==> i in projection && projection[i] == Candidate
      ensures forall i :: i !in replicas || !f.projects(i) ==>
                (i in projection <==> i in old(projection)) && (i in projection ==> projection[i] == old(projection)[i])
    {
      hide Recorded;
      ok := true;
      var left := replicas;
      while left != {}
        invariant Recoverable() && old(history) <= history && left <= replicas
        invariant ok <==> forall i :: i in replicas && i !in left ==> f.projects(i)
        invariant forall i :: i in replicas && i !in left && f.projects(i) ==>
                    i in projection && projection[i] == Candidate
        invariant forall i :: i !in replicas || i in left || !f.projects(i) ==>
                    && (i in projection <==> i in old(projection))
                    && (i in projection ==> projection[i] == old(projection)[i])
        decreases left
      {
        var i :| i in left;
        if f.projects(i) {
          projection := projection[i := Candidate];
          Effect();
        } else {
          ok := false;
        }
        left := left - {i};
      }
    }

    /** Deletes the candidate's ledger rows once each of its running replicas, if any, has a projection row. */
    method DeleteCandidateRows(succeeds: bool)
      requires Recoverable() && Now().AllProjected(Candidate)
      modifies this`ledger, this`history
      ensures Recoverable() && old(history) <= history
      ensures ledger == if succeeds then set r | r in old(ledger) && r.generation != Candidate else old(ledger)
    {
      hide Recorded;
      if succeeds {
        ledger := set r | r in ledger && r.generation != Candidate;
        Effect();
      }
    }

    /**
     At most eight tries, 100 ms apart, ended early by success or shutdown: after a projection, and after a
     confirmed stop whose own delete failed.
     */
    method RetryLedgerCleanup(tries: seq<bool>) returns (cleared: bool)
      requires Recoverable() && Now().AllProjected(Candidate)
      modifies this`ledger, this`history
      ensures Recoverable() && old(history) <= history
      ensures cleared <==> exists k :: 0 <= k < |tries| && k < 8 && tries[k]
      ensures cleared ==> forall r :: r in ledger ==> r.generation != Candidate
      ensures !cleared ==> ledger == old(ledger)
    {
      hide Recorded;
      var attempt := 0;
      while attempt < 8 && attempt < |tries|
        invariant 0 <= attempt <= 8 && attempt <= |tries|
        invariant Recoverable() && old(history) <= history && Now().AllProjected(Candidate)
        invariant ledger == old(ledger)
        invariant forall k :: 0 <= k < attempt ==> !tries[k]
      {
        DeleteCandidateRows(tries[attempt]);
        if tries[attempt] {
          return true;
        }
        attempt := attempt + 1;
      }
      return false;
    }

    // -------------------------------------------------------- the whole run

    /** The deferred cleanup: the staged rows of a fixed previous generation go back out of the ledger. */
    method DeferredCleanup()
      requires Recoverable() && (drainingRowsStaged && !previousGrouped ==> Now().AllProjected(Previous))
      modifies this`ledger, this`history
      ensures Recoverable() && old(history) <= history
      ensures ledger == if drainingRowsStaged && !previousGrouped && f.previousRowsDeleted
                        then set r | r in old(ledger) && r.generation != Previous else old(ledger)
    {
      hide Recorded;
      if drainingRowsStaged && !previousGrouped && f.previousRowsDeleted {
        ledger := set r | r in ledger && r.generation != Previous;
        Effect();
      }
    }

    /**
     What the handler starts from: the previous generation serves and its replicas are recorded; older
     generations may still be draining, under their own ledger rows.
     */
    ghost predicate Serving()
      reads this
    {
      && Recoverable() && Now().Authority(Previous)
      && (forall r :: r in running ==> r.generation == Previous || (r.generation == Older && r in ledger))
      && (if previousGrouped then Now().Ledgered(Previous) else Now().AllProjected(Previous))
      && !drainingRowsStaged && !deploymentPromoted
    }

    /** A fixed candidate's slots are its own wherever the write succeeded; all written, its rows leave the ledger. */
    ghost predicate Moved()
      reads this
    {
      && (forall i :: i in replicas && f.projects(i) ==> i in projection && projection[i] == Candidate)
      && if (forall i :: i in replicas ==> f.projects(i)) && f.candidateRowsDeleted then Now().NoRows(Candidate)
         else Now().Ledgered(Candidate)
    }

    /** The final state of each outcome. */
    ghost predicate Ended(outcome: Outcome, before: World)
      reads this
    {
      && (forall r: Replica :: r.generation != Candidate ==> (r in running <==> r in before.running))
      && match outcome
         case Refused => running == before.running && Now().Authority(Previous)
         case Restored =>
           && Now().Authority(Previous)
           && (f.stop.Confirmed? ==> running == before.running)
           && Now().Ledgered(Candidate)
           && (if previousGrouped then Now().Ledgered(Previous) else Now().AllProjected(Previous))
           && (f.stop.Confirmed? && f.candidateRowsDeleted ==> Now().NoRows(Candidate))
           && (!previousGrouped && f.previousRowsDeleted ==> Now().NoRows(Previous))
         case KeptBoth =>
           && route == Previous && Now().AllLedgered()
           && (forall i :: i in replicas ==> Replica(Candidate, i) in running)
         case Published =>
           && pointer == Candidate && route == Candidate && (groupedHandoff || manager == Candidate)
           && Now().Ledgered(Previous) && Now().Ledgered(Older)
           && (forall i :: i in replicas ==> Replica(Candidate, i) in running)
           && (if groupedHandoff then Now().Ledgered(Candidate) else Moved())
    }

    /** The candidate, fully recorded and running, before the cutover. */
    method PrepareCandidate() returns (ok: bool)
      requires Recoverable() && Now().AllLedgered() && forall r :: r in running ==> r.generation != Candidate
      modifies this`running, this`ledger, this`history
      ensures Recoverable() && Now().AllLedgered() && old(history) <= history && old(ledger) <= ledger
      ensures forall r: Replica :: r.generation != Candidate ==> (r in running <==> r in old(running))
      ensures forall r :: r in running && r.generation == Candidate ==> r.index in replicas
      ensures ok <==> CandidateReady()
      ensures ok ==> forall i :: i in replicas ==> Replica(Candidate, i) in running
    {
      ok := BootCandidate();
      if ok && groupedHandoff {
        ok := ReRecordGrouped();
      }
    }

    /** After the cutover, or the boot that failed before it, and before the last cleanup. */
    ghost predicate Settled(outcome: Outcome, before: World)
      reads this
    {
      && Recoverable() && Now().AllLedgered()
      && (forall r: Replica :: r.generation != Candidate ==> (r in running <==> r in before.running))
      && (outcome == Published ==> forall r :: r in running && r.generation == Candidate ==> r.index in replicas)
      && (outcome != Restored ==> forall i :: i in replicas ==> Replica(Candidate, i) in running)
      && match outcome
         case Restored =>
           && Now().Authority(Previous) && (!previousGrouped ==> Now().AllProjected(Previous)) && drainingRowsStaged
           && (f.stop.Confirmed? ==> forall r :: r in running ==> r.generation != Candidate)
           && (f.stop.Confirmed? && f.candidateRowsDeleted ==> Now().NoRows(Candidate))
         case KeptBoth => route == Previous && !drainingRowsStaged
         case Published => pointer == Candidate && route == Candidate && (groupedHandoff || manager == Candidate)
         case Refused => false
    }

    /** Boots the candidate and cuts over to it, or drops it when it did not come up. */
    method BootAndCut() returns (outcome: Outcome)
      requires Recoverable() && Now().Authority(Previous) && Now().AllLedgered()
      requires forall r :: r in running ==> r.generation != Candidate
      requires drainingRowsStaged && !deploymentPromoted && (!previousGrouped ==> OutgoingProjection())
      modifies this
      ensures Settled(outcome, old(Now())) && old(history) <= history
      ensures outcome == if CandidateReady() then CutoverOutcome(f) else Restored
    {
      hide Recorded;
      var booted := PrepareCandidate();
      if booted {
        outcome := Cutover();
      } else {
        var _ := StopAndForgetCandidate();
        outcome := Restored;
      }
    }

    /** The projection after a publication, the deferred cleanup after anything else. */
    method Finish(outcome: Outcome, ghost before: World)
      requires Settled(outcome, before)
      requires forall r :: r in before.running ==> r.generation != Candidate
      modifies this
      ensures Ended(outcome, before) && Recoverable() && old(history) <= history
    {
      hide Recorded;
      if outcome == Published {
        drainingRowsStaged := false;
        Project();
      } else {
        DeferredCleanup();
      }
    }

    /** Every state that a crash may have left, and what may have ended on the way to it, in plain terms. */
    lemma RecordedMeans(i: nat)
      requires Recoverable() && i < |history|
      ensures var w := history[i];
              && (forall r :: r in w.running ==>
                    r in w.ledger || (r.index in w.projection && w.projection[r.index] == r.generation))
              && (w.route == Candidate ==> w.pointer == Candidate)
              && (w.pointer == Candidate ==> groupedHandoff || w.manager == Candidate)
      ensures i > 0 ==>
                var v, w := history[i - 1], history[i];
                forall r :: r in v.running && r !in w.running ==>
                  && r.generation == Candidate
                  && v.manager == Previous && v.pointer == Previous && v.route == Previous
    {
      assert Safe(history[i]);
      if i > 0 {
        assert OneEffect(history[i - 1], history[i]);
      }
    }

    /** How a handoff ended, in plain terms. */
    lemma EndedMeans(outcome: Outcome, before: World)
      requires Ended(outcome, before)
      ensures outcome == Refused || outcome == Restored ==>
                manager == Previous && pointer == Previous && route == Previous
      ensures outcome == Refused || (outcome == Restored && f.stop.Confirmed?) ==> running == before.running
      ensures outcome == KeptBoth ==> route == Previous && forall r :: r in running ==> r in ledger
      ensures outcome == Published ==>
                pointer == Candidate && route == Candidate && (groupedHandoff || manager == Candidate)
      ensures outcome == KeptBoth || outcome == Published ==>
                && (forall i :: i in replicas ==> Replica(Candidate, i) in running)
                && (forall r :: r in before.running && r.generation != Candidate ==> r in running)
      ensures outcome == Published && !groupedHandoff ==>
                forall i :: i in replicas && f.projects(i) ==> i in projection && projection[i] == Candidate
    {
    }

    /**
     A handoff, from the serving previous generation to one of the four outcomes. No state on the way
     leaves a running replica unnamed, and the candidate is stopped only under the previous authority.
     */
    method Run() returns (outcome: Outcome)
      requires Serving()
      modifies this
      ensures Recoverable() && old(history) <= history
      ensures Ended(outcome, old(Now()))
      ensures outcome == HandoffOutcome(old(Now()))
      ensures outcome == Refused <==> !StagingSucceeds(old(Now()))
      ensures outcome == Published <==>
                && StagingSucceeds(old(Now())) && CandidateReady() && f.managerActivates && f.proxyActivates
                && f.promote != NotCommitted && (f.promote == LostAck ==> f.pointerReadable)
      ensures outcome == Restored <==>
                && StagingSucceeds(old(Now()))
                && (CandidateReady() && f.managerActivates ==>
                      && f.selectionRestored && (f.promote != Acked ==> f.pointerReadable)
                      && (f.promote != NotCommitted ==> !f.proxyActivates && f.revert == Acked))
      ensures outcome == KeptBoth <==>
                && StagingSucceeds(old(Now())) && CandidateReady() && f.managerActivates
                && ((f.promote != Acked && !f.pointerReadable)
                    || (f.promote == NotCommitted && !f.selectionRestored)
                    || (f.promote != NotCommitted && !f.proxyActivates && !(f.revert == Acked && f.selectionRestored)))
      ensures CandidateReady() <==>
                && f.boots && (forall i :: i in replicas ==> f.records(i))
                && (groupedHandoff ==> forall i :: i in replicas ==> f.reRecords(i))
      ensures outcome == Restored && f.stop.Confirmed? ==> Now().AllProjected(Candidate)
    {
      hide Recorded;
      var staged := PersistDrainingGeneration();
      if !staged {
        return Refused;
      }
      drainingRowsStaged := true;
      outcome := BootAndCut();
      hide Ended, Settled;
      Finish(outcome, old(Now()));
    }

    /** After publication: a fixed candidate moves from the ledger to the projection. */
    method Project()
      requires Recoverable() && Now().AllLedgered()
      requires forall r :: r in running && r.generation == Candidate ==> r.index in replicas
      modifies this`projection, this`ledger, this`history
      ensures Recoverable() && old(history) <= history
      ensures Now().Ledgered(Previous) && Now().Ledgered(Older)
      ensures groupedHandoff ==> ledger == old(ledger) && projection == old(projection)
      ensures !groupedHandoff ==> Moved()
      ensures forall i :: i !in replicas || !f.projects(i) ==>
                && (i in projection <==> i in old(projection))
                && (i in projection ==> projection[i] == old(projection)[i])
      ensures forall r: Replica :: r.generation != Candidate ==> (r in ledger <==> r in old(ledger))
    {
      hide Recorded;
      if !groupedHandoff {
        var projected := PersistDeployedPool();
        if projected {
          DeleteCandidateRows(f.candidateRowsDeleted);
        }
      }
    }

    /** A grouped candidate's rows are written once more, as running, before the cutover. */
    method ReRecordGrouped() returns (ok: bool)
      requires Recoverable()
      modifies this`ledger, this`history
      ensures Recoverable() && old(history) <= history && old(ledger) <= ledger
      ensures ok <==> forall i :: i in replicas ==> f.reRecords(i)
    {
      hide Recorded;
      var left := replicas;
      while left != {}
        invariant Recoverable() && old(history) <= history && old(ledger) <= ledger && left <= replicas
        invariant forall i :: i in replicas && i !in left ==> f.reRecords(i)
        decreases left
      {
        var i :| i in left;
        if !f.reRecords(i) {
          return false;
        }
        ledger := ledger + {Replica(Candidate, i)};
        Effect();
        left := left - {i};
      }
      return true;
    }
  }
}
