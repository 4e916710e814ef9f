/**
 One ownership span of cmd/shinyhub/main.go: the recovery steps a new owner retries until they succeed, the
 two fences it holds meanwhile, the readiness gate, and the bounded drain on the way out. A run of spans
 ends with the elector's decision to release the lease. `Answers` holds what the environment replies.
 */
module OwnerSpan {

  /** The steps that must succeed before readiness, in order. */
  datatype Mandatory =
    | SyncCredential | RefreshWorkers | StartupFence | FenceProducers | ListApps | PublicationFences
    | InterruptRuns | ReconcileDeployments | RepairLedger | PrepareRecovery | ListRunning | StartScheduler

  const STEPS: seq<Mandatory> := [
    SyncCredential, RefreshWorkers, StartupFence, FenceProducers, ListApps, PublicationFences,
    InterruptRuns, ReconcileDeployments, RepairLedger, PrepareRecovery, ListRunning, StartScheduler]

  /** Steps done when the named fence is taken, when admissions resume, and when all are done. */
  const STARTUP := 3
  const PUBLICATION := 6
  const RESUME := 11
  const ALL := 12

  /** Replies of consecutive attempts; the context is found cancelled after the last one. */
  type Attempts = s: seq<bool> | |s| > 0 witness [true]

  datatype Answers = Answers(
      tries: Mandatory -> Attempts,
      workerHosting: bool,          // a worker registry is configured
      lostDuringStart: bool,        // the context ended between sched.Start and its check
      startupDrainEnds: bool,       // the unbounded drain of an abandoned startup returns
      loopsEnd: bool,               // every loop of a serving span stops once the context ends
      handoffDrains: bool,          // the bounded job drain of the handoff finished in time
      handoffFence: Attempts)       // fleet fence attempts until the drain deadline
  {
    predicate Succeeds(n: nat)
      requires n < |STEPS|
    {
      (STEPS[n].RefreshWorkers? && !workerHosting) || true in tries(STEPS[n])
    }

    predicate Reached(n: nat)
      requires n <= |STEPS|
    {
      forall i :: 0 <= i < n ==> Succeeds(i)
    }

    predicate Serves() {
      Reached(ALL) && !lostDuringStart
    }

    predicate HandsOff() {
      handoffDrains && true in handoffFence
    }

    /** The span's work returns; the other two waits have no deadline of their own. */
    predicate Returns() {
      if Serves() then loopsEnd else Reached(RESUME) ==> startupDrainEnds
    }

    /** Every job the span admitted has ended, and a span that served has also closed its handoff. */
    predicate Quiet() {
      if Serves() then loopsEnd && HandsOff() else Reached(RESUME) ==> startupDrainEnds
    }
  }

  datatype Fence = Untaken | Held | Released

  datatype Phase = Recovering | Serving | Exiting

  datatype State = State(
      phase: Phase, stage: nat, owner: bool, ready: bool, startup: Fence, publication: Fence, handoff: Fence,
      resumed: bool, drainTried: bool, served: bool)
  {
    /** The gate in front of every mutation endpoint. */
    predicate OwnerAndReady() {
      owner && ready
    }

    predicate Safe() {
      && stage <= ALL
      && (OwnerAndReady() ==> phase == Serving) && (ready ==> phase == Serving)
      && (phase == Recovering ==>
            && startup == (if stage >= STARTUP then Held else Untaken)
            && publication == (if stage >= PUBLICATION then Held else Untaken)
            && owner && !drainTried && !served && handoff == Untaken && (resumed ==> stage >= RESUME))
      && (phase == Serving || served ==> stage == ALL && startup == publication == Released && resumed)
      && (served <==> phase == Serving || (phase == Exiting && served))
      && (resumed && !drainTried && !served ==> startup == publication == Held)
      && (publication == Held ==> startup == Held)
      && (handoff != Untaken ==> phase == Exiting && served && drainTried)
      && (phase == Exiting ==> !owner) && (resumed ==> stage >= RESUME) && (startup == Untaken ==> stage < STARTUP)
    }

    predicate Finished() {
      && phase == Exiting && !ready && !owner
      && startup != Held && publication != Held && handoff != Held
      && (resumed ==> drainTried)
    }

    /** Waiting without a deadline, closed to everyone: a drain under both fences, or loops that do not end. */
    predicate Hanging() {
      && phase == Exiting && !ready && !owner && handoff == Untaken
      && (if served then !drainTried else resumed && drainTried && startup == publication == Held)
    }
  }

  /** A fence is taken at most once, and given back at most once. */
  predicate Moves(a: Fence, b: Fence) {
    a == b || (a.Untaken? && b.Held?) || (a.Held? && b.Released?)
  }

  predicate FollowedBy(s: State, t: State) {
    && Moves(s.startup, t.startup) && Moves(s.publication, t.publication) && Moves(s.handoff, t.handoff)
    && s.stage <= t.stage <= s.stage + 1
    && (s.drainTried ==> t.drainTried) && (s.served ==> t.served) && (s.phase == Exiting ==> t.phase == Exiting)
    && (t.ready && !s.ready ==> s.stage == ALL && s.startup == s.publication == Released)
  }

  /** The gate was never open. */
  ghost predicate Closed(h: seq<State>) {
    forall i :: 0 <= i < |h| ==> !h[i].OwnerAndReady()
  }

  ghost predicate Trace(h: seq<State>) {
    && (forall i :: 0 <= i < |h| ==> h[i].Safe())
    && (forall i :: 0 < i < |h| ==> FollowedBy(h[i - 1], h[i]))
  }

  function Position(m: Mandatory): nat {
    match m
    case SyncCredential => 0
    case RefreshWorkers => 1
    case StartupFence => 2
    case FenceProducers => 3
    case ListApps => 4
    case PublicationFences => 5
    case InterruptRuns => 6
    case ReconcileDeployments => 7
    case RepairLedger => 8
    case PrepareRecovery => 9
    case ListRunning => 10
    case StartScheduler => 11
  }

  /** All steps succeeded: each of them has a successful attempt, or is not needed. */
  lemma ReachedAllMeans(a: Answers)
    ensures a.Reached(ALL) <==> forall m: Mandatory :: (m.RefreshWorkers? && !a.workerHosting) || true in a.tries(m)
    ensures a.Reached(RESUME) <==>
              forall m: Mandatory :: m.StartScheduler? || (m.RefreshWorkers? && !a.workerHosting) || true in a.tries(m)
  {
    assert forall m: Mandatory :: Position(m) < ALL && STEPS[Position(m)] == m;
    if a.Reached(ALL) {
      forall m: Mandatory ensures (m.RefreshWorkers? && !a.workerHosting) || true in a.tries(m) {
        assert a.Succeeds(Position(m));
      }
    }
    if a.Reached(RESUME) {
      forall m: Mandatory | !m.StartScheduler?
        ensures (m.RefreshWorkers? && !a.workerHosting) || true in a.tries(m)
      {
        assert Position(m) < RESUME && a.Succeeds(Position(m));
      }
    }
  }

  lemma TraceOfOne(s: State)
    requires s.Safe() && !s.ready
    ensures Trace([s]) && Closed([s])
  {
  }

  /** Every span returned, left no job running, and handed off completely if it served. */
  predicate AllQuiet(spans: seq<Answers>) {
    forall i :: 0 <= i < |spans| ==> spans[i].Quiet()
  }

  class Owner {
    var ownerReady: bool
    var handoffIncomplete: bool

    // The span's own flags, and what it has asked of others.
    var isOwner: bool
    var phase: Phase
    var stage: nat
    var startup: Fence
    var publication: Fence
    var handoff: Fence
    var resumed: bool
    var drainTried: bool
    var served: bool

    /** The states of the current span, one after every effect. */
    ghost var history: seq<State>

    ghost function Now(): State
      reads this
    {
      State(phase, stage, isOwner, ownerReady, startup, publication, handoff, resumed, drainTried, served)
    }

    ghost predicate Valid()
      reads this
    {
      && Trace(history) && history != [] && history[|history| - 1] == Now() && Now().Safe()
      && history[0].phase == Recovering && history[0].stage == 0 && (!served ==> Closed(history))
    }

    constructor ()
      ensures !handoffIncomplete && !ownerReady && !isOwner
    {
      ownerReady, handoffIncomplete, isOwner := false, false, false;
      phase, stage, startup, publication, handoff := Recovering, 0, Untaken, Untaken, Untaken;
      resumed, drainTried, served := false, false, false;
      history := [];
    }

    ghost method Effect()
      requires history != [] && (!history[|history| - 1].served ==> Closed(history))
      requires Trace(history) && history[0].phase == Recovering && history[0].stage == 0
      requires Now().Safe() && FollowedBy(history[|history| - 1], Now())
      modifies this`history
      ensures Valid() && history == old(history) + [Now()]
      ensures Closed(history) <==> Closed(old(history)) && !Now().OwnerAndReady()
    {
      history := history + [Now()];
      assert history[|old(history)|] == Now();
      assert forall i :: 0 <= i < |old(history)| ==> history[i] == old(history)[i];
    }

    /** Tries until an attempt succeeds or the context is found cancelled. */
    static method RetryOwnerStep(attempts: Attempts) returns (ok: bool)
      ensures ok <==> true in attempts
    {
      var i := 0;
      while !attempts[i]
        invariant 0 <= i < |attempts| && true !in attempts[..i]
        decreases |attempts| - i
      {
        if i + 1 == |attempts| {
          assert attempts == attempts[..i] + [attempts[i]];
          return false;
        }
        assert attempts[..i + 1] == attempts[..i] + [attempts[i]];
        i := i + 1;
      }
      return true;
    }

    /** Recovering, with the first n steps done, which is to say that all n succeeded. */
    ghost predicate At(a: Answers, n: nat)
      requires n <= ALL
      reads this
    {
      Valid() && phase == Recovering && stage == n && !ownerReady && a.Reached(n)
    }

    /** A step was given up: the context ended and the step never succeeded. */
    ghost predicate GaveUp(a: Answers)
      reads this
    {
      Valid() && phase == Recovering && !ownerReady && !a.Reached(ALL)
    }

    /** One mandatory step; the two fence steps leave their fence held. */
    method Step(a: Answers, n: nat) returns (ok: bool)
      requires n < ALL && At(a, n) && (resumed ==> n == RESUME)
      modifies this`stage, this`startup, this`publication, this`history
      ensures if ok then At(a, n + 1) else GaveUp(a) && (n < RESUME ==> !a.Reached(RESUME))
    {
      hide Trace, Closed;
      if STEPS[n].RefreshWorkers? && !a.workerHosting {
        ok := true;
      } else {
        ok := RetryOwnerStep(a.tries(STEPS[n]));
      }
      assert ok <==> a.Succeeds(n);
      if ok {
        hide Answers.Succeeds;
        if STEPS[n].StartupFence? {
          startup := Held;
        }
        if STEPS[n].PublicationFences? {
          publication := Held;
        }
        stage := n + 1;
        Effect();
      }
    }

    /** The recovery steps up to the scheduler; each one is retried until it succeeds. */
    method Recover(a: Answers) returns (ok: bool)
      requires At(a, 0) && !resumed
      modifies this`stage, this`startup, this`publication, this`history
      ensures if ok then At(a, RESUME) else GaveUp(a) && !a.Reached(RESUME)
    {
      hide At, GaveUp, Answers.Reached;
      ok := Step(a, 0);  // reconcile the deploy credential
      if ok { ok := Step(a, 1); }  // refresh the worker registry
      if ok { ok := Step(a, 2); }  // startup fence over every app
      if ok { ok := Step(a, 3); }  // fence orphan producers
      if ok { ok := Step(a, 4); }  // list apps
      if ok { ok := Step(a, 5); }  // publication fences
      if ok { ok := Step(a, 6); }  // terminalize inherited runs
      if ok { ok := Step(a, 7); }  // reconcile interrupted deployments
      if ok { ok := Step(a, 8); }  // repair the deployment ledger
      if ok { ok := Step(a, 9); }  // prepare process recovery
      if ok { ok := Step(a, 10); }  // list running apps
    }

    /** The deferred releases of a startup that did not finish: publication fences first. */
    method ReleaseHeldFences()
      requires Valid() && phase == Exiting && !served && !ownerReady && (resumed ==> drainTried)
      modifies this`startup, this`publication, this`history
      ensures Valid() && startup != Held && publication != Held
    {
      hide Trace, Closed;
      if publication == Held {
        publication := Released;
        Effect();
      }
      if startup == Held {
        startup := Released;
        Effect();
      }
    }

    /**
     A startup cut short: jobs admitted since the resume are drained before the fences go, for as long as that
     takes. A drain that does not end keeps both fences until the watchdog ends the process.
     */
    method AbandonStartup(a: Answers) returns (returned: bool)
      requires Valid() && phase == Recovering && !ownerReady
      modifies this`phase, this`isOwner, this`drainTried, this`startup, this`publication, this`history
      ensures Valid() && Closed(history) && !served
      ensures returned <==> !resumed || a.startupDrainEnds
      ensures if returned then Now().Finished() else Now().Hanging()
    {
      hide Trace, Closed;
      phase, isOwner := Exiting, false;
      Effect();
      if resumed {
        drainTried := true;
        Effect();
        if !a.startupDrainEnds {
          return false;
        }
      }
      ReleaseHeldFences();
      return true;
    }

    /** Jobs first, then the fleet fence, which is tried even after a failed job drain. */
    method DrainOwnershipHandoff(a: Answers) returns (complete: bool)
      requires Valid() && phase == Exiting && served && !drainTried && handoff == Untaken
      modifies this`drainTried, this`handoff, this`history
      ensures Valid() && drainTried && handoff != Held
      ensures complete <==> a.handoffDrains && true in a.handoffFence
      ensures handoff == Released <==> true in a.handoffFence
      ensures !old(Closed(history)) ==> !Closed(history)
    {
      hide Trace, Closed;
      complete := a.handoffDrains;
      drainTried := true;
      Effect();
      var acquired := RetryOwnerStep(a.handoffFence);
      if !acquired {
        return false;
      }
      handoff := Held;
      Effect();
      handoff := Released;
      Effect();
    }

    /** Publication fences, startup fence, then the gate. */
    method OpenGate(a: Answers)
      requires At(a, ALL) && resumed
      modifies this`startup, this`publication, this`phase, this`served, this`ownerReady, this`history
      ensures Valid() && phase == Serving && served && !Closed(history)
    {
      hide Trace, Closed, Answers.Reached;
      publication := Released;
      startup, phase, served := Released, Serving, true;
      Effect();
      ownerReady := true;
      Effect();
    }

    /** Ownership ends: the elector drops it first, then the gate closes. */
    method CloseGate()
      requires Valid() && phase == Serving
      modifies this`isOwner, this`ownerReady, this`phase, this`history
      ensures Valid() && phase == Exiting && !isOwner && !ownerReady
      ensures !old(Closed(history)) ==> !Closed(history)
    {
      hide Trace, Closed;
      isOwner := false;
      Effect();
      ownerReady, phase := false, Exiting;
      Effect();
    }

    /** Fences released, gate opened, then everything closed again once the context ends and the loops have. */
    method Serve(a: Answers) returns (returned: bool)
      requires At(a, ALL) && resumed
      modifies this
      ensures Valid() && served && resumed && !Closed(history)
      ensures returned <==> a.loopsEnd
      ensures if returned then Now().Finished() else Now().Hanging()
      ensures handoffIncomplete <==>
                old(handoffIncomplete) || (returned && !(a.handoffDrains && true in a.handoffFence))
    {
      hide Closed, Trace;
      OpenGate(a);
      CloseGate();
      if !a.loopsEnd {
        return false;
      }
      var complete := DrainOwnershipHandoff(a);
      if !complete {
        handoffIncomplete := true;
      }
      return true;
    }

    /** A fresh span of a new owner, with the gate closed. */
    method Begin(a: Answers)
      modifies this
      ensures At(a, 0) && !resumed && handoffIncomplete == old(handoffIncomplete)
    {
      phase, stage, startup, publication, handoff := Recovering, 0, Untaken, Untaken, Untaken;
      ownerReady, isOwner, resumed, drainTried, served := false, true, false, false, false;
      history := [Now()];
      TraceOfOne(Now());
      hide Trace, Closed;
    }

    /** Admissions are reopened under both fences, and the scheduler is started. */
    method StartScheduler(a: Answers) returns (ok: bool)
      requires At(a, RESUME) && !resumed
      modifies this`resumed, this`stage, this`startup, this`publication, this`history
      ensures resumed && if ok then At(a, ALL) else GaveUp(a)
    {
      hide Trace, Closed, Answers.Reached;
      resumed := true;
      Effect();
      ok := Step(a, RESUME);
    }

    /** What every state of a span says, and what may follow it, in plain terms. */
    lemma TraceMeans(i: nat)
      requires Valid() && i < |history|
      ensures var h := history[i];
              && (h.ready ==> h.stage == 12 && h.startup == Released && h.publication == Released && h.resumed)
              && (h.resumed ==> h.stage >= 11)
              && (h.resumed && !h.drainTried && !h.ready && h.owner && h.stage < 12 ==>
                    h.startup == Held && h.publication == Held)
              && (h.startup == Untaken ==> h.stage < 3) && (h.publication == Held ==> h.startup == Held)
              && (h.handoff != Untaken ==> h.drainTried && !h.owner && !h.ready)
      ensures i > 0 ==>
                var g, h := history[i - 1], history[i];
                && (g.startup == Released ==> h.startup == Released) && (h.startup == Released ==> g.startup != Untaken)
                && (g.publication == Released ==> h.publication == Released)
                && (h.publication == Released ==> g.publication != Untaken)
                && (g.startup == Held ==> h.startup != Untaken) && (g.publication == Held ==> h.publication != Untaken)
                && (h.resumed && g.startup == Held && h.startup == Released ==> h.drainTried || h.stage == 12)
    {
      assert history[i].Safe();
      if i > 0 {
        assert FollowedBy(history[i - 1], history[i]) && history[i - 1].Safe();
      }
    }

    /** A whole span, for every pattern of failures and cancellations. */
    method OwnerWork(a: Answers) returns (returned: bool)
      modifies this
      ensures Valid() && if returned then Now().Finished() else Now().Hanging()
      ensures !ownerReady && !isOwner && handoff != Held && (returned && resumed ==> drainTried)
      ensures returned ==> startup != Held && publication != Held
      ensures returned <==> a.Returns()
      ensures a.Serves() <==> !Closed(history)
      ensures (exists i :: 0 <= i < |history| && history[i].owner && history[i].ready) <==>
                && !a.lostDuringStart
                && forall m: Mandatory :: (m.RefreshWorkers? && !a.workerHosting) || true in a.tries(m)
      ensures resumed <==> a.Reached(RESUME)
      ensures handoffIncomplete <==> old(handoffIncomplete) || (returned && a.Serves() && !a.HandsOff())
    {
      hide Trace, Closed, State.Safe;
      Begin(a);
      var ok := Recover(a);
      if ok {
        ok := StartScheduler(a);
      }
      if !ok || a.lostDuringStart {
        returned := AbandonStartup(a);
      } else {
        returned := Serve(a);
      }
      ReachedAllMeans(a);
      OpenedMeans();
    }

    lemma OpenedMeans()
      ensures !Closed(history) <==> exists i :: 0 <= i < |history| && history[i].owner && history[i].ready
    {
    }

    /** What a run of quiet spans is, over the answers themselves. */
    lemma AllQuietMeans(spans: seq<Answers>)
      ensures AllQuiet(spans) <==> forall i :: 0 <= i < |spans| ==>
                var a := spans[i];
                var done := iset m: Mandatory | (m.RefreshWorkers? && !a.workerHosting) || true in a.tries(m);
                if !a.lostDuringStart && (forall m: Mandatory :: m in done)
                then a.loopsEnd && a.handoffDrains && true in a.handoffFence
                else (forall m: Mandatory :: m.StartScheduler? || m in done) ==> a.startupDrainEnds
    {
      forall i | 0 <= i < |spans| {
        ReachedAllMeans(spans[i]);
      }
    }

    /**
     Spans one after another, then shutdown while owner. The elector waits for each span; one that does not
     return leaves the process to the watchdog, and the lease to its expiry. The lease is released explicitly
     exactly when every span returned with its jobs ended and, if it served, its handoff complete.
     */
    method Run(spans: seq<Answers>) returns (released: bool)
      requires !handoffIncomplete
      modifies this
      ensures released <==> AllQuiet(spans)
      ensures released <==> forall i :: 0 <= i < |spans| ==>
                var a := spans[i];
                var done := iset m: Mandatory | (m.RefreshWorkers? && !a.workerHosting) || true in a.tries(m);
                if !a.lostDuringStart && (forall m: Mandatory :: m in done)
                then a.loopsEnd && a.handoffDrains && true in a.handoffFence
                else (forall m: Mandatory :: m.StartScheduler? || m in done) ==> a.startupDrainEnds
      ensures spans != [] ==> Valid() && (Now().Finished() || Now().Hanging())
    {
      AllQuietMeans(spans);
      hide Answers.Serves, Answers.Reached, Answers.Succeeds, Trace, Closed;
      var i := 0;
      while i < |spans|
        invariant 0 <= i <= |spans|
        invariant forall j :: 0 <= j < i ==> spans[j].Returns()
        invariant handoffIncomplete <==> exists j :: 0 <= j < i && !spans[j].Quiet()
        invariant i > 0 ==> Valid() && Now().Finished()
      {
        var returned := OwnerWork(spans[i]);
        if !returned {
          return false;
        }
        i := i + 1;
      }
      released := !handoffIncomplete;
    }
  }
}
