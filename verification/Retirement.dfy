/**
 retireGenerationWhenIdle of internal/api/apps.go: the loop that drains a replaced generation, stops its
 processes and forgets its ledger. The environment answers each turn of the loop.
 */
module Retirement {
  import opened Basics

  /** What ends a turn's wait: shutdown, the poll ticker, or the drain deadline. */
  datatype Wake = Shutdown | Tick | Deadline

  /** The answers of proxy, manager and store in one turn. `sessions` is None once the route is gone. */
  datatype Turn = Turn(sessions: Option<nat>, draining: bool, idle: bool, stops: bool, deletes: bool, wake: Wake)

  datatype Event =
    | RouteRetired(forced: bool) | StopTried(confirmed: bool) | LedgerDelete(done: bool) | Sessions(delta: int)

  datatype Exit = Forgotten | DeferredToStartup | Interrupted

  const MAX_FAILURES := 8

  // ------------------------------------------------ the cleanup rounds alone

  /** Progress once the route is retired: the stop first, then the ledger, each with its own failure count. */
  datatype Cleanup = Cleanup(stopped: bool, failures: nat)

  /** One round after the route is retired; a stop that succeeds is followed by a delete in the same round. */
  function Round(c: Cleanup, stops: bool, deletes: bool): (Cleanup, Option<Exit>) {
    if !c.stopped && !stops then
      (Cleanup(false, c.failures + 1), if c.failures + 1 >= MAX_FAILURES then Some(DeferredToStartup) else None)
    else
      var failures := if c.stopped then c.failures else 0;
      if deletes then (Cleanup(true, failures), Some(Forgotten))
      else (Cleanup(true, failures + 1), if failures + 1 >= MAX_FAILURES then Some(DeferredToStartup) else None)
  }

  /** Rounds still possible: at most seven more failed stops, then eight failed deletes. */
  function RoundsLeft(c: Cleanup): int {
    if c.stopped then MAX_FAILURES - c.failures else 2 * MAX_FAILURES - 1 - c.failures
  }

  lemma RoundProgress(c: Cleanup, stops: bool, deletes: bool)
    requires c.failures < MAX_FAILURES
    ensures var (c', exit) := Round(c, stops, deletes);
            exit.None? ==> c'.failures < MAX_FAILURES && RoundsLeft(c') < RoundsLeft(c)
    ensures RoundsLeft(c) >= 1
  {
  }

  /** A round adds at most one failure, gives up only at eight of them, and never asks to be interrupted. */
  lemma RoundFailures(c: Cleanup, stops: bool, deletes: bool)
    requires c.failures < MAX_FAILURES
    ensures var (c', exit) := Round(c, stops, deletes);
            && c'.failures <= c.failures + 1 && exit != Some(Interrupted)
            && (exit == Some(DeferredToStartup) ==> c'.failures == MAX_FAILURES)
  {
  }

  /** The progress after the rounds of these turns, and how the loop has left if it has. */
  function CleanupAfter(turns: seq<Turn>): (Cleanup, Option<Exit>)
    decreases |turns|
  {
    if turns == [] then (Cleanup(false, 0), None)
    else
      var n := |turns| - 1;
      var before := CleanupAfter(turns[..n]);
      if before.1.Some? then before else Round(before.0, turns[n].stops, turns[n].deletes)
  }

  lemma OneMoreRound(script: seq<Turn>, from: nat, to: nat)
    requires from <= to < |script| && CleanupAfter(script[from..to]).1.None?
    ensures CleanupAfter(script[from..to + 1]) ==
            Round(CleanupAfter(script[from..to]).0, script[to].stops, script[to].deletes)
  {
    var turns, n := script[from..to + 1], to - from;
    assert turns[..n] == script[from..to] && turns[n] == script[to];
  }

  /** While no stop is confirmed, every turn is one failed stop, and the eighth gives up. */
  lemma {:induction false} NeverStopped(turns: seq<Turn>)
    requires |turns| <= 8 && forall i :: 0 <= i < |turns| ==> !turns[i].stops
    ensures CleanupAfter(turns) == (Cleanup(false, |turns|), if |turns| == 8 then Some(DeferredToStartup) else None)
    decreases |turns|
  {
    if turns != [] {
      NeverStopped(turns[..|turns| - 1]);
    }
  }

  /**
   From the first confirmed stop on, the deletes of that turn and the next ones count: the first that works
   forgets the generation, and the eighth failure gives up, whatever the stops failed before.
   */
  lemma {:induction false} StoppedThenDeletes(turns: seq<Turn>, k: nat)
    requires k < 8 && k < |turns| <= k + 8 && turns[k].stops
    requires forall i :: 0 <= i < k ==> !turns[i].stops
    requires forall i :: k <= i < |turns| - 1 ==> !turns[i].deletes
    ensures var last := turns[|turns| - 1];
            CleanupAfter(turns).1 ==
              if last.deletes then Some(Forgotten) else if |turns| == k + 8 then Some(DeferredToStartup) else None
    ensures !turns[|turns| - 1].deletes ==> CleanupAfter(turns).0 == Cleanup(true, |turns| - k)
    decreases |turns|
  {
    if |turns| == k + 1 {
      NeverStopped(turns[..k]);
    } else {
      StoppedThenDeletes(turns[..|turns| - 1], k);
    }
  }

  /** Rounds until the loop returns on this failure pattern, if it does. */
  function RoundsUsed(c: Cleanup, answers: seq<(bool, bool)>): nat
    decreases answers
  {
    if answers == [] then 0
    else
      var (c', exit) := Round(c, answers[0].0, answers[0].1);
      if exit.Some? then 1 else 1 + RoundsUsed(c', answers[1..])
  }

  predicate Ends(c: Cleanup, answers: seq<(bool, bool)>)
    decreases answers
  {
    answers != [] &&
    var (c', exit) := Round(c, answers[0].0, answers[0].1);
    exit.Some? || Ends(c', answers[1..])
  }

  /** Every failure pattern is over within RoundsLeft rounds. */
  lemma {:induction false} CleanupIsBounded(c: Cleanup, answers: seq<(bool, bool)>)
    requires c.failures < MAX_FAILURES
    ensures RoundsUsed(c, answers) <= RoundsLeft(c)
    ensures |answers| >= RoundsLeft(c) ==> Ends(c, answers)
    decreases answers
  {
    RoundProgress(c, if answers == [] then true else answers[0].0, if answers == [] then true else answers[0].1);
    if answers != [] {
      var (c', exit) := Round(c, answers[0].0, answers[0].1);
      if exit.None? {
        CleanupIsBounded(c', answers[1..]);
      }
    }
  }

  /** The bound of fifteen is exact: seven failed stops, then a stop with eight failed deletes, use it up. */
  lemma {:induction false} FifteenRoundsHappen(failed: nat) returns (answers: seq<(bool, bool)>)
    requires failed <= MAX_FAILURES - 1
    ensures RoundsUsed(Cleanup(false, failed), answers) == 2 * MAX_FAILURES - 1 - failed
    ensures Ends(Cleanup(false, failed), answers)
    decreases MAX_FAILURES - failed
  {
    if failed == MAX_FAILURES - 1 {
      var rest := DeletesFail(1);
      answers := [(true, false)] + rest;
      assert answers[1..] == rest;
    } else {
      var rest := FifteenRoundsHappen(failed + 1);
      answers := [(false, false)] + rest;
      assert answers[1..] == rest;
    }
  }

  lemma {:induction false} DeletesFail(failed: nat) returns (answers: seq<(bool, bool)>)
    requires failed <= MAX_FAILURES - 1
    ensures RoundsUsed(Cleanup(true, failed), answers) == MAX_FAILURES - failed
    ensures Ends(Cleanup(true, failed), answers)
    decreases MAX_FAILURES - failed
  {
    var rest := [];
    if failed < MAX_FAILURES - 1 {
      rest := DeletesFail(failed + 1);
    }
    answers := [(true, false)] + rest;
    assert answers[1..] == rest;
  }

  // ----------------------------------------------------------- the whole loop

  function DeltaSum(log: seq<Event>): int
    decreases |log|
  {
    if log == [] then 0
    else
      var e := log[|log| - 1];
      DeltaSum(log[..|log| - 1]) + if e.Sessions? then e.delta else 0
  }

  predicate Deleted(log: seq<Event>) {
    LedgerDelete(true) in log
  }

  /** The route was retired at the deadline. */
  predicate Forced(log: seq<Event>) {
    RouteRetired(true) in log
  }

  predicate Retired(log: seq<Event>) {
    Forced(log) || RouteRetired(false) in log
  }

  /** What may be done next: nothing after a delete, one retirement, stops after it, deletes after a confirmed stop. */
  predicate MayFollow(log: seq<Event>, e: Event) {
    !Deleted(log) &&
    match e
    case RouteRetired(_) => !Retired(log)
    case StopTried(_) => Retired(log) && StopTried(true) !in log
    case LedgerDelete(_) => StopTried(true) in log
    case Sessions(_) => true
  }

  /** Every event of the log came when it might. */
  predicate Ordered(log: seq<Event>)
    decreases |log|
  {
    log == [] || (Ordered(log[..|log| - 1]) && MayFollow(log[..|log| - 1], log[|log| - 1]))
  }

  /**
   An ordered log in plain terms: one retirement of the route, every stop after it, every delete after a confirmed
   stop, no stop after a confirmed one, and nothing after a delete that worked.
   */
  lemma OrderedMeans(log: seq<Event>, i: nat)
    requires Ordered(log) && i < |log|
    ensures log[i].StopTried? ==> exists j :: 0 <= j < i && log[j].RouteRetired?
    ensures log[i].LedgerDelete? ==> exists j :: 0 <= j < i && log[j] == StopTried(true)
    ensures log[i].StopTried? ==> forall j :: 0 <= j < i ==> log[j] != StopTried(true)
    ensures log[i].RouteRetired? ==> forall j :: 0 <= j < i ==> !log[j].RouteRetired?
    ensures forall j :: 0 <= j < i ==> log[j] != LedgerDelete(true)
  {
    EachMayFollow(log, i);
    EventMeans(log[..i], log[i]);
    hide Ordered, MayFollow;
    assert forall j :: 0 <= j < i ==> log[..i][j] == log[j];
  }

  lemma {:induction false} EachMayFollow(log: seq<Event>, i: nat)
    requires Ordered(log) && i < |log|
    ensures MayFollow(log[..i], log[i])
    decreases |log|
  {
    if i < |log| - 1 {
      EachMayFollow(log[..|log| - 1], i);
      assert log[..|log| - 1][..i] == log[..i];
    }
  }

  lemma EventMeans(log: seq<Event>, e: Event)
    requires MayFollow(log, e)
    ensures e.StopTried? ==> exists j :: 0 <= j < |log| && log[j].RouteRetired?
    ensures e.LedgerDelete? ==> exists j :: 0 <= j < |log| && log[j] == StopTried(true)
    ensures e.StopTried? ==> forall j :: 0 <= j < |log| ==> log[j] != StopTried(true)
    ensures e.RouteRetired? ==> forall j :: 0 <= j < |log| ==> !log[j].RouteRetired?
    ensures forall j :: 0 <= j < |log| ==> log[j] != LedgerDelete(true)
  {
  }

  /** What the local flags of the loop remember of the log. */
  ghost predicate Remembers(log: seq<Event>, routeRetired: bool, processStopped: bool) {
    && (routeRetired <==> Retired(log))
    && (processStopped <==> StopTried(true) in log)
    && !Deleted(log)
  }

  lemma Remembered(log: seq<Event>, routeRetired: bool, processStopped: bool)
    requires Remembers(log, routeRetired, processStopped)
    ensures !Deleted(log) && (Retired(log) <==> routeRetired)
  {
  }

  lemma Append(log: seq<Event>, e: Event, routeRetired: bool, processStopped: bool)
    requires Ordered(log) && Remembers(log, routeRetired, processStopped)
    requires e.RouteRetired? ==> !routeRetired
    requires e.StopTried? ==> routeRetired && !processStopped
    requires e.LedgerDelete? ==> processStopped
    ensures Ordered(log + [e]) && DeltaSum(log + [e]) == DeltaSum(log) + if e.Sessions? then e.delta else 0
    ensures e != LedgerDelete(true) ==>
              Remembers(log + [e], routeRetired || e.RouteRetired?, processStopped || e == StopTried(true))
    ensures Deleted(log + [e]) <==> e == LedgerDelete(true)
    ensures Forced(log + [e]) <==> Forced(log) || e == RouteRetired(true)
    ensures Retired(log + [e]) <==> routeRetired || e.RouteRetired?
  {
    assert (log + [e])[..|log|] == log && (log + [e])[|log|] == e;
  }

  /** One round of cleanup on the loop's own variables: the round function, with its effects in order. */
  method CleanupRound(log: seq<Event>, c: Cleanup, t: Turn) returns (log': seq<Event>, c': Cleanup, exit: Option<Exit>)
    requires Ordered(log) && Remembers(log, true, c.stopped) && c.failures < MAX_FAILURES
    ensures (c', exit) == Round(c, t.stops, t.deletes)
    ensures Ordered(log') && DeltaSum(log') == DeltaSum(log)
    ensures exit != Some(Forgotten) ==> Remembers(log', true, c'.stopped)
    ensures Deleted(log') <==> exit == Some(Forgotten)
    ensures Retired(log') && (Forced(log') <==> Forced(log))
  {
    hide Ordered, Remembers, Deleted, Retired, Forced, DeltaSum;
    log', c' := log, c;
    if !c'.stopped {
      Append(log', StopTried(t.stops), true, c'.stopped);
      log' := log' + [StopTried(t.stops)];
      if !t.stops {
        c' := Cleanup(false, c'.failures + 1);
        return log', c', if c'.failures >= MAX_FAILURES then Some(DeferredToStartup) else None;
      }
      c' := Cleanup(true, 0);
    }
    Append(log', LedgerDelete(t.deletes), true, true);
    log' := log' + [LedgerDelete(t.deletes)];
    if t.deletes {
      return log', c', Some(Forgotten);
    }
    c' := Cleanup(true, c'.failures + 1);
    return log', c', if c'.failures >= MAX_FAILURES then Some(DeferredToStartup) else None;
  }

  /** Nothing in turns before n retired the route: it stayed draining, busy and inside its deadline. */
  ghost predicate StillServing(script: seq<Turn>, n: nat) {
    n <= |script| && forall i :: 0 <= i < n ==>
      script[i].draining && !script[i].idle && (i < n - 1 ==> script[i].wake == Tick)
  }

  /** The start of a turn: the session count is reported, and a route that is idle or gone is retired. */
  method Observe(log: seq<Event>, lastSessions: int, routeRetired: bool, ghost stopped: bool, t: Turn)
      returns (log': seq<Event>, lastSessions': int, routeRetired': bool)
    requires Ordered(log) && Remembers(log, routeRetired, stopped) && DeltaSum(log) == lastSessions
    ensures Ordered(log') && Remembers(log', routeRetired', stopped) && DeltaSum(log') == lastSessions'
    ensures lastSessions' == if t.sessions.Some? then t.sessions.value else lastSessions
    ensures routeRetired' <==> routeRetired || !t.draining || t.idle
    ensures Forced(log') <==> Forced(log)
  {
    hide Ordered, Remembers, Deleted, Retired, Forced, DeltaSum;
    log', lastSessions', routeRetired' := log, lastSessions, routeRetired;
    if t.sessions.Some? && t.sessions.value != lastSessions {
      Append(log', Sessions(t.sessions.value - lastSessions), routeRetired, stopped);
      log' := log' + [Sessions(t.sessions.value - lastSessions)];
      lastSessions' := t.sessions.value;
    }
    if !routeRetired && (!t.draining || t.idle) {
      Append(log', RouteRetired(false), routeRetired, stopped);
      log' := log' + [RouteRetired(false)];
      routeRetired' := true;
    }
  }

  lemma StillServingNext(script: seq<Turn>, n: nat)
    requires StillServing(script, n) && n < |script|
    requires n > 0 ==> script[n - 1].wake == Tick
    requires script[n].draining && !script[n].idle
    ensures StillServing(script, n + 1)
  {
  }

  /** The deadline passed while the n waited turns were busy. */
  predicate DeadlinePassed(script: seq<Turn>, n: nat) {
    0 < n <= |script| && script[n - 1].wake == Deadline
  }

  /** After n waited turns there is a reason to retire the route: it is gone, idle, or out of time. */
  predicate Due(script: seq<Turn>, n: nat) {
    n < |script| && (!script[n].draining || script[n].idle || DeadlinePassed(script, n))
  }

  /** The session count of the last of n turns that found the route. */
  function LastSeen(script: seq<Turn>, n: nat): int
    requires n <= |script|
  {
    if n == 0 then 0
    else if script[n - 1].sessions.Some? then script[n - 1].sessions.value
    else LastSeen(script, n - 1)
  }

  /** Where the loop stands after its waited turns and its rounds, with the route retired, by force or not. */
  ghost predicate Stands(script: seq<Turn>, waited: nat, rounds: nat, c: Cleanup, routeRetired: bool, forced: bool) {
    && waited + rounds <= |script| && CleanupAfter(script[waited..waited + rounds]) == (c, None)
    && StillServing(script, waited) && (rounds > 0 ==> Due(script, waited))
    && (forced <==> DeadlinePassed(script, waited))
    && (routeRetired <==> rounds > 0 || forced)
    && (!routeRetired && waited > 0 ==> script[waited - 1].wake == Tick)
  }

  /** A turn that finds the route retired, gone or idle is a round. */
  lemma AfterRound(script: seq<Turn>, waited: nat, rounds: nat, c: Cleanup, routeRetired: bool, forced: bool)
    requires Stands(script, waited, rounds, c, routeRetired, forced) && waited + rounds < |script|
    requires var t := script[waited + rounds]; routeRetired || !t.draining || t.idle
    ensures var t := script[waited + rounds];
            var (c', exit) := Round(c, t.stops, t.deletes);
            && CleanupAfter(script[waited..waited + rounds + 1]) == (c', exit)
            && StillServing(script, waited) && Due(script, waited) && (forced <==> DeadlinePassed(script, waited))
            && (exit.None? ==> Stands(script, waited, rounds + 1, c', true, forced))
  {
    OneMoreRound(script, waited, waited + rounds);
    hide CleanupAfter, Round, StillServing;
  }

  /** A turn that finds it busy is waited for, and retires it by force if it ends at the deadline. */
  lemma AfterWait(script: seq<Turn>, waited: nat, rounds: nat, c: Cleanup, forced: bool)
    requires Stands(script, waited, rounds, c, false, forced) && waited + rounds < |script|
    requires script[waited].draining && !script[waited].idle
    ensures rounds == 0 && !forced && script[waited + 1..waited + 1] == [] == script[waited..waited]
    ensures StillServing(script, waited + 1) && CleanupAfter([]) == (c, None)
    ensures DeadlinePassed(script, waited + 1) <==> script[waited].wake == Deadline
    ensures var late := script[waited].wake == Deadline;
            script[waited].wake != Shutdown ==> Stands(script, waited + 1, 0, c, late, late)
  {
    StillServingNext(script, waited);
    hide StillServing;
  }

  /** The loop goes on: what its log, its flags and the turns so far have to do with each other. */
  ghost predicate Going(script: seq<Turn>, log: seq<Event>, lastSessions: int, waited: nat, rounds: nat, c: Cleanup,
                        routeRetired: bool)
  {
    && Ordered(log) && Remembers(log, routeRetired, c.stopped) && DeltaSum(log) == lastSessions
    && c.failures < MAX_FAILURES && rounds + RoundsLeft(c) <= 2 * MAX_FAILURES - 1
    && Stands(script, waited, rounds, c, routeRetired, Forced(log))
  }

  /** The loop has ended: the log is in order, and everything in it is as the turns were. */
  ghost predicate Over(script: seq<Turn>, exit: Exit, log: seq<Event>, lastSessions: int, waited: nat, rounds: nat) {
    && Ordered(log) && DeltaSum(log) == lastSessions
    && waited + rounds <= |script| && rounds <= 2 * MAX_FAILURES - 1
    && StillServing(script, waited) && (rounds > 0 ==> Due(script, waited))
    && (Forced(log) <==> DeadlinePassed(script, waited))
    && (Retired(log) <==> rounds > 0 || DeadlinePassed(script, waited))
    && (Deleted(log) <==> exit == Forgotten)
    && CleanupAfter(script[waited..waited + rounds]).1 == (if exit == Interrupted then None else Some(exit))
  }

  lemma InterruptedIsOver(script: seq<Turn>, log: seq<Event>, lastSessions: int, waited: nat, rounds: nat, c: Cleanup,
                          routeRetired: bool)
    requires Going(script, log, lastSessions, waited, rounds, c, routeRetired)
    ensures Over(script, Interrupted, log, lastSessions, waited, rounds)
  {
    Remembered(log, routeRetired, c.stopped);
    RoundsLeftOver(c);
    hide Ordered, Remembers, Deleted, Retired, Forced, DeltaSum, StillServing, Due, DeadlinePassed, CleanupAfter;
  }

  lemma RoundsLeftOver(c: Cleanup)
    requires c.failures < MAX_FAILURES
    ensures RoundsLeft(c) >= 1
  {
  }

  /** The rest of a turn that finds the route retired, gone or idle: one round of cleanup. */
  method RoundTurn(script: seq<Turn>, log: seq<Event>, lastSessions: int, waited: nat, rounds: nat, c: Cleanup,
                   ghost wasRetired: bool)
      returns (log': seq<Event>, c': Cleanup, exit: Option<Exit>)
    requires Ordered(log) && Remembers(log, true, c.stopped) && DeltaSum(log) == lastSessions
    requires c.failures < MAX_FAILURES && rounds + RoundsLeft(c) <= 2 * MAX_FAILURES - 1
    requires Stands(script, waited, rounds, c, wasRetired, Forced(log)) && waited + rounds < |script|
    requires var t := script[waited + rounds]; wasRetired || !t.draining || t.idle
    ensures exit.None? ==> Going(script, log', lastSessions, waited, rounds + 1, c', true)
    ensures exit.Some? ==> exit.value != Interrupted && Over(script, exit.value, log', lastSessions, waited, rounds + 1)
  {
    var t := script[waited + rounds];
    RoundProgress(c, t.stops, t.deletes);
    RoundFailures(c, t.stops, t.deletes);
    RoundsLeftOver(c);
    AfterRound(script, waited, rounds, c, wasRetired, Forced(log));
    hide Ordered, Remembers, Deleted, Retired, Forced, DeltaSum, StillServing, Due, DeadlinePassed, CleanupAfter;
    hide Stands, Round;
    log', c', exit := CleanupRound(log, c, t);
  }

  /** The rest of a turn that finds the route busy: retired by force at the deadline, kept otherwise. */
  method BusyTurn(script: seq<Turn>, log: seq<Event>, lastSessions: int, waited: nat, rounds: nat, c: Cleanup)
      returns (log': seq<Event>, exit: Option<Exit>)
    requires Going(script, log, lastSessions, waited, rounds, c, false) && waited + rounds < |script|
    requires script[waited].draining && !script[waited].idle
    ensures rounds == 0
    ensures exit.None? ==> Going(script, log', lastSessions, waited + 1, 0, c, script[waited].wake == Deadline)
    ensures exit.None? <==> script[waited].wake != Shutdown
    ensures exit.Some? ==> exit.value == Interrupted && Over(script, Interrupted, log', lastSessions, waited + 1, 0)
  {
    AfterWait(script, waited, rounds, c, Forced(log));
    Remembered(log, false, c.stopped);
    RoundsLeftOver(c);
    hide Ordered, Remembers, Deleted, Retired, Forced, DeltaSum, StillServing, Due, DeadlinePassed, CleanupAfter;
    hide Stands;
    log', exit := log, None;
    match script[waited].wake {
      case Shutdown => exit := Some(Interrupted);
      case Tick =>
      case Deadline =>
        Append(log, RouteRetired(true), false, c.stopped);
        log' := log + [RouteRetired(true)];
    }
  }

  /** One turn of the loop, up to its wake-up. */
  method OneTurn(script: seq<Turn>, log: seq<Event>, lastSessions: int, waited: nat, rounds: nat, c: Cleanup,
                 routeRetired: bool)
      returns (log': seq<Event>, lastSessions': int, c': Cleanup, routeRetired': bool, isRound: bool,
               exit: Option<Exit>)
    requires Going(script, log, lastSessions, waited, rounds, c, routeRetired) && waited + rounds < |script|
    ensures var t := script[waited + rounds];
            var w, r := if isRound then waited else waited + 1, if isRound then rounds + 1 else rounds;
            && lastSessions' == (if t.sessions.Some? then t.sessions.value else lastSessions)
            && (exit.None? ==> Going(script, log', lastSessions', w, r, c', routeRetired') && t.wake != Shutdown)
            && (exit.Some? ==> Over(script, exit.value, log', lastSessions', w, r))
            && (exit == Some(Interrupted) ==> t.wake == Shutdown)
  {
    hide Ordered, Remembers, Deleted, Retired, Forced, DeltaSum, StillServing, Due, DeadlinePassed, CleanupAfter;
    hide RoundsLeft;
    var t := script[waited + rounds];
    c' := c;
    log', lastSessions', routeRetired' := Observe(log, lastSessions, routeRetired, c.stopped, t);
    isRound := routeRetired';
    hide Stands, Over;
    if isRound {
      log', c', exit := RoundTurn(script, log', lastSessions', waited, rounds, c, routeRetired);
      if exit.None? && t.wake.Shutdown? {
        InterruptedIsOver(script, log', lastSessions', waited, rounds + 1, c', true);
        exit := Some(Interrupted);
      }
    } else {
      log', exit := BusyTurn(script, log', lastSessions', waited, rounds, c);
      routeRetired' := t.wake == Deadline;
    }
  }

  lemma OverMeans(script: seq<Turn>, exit: Exit, log: seq<Event>, lastSessions: int, waited: nat, rounds: nat)
    requires Over(script, exit, log, lastSessions, waited, rounds)
    ensures waited + rounds <= |script| && rounds <= 15 && DeltaSum(log) == lastSessions
    ensures exit == Forgotten <==> LedgerDelete(true) in log
    ensures forall i :: 0 <= i < waited ==> script[i].draining && !script[i].idle
    ensures rounds > 0 ==>
              var t := script[waited];
              !t.draining || t.idle || (waited > 0 && script[waited - 1].wake == Deadline)
    ensures RouteRetired(true) in log <==> waited > 0 && script[waited - 1].wake == Deadline
  {
    hide Ordered, DeltaSum, CleanupAfter;
  }

  /**
   Drains and forgets a generation. Its ledger goes only after a confirmed stop, the stop only after the
   route; the reported session changes add up to the last count seen; the route is kept for exactly the turns
   that find it busy before the deadline, and retired by force exactly at the deadline; the rounds after that
   end as the answers of their turns say, and there are at most fifteen of them.
   */
  method RetireGenerationWhenIdle(script: seq<Turn>)
      returns (exit: Exit, lastSessions: int, log: seq<Event>, waited: nat, rounds: nat)
    ensures Over(script, exit, log, lastSessions, waited, rounds)
    ensures lastSessions == LastSeen(script, waited + rounds) == DeltaSum(log)
    ensures waited + rounds <= |script| && rounds <= 15 && (exit == Forgotten <==> LedgerDelete(true) in log)
    ensures forall i :: 0 <= i < waited ==> script[i].draining && !script[i].idle
    ensures rounds > 0 ==>
              var t := script[waited];
              !t.draining || t.idle || (waited > 0 && script[waited - 1].wake == Deadline)
    ensures RouteRetired(true) in log <==> waited > 0 && script[waited - 1].wake == Deadline
    ensures exit == Interrupted ==>
              waited + rounds == |script| || (waited + rounds > 0 && script[waited + rounds - 1].wake == Shutdown)
  {
    log, lastSessions, waited, rounds := [], 0, 0, 0;
    var routeRetired := false;
    var c := Cleanup(false, 0);
    assert Stands(script, 0, 0, c, false, Forced(log));
    assert Going(script, log, lastSessions, waited, rounds, c, routeRetired);
    hide Going, Over;
    while waited + rounds < |script|
      invariant waited + rounds <= |script| && lastSessions == LastSeen(script, waited + rounds)
      invariant Going(script, log, lastSessions, waited, rounds, c, routeRetired)
    {
      var isRound, left;
      log, lastSessions, c, routeRetired, isRound, left :=
        OneTurn(script, log, lastSessions, waited, rounds, c, routeRetired);
      waited, rounds := if isRound then waited else waited + 1, if isRound then rounds + 1 else rounds;
      if left.Some? {
        OverMeans(script, left.value, log, lastSessions, waited, rounds);
        return left.value, lastSessions, log, waited, rounds;
      }
    }
    InterruptedIsOver(script, log, lastSessions, waited, rounds, c, routeRetired);
    OverMeans(script, Interrupted, log, lastSessions, waited, rounds);
    exit := Interrupted;
  }
}
