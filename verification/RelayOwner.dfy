/**
 The owner.current pointer of cmd/shinyhub/relay_rpc.go: a process publishes its relay socket before it
 reports readiness, commits once it is the live process, and restores its predecessor when it closes
 uncommitted. `System` runs any number of upgrades, one child at a time, with every failure in between.
 */
module RelayOwner {
  import opened Basics

  type Path = nat

  /** What a relay owner knows: the pointer it replaced, and how far it got. */
  datatype Endpoint = Endpoint(path: Path, previous: Option<Path>, committed: bool, closed: bool)
  {
    /** The endpoint after a successful publication over the given pointer. */
    function Published(pointer: Option<Path>): Endpoint {
      this.(previous := pointer)
    }

    /** The pointer once this endpoint has closed; `io` says whether the lock, read and write worked. */
    function Restored(pointer: Option<Path>, io: bool): Option<Path> {
      if !committed && io && pointer == Some(path) then previous else pointer
    }
  }

  class Registry {
    var current: Option<Path>

    constructor ()
      ensures current == None
    {
      current := None;
    }
  }

  class RelayOwner {
    const path: Path
    const registry: Registry
    var previous: Option<Path>
    var committed: bool
    var closed: bool
    var finished: bool

    ghost function View(): Endpoint
      reads this
    {
      Endpoint(path, previous, committed, closed)
    }

    constructor (path: Path, registry: Registry)
      ensures this.path == path && this.registry == registry
      ensures View() == Endpoint(path, None, false, false) && !finished
    {
      this.path, this.registry := path, registry;
      previous, committed, closed, finished := None, false, false, false;
    }

    /** Publishes this endpoint; a closed owner, or a failed lock, read or write, changes nothing. */
    method Activate(io: bool) returns (ok: bool)
      modifies this`previous, registry
      ensures ok <==> !closed && io
      ensures ok ==> registry.current == Some(path) && View() == old(View()).Published(old(registry.current))
      ensures !ok ==> registry.current == old(registry.current) && View() == old(View())
    {
      if closed || !io {
        return false;
      }
      var before := registry.current;
      registry.current := Some(path);
      previous := before;
      return true;
    }

    method Commit()
      modifies this`committed
      ensures View() == old(View()).(committed := true)
    {
      committed := true;
    }

    /** Runs once; only an uncommitted owner that is still current gives the pointer back. */
    method Close(io: bool)
      modifies this`closed, this`finished, registry
      ensures finished && (old(finished) ==> View() == old(View()) && registry.current == old(registry.current))
      ensures !old(finished) ==>
                && View() == old(View()).(closed := true)
                && registry.current == old(View()).Restored(old(registry.current), io)
    {
      if finished {
        return;
      }
      closed, finished := true, true;
      if !committed && io && registry.current == Some(path) {
        registry.current := previous;
      }
    }
  }

  // ------------------------------------------------------------ all upgrades

  /** How far the close of a child has come; Lost covers a death and a close that could not restore. */
  datatype End = Alive | Closing | Restored | Lost

  /** The child of the upgrade in flight: `sent` once it wrote its readiness byte, `acked` once the parent read it. */
  datatype Child = Child(endpoint: Endpoint, activated: bool, sent: bool, acked: bool, end: End)

  /**
   The last committed owner, its child if an upgrade is in flight, older committed owners that have not closed
   yet, and every path that was ever used. `upgraded`: the parent's upgrade call has returned success, after which
   it retires for certain, starts no other child and never republishes. `broken`: an unacknowledged round ended
   with the pointer at a child that is gone.
   */
  datatype System = System(
      pointer: Option<Path>, parent: Endpoint, child: Option<Child>, retiring: set<Endpoint>, used: set<Path>,
      upgraded: bool, broken: bool)
  {
    /** Paths at which somebody answers. */
    function Serving(): set<Path> {
      (if parent.closed then {} else {parent.path})
      + (set e | e in retiring :: e.path)
      + (if child.Some? && child.value.end == Alive then {child.value.endpoint.path} else {})
    }

    /** A client that reads the pointer reaches an owner. */
    predicate NamesOpenOwner() {
      pointer.Some? && pointer.value in Serving()
    }

    /** No upgrade is in flight and an upgraded parent has finished retiring. */
    predicate Quiescent() {
      child == None && (upgraded ==> parent.closed)
    }
  }

  datatype Step =
    | Start(path: Path)           // a child process opens its socket
    | Activate(io: bool)          // the child's before-ready publication
    | Send                        // the child writes its readiness byte and goes on
    | Acknowledge                 // the parent reads the byte, even of a child that is gone; its upgrade call succeeds
    | Commit                      // the child considers itself live, whether its byte was read or not
    | BeginClose
    | FinishClose(io: bool)
    | Die                         // the child exits without closing
    | Reactivate(io: bool)        // before an acknowledgement: the parent kills the child and republishes
    | Abandon                     // after an acknowledgement: the child is gone, and nobody republishes
    | Retire(io: bool)            // an upgraded parent closes, with or without its child committed
    | RetireOlder(owner: Endpoint, io: bool)

  predicate Enabled(s: System, step: Step) {
    match step
    case Start(p) => s.child == None && !s.upgraded && p !in s.used
    case Activate(_) => s.child.Some? && s.child.value.end == Alive && !s.child.value.activated
    case Send => s.child.Some? && s.child.value.end == Alive && s.child.value.activated && !s.child.value.sent
    case Acknowledge => s.child.Some? && s.child.value.sent && !s.child.value.acked
    case Commit =>
      s.child.Some? && s.child.value.end == Alive && s.child.value.sent && !s.child.value.endpoint.committed
    case BeginClose => s.child.Some? && s.child.value.end == Alive
    case FinishClose(_) => s.child.Some? && s.child.value.end == Closing
    case Die => s.child.Some? && (s.child.value.end == Alive || s.child.value.end == Closing)
    case Reactivate(_) => s.child.Some? && !s.child.value.acked
    case Abandon =>
      s.child.Some? && s.child.value.acked && (s.child.value.end == Restored || s.child.value.end == Lost)
    case Retire(_) => s.upgraded && !s.parent.closed
    case RetireOlder(e, _) => e in s.retiring
  }

  /** The live, committed and acknowledged child is the next parent; the old one has yet to close. */
  function Promoted(s: System): System
    requires s.child.Some?
  {
    s.(parent := s.child.value.endpoint.(committed := true), child := None, upgraded := false, broken := false,
       retiring := if s.parent.closed then s.retiring else s.retiring + {s.parent})
  }

  function Apply(s: System, step: Step): System
    requires Enabled(s, step)
  {
    match step
    case Start(p) =>
      s.(child := Some(Child(Endpoint(p, None, false, false), false, false, false, Alive)), used := s.used + {p})
    case Activate(io) =>
      var c := s.child.value;
      if !io then s
      else s.(child := Some(c.(endpoint := c.endpoint.Published(s.pointer), activated := true)),
              pointer := Some(c.endpoint.path))
    case Send => s.(child := Some(s.child.value.(sent := true)))
    case Acknowledge =>
      var c := s.child.value;
      if c.endpoint.committed && c.end == Alive then Promoted(s)
      else s.(child := Some(c.(acked := true)), upgraded := true)
    case Commit =>
      var c := s.child.value;
      if c.acked then Promoted(s)
      else s.(child := Some(c.(endpoint := c.endpoint.(committed := true))))
    case BeginClose =>
      var c := s.child.value;
      s.(child := Some(c.(endpoint := c.endpoint.(closed := true), end := Closing)))
    case FinishClose(io) =>
      var c := s.child.value;
      s.(child := Some(c.(end := if io && !c.endpoint.committed then Restored else Lost)),
         pointer := c.endpoint.Restored(s.pointer, io))
    case Die => s.(child := Some(s.child.value.(end := Lost)))
    case Reactivate(io) =>
      var c := s.child.value;
      if io then
        s.(child := None, parent := s.parent.Published(s.pointer), pointer := Some(s.parent.path), broken := false)
      else
        s.(child := None, broken := s.broken || (c.activated && c.end != Restored))
    case Abandon => s.(child := None)
    case Retire(io) =>
      s.(parent := s.parent.(closed := true), pointer := s.parent.Restored(s.pointer, io))
    case RetireOlder(e, io) =>
      s.(retiring := s.retiring - {e}, pointer := e.Restored(s.pointer, io))
  }

  /** A parent that serves alone, with the pointer at its own socket. */
  predicate Init(s: System) {
    && s.child == None && s.retiring == {} && s.parent.committed && !s.parent.closed
    && s.pointer == Some(s.parent.path) && s.parent.path in s.used && !s.upgraded && !s.broken
  }

  predicate Run(s: System, steps: seq<Step>)
    decreases |steps|
  {
    steps == [] || (Enabled(s, steps[0]) && Run(Apply(s, steps[0]), steps[1..]))
  }

  function After(s: System, steps: seq<Step>): System
    requires Run(s, steps)
    decreases |steps|
  {
    if steps == [] then s else After(Apply(s, steps[0]), steps[1..])
  }

  /** Where the pointer is when no child holds it: at the parent, unless a broken round left it elsewhere. */
  predicate Rests(s: System, pointer: Option<Path>) {
    (pointer == Some(s.parent.path)) <==> !s.broken
  }

  /** A used path of no retiring owner. */
  predicate Known(s: System, pointer: Option<Path>) {
    pointer.Some? ==> pointer.value in s.used && forall e :: e in s.retiring ==> e.path != pointer.value
  }

  /** Committed owners leave the pointer alone, so an older one may close at any time. */
  predicate OlderSound(s: System) {
    forall e :: e in s.retiring ==> e.committed && e.path in s.used && e.path != s.parent.path
  }

  /**
   The child between its start and its end. Once it has published and until it has restored, the pointer is at
   the child and the child remembers where the pointer rested; otherwise the pointer rests.
   */
  predicate ChildSound(s: System, c: Child) {
    && c.endpoint.path in s.used && c.endpoint.path != s.parent.path
    && (forall e :: e in s.retiring ==> e.path != c.endpoint.path)
    && Known(s, c.endpoint.previous) && c.endpoint.previous != Some(c.endpoint.path)
    && (c.acked ==> c.sent) && (c.sent ==> c.activated) && (s.upgraded <==> c.acked)
    && (c.end == Alive ==> !c.endpoint.closed) && (c.acked && c.end == Alive ==> !c.endpoint.committed)
    && if c.activated && c.end != Restored then
         s.pointer == Some(c.endpoint.path) && Rests(s, c.endpoint.previous)
       else
         s.pointer != Some(c.endpoint.path) && Rests(s, s.pointer)
  }

  predicate Invariant(s: System) {
    && s.parent.committed && s.parent.path in s.used && (s.parent.closed ==> s.upgraded)
    && Known(s, s.pointer) && OlderSound(s)
    && (s.child.Some? ==> ChildSound(s, s.child.value))
    && (s.child == None && !s.upgraded ==> Rests(s, s.pointer))
  }

  lemma StepKeepsInvariant(s: System, step: Step)
    requires Invariant(s) && Enabled(s, step)
    ensures Invariant(Apply(s, step))
  {
  }

  lemma {:induction false} RunKeepsInvariant(s: System, steps: seq<Step>)
    requires Invariant(s) && Run(s, steps)
    ensures Invariant(After(s, steps))
    decreases |steps|
  {
    if steps != [] {
      StepKeepsInvariant(s, steps[0]);
      RunKeepsInvariant(Apply(s, steps[0]), steps[1..]);
    }
  }

  /**
   Over any number of upgrades, with every failure in them and older owners closing whenever they like: at a
   quiescent point owner.current names an open owner if and only if no unacknowledged round left it broken and the
   parent has not handed over to a child that never committed. That owner is then the parent.
   */
  lemma PointerNamesOpenOwnerExactlyWhen(s: System, steps: seq<Step>)
    requires Init(s) && Run(s, steps)
    ensures var t := After(s, steps);
            t.Quiescent() ==>
              && (t.NamesOpenOwner() <==> !t.broken && !t.upgraded)
              && (t.NamesOpenOwner() ==> t.pointer == Some(t.parent.path) && !t.parent.closed && t.parent.committed)
  {
    RunKeepsInvariant(s, steps);
  }

  /** No read or write of the pointer fails, and no child is lost or closes once it has sent its readiness. */
  predicate Faithful(s: System, step: Step)
    requires Enabled(s, step)
  {
    match step
    case FinishClose(io) => io
    case Reactivate(io) => io
    case Die => !s.child.value.sent
    case BeginClose => !s.child.value.sent
    case _ => true
  }

  predicate FaithfulRun(s: System, steps: seq<Step>)
    requires Run(s, steps)
    decreases |steps|
  {
    steps == [] || (Faithful(s, steps[0]) && FaithfulRun(Apply(s, steps[0]), steps[1..]))
  }

  /** Not broken, and whoever sent its readiness is still on its way to its commit. */
  predicate Sound(s: System) {
    !s.broken && (s.upgraded ==> s.child.Some?) && (s.child.Some? && s.child.value.sent ==> s.child.value.end == Alive)
  }

  /**
   In such runs no quiescent point is without an open owner; and throughout, the pointer is at the open parent or
   at a child that published and has not yet ended its round.
   */
  lemma {:induction false} FaithfulRunsKeepAnOwner(s: System, steps: seq<Step>)
    requires Invariant(s) && Sound(s) && Run(s, steps) && FaithfulRun(s, steps)
    ensures Sound(After(s, steps))
    ensures var t := After(s, steps);
            && (t.Quiescent() ==> t.NamesOpenOwner() && t.pointer == Some(t.parent.path))
            && (t.child.Some? && t.child.value.sent ==> t.NamesOpenOwner())
            && (t.child.Some? && !t.child.value.activated ==> t.NamesOpenOwner())
    decreases |steps|
  {
    if steps != [] {
      StepKeepsInvariant(s, steps[0]);
      FaithfulRunsKeepAnOwner(Apply(s, steps[0]), steps[1..]);
    }
  }

  /**
   How an unacknowledged round ends, from a sound start: the parent's republication repairs whatever the child
   left, and without it only a child that never published, or restored the pointer, leaves it at the parent.
   */
  lemma FailedRoundRepairs(s: System, step: Step)
    requires Invariant(s) && !s.broken && Enabled(s, step) && step.Reactivate?
    ensures var c, t := s.child.value, Apply(s, step);
            t.NamesOpenOwner() <==> step.io || !c.activated || c.end == Restored
  {
    StepKeepsInvariant(s, step);
  }

  /**
   After an acknowledgement only a commit keeps an owner: whatever else the child and the retiring parent do, and
   in whatever order, once the round has come to rest owner.current names an open owner exactly if the child
   committed. A child that closed and restored the pointer left it at a parent that retires all the same.
   */
  lemma {:induction false} OnlyCommitKeepsAnOwner(s: System, steps: seq<Step>)
    requires Invariant(s) && s.upgraded && Run(s, steps) && After(s, steps).Quiescent()
    requires forall i :: 0 <= i < |steps| ==> !steps[i].Start?
    ensures After(s, steps).NamesOpenOwner() <==> exists i :: 0 <= i < |steps| && steps[i].Commit?
    decreases |steps|
  {
    RunKeepsInvariant(s, steps);
    if steps != [] {
      var t, rest := Apply(s, steps[0]), steps[1..];
      StepKeepsInvariant(s, steps[0]);
      if steps[0].Commit? {
        CommittedOwnerStays(t, rest);
      } else {
        OnlyCommitKeepsAnOwner(t, rest);
        assert forall i :: 0 < i < |steps| ==> steps[i] == rest[i - 1];
        assert (exists i :: 0 <= i < |steps| && steps[i].Commit?) ==> exists i :: 0 <= i < |rest| && rest[i].Commit?;
        assert (exists i :: 0 <= i < |rest| && rest[i].Commit?) ==> exists i :: 0 <= i < |steps| && steps[i].Commit?;
      }
    }
  }

  /** After a commit, and until the next upgrade, the pointer stays at the new parent while older owners close. */
  lemma {:induction false} CommittedOwnerStays(s: System, steps: seq<Step>)
    requires Invariant(s) && s.child == None && !s.upgraded && !s.broken && Run(s, steps)
    requires forall i :: 0 <= i < |steps| ==> !steps[i].Start?
    ensures After(s, steps).NamesOpenOwner()
    decreases |steps|
  {
    if steps != [] {
      StepKeepsInvariant(s, steps[0]);
      CommittedOwnerStays(Apply(s, steps[0]), steps[1..]);
    }
  }

  /** A step in front of a run. */
  lemma Prepend(s: System, step: Step, rest: seq<Step>)
    requires Enabled(s, step) && Run(Apply(s, step), rest)
    ensures Run(s, [step] + rest) && After(s, [step] + rest) == After(Apply(s, step), rest)
  {
    assert ([step] + rest)[1..] == rest;
  }

  /**
   A parent that serves alone can be left without a successor this way, without a single failed file operation: the
   child sends its readiness and then dies, or closes and even restores the pointer, before it commits; or it commits
   and dies before the parent reads the byte.
   */
  lemma SentChildCanLeaveNoOwner(s: System, path: Path, commits: bool, dies: bool) returns (steps: seq<Step>)
    requires Init(s) && path !in s.used
    ensures Run(s, steps) && |steps| <= 9
    ensures var t := After(s, steps);
            && t.Quiescent() && !t.NamesOpenOwner()
            && t.pointer == Some(if dies || commits then path else s.parent.path)
  {
    var s1 := Apply(s, Start(path));
    var s2 := Apply(s1, Activate(true));
    var s3 := Apply(s2, Send);
    if commits {
      var s4 := Apply(s3, Commit);
      steps := GoneThenRead(s4, dies);
      Prepend(s3, Commit, steps);
      steps := [Commit] + steps;
    } else {
      steps := GoneThenRead(s3, dies);
    }
    Prepend(s2, Send, steps);
    steps := [Send] + steps;
    Prepend(s1, Activate(true), steps);
    steps := [Activate(true)] + steps;
    Prepend(s, Start(path), steps);
    steps := [Start(path)] + steps;
  }

  /** The child that sent its readiness is gone before the parent reads it. */
  lemma GoneThenRead(s: System, dies: bool) returns (steps: seq<Step>)
    requires s.child.Some? && s.child.value.end == Alive && s.child.value.sent && !s.child.value.acked
    requires s.parent.committed && !s.parent.closed
    ensures Run(s, steps) && |steps| <= 5
    ensures var t, c := After(s, steps), s.child.value;
            && t.child == None && t.upgraded && t.parent == s.parent.(closed := true) && t.retiring == s.retiring
            && t.pointer == if dies then s.pointer else c.endpoint.Restored(s.pointer, true)
  {
    if dies {
      var s1 := Apply(s, Die);
      var s2 := Apply(s1, Acknowledge);
      steps := Resign(s2);
      Prepend(s1, Acknowledge, steps);
      steps := [Acknowledge] + steps;
      Prepend(s, Die, steps);
      steps := [Die] + steps;
    } else {
      var s1 := Apply(s, BeginClose);
      var s2 := Apply(s1, FinishClose(true));
      var s3 := Apply(s2, Acknowledge);
      steps := Resign(s3);
      Prepend(s2, Acknowledge, steps);
      steps := [Acknowledge] + steps;
      Prepend(s1, FinishClose(true), steps);
      steps := [FinishClose(true)] + steps;
      Prepend(s, BeginClose, steps);
      steps := [BeginClose] + steps;
    }
  }

  /** The end of such a round: the child is given up, and the parent retires. */
  lemma Resign(s: System) returns (steps: seq<Step>)
    requires Enabled(s, Abandon) && Enabled(s, Retire(true)) && s.parent.committed
    ensures Run(s, steps) && |steps| == 2
    ensures var t := After(s, steps);
            && t.child == None && t.upgraded == s.upgraded && t.parent == s.parent.(closed := true)
            && t.pointer == s.pointer && t.retiring == s.retiring
  {
    var s1 := Apply(s, Abandon);
    Prepend(s1, Retire(true), []);
    Prepend(s, Abandon, [Retire(true)] + []);
    steps := [Abandon] + ([Retire(true)] + []);
  }
}
