/**
 The accept-drain listener of cmd/shinyhub/handoff_listener.go. Its state is a set of connections that
 have not reached a handler, a one-slot wake-up channel and a done flag. `Next` gives the atomic steps
 of the acceptor, of any number of releasers and of any number of quiescers; `HandoffListener` is the
 object whose critical sections perform those steps.
 */
module HandoffListener {

  /** The accept loop: waiting, holding a connection not yet registered, or ended (ServeDone). */
  datatype Acceptor = Listening | Holding(conn: nat) | Ended

  /** Quiesce: before close, waiting for done, about to read `pending`, waiting on `changed`, returned. */
  datatype Quiescer = Idle | WaitDone | Check | Waiting | Drained | GaveUp

  datatype State = State(
      pending: set<nat>, token: bool, closed: bool, acceptor: Acceptor,
      signalling: set<nat>,        // releasers between the delete and the send
      quiescers: map<nat, Quiescer>,
      accepted: set<nat>, released: set<nat>)  // history

  datatype Step =
    | Accept(conn: nat)
    | Register
    | ServeDone
    | Delete(releaser: nat, conn: nat)
    | Signal(releaser: nat)
    | Close(q: nat)
    | SeeDone(q: nat)
    | ReadPending(q: nat)
    | Receive(q: nat)
    | Cancel(q: nat)

  predicate At(s: State, q: nat, pc: Quiescer) {
    q in s.quiescers && s.quiescers[q] == pc
  }

  predicate Enabled(s: State, step: Step) {
    match step
    case Accept(c) => s.acceptor.Listening? && c !in s.accepted
    case Register => s.acceptor.Holding?
    case ServeDone => s.acceptor.Listening?
    // A connection reaches its handler, or changes state, only after Accept returned it.
    case Delete(r, c) => r !in s.signalling && c in s.accepted && s.acceptor != Holding(c)
    case Signal(r) => r in s.signalling
    case Close(q) => At(s, q, Idle)
    case SeeDone(q) => At(s, q, WaitDone) && s.acceptor.Ended?
    case ReadPending(q) => At(s, q, Check)
    case Receive(q) => At(s, q, Waiting) && s.token
    case Cancel(q) => At(s, q, WaitDone) || At(s, q, Waiting)
  }

  function Apply(s: State, step: Step): State
    requires Enabled(s, step)
  {
    match step
    case Accept(c) => s.(acceptor := Holding(c), accepted := s.accepted + {c})
    case Register => s.(acceptor := Listening, pending := s.pending + {s.acceptor.conn})
    case ServeDone => s.(acceptor := Ended)
    case Delete(r, c) =>
      s.(pending := s.pending - {c}, released := s.released + {c}, signalling := s.signalling + {r})
    case Signal(r) => s.(token := true, signalling := s.signalling - {r})
    case Close(q) => s.(closed := true, quiescers := s.quiescers[q := WaitDone])
    case SeeDone(q) => s.(quiescers := s.quiescers[q := Check])
    case ReadPending(q) => s.(quiescers := s.quiescers[q := if s.pending == {} then Drained else Waiting])
    case Receive(q) => s.(token := false, quiescers := s.quiescers[q := Check])
    case Cancel(q) => s.(quiescers := s.quiescers[q := GaveUp])
  }

  function Start(quiescers: set<nat>): State {
    State({}, false, false, Listening, {}, map q | q in quiescers :: Idle, {}, {})
  }

  // ------------------------------------------------------------ invariants

  predicate Past(s: State, q: nat) {
    q in s.quiescers && s.quiescers[q] in {Check, Waiting, Drained}
  }

  /**
   Every accepted connection is in the acceptor's hand, pending, or released, and a quiescer past the
   done flag has seen accepting end.
   */
  ghost predicate Tracked(s: State) {
    && s.pending <= s.accepted && s.released <= s.accepted
    && (s.acceptor.Holding? ==> s.acceptor.conn in s.accepted)
    && (forall c :: c in s.accepted ==> c in s.pending || c in s.released || s.acceptor == Holding(c))
    && (forall q :: Past(s, q) ==> s.acceptor.Ended?)
    && (forall q :: q in s.quiescers && s.quiescers[q] != Idle && s.quiescers[q] != GaveUp ==> s.closed)
    && (forall q :: Past(s, q) && s.quiescers[q] == Drained ==> s.pending == {})
  }

  /** A quiescer that sleeps while nothing is pending has a wake-up buffered or on its way. */
  ghost predicate NoLostWakeup(s: State) {
    forall q :: At(s, q, Waiting) && s.pending == {} ==> s.token || s.signalling != {}
  }

  ghost predicate Invariant(s: State) {
    Tracked(s) && (|s.quiescers| <= 1 ==> NoLostWakeup(s))
  }

  lemma TrackedKept(s: State, step: Step)
    requires Tracked(s) && Enabled(s, step)
    ensures Tracked(Apply(s, step))
  {
    forall q | Past(Apply(s, step), q) ensures Apply(s, step).acceptor.Ended? {
      assert Past(s, q) || step == SeeDone(q);
    }
  }

  lemma OnlyOne(s: State, q: nat, r: nat)
    requires |s.quiescers| <= 1 && q in s.quiescers && r in s.quiescers
    ensures q == r
  {
    var rest := s.quiescers.Keys - {q};
    assert |s.quiescers.Keys| == |s.quiescers| && |rest| == |s.quiescers.Keys| - 1;
    assert r !in rest;
  }

  lemma WakeupKept(s: State, step: Step)
    requires Tracked(s) && NoLostWakeup(s) && |s.quiescers| <= 1 && Enabled(s, step)
    ensures NoLostWakeup(Apply(s, step))
  {
    var s' := Apply(s, step);
    forall q | At(s', q, Waiting) && s'.pending == {} ensures s'.token || s'.signalling != {} {
      match step {
        case Delete(r, c) => assert r in s'.signalling;
        case Receive(p) => OnlyOne(s, p, q);
        case ReadPending(p) => OnlyOne(s, p, q);
        case Register =>
        case _ => assert At(s, q, Waiting) && s.pending == {};
      }
    }
  }

  ghost predicate LegalRun(s: State, steps: seq<Step>)
    decreases steps
  {
    steps != [] ==> Enabled(s, steps[0]) && LegalRun(Apply(s, steps[0]), steps[1..])
  }

  function Final(s: State, steps: seq<Step>): State
    requires LegalRun(s, steps)
    decreases steps
  {
    if steps == [] then s else Final(Apply(s, steps[0]), steps[1..])
  }

  lemma {:induction false} InvariantAlways(s: State, steps: seq<Step>)
    requires Invariant(s) && LegalRun(s, steps)
    ensures Invariant(Final(s, steps)) && Final(s, steps).quiescers.Keys == s.quiescers.Keys
    decreases steps
  {
    if steps != [] {
      var s' := Apply(s, steps[0]);
      TrackedKept(s, steps[0]);
      if |s.quiescers| <= 1 {
        WakeupKept(s, steps[0]);
      }
      assert s'.quiescers.Keys == s.quiescers.Keys;
      assert |s'.quiescers| == |s'.quiescers.Keys| && |s.quiescers| == |s.quiescers.Keys|;
      InvariantAlways(s', steps[1..]);
    }
  }

  /** A step in front of a legal run. */
  lemma Prepend(s: State, step: Step, rest: seq<Step>)
    requires Enabled(s, step) && LegalRun(Apply(s, step), rest)
    ensures LegalRun(s, [step] + rest) && Final(s, [step] + rest) == Final(Apply(s, step), rest)
  {
    assert ([step] + rest)[1..] == rest;
  }

  /**
   In every interleaving, Quiesce returns nil only when accepting has ended and every accepted
   connection was released.
   */
  lemma DrainedMeansReleased(quiescers: set<nat>, steps: seq<Step>, q: nat)
    requires LegalRun(Start(quiescers), steps) && At(Final(Start(quiescers), steps), q, Drained)
    ensures var f := Final(Start(quiescers), steps); f.acceptor.Ended? && f.closed && f.released == f.accepted
  {
    assert Invariant(Start(quiescers));
    InvariantAlways(Start(quiescers), steps);
    assert Past(Final(Start(quiescers), steps), q);
  }

  /**
   With one quiescer no wake-up is lost: asleep with nothing pending, it returns nil after at most one
   releaser's send, its own receive and its own check.
   */
  lemma OneQuiescerIsWoken(q: nat, steps: seq<Step>) returns (wake: seq<Step>)
    requires LegalRun(Start({q}), steps)
    requires At(Final(Start({q}), steps), q, Waiting) && Final(Start({q}), steps).pending == {}
    ensures LegalRun(Final(Start({q}), steps), wake) && |wake| <= 3
    ensures At(Final(Final(Start({q}), steps), wake), q, Drained)
  {
    var s0 := Start({q});
    assert s0.quiescers.Keys == {q} && |s0.quiescers| == |s0.quiescers.Keys|;
    assert Invariant(s0);
    InvariantAlways(s0, steps);
    var f := Final(s0, steps);
    assert |f.quiescers| == |f.quiescers.Keys| && NoLostWakeup(f);
    if f.token {
      wake := WakeFromToken(f, q);
    } else {
      var r :| r in f.signalling;
      var rest := WakeFromToken(Apply(f, Signal(r)), q);
      wake := [Signal(r)] + rest;
      Prepend(f, Signal(r), rest);
    }
  }

  lemma WakeFromToken(f: State, q: nat) returns (wake: seq<Step>)
    requires At(f, q, Waiting) && f.pending == {} && f.token
    ensures |wake| == 2 && LegalRun(f, wake) && At(Final(f, wake), q, Drained)
  {
    var g := Apply(f, Receive(q));
    Prepend(g, ReadPending(q), []);
    Prepend(f, Receive(q), [ReadPending(q)] + []);
    wake := [Receive(q)] + ([ReadPending(q)] + []);
  }

  /** Everything is drained, and no wake-up is buffered or on its way for this sleeping quiescer. */
  ghost predicate Overslept(s: State, q: nat) {
    && At(s, q, Waiting) && s.acceptor.Ended? && s.accepted == s.released && s.pending == {}
    && !s.token && s.signalling == {}
  }

  /** Such a quiescer sleeps for as long as no connection is released again and it is not cancelled. */
  lemma {:induction false} SleepsUntilReleaseOrCancel(s: State, q: nat, steps: seq<Step>)
    requires Overslept(s, q) && LegalRun(s, steps)
    requires forall i :: 0 <= i < |steps| ==> !steps[i].Delete? && steps[i] != Cancel(q)
    ensures Overslept(Final(s, steps), q)
    decreases steps
  {
    if steps != [] {
      SleepsUntilReleaseOrCancel(Apply(s, steps[0]), q, steps[1..]);
    }
  }

  /** And the next release of any connection is enough: its wake-up lets the quiescer see the empty set. */
  lemma ReleaseWakesSleeper(s: State, q: nat, releaser: nat, conn: nat) returns (wake: seq<Step>)
    requires Overslept(s, q) && conn in s.accepted
    ensures LegalRun(s, wake) && |wake| == 4 && wake[0] == Delete(releaser, conn)
    ensures At(Final(s, wake), q, Drained)
  {
    var s1 := Apply(s, Delete(releaser, conn));
    var s2 := Apply(s1, Signal(releaser));
    var rest := WakeFromToken(s2, q);
    Prepend(s1, Signal(releaser), rest);
    Prepend(s, Delete(releaser, conn), [Signal(releaser)] + rest);
    wake := [Delete(releaser, conn)] + ([Signal(releaser)] + rest);
  }

  /**
   The single quiescer is essential: with two, one can take the only wake-up for the last release, and the other
   oversleeps it.
   */
  lemma TwoQuiescersLoseAWakeup() returns (steps: seq<Step>)
    ensures LegalRun(Start({0, 1}), steps)
    ensures At(Final(Start({0, 1}), steps), 0, Drained) && Overslept(Final(Start({0, 1}), steps), 1)
  {
    var s := Start({0, 1});
    var s4 := Serve(s);
    var s5 := Apply(s4, Close(0));
    var s6 := Apply(s5, Close(1));
    var s7 := Apply(s6, SeeDone(0));
    var s8 := Apply(s7, SeeDone(1));
    var s9 := Apply(s8, ReadPending(0));
    var s10 := Apply(s9, ReadPending(1));
    var tail := LastRelease(s10);
    Prepend(s9, ReadPending(1), tail);
    tail := [ReadPending(1)] + tail;
    Prepend(s8, ReadPending(0), tail);
    tail := [ReadPending(0)] + tail;
    Prepend(s7, SeeDone(1), tail);
    tail := [SeeDone(1)] + tail;
    Prepend(s6, SeeDone(0), tail);
    tail := [SeeDone(0)] + tail;
    Prepend(s5, Close(1), tail);
    tail := [Close(1)] + tail;
    Prepend(s4, Close(0), tail);
    tail := [Close(0)] + tail;
    steps := ServeFirst(s, tail);
  }

  /** One connection accepted, then the accept loop ends. */
  function Serve(s: State): State
    requires s.acceptor == Listening && s.accepted == {}
  {
    Apply(Apply(Apply(s, Accept(7)), Register), ServeDone)
  }

  lemma ServeFirst(s: State, tail: seq<Step>) returns (steps: seq<Step>)
    requires s.acceptor == Listening && s.accepted == {} && LegalRun(Serve(s), tail)
    ensures LegalRun(s, steps) && Final(s, steps) == Final(Serve(s), tail)
  {
    var s1 := Apply(s, Accept(7));
    Prepend(Apply(s1, Register), ServeDone, tail);
    steps := [ServeDone] + tail;
    Prepend(s1, Register, steps);
    steps := [Register] + steps;
    Prepend(s, Accept(7), steps);
    steps := [Accept(7)] + steps;
  }

  /** Both quiescers asleep on one pending connection: its release wakes only the first. */
  lemma LastRelease(s: State) returns (steps: seq<Step>)
    requires At(s, 0, Waiting) && At(s, 1, Waiting) && s.pending == s.accepted == {7} && s.released == {}
    requires s.acceptor.Ended? && !s.token && s.signalling == {}
    ensures LegalRun(s, steps) && At(Final(s, steps), 0, Drained) && Overslept(Final(s, steps), 1)
  {
    var s1 := Apply(s, Delete(0, 7));
    var s2 := Apply(s1, Signal(0));
    var s3 := Apply(s2, Receive(0));
    Prepend(s3, ReadPending(0), []);
    steps := [ReadPending(0)] + [];
    Prepend(s2, Receive(0), steps);
    steps := [Receive(0)] + steps;
    Prepend(s1, Signal(0), steps);
    steps := [Signal(0)] + steps;
    Prepend(s, Delete(0, 7), steps);
    steps := [Delete(0, 7)] + steps;
  }

  // ------------------------------------------------------------- the object

  /** The fields of the listener; each critical section does what the step of the same name does. */
  class HandoffListener {
    var pending: set<nat>
    var changed: bool
    var closed: bool
    var done: bool

    /** The object agrees with a protocol state. */
    ghost predicate Shows(s: State)
      reads this
    {
      pending == s.pending && changed == s.token && closed == s.closed && done == s.acceptor.Ended?
    }

    constructor (ghost quiescers: set<nat>)
      ensures Shows(Start(quiescers))
    {
      pending, changed, closed, done := {}, false, false, false;
    }

    /** The locked part of Accept. */
    method Register(conn: nat, ghost s: State)
      requires Shows(s) && s.acceptor == Holding(conn)
      modifies this`pending
      ensures Shows(Apply(s, Step.Register))
    {
      pending := pending + {conn};
    }

    /** release, with its delete and its send adjacent; the send never blocks. */
    method Release(conn: nat, ghost s: State, ghost releaser: nat)
      requires Shows(s) && Enabled(s, Delete(releaser, conn))
      modifies this`pending, this`changed
      ensures Shows(Apply(Apply(s, Delete(releaser, conn)), Signal(releaser)))
    {
      pending := pending - {conn};
      if !changed {
        changed := true;
      }
    }

    method ServeDone(ghost s: State)
      requires Shows(s) && s.acceptor.Listening?
      modifies this`done
      ensures Shows(Apply(s, Step.ServeDone))
    {
      done := true;
    }

    method Close(ghost s: State, ghost q: nat)
      requires Shows(s) && At(s, q, Idle)
      modifies this`closed
      ensures Shows(Apply(s, Step.Close(q)))
    {
      closed := true;
    }

    /** One turn of Quiesce's loop: read the count, then, if it is not zero, consume a buffered wake-up. */
    method Turn(ghost s: State, ghost q: nat) returns (drained: bool, woken: bool)
      requires Shows(s) && At(s, q, Check)
      modifies this`changed
      ensures drained <==> At(Apply(s, ReadPending(q)), q, Drained)
      ensures !drained && old(changed) <==> woken
      ensures Shows(if woken then Apply(Apply(s, ReadPending(q)), Receive(q)) else Apply(s, ReadPending(q)))
    {
      var remaining := |pending|;
      drained, woken := remaining == 0, false;
      if !drained && changed {
        changed, woken := false, true;
      }
    }
  }
}
