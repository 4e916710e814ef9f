/**
 Relay authorization of cmd/shinyhub/relay_rpc.go: a retiring proxy asks the current owner about the principals
 of its open sessions in chunks, and closes every session once verdicts stop arriving. The chunked request is
 proved against one unbounded request, and the loop is proved fail-closed in real time over all its runs.
 */
module RelayAuthorization {
  import opened Basics

  /** Who a session was admitted for; two sessions of one principal share a verdict. */
  datatype Principal = Principal(slug: string, user: int, jti: string)

  // ------------------------------------------------------------- one request

  const CHUNK := 256

  /** What becomes of one RPC: no usable reply, a reply one verdict short, or the whole reply. */
  datatype Reply = Failed | Short | Whole

  /** What an owner that takes any number of principals would say; None when a recheck fails. */
  ghost function Unbounded(principals: seq<Principal>, recheck: Principal -> Option<bool>)
    : Option<map<Principal, bool>>
  {
    if exists p :: p in principals && recheck(p).None? then None
    else Some(map p | p in principals :: recheck(p).value)
  }

  /** The owner's side: verdicts in order, refused above 256 principals, given up at the first failed recheck. */
  method OwnerAuthorize(principals: seq<Principal>, recheck: Principal -> Option<bool>) returns (r: Option<seq<bool>>)
    ensures r.None? <==> |principals| > 256 || exists i :: 0 <= i < |principals| && recheck(principals[i]).None?
    ensures r.Some? ==> |r.value| == |principals|
    ensures r.Some? ==> forall i :: 0 <= i < |principals| ==> recheck(principals[i]) == Some(r.value[i])
  {
    if |principals| > CHUNK {
      return None;
    }
    var revocations := [];
    for i := 0 to |principals|
      invariant |revocations| == i
      invariant forall j :: 0 <= j < i ==> recheck(principals[j]) == Some(revocations[j])
    {
      var verdict := recheck(principals[i]);
      if verdict.None? {
        return None;
      }
      revocations := revocations + [verdict.value];
    }
    return Some(revocations);
  }

  /** Each request there is, for principals from 256 * k on or for nobody, got a usable reply. */
  ghost predicate AllReplied(n: nat, replies: nat -> Reply) {
    if n == 0 then replies(0) != Failed else forall k: nat :: CHUNK * k < n ==> replies(k) == Whole
  }

  /**
   The client's side: chunks of 256, and one empty request when there is nobody to ask about. The result is
   the unbounded owner's, whenever every request got its reply, and an error otherwise.
   */
  method AuthorizeContext(principals: seq<Principal>, recheck: Principal -> Option<bool>, replies: nat -> Reply)
      returns (r: Option<map<Principal, bool>>)
    ensures r == if AllReplied(|principals|, replies) then Unbounded(principals, recheck) else None
    ensures r.Some? <==> AllReplied(|principals|, replies) && forall p :: p in principals ==> recheck(p).Some?
    ensures r.Some? ==> forall p :: p in r.value <==> p in principals
    ensures r.Some? ==> forall p :: p in principals ==> recheck(p) == Some(r.value[p])
  {
    var verdicts: map<Principal, bool> := map[];
    var offset, k := 0, 0;
    while offset < |principals|
      invariant offset == (if CHUNK * k < |principals| then CHUNK * k else |principals|)
      invariant offset > 0 || k == 0
      invariant CHUNK * k < |principals| + CHUNK
      invariant forall j :: 0 <= j < k ==> replies(j) == Whole
      invariant forall p :: p in verdicts <==> p in principals[..offset]
      invariant forall p :: p in verdicts ==> recheck(p) == Some(verdicts[p])
      decreases |principals| - offset
    {
      var end := if offset + CHUNK < |principals| then offset + CHUNK else |principals|;
      var chunk := principals[offset..end];
      var answer := OwnerAuthorize(chunk, recheck);
      if replies(k) != Whole || answer.None? {
        FailedChunk(principals, recheck, replies, offset, end, k);
        return None;
      }
      verdicts := AddChunk(verdicts, chunk, answer.value, recheck);
      assert principals[..end] == principals[..offset] + chunk;
      offset, k := end, k + 1;
    }
    assert principals[..offset] == principals;
    if |principals| == 0 && replies(0) == Failed {
      return None;
    }
    CompleteVerdicts(principals, recheck, verdicts);
    assert |principals| > 0 ==> forall j: nat :: CHUNK * j < |principals| ==> j < k;
    return Some(verdicts);
  }

  /** A chunk that failed, or whose recheck failed, makes the whole answer an error. */
  lemma FailedChunk(principals: seq<Principal>, recheck: Principal -> Option<bool>, replies: nat -> Reply,
                    offset: nat, end: nat, k: nat)
    requires offset == CHUNK * k && offset < end <= |principals| && end - offset <= CHUNK
    requires replies(k) != Whole || exists i :: 0 <= i < end - offset && recheck(principals[offset..end][i]).None?
    ensures AllReplied(|principals|, replies) ==> Unbounded(principals, recheck).None?
  {
    if replies(k) != Whole {
      assert CHUNK * k < |principals|;
    } else {
      var i :| 0 <= i < end - offset && recheck(principals[offset..end][i]).None?;
      assert principals[offset..end][i] == principals[offset + i];
    }
  }

  lemma CompleteVerdicts(principals: seq<Principal>, recheck: Principal -> Option<bool>, verdicts: map<Principal, bool>)
    requires forall p :: p in verdicts <==> p in principals
    requires forall p :: p in verdicts ==> recheck(p) == Some(verdicts[p])
    ensures Unbounded(principals, recheck) == Some(verdicts)
  {
    var all := map p | p in principals :: recheck(p).value;
    assert all == verdicts;
  }

  /** Files one chunk's verdicts under their principals. */
  method AddChunk(before: map<Principal, bool>, chunk: seq<Principal>, revocations: seq<bool>,
                  ghost recheck: Principal -> Option<bool>)
      returns (verdicts: map<Principal, bool>)
    requires |revocations| == |chunk|
    requires forall i :: 0 <= i < |chunk| ==> recheck(chunk[i]) == Some(revocations[i])
    requires forall p :: p in before ==> recheck(p) == Some(before[p])
    ensures forall p :: p in verdicts <==> p in before || p in chunk
    ensures forall p :: p in verdicts ==> recheck(p) == Some(verdicts[p])
  {
    verdicts := before;
    for i := 0 to |chunk|
      invariant forall p :: p in verdicts <==> p in before || p in chunk[..i]
      invariant forall p :: p in verdicts ==> recheck(p) == Some(verdicts[p])
    {
      verdicts := verdicts[chunk[i] := revocations[i]];
      assert chunk[..i + 1] == chunk[..i] + [chunk[i]];
    }
    assert chunk[..|chunk|] == chunk;
  }

  // ---------------------------------------------------------------- the loop

  datatype Session = Session(id: nat, principal: Principal)

  /** The sole RPC worker: when its sweep began, and the principals it asks about. */
  datatype Sweep = Sweep(began: int, asked: set<Principal>)

  /** A finished sweep, waiting in the one-place result channel; None is an error. */
  datatype Finished = Finished(sweep: Sweep, verdicts: Option<map<Principal, bool>>)

  datatype Mode = Running | Expired | Cancelled

  /**
   The loop and its surroundings. `lastBegan` and `lastDone` tell when the last processed successful sweep
   began and was processed; both are the start time until there is one. `slowest` is the longest time a
   processed successful sweep has taken so far, from its beginning to its processing.
   */
  datatype Loop = Loop(
      now: int, mode: Mode, open: set<Session>, busy: bool, worker: Option<Sweep>, result: Option<Finished>,
      deadline: int, fired: bool, lastBegan: int, lastDone: int, slowest: nat)

  /** Fixed facts of a run: the loop's grace, and when each principal's access ends, if ever. */
  datatype Facts = Facts(grace: nat, revoked: Principal -> Option<int>)
  {
    predicate RevokedBy(p: Principal, t: int) {
      revoked(p).Some? && revoked(p).value <= t
    }

    /** Complete for those asked, and true to everything revoked before the sweep began. */
    ghost predicate Truthful(f: Finished) {
      f.verdicts.Some? ==>
        && f.verdicts.value.Keys == f.sweep.asked
        && forall p :: p in f.sweep.asked && RevokedBy(p, f.sweep.began) ==> f.verdicts.value[p]
    }
  }

  datatype Step =
    | Advance(to: int)
    | Connect(session: Session)
    | Disconnect(session: Session)
    | WorkerDone(verdicts: Option<map<Principal, bool>>)
    | TimerFires
    | Tick
    | Process
    | Expire
    | Cancel

  function Principals(open: set<Session>): set<Principal> {
    set s | s in open :: s.principal
  }

  /** RecheckSessions with the sweep's verdicts: only principals it knows and clears keep their sessions. */
  function Kept(open: set<Session>, verdicts: map<Principal, bool>): set<Session> {
    set s | s in open && s.principal in verdicts && !verdicts[s.principal]
  }

  ghost predicate Enabled(f: Facts, s: Loop, step: Step) {
    match step
    case Advance(to) => s.now <= to
    // A session opens only for a principal that has access at that moment.
    case Connect(session) => s.mode == Running && !f.RevokedBy(session.principal, s.now)
    case Disconnect(_) => true
    case WorkerDone(verdicts) => s.worker.Some? && f.Truthful(Finished(s.worker.value, verdicts))
    case TimerFires => !s.fired && s.now >= s.deadline && s.mode == Running
    case Tick => s.mode == Running
    case Process => s.mode == Running && s.result.Some?
    case Expire => s.mode == Running && s.fired
    case Cancel => s.mode == Running
  }

  function Longer(a: nat, b: int): nat {
    if b <= a then a else b
  }

  function Started(s: Loop): Loop {
    if s.busy then s else s.(busy := true, worker := Some(Sweep(s.now, Principals(s.open))))
  }

  ghost function Apply(f: Facts, s: Loop, step: Step): Loop
    requires Enabled(f, s, step)
  {
    match step
    case Advance(to) => s.(now := to)
    case Connect(session) => s.(open := s.open + {session})
    case Disconnect(session) => s.(open := s.open - {session})
    case WorkerDone(verdicts) => s.(worker := None, result := Some(Finished(s.worker.value, verdicts)))
    case TimerFires => s.(fired := true)
    case Tick => Started(s)
    case Process =>
      var r := s.result.value;
      var s' := s.(busy := false, result := None);
      if r.verdicts.None? then s'
      else s'.(open := Kept(s.open, r.verdicts.value), deadline := s.now + f.grace, fired := false,
               lastBegan := r.sweep.began, lastDone := s.now, slowest := Longer(s.slowest, s.now - r.sweep.began))
    case Expire => s.(open := {}, mode := Expired)
    case Cancel => s.(mode := Cancelled)
  }

  /** The loop as it starts, with its first sweep under way and nobody's access ended yet. */
  ghost predicate Init(f: Facts, s: Loop) {
    && s.mode == Running && !s.fired && s.result == None && s.deadline == s.now + f.grace
    && s.lastBegan == s.lastDone == s.now
    && s.busy && s.worker == Some(Sweep(s.now, Principals(s.open)))
    && forall x :: x in s.open ==> !f.RevokedBy(x.principal, s.now)
  }

  ghost predicate Run(f: Facts, s: Loop, steps: seq<Step>)
    decreases |steps|
  {
    steps == [] || (Enabled(f, s, steps[0]) && Run(f, Apply(f, s, steps[0]), steps[1..]))
  }

  ghost function After(f: Facts, s: Loop, steps: seq<Step>): Loop
    requires Run(f, s, steps)
    decreases |steps|
  {
    if steps == [] then s else After(f, Apply(f, s, steps[0]), steps[1..])
  }

  /** At most one sweep is out or waiting, so the channel has room whenever the worker sends. */
  predicate OneSweep(s: Loop) {
    && (s.busy <==> s.worker.Some? || s.result.Some?)
    && !(s.worker.Some? && s.result.Some?)
  }

  ghost predicate Invariant(f: Facts, s: Loop) {
    && OneSweep(s)
    && s.deadline == s.lastDone + f.grace
    && s.lastBegan <= s.lastDone <= s.lastBegan + s.slowest && s.lastDone <= s.now
    && (s.fired ==> s.now >= s.deadline)
    && (s.worker.Some? ==> s.lastBegan <= s.worker.value.began <= s.now)
    && (s.result.Some? ==> s.lastBegan <= s.result.value.sweep.began <= s.now && f.Truthful(s.result.value))
    && (s.mode == Expired ==> s.open == {})
    && (s.mode == Running ==> forall x :: x in s.open ==> !f.RevokedBy(x.principal, s.lastBegan))
  }

  lemma StepKeepsInvariant(f: Facts, s: Loop, step: Step)
    requires Invariant(f, s) && Enabled(f, s, step)
    ensures Invariant(f, Apply(f, s, step))
  {
  }

  lemma {:induction false} RunKeepsInvariant(f: Facts, s: Loop, steps: seq<Step>)
    requires Invariant(f, s) && Run(f, s, steps)
    ensures Invariant(f, After(f, s, steps))
    decreases |steps|
  {
    if steps != [] {
      StepKeepsInvariant(f, s, steps[0]);
      RunKeepsInvariant(f, Apply(f, s, steps[0]), steps[1..]);
    }
  }

  /**
   Fail-closed in real time: in every run, while a session whose principal lost access at time t is still open,
   the armed deadline lies before t plus the grace plus the slowest successful sweep so far, whether the owner
   answered, failed, or never answered; and once the deadline has been taken, no session is open.
   */
  lemma RevokedSessionsEnd(f: Facts, s: Loop, steps: seq<Step>, session: Session, t: int)
    requires Init(f, s) && Run(f, s, steps)
    requires f.revoked(session.principal) == Some(t)
    ensures var e := After(f, s, steps);
            session in e.open && e.mode != Cancelled ==> e.mode == Running && e.deadline < t + f.grace + e.slowest
  {
    RunKeepsInvariant(f, s, steps);
  }

  /** Every complete or partial set of verdicts that the run processes clears this principal. */
  ghost predicate ClearedAlong(f: Facts, s: Loop, steps: seq<Step>, p: Principal)
    requires Run(f, s, steps)
    decreases |steps|
  {
    steps != [] ==>
      && (steps[0].Process? && s.result.value.verdicts.Some? ==>
            p in s.result.value.verdicts.value && !s.result.value.verdicts.value[p])
      && ClearedAlong(f, Apply(f, s, steps[0]), steps[1..], p)
  }

  /** Nobody who is cleared is disconnected: only an adverse or missing verdict or the deadline closes a session. */
  lemma {:induction false} ClearedSessionsStay(f: Facts, s: Loop, steps: seq<Step>, session: Session)
    requires Run(f, s, steps) && session in s.open && ClearedAlong(f, s, steps, session.principal)
    requires forall i :: 0 <= i < |steps| ==> !steps[i].Expire? && steps[i] != Disconnect(session)
    ensures session in After(f, s, steps).open
    decreases |steps|
  {
    if steps != [] {
      ClearedSessionsStay(f, Apply(f, s, steps[0]), steps[1..], session);
    }
  }

  /** The owner reports a revocation only if there was one. */
  ghost predicate HonestAlong(f: Facts, s: Loop, steps: seq<Step>)
    requires Run(f, s, steps)
    decreases |steps|
  {
    steps != [] ==>
      && (steps[0].WorkerDone? && steps[0].verdicts.Some? ==>
            forall p :: p in steps[0].verdicts.value && steps[0].verdicts.value[p] ==> f.RevokedBy(p, s.now))
      && HonestAlong(f, Apply(f, s, steps[0]), steps[1..])
  }

  /** Every sweep out or waiting asks about this principal, and no waiting verdict is against it. */
  ghost predicate AskedAbout(s: Loop, p: Principal) {
    && (s.worker.Some? ==> p in s.worker.value.asked)
    && (s.result.Some? ==>
          && p in s.result.value.sweep.asked
          && (s.result.value.verdicts.Some? ==>
                p in s.result.value.verdicts.value && !s.result.value.verdicts.value[p]))
  }

  lemma {:induction false} InnocentStaysAsked(f: Facts, s: Loop, steps: seq<Step>, session: Session)
    requires Invariant(f, s) && Run(f, s, steps) && HonestAlong(f, s, steps)
    requires session in s.open && AskedAbout(s, session.principal) && f.revoked(session.principal) == None
    requires forall i :: 0 <= i < |steps| ==> !steps[i].Expire? && steps[i] != Disconnect(session)
    ensures session in After(f, s, steps).open && AskedAbout(After(f, s, steps), session.principal)
    decreases |steps|
  {
    if steps != [] {
      StepKeepsInvariant(f, s, steps[0]);
      InnocentStaysAsked(f, Apply(f, s, steps[0]), steps[1..], session);
    }
  }

  /**
   A session that was open from the beginning, of a principal who never loses access, outlives every sweep: each
   one asks about it, so that none finds it unknown. Only its own end or the deadline closes it.
   */
  lemma InnocentSessionsStay(f: Facts, s: Loop, steps: seq<Step>, session: Session)
    requires Init(f, s) && Run(f, s, steps) && HonestAlong(f, s, steps)
    requires session in s.open && f.revoked(session.principal) == None
    requires forall i :: 0 <= i < |steps| ==> !steps[i].Expire? && steps[i] != Disconnect(session)
    ensures session in After(f, s, steps).open
  {
    InnocentStaysAsked(f, s, steps, session);
  }

  /** And a processed set of verdicts closes every session it does not clear, revoked or unknown. */
  lemma UnclearedSessionsGo(f: Facts, s: Loop, session: Session)
    requires Enabled(f, s, Process) && s.result.value.verdicts.Some? && session in s.open
    ensures var v := s.result.value.verdicts.value;
            session !in Apply(f, s, Process).open <==> session.principal !in v || v[session.principal]
  {
  }

  /** A sweep that came back with a verdict on each principal it asked about, and on nobody else. */
  predicate Complete(r: Finished) {
    r.verdicts.Some? && r.verdicts.value.Keys == r.sweep.asked
  }

  /** When the loop last processed a complete sweep in the run, or t if it never did. */
  ghost function LastComplete(f: Facts, s: Loop, steps: seq<Step>, t: int): int
    requires Run(f, s, steps)
    decreases |steps|
  {
    if steps == [] then t
    else
      var now := if steps[0].Process? && Complete(s.result.value) then s.now else t;
      LastComplete(f, Apply(f, s, steps[0]), steps[1..], now)
  }

  lemma {:induction false} OnlyCompleteSweepsRearm(f: Facts, s: Loop, steps: seq<Step>)
    requires Invariant(f, s) && Run(f, s, steps)
    ensures After(f, s, steps).lastDone == LastComplete(f, s, steps, s.lastDone)
    decreases |steps|
  {
    if steps != [] {
      StepKeepsInvariant(f, s, steps[0]);
      OnlyCompleteSweepsRearm(f, Apply(f, s, steps[0]), steps[1..]);
    }
  }

  /**
   In every run the armed deadline is the time of the last complete sweep processed, or of the start, plus the
   grace; it never fires early; and a worker that is about to send always finds the channel empty.
   */
  lemma DeadlineFollowsSuccess(f: Facts, s: Loop, steps: seq<Step>)
    requires Init(f, s) && Run(f, s, steps)
    ensures var e, armed := After(f, s, steps), LastComplete(f, s, steps, s.now) + f.grace;
            && e.deadline == armed
            && (Enabled(f, e, Expire) ==> e.now >= armed)
            && (e.worker.Some? ==> e.result.None?)
  {
    RunKeepsInvariant(f, s, steps);
    OnlyCompleteSweepsRearm(f, s, steps);
  }
}
