/**
 runRetiringParentCleanup of cmd/shinyhub/retiring_parent.go: once the parent process is gone, every recovered
 app is cleaned up under its own lock, retrying for as long as it takes, and only then is the lifecycle fence
 released. The script answers each attempt; when it runs out, the context has been cancelled.
 */
module RetiringParent {

  type App = string

  /** The answers of one attempt at one app, with the two points where cancellation is noticed. */
  datatype Attempt = Attempt(cancelledBefore: bool, acquires: bool, cleans: bool, cancelledAfter: bool)

  datatype Event = ParentExited | Locked(app: App) | Cleaned(app: App, ok: bool) | Unlocked(app: App) | FenceReleased

  /** Which app lock is held after a log; Broken once a lock is taken or given back out of turn. */
  datatype Holding = Nothing | Holding(app: App) | Broken

  function HeldAfter(log: seq<Event>): Holding
    decreases |log|
  {
    if log == [] then Nothing
    else
      var before := HeldAfter(log[..|log| - 1]);
      match log[|log| - 1]
      case Locked(a) => if before == Nothing then Holding(a) else Broken
      case Cleaned(a, _) => if before == Holding(a) then before else Broken
      case Unlocked(a) => if before == Holding(a) then Nothing else Broken
      case FenceReleased => if before == Nothing then Nothing else Broken
      case ParentExited => before
  }

  /** The apps cleaned up successfully, in order. */
  function Succeeded(log: seq<Event>): seq<App>
    decreases |log|
  {
    if log == [] then []
    else
      var e := log[|log| - 1];
      Succeeded(log[..|log| - 1]) + if e.Cleaned? && e.ok then [e.app] else []
  }

  lemma Append(log: seq<Event>, e: Event)
    ensures HeldAfter(log + [e]) ==
            match e
            case Locked(a) => if HeldAfter(log) == Nothing then Holding(a) else Broken
            case Cleaned(a, _) => if HeldAfter(log) == Holding(a) then HeldAfter(log) else Broken
            case Unlocked(a) => if HeldAfter(log) == Holding(a) then Nothing else Broken
            case FenceReleased => if HeldAfter(log) == Nothing then Nothing else Broken
            case ParentExited => HeldAfter(log)
    ensures Succeeded(log + [e]) == Succeeded(log) + if e.Cleaned? && e.ok then [e.app] else []
  {
    assert (log + [e])[..|log + [e]| - 1] == log;
  }

  /** Once out of turn, always out of turn: a log that ends in order was in order all along. */
  lemma {:induction false} PrefixInOrder(log: seq<Event>, n: nat)
    requires n <= |log| && HeldAfter(log) != Broken
    ensures HeldAfter(log[..n]) != Broken
    decreases |log|
  {
    if n == |log| {
      assert log[..n] == log;
    } else {
      PrefixInOrder(log[..|log| - 1], n);
      assert log[..|log| - 1][..n] == log[..n];
    }
  }

  /** In a log that ends with nothing held, every lock is given back, and before the next one is taken. */
  lemma {:induction false} LocksAreGivenBack(log: seq<Event>, i: nat, j: nat)
    requires HeldAfter(log) == Nothing && i < j <= |log| && log[i].Locked? && (j < |log| ==> log[j].Locked?)
    ensures exists k :: i < k < j && log[k] == Unlocked(log[i].app)
  {
    var a := log[i].app;
    assert log[..|log|] == log;
    PrefixInOrder(log, i + 1);
    PrefixInOrder(log, j);
    assert log[..i + 1][..i] == log[..i] && log[..i + 1][i] == log[i];
    assert HeldAfter(log[..i + 1]) == Holding(a);
    if j < |log| {
      PrefixInOrder(log, j + 1);
      assert log[..j + 1][..j] == log[..j] && log[..j + 1][j] == log[j];
    }
    assert HeldAfter(log[..j]) == Nothing;
    forall k | 0 <= k <= j ensures HeldAfter(log[..k]) != Broken {
      PrefixInOrder(log, k);
    }
    GivenBackBetween(log, a, i + 1, j);
  }

  lemma {:induction false} GivenBackBetween(log: seq<Event>, a: App, first: nat, end: nat)
    requires first <= end <= |log| && HeldAfter(log[..first]) == Holding(a) && HeldAfter(log[..end]) == Nothing
    requires forall k :: 0 <= k <= end ==> HeldAfter(log[..k]) != Broken
    ensures exists k :: first <= k < end && log[k] == Unlocked(a)
    decreases end - first
  {
    assert first < end;
    assert log[..first + 1][..first] == log[..first] && log[..first + 1][first] == log[first];
    if log[first] != Unlocked(a) {
      GivenBackBetween(log, a, first + 1, end);
    }
  }

  /** The apps that count as cleaned up are those with a successful cleanup in the log. */
  lemma {:induction false} SucceededMeans(log: seq<Event>, a: App)
    ensures a in Succeeded(log) <==> Cleaned(a, true) in log
    decreases |log|
  {
    if log != [] {
      var rest, e := log[..|log| - 1], log[|log| - 1];
      SucceededMeans(rest, a);
      assert log == rest + [e];
    }
  }

  /** Whether n apps get cleaned up before the script notices a cancellation or runs out. */
  predicate Finishes(n: nat, script: seq<Attempt>)
    decreases |script|
  {
    n == 0 ||
    (script != [] && !script[0].cancelledBefore &&
     if script[0].acquires && script[0].cleans then Finishes(n - 1, script[1..])
     else !script[0].cancelledAfter && Finishes(n, script[1..]))
  }

  function Successes(script: seq<Attempt>): nat
    decreases |script|
  {
    if script == [] then 0 else (if script[0].acquires && script[0].cleans then 1 else 0) + Successes(script[1..])
  }

  /** Failed locks and failed cleanups never lose an app: without a cancellation, n successes clean n apps. */
  lemma {:induction false} FinishesExactlyOnSuccesses(n: nat, script: seq<Attempt>)
    requires forall i :: 0 <= i < |script| ==> !script[i].cancelledBefore && !script[i].cancelledAfter
    ensures Finishes(n, script) <==> Successes(script) >= n
    decreases |script|
  {
    if n > 0 && script != [] {
      FinishesExactlyOnSuccesses(if script[0].acquires && script[0].cleans then n - 1 else n, script[1..]);
    }
  }

  /**
   Exactly when the pass gets through n apps: in some first attempts n succeed, none of them began under a
   cancellation, and none that failed ended under one.
   */
  lemma {:induction false} FinishesMeans(n: nat, script: seq<Attempt>)
    ensures Finishes(n, script) <==>
              exists m :: 0 <= m <= |script| && Successes(script[..m]) == n && Undisturbed(script[..m])
    decreases |script|
  {
    if n == 0 {
      assert Successes(script[..0]) == 0 && Undisturbed(script[..0]);
    } else if script != [] {
      var a, rest := script[0], script[1..];
      var left := if a.acquires && a.cleans then n - 1 else n;
      FinishesMeans(left, rest);
      forall m | 0 <= m <= |rest| ensures script[..m + 1][0] == a && script[..m + 1][1..] == rest[..m] {
      }
      if Finishes(n, script) {
        var m :| 0 <= m <= |rest| && Successes(rest[..m]) == left && Undisturbed(rest[..m]);
        assert Successes(script[..m + 1]) == n && Undisturbed(script[..m + 1]);
      }
      if m :| 0 <= m <= |script| && Successes(script[..m]) == n && Undisturbed(script[..m]) {
        assert script[..m][0] == a && script[..m][1..] == rest[..m - 1];
        UndisturbedTail(script[..m]);
      }
    }
  }

  /** No attempt begins under a cancellation, and no failed one ends under one. */
  predicate Undisturbed(script: seq<Attempt>) {
    forall i :: 0 <= i < |script| ==>
      !script[i].cancelledBefore && ((script[i].acquires && script[i].cleans) || !script[i].cancelledAfter)
  }

  lemma UndisturbedTail(script: seq<Attempt>)
    requires script != [] && Undisturbed(script)
    ensures Undisturbed(script[1..])
  {
  }

  /** One attempt: the lock is back before anything else happens, whether the cleanup worked or not. */
  method TryApp(app: App, a: Attempt, log: seq<Event>) returns (cleaned: bool, log': seq<Event>)
    requires HeldAfter(log) == Nothing
    ensures log <= log' && HeldAfter(log') == Nothing && FenceReleased !in log'[|log|..]
    ensures cleaned <==> a.acquires && a.cleans
    ensures Succeeded(log') == Succeeded(log) + if cleaned then [app] else []
  {
    if !a.acquires {
      return false, log;
    }
    Append(log, Locked(app));
    Append(log + [Locked(app)], Cleaned(app, a.cleans));
    Append(log + [Locked(app)] + [Cleaned(app, a.cleans)], Unlocked(app));
    cleaned, log' := a.cleans, log + [Locked(app)] + [Cleaned(app, a.cleans)] + [Unlocked(app)];
  }

  /**
   The whole pass. The fence is released at most once and last of all, after the parent's exit and after a
   successful cleanup of every listed app; every app lock is back before the next one is taken.
   */
  method RunRetiringParentCleanup(apps: seq<App>, parentExits: bool, script: seq<Attempt>, cancelledAtEnd: bool)
      returns (log: seq<Event>, released: bool)
    ensures HeldAfter(log) == Nothing
    ensures released <==> parentExits && Finishes(|apps|, script) && !cancelledAtEnd
    ensures if released then log != [] && log[|log| - 1] == FenceReleased && FenceReleased !in log[..|log| - 1]
            else FenceReleased !in log
    ensures released ==> log[0] == ParentExited && Succeeded(log) == apps
    ensures !parentExits ==> log == []
    ensures Succeeded(log) <= apps
  {
    log, released := [], false;
    if !parentExits {
      return;
    }
    Append([], ParentExited);
    log := [ParentExited];
    assert [] + [ParentExited] == log;
    var done, turn := 0, 0;
    assert script[turn..] == script;
    while done < |apps|
      invariant 0 <= done <= |apps| && 0 <= turn <= |script|
      invariant Finishes(|apps|, script) <==> Finishes(|apps| - done, script[turn..])
      invariant log != [] && log[0] == ParentExited && HeldAfter(log) == Nothing && FenceReleased !in log
      invariant Succeeded(log) == apps[..done]
      decreases |script| - turn, |apps| - done
    {
      if turn == |script| || script[turn].cancelledBefore {
        return;
      }
      assert script[turn..][1..] == script[turn + 1..];
      var a := script[turn];
      var before := log;
      var cleaned;
      cleaned, log := TryApp(apps[done], a, log);
      assert log == before + log[|before|..];
      turn := turn + 1;
      if cleaned {
        assert apps[..done + 1] == apps[..done] + [apps[done]];
        done := done + 1;
      } else if a.cancelledAfter {
        return;
      }
    }
    assert apps[..done] == apps;
    if !cancelledAtEnd {
      Append(log, FenceReleased);
      var before := log;
      log, released := log + [FenceReleased], true;
      assert log[..|log| - 1] == before;
    }
  }
}
