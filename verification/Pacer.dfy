/**
 Token bucket of internal/admission/pacer.go, over exact reals. `Bucket` is the value of a
 pacer; `Pacer` is the object whose methods change it. The clock is a parameter of every
 call, as it is an injected function in the source. `last` is None until the first call
 reads the clock.
 */
module Pacers {
  import opened Basics

  /** Tokens earned over a stretch of time. Proofs hide the product and use the laws below it. */
  function Earn(elapsed: real, rate: real): real {
    elapsed * rate
  }

  lemma EarnSplits(from: real, mid: real, to: real, rate: real)
    ensures Earn(to - from, rate) == Earn(mid - from, rate) + Earn(to - mid, rate)
  {
  }

  lemma EarnNonNegative(elapsed: real, rate: real)
    requires 0.0 <= elapsed && 0.0 <= rate
    ensures 0.0 <= Earn(elapsed, rate)
  {
  }

  lemma EarnNothing(rate: real)
    ensures Earn(0.0, rate) == 0.0
  {
  }

  datatype Bucket = Bucket(tokens: real, rate: real, burst: real, last: Option<real>) {

    ghost predicate Valid() {
      && 0.0 <= rate
      && 0.0 <= tokens <= burst
      && (last.None? ==> tokens == burst)
    }

    /** Every clock reading so far was at most `now`. */
    predicate NotAfter(now: real) {
      last.Some? ==> last.value <= now
    }

    function Refill(now: real): Bucket {
      if last.None? then
        this.(last := Some(now))
      else if now > last.value then
        this.(tokens := MinReal(burst, tokens + Earn(now - last.value, rate)), last := Some(now))
      else
        this
    }

    /** Tokens the bucket would show at `now`. */
    function Level(now: real): real {
      Refill(now).tokens
    }

    function Take(now: real): (Bucket, bool) {
      var b := Refill(now);
      if b.tokens >= 1.0 then (b.(tokens := b.tokens - 1.0), true) else (b, false)
    }
  }

  function Fresh(rate: real, burst: real): Bucket {
    Bucket(burst, rate, burst, None)
  }

  // ---------------------------------------------------------------- one call

  /** Every call keeps the count within [0, burst] and never moves the clock backwards. */
  lemma StaysInRange(b: Bucket, now: real)
    requires b.Valid()
    ensures b.Refill(now).Valid() && b.Take(now).0.Valid()
    ensures 0.0 <= b.Refill(now).tokens <= b.burst && 0.0 <= b.Take(now).0.tokens <= b.burst
    ensures b.Refill(now).last.Some? && b.Take(now).0.last == b.Refill(now).last
    ensures b.last.Some? ==> b.Refill(now).last.value == if now > b.last.value then now else b.last.value
  {
    hide Earn;
    if b.last.Some? && now > b.last.value {
      EarnNonNegative(now - b.last.value, b.rate);
    }
  }

  /** Refilling at t1 and then at t2 is refilling at t2: an intermediate refill is invisible. */
  lemma RefillComposes(b: Bucket, t1: real, t2: real)
    requires b.Valid() && b.NotAfter(t1) && t1 <= t2
    ensures b.Refill(t1).Refill(t2) == b.Refill(t2)
  {
    hide Earn;
    EarnNonNegative(t2 - t1, b.rate);
    if b.last.Some? {
      EarnSplits(b.last.value, t1, t2, b.rate);
      EarnNonNegative(t1 - b.last.value, b.rate);
    }
  }

  lemma LevelGrows(b: Bucket, t1: real, t2: real)
    requires b.Valid() && b.NotAfter(t1) && t1 <= t2
    ensures b.Level(t1) <= b.Level(t2) <= b.Level(t1) + Earn(t2 - t1, b.rate)
    ensures b.Level(t2) <= b.burst
  {
    hide Earn;
    RefillComposes(b, t1, t2);
    StaysInRange(b, t1);
    StaysInRange(b.Refill(t1), t2);
    EarnNonNegative(t2 - t1, b.rate);
  }

  /** The level after a take, at any later time, in terms of the level before it. */
  lemma LevelAfterTake(b: Bucket, t1: real, t2: real)
    requires b.Valid() && b.NotAfter(t1) && t1 <= t2
    ensures var (b', ok) := b.Take(t1);
            && b'.Valid() && b'.NotAfter(t1) && b'.rate == b.rate && b'.burst == b.burst
            && (ok <==> b.Level(t1) >= 1.0)
            && b'.Level(t2) == MinReal(b.burst, b.Level(t1) - (if ok then 1.0 else 0.0) + Earn(t2 - t1, b.rate))
  {
    hide Earn;
    StaysInRange(b, t1);
    EarnNothing(b.rate);
  }

  // -------------------------------------------------- runs of one bucket

  /** One call on the pacer: TryTake, or the advisory Available. */
  datatype Call = TryTake(at: real) | Available(at: real)

  ghost predicate Nondecreasing(from: real, calls: seq<Call>)
    decreases calls
  {
    calls != [] ==> from <= calls[0].at && Nondecreasing(calls[0].at, calls[1..])
  }

  function After(b: Bucket, call: Call): Bucket {
    match call
    case TryTake(t) => b.Take(t).0
    case Available(t) => b.Refill(t)
  }

  function FinalBucket(b: Bucket, calls: seq<Call>): Bucket
    decreases calls
  {
    if calls == [] then b else FinalBucket(After(b, calls[0]), calls[1..])
  }

  /** Results of the TryTake calls of a run, in order. */
  function TakeResults(b: Bucket, calls: seq<Call>): seq<bool>
    decreases calls
  {
    if calls == [] then []
    else
      var rest := TakeResults(After(b, calls[0]), calls[1..]);
      if calls[0].TryTake? then [b.Take(calls[0].at).1] + rest else rest
  }

  function TakesOnly(calls: seq<Call>): seq<Call>
    decreases calls
  {
    if calls == [] then []
    else if calls[0].TryTake? then [calls[0]] + TakesOnly(calls[1..])
    else TakesOnly(calls[1..])
  }

  /** Two buckets no caller can tell apart from time `now` on. */
  ghost predicate Indistinguishable(b: Bucket, c: Bucket, now: real) {
    forall t :: now <= t ==> b.Refill(t) == c.Refill(t)
  }

  lemma {:induction false} IndistinguishableRuns(b: Bucket, c: Bucket, now: real, calls: seq<Call>)
    requires b.Valid() && c.Valid() && b.NotAfter(now) && c.NotAfter(now)
    requires Indistinguishable(b, c, now) && Nondecreasing(now, calls)
    ensures TakeResults(b, calls) == TakeResults(c, TakesOnly(calls))
    decreases calls
  {
    if calls != [] {
      var t, rest := calls[0].at, calls[1..];
      var b' := After(b, calls[0]);
      StaysInRange(b, t);
      assert b.Refill(t) == c.Refill(t);
      match calls[0] {
        case TryTake(_) =>
          assert TakesOnly(calls)[1..] == TakesOnly(rest);
          IndistinguishableRuns(b', b', t, rest);
        case Available(_) =>
          forall u | t <= u ensures b'.Refill(u) == c.Refill(u) {
            RefillComposes(b, t, u);
          }
          IndistinguishableRuns(b', c, t, rest);
      }
    }
  }

  /** Available calls, inserted anywhere into a run, change no TryTake result. */
  lemma AvailableIsInvisible(b: Bucket, now: real, calls: seq<Call>)
    requires b.Valid() && b.NotAfter(now) && Nondecreasing(now, calls)
    ensures TakeResults(b, calls) == TakeResults(b, TakesOnly(calls))
  {
    IndistinguishableRuns(b, b, now, calls);
  }

  // ------------------------------- the lazy bucket as an exact window limiter

  /** Times at which a run of TryTake calls was granted a token. */
  function GrantTimes(b: Bucket, takes: seq<real>): seq<real>
    decreases |takes|
  {
    if takes == [] then []
    else
      var n := |takes| - 1;
      var earlier := GrantTimes(b, takes[..n]);
      if AfterTakes(b, takes[..n]).Take(takes[n]).1 then earlier + [takes[n]] else earlier
  }

  function AfterTakes(b: Bucket, takes: seq<real>): Bucket
    decreases |takes|
  {
    if takes == [] then b
    else AfterTakes(b, takes[..|takes| - 1]).Take(takes[|takes| - 1]).0
  }

  ghost predicate Sorted(takes: seq<real>) {
    forall i, j :: 0 <= i < j < |takes| ==> takes[i] <= takes[j]
  }

  /**
   `x` more tokens at time t fit the allowance: every window that starts at an earlier grant and
   ends at t, with the x tokens added, stays within burst + rate * length.
   */
  ghost predicate Fits(rate: real, burst: real, grants: seq<real>, t: real, x: real) {
    && x <= burst
    && forall j :: 0 <= j < |grants| ==> x + (|grants| - j) as real <= burst + Earn(t - grants[j], rate)
  }

  lemma {:induction false} TakesStayInRange(rate: real, burst: real, takes: seq<real>, t: real)
    requires 0.0 <= rate && 0.0 <= burst && Sorted(takes)
    requires forall i :: 0 <= i < |takes| ==> takes[i] <= t
    ensures var b := AfterTakes(Fresh(rate, burst), takes);
            b.Valid() && b.NotAfter(t) && b.rate == rate && b.burst == burst
    decreases |takes|
  {
    hide Earn;
    if takes != [] {
      var n := |takes| - 1;
      TakesStayInRange(rate, burst, takes[..n], takes[n]);
      StaysInRange(AfterTakes(Fresh(rate, burst), takes[..n]), takes[n]);
    }
  }

  /** The lazily refilled level is the largest amount that fits every window. */
  lemma {:induction false} LevelIsWindowAllowance(rate: real, burst: real, takes: seq<real>, t: real, x: real)
    requires 0.0 <= rate && 0.0 <= burst && Sorted(takes)
    requires forall i :: 0 <= i < |takes| ==> takes[i] <= t
    ensures AfterTakes(Fresh(rate, burst), takes).Level(t) >= x
            <==> Fits(rate, burst, GrantTimes(Fresh(rate, burst), takes), t, x)
    decreases |takes|
  {
    hide Earn;
    if takes != [] {
      var n := |takes| - 1;
      var init, g := takes[..n], takes[n];
      var b, earlier := AfterTakes(Fresh(rate, burst), init), GrantTimes(Fresh(rate, burst), init);
      TakesStayInRange(rate, burst, init, g);
      LevelAfterTake(b, g, t);
      if b.Take(g).1 {
        LevelIsWindowAllowance(rate, burst, init, g, x + 1.0 - Earn(t - g, rate));
        EarnNonNegative(t - g, rate);
        WindowsExtend(rate, burst, earlier, g, t, x);
      } else {
        LevelIsWindowAllowance(rate, burst, init, t, x);
        RefillComposes(b, g, t);
      }
    }
  }

  /** Moving the end of the windows from g to t, one grant later, shifts what fits by the tokens earned. */
  lemma WindowsExtend(rate: real, burst: real, earlier: seq<real>, g: real, t: real, x: real)
    requires 0.0 <= Earn(t - g, rate)
    ensures Fits(rate, burst, earlier + [g], t, x)
            <==> x <= burst && Fits(rate, burst, earlier, g, x + 1.0 - Earn(t - g, rate))
  {
    hide Earn;
    var grants, n := earlier + [g], |earlier|;
    forall j | 0 <= j < n
      ensures x + (n + 1 - j) as real <= burst + Earn(t - grants[j], rate)
              <==> x + 1.0 - Earn(t - g, rate) + (n - j) as real <= burst + Earn(g - earlier[j], rate)
    {
      EarnSplits(earlier[j], g, t, rate);
      assert (n + 1 - j) as real == (n - j) as real + 1.0;
    }
    if Fits(rate, burst, grants, t, x) {
      assert x + (n + 1 - n) as real <= burst + Earn(t - grants[n], rate);
    }
  }

  /**
   The pacer grants exactly the takes it may: TryTake at t succeeds if and only if, counting it, no
   window ending at t holds more than burst + rate * length grants.
   */
  lemma GrantsExactlyWhenWindowsAllow(rate: real, burst: real, takes: seq<real>, t: real)
    requires 0.0 <= rate && 0.0 <= burst && Sorted(takes)
    requires forall i :: 0 <= i < |takes| ==> takes[i] <= t
    ensures AfterTakes(Fresh(rate, burst), takes).Take(t).1
            <==> Fits(rate, burst, GrantTimes(Fresh(rate, burst), takes), t, 1.0)
  {
    hide Earn;
    LevelIsWindowAllowance(rate, burst, takes, t, 1.0);
  }

  ghost predicate WindowsBounded(rate: real, burst: real, grants: seq<real>) {
    forall i, k :: 0 <= i <= k < |grants| ==> (k - i + 1) as real <= burst + Earn(grants[k] - grants[i], rate)
  }

  /** No window between two grants holds more than burst + rate * length of them. */
  lemma {:induction false} WindowBound(rate: real, burst: real, takes: seq<real>)
    requires 0.0 <= rate && 0.0 <= burst && Sorted(takes)
    ensures WindowsBounded(rate, burst, GrantTimes(Fresh(rate, burst), takes))
    decreases |takes|
  {
    hide Earn;
    if takes != [] {
      var n := |takes| - 1;
      WindowBound(rate, burst, takes[..n]);
      GrantsExactlyWhenWindowsAllow(rate, burst, takes[..n], takes[n]);
      var earlier := GrantTimes(Fresh(rate, burst), takes[..n]);
      if Fits(rate, burst, earlier, takes[n], 1.0) {
        OneMoreGrant(rate, burst, earlier, takes[n]);
      }
    }
  }

  lemma OneMoreGrant(rate: real, burst: real, earlier: seq<real>, g: real)
    requires WindowsBounded(rate, burst, earlier) && Fits(rate, burst, earlier, g, 1.0)
    ensures WindowsBounded(rate, burst, earlier + [g])
  {
    hide Earn;
    EarnNothing(rate);
    var grants, m := earlier + [g], |earlier|;
    forall i, k | 0 <= i <= k < |grants|
      ensures (k - i + 1) as real <= burst + Earn(grants[k] - grants[i], rate)
    {
      if i < k == m {
        assert 1.0 + (m - i) as real <= burst + Earn(g - earlier[i], rate);
      } else if k < m {
        assert (k - i + 1) as real <= burst + Earn(earlier[k] - earlier[i], rate);
      }
    }
  }

  // ------------------------------------------------------------- the object

  class Pacer {
    var tokens: real
    const rate: real
    const burst: real
    var last: Option<real>

    ghost function View(): Bucket
      reads this
    {
      Bucket(tokens, rate, burst, last)
    }

    ghost predicate Valid()
      reads this
    {
      View().Valid()
    }

    constructor (rate: real, burst: real)
      requires 0.0 <= rate && 0.0 <= burst
      ensures View() == Fresh(rate, burst) && Valid()
    {
      this.tokens, this.rate, this.burst, this.last := burst, rate, burst, None;
    }

    method RefillLocked(now: real)
      modifies this
      ensures View() == old(View()).Refill(now)
    {
      if last.None? {
        last := Some(now);
        return;
      }
      var elapsed := now - last.value;
      if elapsed > 0.0 {
        tokens := tokens + elapsed * rate;
        if tokens > burst {
          tokens := burst;
        }
        last := Some(now);
      }
    }

    /** Takes one token or nothing, and keeps the count in [0, burst]. */
    method TryTake(now: real) returns (ok: bool)
      requires Valid()
      modifies this
      ensures Valid()
      ensures (View(), ok) == old(View()).Take(now)
    {
      StaysInRange(View(), now);
      RefillLocked(now);
      if tokens >= 1.0 {
        tokens := tokens - 1.0;
        return true;
      }
      return false;
    }

    /** Answers what TryTake at the same instant would, and spends nothing. */
    method IsAvailable(now: real) returns (ok: bool)
      requires Valid()
      modifies this
      ensures Valid() && View() == old(View()).Refill(now)
      ensures ok == old(View()).Take(now).1
    {
      StaysInRange(View(), now);
      RefillLocked(now);
      return tokens >= 1.0;
    }
  }
}
