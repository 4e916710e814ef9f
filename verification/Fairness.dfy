/**
 Two-stage limiter of internal/admission/fairness.go. `Limiter` is the limiter's value and the
 meaning of each call on it; `AppLimiter` is the object, a map of pacer objects and one shared
 pacer. Which of several equally full buckets is evicted is left open, as map order is.
 */
module Fairness {
  import opened Basics
  import opened Pacers

  datatype AdmitResult = Admitted | PrincipalExhausted | SharedExhausted

  ghost predicate IsFullest(buckets: map<string, Bucket>, v: string) {
    v in buckets && forall k :: k in buckets ==> buckets[k].tokens <= buckets[v].tokens
  }

  datatype Limiter = Limiter(
      shared: Bucket, principalRate: real, principalBurst: real, capacity: nat, buckets: map<string, Bucket>) {

    /** The invariant of every reachable limiter. */
    ghost predicate Valid() {
      BucketsValid() && 1 <= capacity && |buckets| <= capacity
    }

    ghost predicate BucketsValid() {
      && shared.Valid()
      && 0.0 <= principalRate && 0.0 <= principalBurst
      && forall p :: p in buckets ==>
           buckets[p].Valid() && buckets[p].rate == principalRate && buckets[p].burst == principalBurst
    }

    ghost predicate NotAfter(now: real) {
      shared.NotAfter(now) && forall p :: p in buckets ==> buckets[p].NotAfter(now)
    }

    /** Looking up this principal has to evict a bucket first. */
    predicate Evicts(principal: string) {
      principal !in buckets && |buckets| >= capacity
    }

    /** `victim` is a bucket evictFullestLocked may pick, whenever it has to pick one. */
    ghost predicate MayEvict(principal: string, victim: string) {
      Evicts(principal) ==> IsFullest(buckets, victim)
    }

    function Lookup(principal: string, victim: string): Limiter {
      if principal in buckets then this
      else
        var kept := if Evicts(principal) then buckets - {victim} else buckets;
        this.(buckets := kept[principal := Fresh(principalRate, principalBurst)])
    }

    function Admit(principal: string, victim: string, t1: real, t2: real): (Limiter, AdmitResult) {
      var l := Lookup(principal, victim);
      var (p, granted) := l.buckets[principal].Take(t1);
      var charged := l.(buckets := l.buckets[principal := p]);
      if !granted then (charged, PrincipalExhausted)
      else
        var (s, ok) := shared.Take(t2);
        (charged.(shared := s), if ok then Admitted else SharedExhausted)
    }

    predicate PrincipalAvailable(principal: string, now: real) {
      if principal in buckets then buckets[principal].Take(now).1 else principalBurst >= 1.0
    }
  }

  lemma LookupKeepsValid(l: Limiter, principal: string, victim: string)
    requires l.Valid() && l.MayEvict(principal, victim)
    ensures l.Lookup(principal, victim).Valid()
  {
    if principal !in l.buckets {
      var kept := if l.Evicts(principal) then l.buckets - {victim} else l.buckets;
      assert kept.Keys == if l.Evicts(principal) then l.buckets.Keys - {victim} else l.buckets.Keys;
      assert l.Lookup(principal, victim).buckets.Keys == kept.Keys + {principal};
    }
  }

  lemma ChargeKeepsValid(l: Limiter, principal: string, now: real)
    requires l.Valid() && principal in l.buckets
    ensures l.(buckets := l.buckets[principal := l.buckets[principal].Take(now).0]).Valid()
    ensures l.(buckets := l.buckets[principal := l.buckets[principal].Refill(now)]).Valid()
  {
    StaysInRange(l.buckets[principal], now);
    assert l.buckets[principal := l.buckets[principal].Take(now).0].Keys == l.buckets.Keys;
    assert l.buckets[principal := l.buckets[principal].Refill(now)].Keys == l.buckets.Keys;
  }

  /** Every call keeps the limiter valid; in particular the map never exceeds its capacity. */
  lemma AdmitKeepsValid(l: Limiter, principal: string, victim: string, t1: real, t2: real)
    requires l.Valid() && l.MayEvict(principal, victim)
    ensures l.Admit(principal, victim, t1, t2).0.Valid()
  {
    LookupKeepsValid(l, principal, victim);
    ChargeKeepsValid(l.Lookup(principal, victim), principal, t1);
    StaysInRange(l.shared, t2);
  }

  /** Admit, stage by stage. */
  lemma AdmitParts(l: Limiter, p: string, v: string, t1: real, t2: real)
    ensures var lm, (l', r) := l.Lookup(p, v).buckets, l.Admit(p, v, t1, t2);
            var (b, granted) := lm[p].Take(t1);
            && l' == l.(buckets := lm[p := b], shared := if granted then l.shared.Take(t2).0 else l.shared)
            && r == if !granted then PrincipalExhausted else if l.shared.Take(t2).1 then Admitted else SharedExhausted
  {
  }

  /** A non-empty map always has a bucket that may be evicted. */
  lemma {:induction false} FullestExists(buckets: map<string, Bucket>) returns (v: string)
    requires buckets != map[]
    ensures IsFullest(buckets, v)
    decreases |buckets|
  {
    var k :| k in buckets;
    var rest := buckets - {k};
    assert rest.Keys == buckets.Keys - {k};
    v := k;
    if rest != map[] {
      var w := FullestExists(rest);
      v := if buckets[k].tokens > buckets[w].tokens then k else w;
    }
    forall j | j in buckets ensures buckets[j].tokens <= buckets[v].tokens {
      assert j == k || j in rest.Keys;
    }
  }

  /** A bucket that stores strictly fewer tokens than another one survives every call. */
  lemma EmptierBucketSurvives(l: Limiter, principal: string, victim: string, t1: real, t2: real,
                              low: string, high: string)
    requires l.Valid() && l.MayEvict(principal, victim)
    requires low in l.buckets && high in l.buckets && l.buckets[low].tokens < l.buckets[high].tokens
    ensures low in l.Admit(principal, victim, t1, t2).0.buckets
    ensures low != principal ==> l.Admit(principal, victim, t1, t2).0.buckets[low] == l.buckets[low]
  {
  }

  /**
   What an admission costs, in tokens: the principal pays one unless its own level is short, and only then is the
   shared bucket asked, which pays one for an admission; every other bucket is as it was, but for the victim.
   */
  lemma AdmitSpends(l: Limiter, p: string, v: string, t1: real, t2: real)
    requires l.Valid() && l.MayEvict(p, v)
    ensures var (l', r) := l.Admit(p, v, t1, t2);
            var own := if p in l.buckets then l.buckets[p].Level(t1) else l.principalBurst;
            && (r == PrincipalExhausted <==> own < 1.0)
            && (r == Admitted <==> own >= 1.0 && l.shared.Level(t2) >= 1.0)
            && p in l'.buckets && l'.buckets[p].tokens == (if own < 1.0 then own else own - 1.0)
            && (own < 1.0 ==> l'.shared == l.shared)
            && (own >= 1.0 ==> l'.shared.tokens == l.shared.Level(t2) - if r == Admitted then 1.0 else 0.0)
            && (forall q :: q in l.buckets && q != p && !(|l.buckets| >= l.capacity && p !in l.buckets && q == v) ==>
                  q in l'.buckets && l'.buckets[q] == l.buckets[q])
            && (forall q :: q in l'.buckets ==> q == p || q in l.buckets)
  {
    AdmitParts(l, p, v, t1, t2);
  }

  /** Asking first tells the outcome: Admit at an instant is granted iff both advisory checks are. */
  lemma AdmitAgreesWithChecks(l: Limiter, principal: string, victim: string, now: real)
    requires l.Valid() && l.MayEvict(principal, victim)
    ensures l.Admit(principal, victim, now, now).1 == Admitted
            <==> l.PrincipalAvailable(principal, now) && l.shared.Take(now).1
    ensures l.Admit(principal, victim, now, now).1 == PrincipalExhausted <==> !l.PrincipalAvailable(principal, now)
  {
    AdmitKeepsValid(l, principal, victim, now, now);
  }

  // ------------------------------------------------------------- the object

  class AppLimiter {
    const shared: Pacer
    const principalRate: real
    const principalBurst: real
    const capacity: nat
    var buckets: map<string, Pacer>

    ghost function View(): Limiter
      reads this, shared, buckets.Values
    {
      Limiter(shared.View(), principalRate, principalBurst, capacity, map p | p in buckets :: buckets[p].View())
    }

    /** The pacers are distinct objects, and their values form a valid limiter. */
    ghost predicate Valid()
      reads this, shared, buckets.Values
    {
      Distinct() && View().Valid()
    }

    /** The source panics unless 1 <= divisor <= lruCapacity. */
    constructor (rate: real, burst: real, divisor: int, principalBurst: real, lruCapacity: int)
      requires 0.0 <= rate && 0.0 <= burst && 0.0 <= principalBurst
      requires 1 <= divisor <= lruCapacity
      ensures Valid() && fresh(shared)
      ensures View() == Limiter(Fresh(rate, burst), rate / divisor as real, principalBurst, lruCapacity, map[])
    {
      this.shared := new Pacer(rate, burst);
      this.principalRate := rate / divisor as real;
      this.principalBurst := principalBurst;
      this.capacity := lruCapacity;
      this.buckets := map[];
      new;
      assert 0.0 <= rate / divisor as real;
      assert View().buckets == map[];
    }

    /** Drops a bucket that stores at least as many tokens as every other one. */
    method EvictFullestLocked() returns (ghost victim: string)
      requires Valid() && buckets != map[]
      modifies this
      ensures IsFullest(old(View()).buckets, victim)
      ensures buckets == old(buckets) - {victim}
      ensures Valid() && View() == old(View()).(buckets := old(View()).buckets - {victim})
    {
      ghost var before := View();
      assert before.buckets.Keys == buckets.Keys;
      var most, found, chosen := -1.0, false, "";
      var left := buckets.Keys;
      while left != {}
        invariant left <= buckets.Keys
        invariant !found ==> left == buckets.Keys && most == -1.0
        invariant found ==> chosen in buckets && most == before.buckets[chosen].tokens
        invariant forall k :: k in buckets && k !in left ==> found && before.buckets[k].tokens <= most
        decreases left
      {
        var key :| key in left;
        assert before.buckets[key].Valid();
        var tokens := buckets[key].tokens;
        if tokens > most {
          most, chosen, found := tokens, key, true;
        }
        left := left - {key};
      }
      victim := chosen;
      buckets := buckets - {chosen};
      assert View().buckets == before.buckets - {victim};
      assert View().buckets.Keys == before.buckets.Keys - {victim};
    }

    method PrincipalPacerLocked(principal: string) returns (p: Pacer, ghost victim: string)
      requires Valid()
      modifies this
      ensures Valid() && principal in buckets && buckets[principal] == p
      ensures old(View()).MayEvict(principal, victim)
      ensures View() == old(View()).Lookup(principal, victim)
      ensures forall q :: q in buckets.Values ==> q in old(buckets.Values) || fresh(q)
    {
      victim := "";
      ghost var before := View();
      assert before.buckets.Keys == buckets.Keys;
      if principal in buckets {
        return buckets[principal], victim;
      }
      if |buckets| >= capacity {
        assert buckets != map[];
        victim := EvictFullestLocked();
      }
      LookupKeepsValid(before, principal, victim);
      p := AddFresh(principal);
      hide Limiter.Valid;
    }

    ghost predicate Distinct()
      reads this
    {
      shared !in buckets.Values && forall p, q :: p in buckets && q in buckets && p != q ==> buckets[p] != buckets[q]
    }

    method AddFresh(principal: string) returns (p: Pacer)
      requires Distinct() && principal !in buckets && 0.0 <= principalRate && 0.0 <= principalBurst
      modifies this
      ensures Distinct() && fresh(p) && buckets == old(buckets)[principal := p]
      ensures View() == old(View()).(buckets := old(View()).buckets[principal := Fresh(principalRate, principalBurst)])
    {
      ghost var before := View();
      p := new Pacer(principalRate, principalBurst);
      buckets := buckets[principal := p];
      assert View().buckets == before.buckets[principal := p.View()];
    }

    method Charge(principal: string, p: Pacer, now: real) returns (ok: bool)
      requires Valid() && principal in buckets && buckets[principal] == p
      modifies p
      ensures Valid()
      ensures var (b, granted) := old(View()).buckets[principal].Take(now);
              ok == granted && View() == old(View()).(buckets := old(View()).buckets[principal := b])
    {
      ghost var before := View();
      assert before.buckets[principal] == p.View();
      ok := p.TryTake(now);
      assert View().buckets == before.buckets[principal := p.View()];
      ChargeKeepsValid(before, principal, now);
    }

    /** Two-stage admission: the object moves exactly as the limiter's value does. */
    method Admit(principal: string, t1: real, t2: real) returns (r: AdmitResult, ghost victim: string)
      requires Valid()
      modifies this, shared, buckets.Values
      ensures Valid()
      ensures old(View()).MayEvict(principal, victim)
      ensures (View(), r) == old(View()).Admit(principal, victim, t1, t2)
    {
      var p;
      p, victim := PrincipalPacerLocked(principal);
      var granted := Charge(principal, p, t1);
      if !granted {
        return PrincipalExhausted, victim;
      }
      var ok := TrySharedOnly(t2);
      r := if ok then Admitted else SharedExhausted;
    }

    /** The park-retry step: only the shared bucket moves. */
    method TrySharedOnly(now: real) returns (ok: bool)
      requires Valid()
      modifies shared
      ensures Valid()
      ensures View() == old(View()).(shared := shared.View())
      ensures (shared.View(), ok) == old(View()).shared.Take(now)
    {
      ghost var before := View();
      ok := shared.TryTake(now);
      assert View().buckets == before.buckets;
    }

    method SharedAvailable(now: real) returns (ok: bool)
      requires Valid()
      modifies shared
      ensures Valid()
      ensures View() == old(View()).(shared := old(View()).shared.Refill(now))
      ensures ok == old(View()).shared.Take(now).1
    {
      ghost var before := View();
      ok := shared.IsAvailable(now);
      assert View().buckets == before.buckets;
    }

    /** Never creates or evicts a bucket; an absent bucket counts as a fresh one. */
    method PrincipalAvailable(principal: string, now: real) returns (ok: bool)
      requires Valid()
      modifies buckets.Values
      ensures Valid() && buckets == old(buckets)
      ensures ok == old(View()).PrincipalAvailable(principal, now)
      ensures var before := old(View());
              View() == if principal !in buckets then before
                        else before.(buckets := before.buckets[principal := before.buckets[principal].Refill(now)])
    {
      ghost var before := View();
      if principal in buckets {
        var p := buckets[principal];
        assert before.buckets[principal] == p.View();
        ok := p.IsAvailable(now);
        assert View().buckets == before.buckets[principal := p.View()];
        assert View().buckets.Keys == before.buckets.Keys;
      } else {
        ok := principalBurst >= 1.0;
      }
    }
  }
}
