/**
 The public announcement feed of internal/api/announcements.go and the query behind it in
 internal/db/announcements.go: the cached answer is proved to be the answer of a fresh query. Times are
 nanoseconds; stored times are whole milliseconds.
 */
module Announcements {
  import opened Basics

  datatype Publication = Draft | Published | Disabled | Archived

  datatype Status = Unpublished(publication: Publication) | Expired | Scheduled | Active

  const MILLI := 1_000_000
  const WINDOW := 5_000_000_000
  /** The zero time.Time, in nanoseconds before 1970. */
  const ZERO_TIME := -62135596800_000_000_000

  predicate WholeMillis(t: Option<int>) {
    t.Some? ==> t.value % MILLI == 0
  }

  datatype Announcement = Announcement(id: string, publication: Publication, startsAt: Option<int>, endsAt: Option<int>)
  {
    /** Status is decided end first: an announcement that has ended is expired even if it never started. */
    function At(now: int): Status {
      if publication != Published then Unpublished(publication)
      else if endsAt.Some? && now >= endsAt.value then Expired
      else if startsAt.Some? && now < startsAt.value then Scheduled
      else Active
    }

    /** What the time columns can hold, and what Validate demands of them. */
    predicate Storable() {
      && WholeMillis(startsAt) && WholeMillis(endsAt)
      && (startsAt.Some? && endsAt.Some? ==> startsAt.value < endsAt.value)
    }
  }

  /** The rows in the order the query sorts them, which does not depend on the clock. */
  type Table = seq<Announcement>

  ghost predicate Stored(table: Table) {
    forall a :: a in table ==> a.Storable()
  }

  datatype Snapshot = Snapshot(announcements: seq<Announcement>, nextTransition: Option<int>)

  datatype Response = Response(announcements: seq<Announcement>, serverTime: int, nextTransition: Option<int>)

  /** The announcements a reader should see at a time, straight from the rows. */
  function Feed(rows: seq<Announcement>, now: int): seq<Announcement> {
    if rows == [] then []
    else Feed(rows[..|rows| - 1], now) +
         if rows[|rows| - 1].At(now) == Active then [rows[|rows| - 1]] else []
  }

  /** The feed shows exactly the rows that are published, started and not ended. */
  lemma {:induction false} FeedShowsExactly(table: Table, now: int, a: Announcement)
    ensures a in Feed(table, now) <==>
              && a in table && a.publication == Published
              && (a.startsAt.Some? ==> a.startsAt.value <= now) && (a.endsAt.Some? ==> now < a.endsAt.value)
    decreases |table|
  {
    if table != [] {
      var rest, last := table[..|table| - 1], table[|table| - 1];
      FeedShowsExactly(rest, now, a);
      assert table == rest + [last];
    }
  }

  /** And shows them in the order of the rows, each as often as it occurs. */
  lemma {:induction false} FeedKeepsOrder(first: Table, second: Table, now: int)
    ensures Feed(first + second, now) == Feed(first, now) + Feed(second, now)
    ensures |Feed(first, now)| <= |first|
    decreases |second|
  {
    if second == [] {
      assert first + second == first;
      FeedIsNoLonger(first, now);
    } else {
      var rest, last := second[..|second| - 1], second[|second| - 1];
      FeedKeepsOrder(first, rest, now);
      assert (first + second)[..|first + second| - 1] == first + rest;
    }
  }

  lemma {:induction false} FeedIsNoLonger(rows: Table, now: int)
    ensures |Feed(rows, now)| <= |rows|
    decreases |rows|
  {
    if rows != [] {
      FeedIsNoLonger(rows[..|rows| - 1], now);
    }
  }

  predicate Boundary(a: Announcement, t: int) {
    a.publication == Published && (a.startsAt == Some(t) || a.endsAt == Some(t))
  }

  /** next is the first start or end of a published row after now, if there is one. */
  ghost predicate IsNextTransition(table: Table, now: int, next: Option<int>) {
    && (next.Some? ==> next.value > now && exists a :: a in table && Boundary(a, next.value))
    && (forall a, t :: a in table && Boundary(a, t) && t > now ==> next.Some? && next.value <= t)
  }

  /** What a query at a time must return. */
  ghost predicate IsQuery(table: Table, now: int, snap: Snapshot) {
    snap.announcements == Feed(table, now) && IsNextTransition(table, now, snap.nextTransition)
  }

  /** The reply a handler builds from a snapshot. */
  function Reply(snap: Snapshot, now: int): Response {
    Response(Feed(snap.announcements, now), now, snap.nextTransition)
  }

  /** The reply the endpoint promises: the feed of the table at the moment of the request. */
  ghost predicate IsAnswer(table: Table, now: int, r: Response) {
    r.announcements == Feed(table, now) && r.serverTime == now && IsNextTransition(table, now, r.nextTransition)
  }

  // ------------------------------------------------------------- the query

  /** The WHERE clause compares milliseconds. */
  predicate Selected(a: Announcement, now: int) {
    a.publication == Published && (a.endsAt.Some? ==> a.endsAt.value / MILLI > now / MILLI)
  }

  /** For whole-millisecond ends, the millisecond comparison keeps exactly the rows that have not ended. */
  lemma SelectedMeansNotEnded(a: Announcement, now: int)
    requires a.Storable()
    ensures Selected(a, now) <==> a.publication == Published && a.At(now) != Expired
  {
    if a.endsAt.Some? {
      var q := a.endsAt.value / MILLI;
      assert a.endsAt.value == q * MILLI;
    }
  }

  function Earlier(next: Option<int>, t: Option<int>, now: int): Option<int> {
    if t.Some? && t.value > now && (next.None? || t.value < next.value) then t else next
  }

  /** The row loop of ActiveAnnouncements, over the rows the WHERE clause selects. */
  method ActiveAnnouncements(table: Table, now: int) returns (snap: Snapshot)
    requires Stored(table)
    ensures IsQuery(table, now, snap)
  {
    var active, next := [], None;
    for i := 0 to |table|
      invariant active == Feed(table[..i], now)
      invariant IsNextTransition(table[..i], now, next)
    {
      var a := table[i];
      assert table[..i + 1][..i] == table[..i] && table[..i + 1][i] == a;
      SelectedMeansNotEnded(a, now);
      ghost var before := next;
      if Selected(a, now) {
        if a.At(now) == Active {
          active := active + [a];
        }
        next := Earlier(Earlier(next, a.startsAt, now), a.endsAt, now);
      }
      NextTransitionStep(table[..i], a, now, before, next);
      assert table[..i] + [a] == table[..i + 1];
    }
    assert table[..|table|] == table;
    return Snapshot(active, next);
  }

  lemma NextTransitionStep(rows: Table, a: Announcement, now: int, before: Option<int>, next: Option<int>)
    requires a.Storable() && IsNextTransition(rows, now, before)
    requires next == if Selected(a, now) then Earlier(Earlier(before, a.startsAt, now), a.endsAt, now) else before
    ensures IsNextTransition(rows + [a], now, next)
  {
    SelectedMeansNotEnded(a, now);
    assert a in rows + [a];
    if next.Some? {
      if next == before {
        var b :| b in rows && Boundary(b, next.value);
        assert b in rows + [a];
      } else {
        assert Boundary(a, next.value);
      }
    }
    forall b, t | b in rows + [a] && Boundary(b, t) && t > now ensures next.Some? && next.value <= t {
      if b in rows {
        assert before.Some? && before.value <= t;
      } else {
        assert b == a;
      }
    }
  }

  // ------------------------------------------------------------- the window

  /** How long a snapshot taken at a time is served. */
  function Until(snap: Snapshot, now: int): int {
    if snap.nextTransition.Some? && snap.nextTransition.value < now + WINDOW then snap.nextTransition.value
    else now + WINDOW
  }

  /** Between two clock readings with no boundary in between, no row changes its status. */
  lemma StatusStays(a: Announcement, t0: int, t1: int)
    requires t0 <= t1
    requires forall t :: Boundary(a, t) && t > t0 ==> t > t1
    ensures a.At(t0) == a.At(t1)
  {
    if a.startsAt.Some? && a.publication == Published {
      assert Boundary(a, a.startsAt.value);
    }
    if a.endsAt.Some? && a.publication == Published {
      assert Boundary(a, a.endsAt.value);
    }
  }

  /** Filtering a filtered feed again, later in the window, is filtering the whole table at the later time. */
  lemma {:induction false} FeedTwice(table: Table, t0: int, t1: int)
    requires forall a :: a in table ==> a.At(t0) == a.At(t1)
    ensures Feed(Feed(table, t0), t1) == Feed(table, t1) == Feed(table, t0)
    decreases |table|
  {
    if table != [] {
      var rest, last := table[..|table| - 1], table[|table| - 1];
      FeedTwice(rest, t0, t1);
      var once := Feed(rest, t0);
      if last.At(t0) == Active {
        assert (once + [last])[..|once + [last]| - 1] == once;
        assert Feed(once + [last], t1) == Feed(once, t1) + [last];
      } else {
        assert Feed(table, t0) == once;
      }
    }
  }

  /** Anywhere in its window, the snapshot gives the reply a fresh query would give. */
  lemma WindowAnswers(table: Table, fetched: int, snap: Snapshot, now: int)
    requires IsQuery(table, fetched, snap) && fetched <= now < Until(snap, fetched)
    ensures IsAnswer(table, now, Reply(snap, now))
  {
    forall a | a in table ensures a.At(fetched) == a.At(now) {
      StatusStays(a, fetched, now);
    }
    FeedTwice(table, fetched, now);
  }

  /** At the end of a window cut short by a transition, the next query is really due: a row is at its boundary. */
  lemma WindowEndsAtABoundary(table: Table, fetched: int, snap: Snapshot)
    requires IsQuery(table, fetched, snap) && Until(snap, fetched) < fetched + WINDOW
    ensures exists a :: a in table && Boundary(a, Until(snap, fetched))
    ensures fetched < Until(snap, fetched)
  {
  }

  /** An answer in terms of the rows alone. */
  lemma AnswerMeans(table: Table, now: int, r: Response)
    requires IsAnswer(table, now, r)
    ensures forall a :: a in r.announcements <==>
              && a in table && a.publication == Published
              && (a.startsAt.Some? ==> a.startsAt.value <= now) && (a.endsAt.Some? ==> now < a.endsAt.value)
    ensures r.nextTransition.Some? ==>
              && r.nextTransition.value > now
              && exists a :: a in table && a.publication == Published
                             && (a.startsAt == r.nextTransition || a.endsAt == r.nextTransition)
    ensures forall a, t :: a in table && a.publication == Published && t > now
                           && (a.startsAt == Some(t) || a.endsAt == Some(t)) ==>
              r.nextTransition.Some? && r.nextTransition.value <= t
  {
    forall a
      ensures a in r.announcements <==>
                && a in table && a.publication == Published
                && (a.startsAt.Some? ==> a.startsAt.value <= now) && (a.endsAt.Some? ==> now < a.endsAt.value)
    {
      FeedShowsExactly(table, now, a);
    }
    forall a, t | a in table && a.publication == Published && t > now && (a.startsAt == Some(t) || a.endsAt == Some(t))
      ensures r.nextTransition.Some? && r.nextTransition.value <= t
    {
      assert Boundary(a, t);
    }
  }

  // -------------------------------------------------------------- the cache

  class AnnouncementCache {
    var until: int
    var snapshot: Snapshot
    /** When the snapshot was taken. */
    ghost var fetched: int

    /** An unexpired snapshot is a query of this table, served no longer than its window. */
    ghost predicate Coherent(table: Table)
      reads this
    {
      until > ZERO_TIME ==> IsQuery(table, fetched, snapshot) && until == Until(snapshot, fetched)
    }

    constructor ()
      ensures until == ZERO_TIME && forall table :: Coherent(table)
    {
      until, snapshot, fetched := ZERO_TIME, Snapshot([], None), ZERO_TIME;
    }

    /** After this the cache is coherent with any table at all. */
    method Invalidate()
      modifies this`until
      ensures until == ZERO_TIME && forall table :: Coherent(table)
    {
      until := ZERO_TIME;
    }

    /**
     One read. It fails only when the window is over and the store fails; otherwise its reply is the fresh
     query's, and the cache stays coherent for any later read.
     */
    method HandleActive(table: Table, now: int, storeAnswers: bool) returns (r: Option<Response>)
      requires Stored(table) && Coherent(table) && now >= ZERO_TIME && fetched <= now
      modifies this
      ensures Coherent(table) && fetched <= now
      ensures r.None? <==> now >= old(until) && !storeAnswers
      ensures r.Some? ==> IsAnswer(table, now, r.value)
      ensures r.Some? ==> forall a :: a in r.value.announcements <==>
                && a in table && a.publication == Published
                && (a.startsAt.Some? ==> a.startsAt.value <= now) && (a.endsAt.Some? ==> now < a.endsAt.value)
      ensures r.Some? && r.value.nextTransition.Some? ==>
                && r.value.nextTransition.value > now
                && exists a :: a in table && a.publication == Published
                               && (a.startsAt == r.value.nextTransition || a.endsAt == r.value.nextTransition)
      ensures r.Some? ==> forall a, t :: a in table && a.publication == Published && t > now
                                         && (a.startsAt == Some(t) || a.endsAt == Some(t)) ==>
                r.value.nextTransition.Some? && r.value.nextTransition.value <= t
      ensures r.None? || now < old(until) ==>
                until == old(until) && snapshot == old(snapshot) && fetched == old(fetched)
      ensures r.Some? && now >= old(until) ==> fetched == now && now < until <= now + 5_000_000_000
      ensures r.Some? && now >= old(until) ==>
                until == now + 5_000_000_000 || r.value.nextTransition == Some(until)
    {
      if now >= until {
        if !storeAnswers {
          return None;
        }
        snapshot := ActiveAnnouncements(table, now);
        fetched := now;
        until := now + WINDOW;
        if snapshot.nextTransition.Some? && snapshot.nextTransition.value < until {
          until := snapshot.nextTransition.value;
        }
      }
      WindowAnswers(table, fetched, snapshot, now);
      var out := FilterActive(snapshot.announcements, now);
      AnswerMeans(table, now, Reply(snapshot, now));
      return Some(Response(out, now, snapshot.nextTransition));
    }
  }

  /** The loop that builds the response slice. */
  method FilterActive(rows: seq<Announcement>, now: int) returns (out: seq<Announcement>)
    ensures out == Feed(rows, now)
  {
    out := [];
    for i := 0 to |rows|
      invariant out == Feed(rows[..i], now)
    {
      assert rows[..i + 1][..i] == rows[..i];
      if rows[i].At(now) == Active {
        out := out + [rows[i]];
      }
    }
    assert rows[..|rows|] == rows;
  }

  // ------------------------------------------------- reads and saves together

  /** Where a read stands; `floor` is the newest version a save had reported when the read began. */
  datatype Read =
    | Begun(floor: nat)
    | Holding(floor: nat, now: int)
    | Fetched(floor: nat, now: int, version: nat, snap: Snapshot)
    | Answered(floor: nat, now: int, version: nat, response: Response)
    | Unavailable(floor: nat)

  datatype Save = Committed(version: nat) | Invalidated(version: nat) | Reported(version: nat)

  /**
   One instance: every version of the table and when it was committed, the cache with the version and time
   its snapshot came from, the mutex, and all reads and saves. Another instance's write is a commit that no
   local save reports.
   */
  datatype State = State(
      tables: seq<Table>, stamps: seq<int>, now: int,
      valid: bool, snapshot: Snapshot, until: int, version: nat, fetched: int,
      holder: Option<nat>, readers: map<nat, Read>, saves: map<nat, Save>, reported: nat, invalidated: nat)
  {
    function Latest(): nat
      requires tables != []
    {
      |tables| - 1
    }

    function WithRead(r: nat, read: Read): State {
      this.(readers := readers[r := read])
    }
  }

  datatype Step =
    | Advance(to: int)
    | Begin(read: nat)
    | Lock(read: nat)
    | Hit(read: nat)
    | Query(read: nat, snap: Snapshot)
    | QueryFails(read: nat)
    | Store(read: nat)
    | Commit(save: nat, table: Table)
    | CommitElsewhere(table: Table)
    | Invalidate(save: nat)
    | Report(save: nat)

  ghost predicate Enabled(s: State, step: Step)
    requires s.tables != []
  {
    match step
    case Advance(to) => s.now <= to
    case Begin(r) => r !in s.readers
    case Lock(r) => s.holder == None && r in s.readers && s.readers[r].Begun?
    case Hit(r) => r in s.readers && s.readers[r].Holding? && s.valid && s.readers[r].now < s.until
    case Query(r, snap) =>
      r in s.readers && s.readers[r].Holding? && !(s.valid && s.readers[r].now < s.until) &&
      IsQuery(s.tables[s.Latest()], s.readers[r].now, snap)
    case QueryFails(r) => r in s.readers && s.readers[r].Holding? && !(s.valid && s.readers[r].now < s.until)
    case Store(r) => r in s.readers && s.readers[r].Fetched?
    case Commit(w, table) => w !in s.saves
    case CommitElsewhere(_) => true
    case Invalidate(w) => s.holder == None && w in s.saves && s.saves[w].Committed?
    case Report(w) => w in s.saves && s.saves[w].Invalidated?
  }

  function Max(a: nat, b: nat): nat {
    if a >= b then a else b
  }

  ghost function Apply(s: State, step: Step): State
    requires s.tables != [] && Enabled(s, step)
  {
    match step
    case Advance(to) => s.(now := to)
    case Begin(r) => s.WithRead(r, Begun(s.reported))
    case Lock(r) => s.WithRead(r, Holding(s.readers[r].floor, s.now)).(holder := Some(r))
    case Hit(r) =>
      var h := s.readers[r];
      s.WithRead(r, Answered(h.floor, h.now, s.version, Reply(s.snapshot, h.now))).(holder := None)
    case Query(r, snap) => s.WithRead(r, Fetched(s.readers[r].floor, s.readers[r].now, s.Latest(), snap))
    case QueryFails(r) => s.WithRead(r, Unavailable(s.readers[r].floor)).(holder := None)
    case Store(r) =>
      var f := s.readers[r];
      s.WithRead(r, Answered(f.floor, f.now, f.version, Reply(f.snap, f.now)))
       .(valid := true, snapshot := f.snap, until := Until(f.snap, f.now), version := f.version, fetched := f.now,
         holder := None)
    case Commit(w, table) =>
      s.(tables := s.tables + [table], stamps := s.stamps + [s.now], saves := s.saves[w := Committed(|s.tables|)])
    case CommitElsewhere(table) => s.(tables := s.tables + [table], stamps := s.stamps + [s.now])
    case Invalidate(w) =>
      s.(valid := false, saves := s.saves[w := Invalidated(s.saves[w].version)],
         invalidated := Max(s.invalidated, s.saves[w].version))
    case Report(w) =>
      s.(saves := s.saves[w := Reported(s.saves[w].version)], reported := Max(s.reported, s.saves[w].version))
  }

  /** One version, nothing cached, nobody reading or saving. */
  ghost predicate Init(s: State) {
    |s.tables| == 1 && s.stamps == [s.now] && !s.valid && s.holder == None && s.readers == map[] && s.saves == map[]
    && s.reported == s.invalidated == 0
  }

  /** A version includes everything committed before a time. */
  ghost predicate Includes(s: State, version: nat, time: int) {
    version < |s.tables| && forall u :: 0 <= u < |s.stamps| && s.stamps[u] < time ==> u <= version
  }

  ghost predicate CacheSound(s: State) {
    s.valid ==>
      && s.invalidated <= s.version && Includes(s, s.version, s.fetched) && s.fetched <= s.now
      && IsQuery(s.tables[s.version], s.fetched, s.snapshot) && s.until == Until(s.snapshot, s.fetched)
  }

  ghost predicate ReadSound(s: State, r: nat, read: Read) {
    && read.floor <= s.reported
    && (s.holder == Some(r) <==> read.Holding? || read.Fetched?)
    && match read
       case Begun(_) => true
       case Unavailable(_) => true
       case Holding(floor, now) => now <= s.now && (s.valid ==> s.fetched <= now)
       case Fetched(floor, now, version, snap) =>
         && s.invalidated <= version && Includes(s, version, now) && now <= s.now
         && IsQuery(s.tables[version], now, snap)
       case Answered(floor, now, version, response) =>
         && floor <= version && Includes(s, version, now - WINDOW + 1) && now <= s.now
         && IsAnswer(s.tables[version], now, response)
  }

  ghost predicate SavesSound(s: State) {
    forall w :: w in s.saves ==>
      && s.saves[w].version < |s.tables|
      && (!s.saves[w].Committed? ==> s.saves[w].version <= s.invalidated)
      && (s.saves[w].Reported? ==> s.saves[w].version <= s.reported)
  }

  /** Everything but the reads. */
  ghost predicate StoreSound(s: State) {
    && s.tables != [] && |s.stamps| == |s.tables|
    && (forall u :: 0 <= u < |s.stamps| ==> s.stamps[u] <= s.now)
    && s.reported <= s.invalidated < |s.tables|
    && CacheSound(s) && SavesSound(s)
  }

  ghost predicate Invariant(s: State) {
    && StoreSound(s) && (s.holder.Some? ==> s.holder.value in s.readers)
    && forall r :: r in s.readers ==> ReadSound(s, r, s.readers[r])
  }

  /** A step that only adds to the history of the table, or reports more, leaves what others know intact. */
  lemma OthersStaySound(s: State, t: State, r: nat, read: Read)
    requires |s.stamps| == |s.tables| && |t.stamps| == |t.tables|
    requires s.tables <= t.tables && s.stamps <= t.stamps && s.now <= t.now && s.reported <= t.reported
    requires forall u :: |s.stamps| <= u < |t.stamps| ==> t.stamps[u] >= s.now
    requires s.invalidated == t.invalidated || s.holder == None
    requires s.holder == t.holder || (s.holder != Some(r) && t.holder != Some(r))
    requires read.Holding? ==> (t.valid ==> s.valid && t.fetched == s.fetched)
    requires ReadSound(s, r, read)
    ensures ReadSound(t, r, read)
  {
    hide IsQuery, IsAnswer;
  }

  lemma StepKeepsStore(s: State, step: Step)
    requires Invariant(s) && Enabled(s, step)
    ensures StoreSound(Apply(s, step))
  {
    hide IsQuery, IsAnswer, Reply, Until;
    if step.Store? || step.Query? {
      assert ReadSound(s, step.read, s.readers[step.read]);
    }
  }

  /** The read a step is about ends the step sound. */
  lemma StepKeepsItsRead(s: State, step: Step, r: nat)
    requires Invariant(s) && Enabled(s, step)
    requires r in Apply(s, step).readers && !(r in s.readers && Apply(s, step).readers[r] == s.readers[r])
    ensures ReadSound(Apply(s, step), r, Apply(s, step).readers[r])
  {
    hide IsQuery, IsAnswer, Reply, Until;
    match step {
      case Hit(_) => HitAnswers(s, r);
      case Store(_) => StoreAnswers(s, r);
      case _ =>
    }
  }

  lemma StepKeepsOthers(s: State, step: Step, r: nat)
    requires Invariant(s) && Enabled(s, step)
    requires r in s.readers && Apply(s, step).readers[r] == s.readers[r]
    ensures ReadSound(Apply(s, step), r, s.readers[r])
  {
    hide IsQuery, IsAnswer, Reply, Until, Includes, SavesSound, CacheSound;
    assert ReadSound(s, r, s.readers[r]);
    OthersStaySound(s, Apply(s, step), r, s.readers[r]);
  }

  lemma StepKeepsInvariant(s: State, step: Step)
    requires Invariant(s) && Enabled(s, step)
    ensures Invariant(Apply(s, step))
  {
    var t := Apply(s, step);
    StepKeepsStore(s, step);
    assert t.holder.Some? ==> t.holder.value in t.readers;
    hide IsQuery, IsAnswer, Reply, Until, Includes, SavesSound, CacheSound, ReadSound;
    forall r | r in t.readers ensures ReadSound(t, r, t.readers[r]) {
      if r in s.readers && t.readers[r] == s.readers[r] {
        StepKeepsOthers(s, step, r);
      } else {
        StepKeepsItsRead(s, step, r);
      }
    }
  }

  /** A hit answers from inside the snapshot's window. */
  lemma HitAnswers(s: State, r: nat)
    requires Invariant(s) && Enabled(s, Hit(r))
    ensures IsAnswer(s.tables[s.version], s.readers[r].now, Reply(s.snapshot, s.readers[r].now))
    ensures Includes(s, s.version, s.readers[r].now - WINDOW + 1)
  {
    WindowAnswers(s.tables[s.version], s.fetched, s.snapshot, s.readers[r].now);
  }

  /** A snapshot just fetched answers at the moment it was fetched for. */
  lemma StoreAnswers(s: State, r: nat)
    requires Invariant(s) && Enabled(s, Store(r))
    ensures var f := s.readers[r]; IsAnswer(s.tables[f.version], f.now, Reply(f.snap, f.now))
  {
    var f := s.readers[r];
    WindowAnswers(s.tables[f.version], f.now, f.snap, f.now);
  }

  ghost predicate Run(s: State, steps: seq<Step>)
    decreases |steps|
  {
    steps == [] || (s.tables != [] && Enabled(s, steps[0]) && Run(Apply(s, steps[0]), steps[1..]))
  }

  ghost function After(s: State, steps: seq<Step>): State
    requires Run(s, steps)
    decreases |steps|
  {
    if steps == [] then s else After(Apply(s, steps[0]), steps[1..])
  }

  /** Every read of this id reports at least version v: it has not begun yet, or began with that floor. */
  predicate ReadsFrom(s: State, r: nat, v: nat) {
    s.reported >= v && (r in s.readers ==> s.readers[r].floor >= v)
  }

  lemma StepKeepsFloor(s: State, step: Step, r: nat, v: nat)
    requires s.tables != [] && Enabled(s, step) && ReadsFrom(s, r, v)
    ensures ReadsFrom(Apply(s, step), r, v)
  {
  }

  lemma {:induction false} RunKeepsFloor(s: State, steps: seq<Step>, r: nat, v: nat)
    requires Run(s, steps) && ReadsFrom(s, r, v)
    ensures ReadsFrom(After(s, steps), r, v)
    decreases |steps|
  {
    hide ReadsFrom, Enabled, Apply;
    if steps != [] {
      StepKeepsFloor(s, steps[0], r, v);
      RunKeepsFloor(Apply(s, steps[0]), steps[1..], r, v);
    }
  }

  lemma {:induction false} RunKeepsInvariant(s: State, steps: seq<Step>)
    requires Invariant(s) && Run(s, steps)
    ensures Invariant(After(s, steps))
    decreases |steps|
  {
    hide Invariant, Enabled, Apply;
    if steps != [] {
      StepKeepsInvariant(s, steps[0]);
      RunKeepsInvariant(Apply(s, steps[0]), steps[1..]);
    }
  }

  /**
   Under any interleaving of reads, fetches, saves, invalidations and other instances' writes, an answer is
   that of a fresh query, at the read's own clock, of one version of the table; and that version includes
   every write made at least five seconds earlier, wherever it was made.
   */
  lemma AnswersAreFreshQueries(s: State, steps: seq<Step>, r: nat)
    requires Init(s) && Run(s, steps)
    requires r in After(s, steps).readers && After(s, steps).readers[r].Answered?
    ensures var t := After(s, steps);
            var a := t.readers[r];
            && a.version < |t.tables| == |t.stamps| && IsAnswer(t.tables[a.version], a.now, a.response)
            && forall u :: 0 <= u < |t.stamps| && t.stamps[u] + 5_000_000_000 <= a.now ==> u <= a.version
  {
    RunKeepsInvariant(s, steps);
  }

  /** No read that begins after a save has reported success can answer from before that save. */
  lemma ReportedSavesAreSeen(s: State, before: seq<Step>, after: seq<Step>, w: nat, r: nat)
    requires Init(s) && Run(s, before) && Run(After(s, before), after)
    requires var m := After(s, before); w in m.saves && m.saves[w].Reported? && r !in m.readers
    ensures var t := After(After(s, before), after);
            r in t.readers && t.readers[r].Answered? ==> t.readers[r].version >= After(s, before).saves[w].version
  {
    RunKeepsInvariant(s, before);
    var m := After(s, before);
    RunKeepsInvariant(m, after);
    RunKeepsFloor(m, after, r, m.saves[w].version);
  }
}
