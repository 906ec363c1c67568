/**
 What app-auth remembers of sessions Keycloak has closed: that it misses none, and that nothing it drops could still be
 of use.
 */
module EndedSessions {
  import opened Options
  import Seal

  /** Nanoseconds. */
  type Time = int

  const NEVER: Time := 0
  const LOOKBACK: int := 60_000_000_000
  const RETENTION: int := 604_800_000_000_000
  const SESSION_TTL: int := 604_800_000_000_000

  datatype Ended = Ended(id: string, at: Time)

  datatype Held = Held(ids: map<string, Time>, latest: Time, loaded: bool)

  function Since(h: Held): Time {
    if h.loaded then h.latest - LOOKBACK else NEVER
  }

  function Learn(h: Held, rows: seq<Ended>): Held {
    if rows == [] then h
    else
      var before := Learn(h, rows[..|rows| - 1]);
      var e := rows[|rows| - 1];
      before.(ids := before.ids[e.id := e.at], latest := if e.at > before.latest then e.at else before.latest)
  }

  function Evict(ids: map<string, Time>, cutoff: Time): map<string, Time> {
    map id | id in ids && ids[id] >= cutoff :: ids[id]
  }

  function Refreshed(h: Held, rows: seq<Ended>, now: Time): Held {
    var l := Learn(h, rows);
    Held(Evict(l.ids, now - RETENTION), l.latest, true)
  }

  /** What is said of a Keycloak session: whether it has ended, and whether the cache was ever read. */
  function StatusOf(h: Held, ksid: string): (bool, bool) {
    if h.loaded then (ksid in h.ids && ksid != "", true) else (false, false)
  }

  class EndedCache {
    var ids: map<string, Time>
    var latest: Time
    var loaded: bool

    ghost function Abs(): Held
      reads this
    {
      Held(ids, latest, loaded)
    }

    constructor ()
      ensures Abs() == Held(map[], NEVER, false)
    {
      ids, latest, loaded := map[], NEVER, false;
    }

    method Status(ksid: string) returns (ended: bool, ready: bool)
      ensures (ended, ready) == StatusOf(Abs(), ksid)
      ensures ready == loaded && (ended <==> loaded && ksid in ids && ksid != "")
    {
      if !loaded {
        return false, false;
      }
      return ksid in ids && ksid != "", true;
    }

    /** `rows` is what the read since `Since()` returned, None when it failed. */
    method Refresh(rows: Option<seq<Ended>>, now: Time)
      modifies this
      ensures Abs() == if rows.None? then old(Abs()) else Refreshed(old(Abs()), rows.value, now)
    {
      if rows.None? {
        return;
      }
      ghost var was := Abs();
      for i := 0 to |rows.value|
        invariant loaded == was.loaded
        invariant Abs() == Learn(was, rows.value[..i])
      {
        assert rows.value[..i + 1][..i] == rows.value[..i];
        var e := rows.value[i];
        ids := ids[e.id := e.at];
        if e.at > latest {
          latest := e.at;
        }
      }
      assert rows.value[..|rows.value|] == rows.value;
      ghost var learnt := ids;
      var cutoff := now - RETENTION;
      var todo := ids.Keys;
      while todo != {}
        invariant latest == Learn(was, rows.value).latest
        invariant todo <= learnt.Keys && ids.Keys <= learnt.Keys
        invariant forall id | id in learnt :: id in ids <==> id in todo || learnt[id] >= cutoff
        invariant forall id | id in ids :: ids[id] == learnt[id]
      {
        var id :| id in todo;
        todo := todo - {id};
        if ids[id] < cutoff {
          ids := ids - {id};
        }
      }
      assert ids == Evict(learnt, cutoff);
      loaded := true;
    }
  }

  // ---------- The table and the cache, run together ----------

  /** The rows a read in flight has been given: `chosen` by id, `seen` being every end committed when it was made. */
  datatype Reading = Reading(rows: seq<Ended>, chosen: map<string, Time>, seen: set<Ended>)

  /**
   `open` are the transactions begun and not yet committed, stamped with when they began. `ends`, every row ever
   committed, `seen`, those committed before the last successful read, and `cutoff`, the last eviction's, are kept only
   to state the theorems.
   */
  datatype World = World(
    now: Time,
    table: map<string, Time>,
    open: set<Ended>,
    ends: set<Ended>,
    held: Held,
    reading: Option<Reading>,
    seen: set<Ended>,
    cutoff: Time)

  datatype Event =
    | Begin(id: string)
    | Commit(e: Ended)
    | Abort(e: Ended)
    | Purge
    | Read(rows: seq<Ended>)
    | Apply
    | Fail

  function Purged(table: map<string, Time>, cutoff: Time): map<string, Time> {
    map id | id in table && table[id] >= cutoff :: table[id]
  }

  function Chosen(table: map<string, Time>, since: Time): map<string, Time> {
    map id | id in table && table[id] >= since :: table[id]
  }

  ghost predicate IsRows(rows: seq<Ended>, chosen: map<string, Time>) {
    && (forall i | 0 <= i < |rows| :: rows[i].id in chosen && chosen[rows[i].id] == rows[i].at)
    && (forall id | id in chosen :: exists i | 0 <= i < |rows| :: rows[i].id == id)
  }

  /** A row that is already there is kept: a session ends once. */
  function Committed(w: World, e: Ended): World {
    if e.id in w.table then w.(open := w.open - {e})
    else w.(open := w.open - {e}, table := w.table[e.id := e.at], ends := w.ends + {e})
  }

  ghost predicate Enabled(w: World, delay: int, e: Event) {
    match e
    case Begin(id) => id != ""
    case Commit(end) => end in w.open && w.now <= end.at + delay
    case Abort(end) => true
    case Purge => true
    case Read(rows) => w.reading.None? && IsRows(rows, Chosen(w.table, Since(w.held)))
    case Apply => w.reading.Some?
    case Fail => true
  }

  function Effect(w: World, delay: int, e: Event): World
    requires Enabled(w, delay, e)
  {
    match e
    case Begin(id) => w.(open := w.open + {Ended(id, w.now)})
    case Commit(end) => Committed(w, end)
    case Abort(end) => w.(open := w.open - {end})
    case Purge => w.(table := Purged(w.table, w.now - RETENTION))
    case Read(rows) => w.(reading := Some(Reading(rows, Chosen(w.table, Since(w.held)), w.ends)))
    case Apply =>
      w.(held := Refreshed(w.held, w.reading.value.rows, w.now), seen := w.reading.value.seen,
         reading := None, cutoff := w.now - RETENTION)
    case Fail => w.(reading := None)
  }

  ghost predicate Step(w: World, delay: int, e: Event, w': World) {
    Enabled(w, delay, e) && w.now <= w'.now && w' == Effect(w, delay, e).(now := w'.now)
  }

  function Start(now: Time): World {
    World(now, map[], {}, {}, Held(map[], NEVER, false), None, {}, now - RETENTION)
  }

  ghost predicate Run(ws: seq<World>, delay: int, es: seq<Event>) {
    && |ws| == |es| + 1
    && NEVER <= ws[0].now && ws[0] == Start(ws[0].now)
    && forall i | 0 <= i < |es| :: Step(ws[i], delay, es[i], ws[i + 1])
  }

  // ---------- What every step keeps ----------

  ghost predicate InTable(w: World, e: Ended) {
    (e.id in w.table && e.at <= w.table[e.id]) || e.at < w.now - RETENTION
  }

  ghost predicate InCache(h: Held, cutoff: Time, e: Ended) {
    (e.id in h.ids && e.at <= h.ids[e.id]) || e.at < cutoff
  }

  ghost predicate TableOk(w: World) {
    && NEVER <= w.now
    && (forall e | e in w.open :: NEVER <= e.at <= w.now && e.id != "")
    && (forall id | id in w.table :: w.table[id] <= w.now)
    && (forall e | e in w.ends :: NEVER <= e.at && InTable(w, e) && e.id != "")
  }

  /** An end the cache has not been given is within the next read's reach. */
  ghost predicate CacheOk(w: World) {
    && w.held.latest <= w.now
    && w.cutoff <= w.now - RETENTION
    && w.seen <= w.ends
    && (forall e | e in w.seen :: InCache(w.held, w.cutoff, e))
    && (forall e | e in w.ends && e !in w.seen :: Since(w.held) <= e.at)
  }

  ghost predicate Awaits(w: World, r: Reading, e: Ended) {
    if e.id in r.chosen then e.at <= r.chosen[e.id] || e.at < w.now - RETENTION
    else e in w.seen || e.at < w.now - RETENTION
  }

  ghost predicate ReadingOk(w: World, r: Reading) {
    && IsRows(r.rows, r.chosen)
    && r.seen <= w.ends
    && (forall id | id in r.chosen :: r.chosen[id] <= w.now)
    && (forall e | e in r.seen :: Awaits(w, r, e))
    && (forall e, id | e in w.ends && e !in r.seen && id in r.chosen :: r.chosen[id] - LOOKBACK <= e.at)
    && (forall e | e in w.ends && e !in r.seen :: w.held.latest - LOOKBACK <= e.at)
  }

  ghost predicate Inv(w: World) {
    TableOk(w) && CacheOk(w) && (w.reading.Some? ==> ReadingOk(w, w.reading.value))
  }

  lemma {:induction false} LearnFacts(h: Held, rows: seq<Ended>, chosen: map<string, Time>)
    requires forall i | 0 <= i < |rows| :: rows[i].id in chosen && chosen[rows[i].id] == rows[i].at
    ensures var l := Learn(h, rows);
      && (forall i | 0 <= i < |rows| :: rows[i].id in l.ids)
      && (forall id | id in h.ids ::
            id in l.ids && (l.ids[id] == h.ids[id] || (id in chosen && l.ids[id] == chosen[id])))
      && (forall i | 0 <= i < |rows| :: l.ids[rows[i].id] == rows[i].at)
      && h.latest <= l.latest
      && (l.latest == h.latest || exists id | id in chosen :: l.latest == chosen[id])
  {
    if rows != [] {
      LearnFacts(h, rows[..|rows| - 1], chosen);
    }
  }

  lemma ApplySeen(w: World, e: Ended)
    requires Inv(w) && w.reading.Some? && e in w.reading.value.seen
    ensures InCache(Refreshed(w.held, w.reading.value.rows, w.now), w.now - RETENTION, e)
  {
    var r := w.reading.value;
    LearnFacts(w.held, r.rows, r.chosen);
    assert Awaits(w, r, e);
    if e.id in r.chosen {
      var i :| 0 <= i < |r.rows| && r.rows[i].id == e.id;
      assert Learn(w.held, r.rows).ids[e.id] == r.chosen[e.id];
    }
  }

  lemma ApplyStep(w: World, delay: int, w': World)
    requires Inv(w) && Step(w, delay, Apply, w')
    ensures CacheOk(w')
  {
    var r := w.reading.value;
    LearnFacts(w.held, r.rows, r.chosen);
    forall e | e in w'.seen
      ensures InCache(w'.held, w'.cutoff, e)
    {
      ApplySeen(w, e);
    }
  }

  lemma CommitReach(w: World, delay: int, e: Ended, w': World)
    requires delay <= LOOKBACK && Inv(w) && Step(w, delay, Commit(e), w')
    ensures CacheOk(w') && (w'.reading.Some? ==> ReadingOk(w', w'.reading.value))
  {
    assert e.at >= w.now - LOOKBACK;
    if w.reading.Some? {
      var r := w.reading.value;
      forall d | d in r.seen
        ensures Awaits(w', r, d)
      {
        assert Awaits(w, r, d);
      }
    }
  }

  lemma ReadReach(w: World, delay: int, rows: seq<Ended>, w': World)
    requires Inv(w) && Step(w, delay, Read(rows), w')
    ensures ReadingOk(w', w'.reading.value)
  {
    var r := w'.reading.value;
    forall e | e in r.seen
      ensures Awaits(w', r, e)
    {
      assert InTable(w, e);
    }
  }

  lemma TableStep(w: World, delay: int, e: Event, w': World)
    requires Inv(w) && Step(w, delay, e, w')
    ensures TableOk(w')
  {
    forall d | d in w'.ends
      ensures NEVER <= d.at && InTable(w', d) && d.id != ""
    {
      if d in w.ends {
        assert InTable(w, d);
      }
    }
  }

  lemma OtherStep(w: World, delay: int, e: Event, w': World)
    requires Inv(w) && Step(w, delay, e, w') && !e.Commit? && !e.Apply? && !e.Read?
    ensures CacheOk(w') && (w'.reading.Some? ==> ReadingOk(w', w'.reading.value))
  {
    assert w'.held == w.held && w'.seen == w.seen && w'.ends == w.ends && w'.cutoff == w.cutoff;
    if w'.reading.Some? {
      var r := w'.reading.value;
      forall d | d in r.seen
        ensures Awaits(w', r, d)
      {
        assert Awaits(w, r, d);
      }
    }
  }

  lemma InvStep(w: World, delay: int, e: Event, w': World)
    requires delay <= LOOKBACK && Inv(w) && Step(w, delay, e, w')
    ensures Inv(w')
  {
    hide TableOk, CacheOk, ReadingOk;
    TableStep(w, delay, e, w');
    match e {
      case Commit(end) => CommitReach(w, delay, end, w');
      case Apply => ApplyStep(w, delay, w');
      case Read(rows) =>
        ReadReach(w, delay, rows, w');
        CacheLater(w, w');
      case _ => OtherStep(w, delay, e, w');
    }
  }

  lemma CacheLater(w: World, w': World)
    requires CacheOk(w) && w.now <= w'.now
    requires w'.held == w.held && w'.seen == w.seen && w'.ends == w.ends && w'.cutoff == w.cutoff
    ensures CacheOk(w')
  {
  }

  lemma {:induction false} Reached(ws: seq<World>, delay: int, es: seq<Event>, n: nat)
    requires delay <= LOOKBACK && Run(ws, delay, es) && n < |ws|
    ensures Inv(ws[n])
  {
    if n > 0 {
      Reached(ws, delay, es, n - 1);
      InvStep(ws[n - 1], delay, es[n - 1], ws[n]);
    }
  }

  /**
   The cache is complete: if every end commits within the lookback of when it began, then in every reachable state
   each end committed before the last successful read is held, or ended longer ago than the retention.
   */
  lemma CacheIsComplete(ws: seq<World>, delay: int, es: seq<Event>, n: nat, e: Ended)
    requires delay <= LOOKBACK && Run(ws, delay, es) && n < |ws| && e in ws[n].seen
    ensures e.id in ws[n].held.ids || e.at < ws[n].now - RETENTION
  {
    Reached(ws, delay, es, n);
    assert InCache(ws[n].held, ws[n].cutoff, e);
  }

  ghost predicate NoneBetween(es: seq<Event>, from: nat, to: nat, fails: bool) {
    forall i | from <= i < to && i < |es| :: !es[i].Apply? && (fails ==> !es[i].Fail?)
  }

  lemma {:induction false} ReadingStays(ws: seq<World>, delay: int, es: seq<Event>, n: nat, rows: seq<Ended>, m: nat)
    requires Run(ws, delay, es) && n < m < |ws| && es[n] == Read(rows) && NoneBetween(es, n + 1, m, true)
    ensures ws[m].reading.Some? && ws[m].reading.value.seen == ws[n].ends
  {
    assert Step(ws[m - 1], delay, es[m - 1], ws[m]);
    if n + 1 < m {
      ReadingStays(ws, delay, es, n, rows, m - 1);
    }
  }

  lemma {:induction false} SeenStays(ws: seq<World>, delay: int, es: seq<Event>, m: nat, k: nat)
    requires Run(ws, delay, es) && m <= k < |ws| && NoneBetween(es, m, k, false)
    ensures ws[k].seen == ws[m].seen
  {
    if m < k {
      SeenStays(ws, delay, es, m, k - 1);
      assert Step(ws[k - 1], delay, es[k - 1], ws[k]);
    }
  }

  /**
   What the cache is complete for: whatever happens between a read and its being applied, and from then to the next
   time one is, `seen` is every end committed by the time of the read.
   */
  lemma SeenIsEverythingRead(
      ws: seq<World>, delay: int, es: seq<Event>, n: nat, rows: seq<Ended>, m: nat, k: nat)
    requires Run(ws, delay, es) && n < m < k < |ws|
    requires es[n] == Read(rows) && es[m] == Apply
    requires NoneBetween(es, n + 1, m, true) && NoneBetween(es, m + 1, k, false)
    ensures ws[k].seen == ws[n].ends
  {
    ReadingStays(ws, delay, es, n, rows, m);
    assert Step(ws[m], delay, es[m], ws[m + 1]);
    SeenStays(ws, delay, es, m + 1, k);
  }

  // ---------- No session that goes on is taken for ended ----------

  /** Whatever is held, about to be held or in the table is an end that was committed, at its time. */
  ghost predicate Real(w: World) {
    && (forall id | id in w.table :: Ended(id, w.table[id]) in w.ends)
    && (forall id | id in w.held.ids :: Ended(id, w.held.ids[id]) in w.ends)
    && (w.reading.Some? ==> forall i | 0 <= i < |w.reading.value.rows| :: w.reading.value.rows[i] in w.ends)
  }

  lemma {:induction false} LearnsReal(h: Held, rows: seq<Ended>, ends: set<Ended>)
    requires forall id | id in h.ids :: Ended(id, h.ids[id]) in ends
    requires forall i | 0 <= i < |rows| :: rows[i] in ends
    ensures forall id | id in Learn(h, rows).ids :: Ended(id, Learn(h, rows).ids[id]) in ends
  {
    if rows != [] {
      LearnsReal(h, rows[..|rows| - 1], ends);
      var last := rows[|rows| - 1];
      assert last == Ended(last.id, last.at);
    }
  }

  lemma RealStep(w: World, delay: int, e: Event, w': World)
    requires Real(w) && Step(w, delay, e, w')
    ensures Real(w')
  {
    match e {
      case Apply =>
        LearnsReal(w.held, w.reading.value.rows, w.ends);
      case Read(rows) =>
        forall i | 0 <= i < |rows| ensures rows[i] in w.ends {
          assert rows[i] == Ended(rows[i].id, w.table[rows[i].id]);
        }
      case _ =>
    }
  }

  /** A session the cache holds for ended was ended, at the time it is held with. */
  lemma {:induction false} HeldHaveEnded(ws: seq<World>, delay: int, es: seq<Event>, n: nat)
    requires Run(ws, delay, es) && n < |ws|
    ensures Real(ws[n])
  {
    if n > 0 {
      HeldHaveEnded(ws, delay, es, n - 1);
      RealStep(ws[n - 1], delay, es[n - 1], ws[n]);
    }
  }

  /** A purge leaves exactly the ends of the last seven days. */
  lemma PurgeLeavesRecentRows(w: World, delay: int, w': World, id: string)
    requires Step(w, delay, Purge, w')
    ensures id in w'.table <==> id in w.table && w.now - w.table[id] <= 604_800_000_000_000
    ensures id in w'.table ==> w'.table[id] == w.table[id]
  {
  }

  /** A refresh forgets exactly what ended longer ago than the retention. */
  lemma RefreshForgets(h: Held, rows: seq<Ended>, now: Time, id: string)
    ensures var l, r := Learn(h, rows), Refreshed(h, rows, now);
      && (id in r.ids <==> id in l.ids && now - l.ids[id] <= 604_800_000_000_000)
      && (id in r.ids ==> r.ids[id] == l.ids[id]) && r.loaded
  {
  }

  /** It learns what it read, the last row of a session counting, and keeps the rest. */
  lemma {:induction false} LearnsExactly(h: Held, rows: seq<Ended>, id: string)
    ensures var l := Learn(h, rows);
      && (id in l.ids <==> id in h.ids || exists i | 0 <= i < |rows| :: rows[i].id == id)
      && (forall i | 0 <= i < |rows| && rows[i].id == id && (forall k | i < k < |rows| :: rows[k].id != id) ::
            id in l.ids && l.ids[id] == rows[i].at)
      && ((forall i | 0 <= i < |rows| :: rows[i].id != id) && id in h.ids ==> l.ids[id] == h.ids[id])
  {
    if rows != [] {
      var n := |rows| - 1;
      LearnsExactly(h, rows[..n], id);
      assert forall i | 0 <= i < n :: rows[..n][i] == rows[i];
    }
  }

  /** And it reads on from the latest end. */
  lemma {:induction false} LatestIsLearned(h: Held, rows: seq<Ended>)
    ensures var l := Learn(h, rows);
      && h.latest <= l.latest && (forall i | 0 <= i < |rows| :: rows[i].at <= l.latest)
      && (l.latest == h.latest || exists i | 0 <= i < |rows| :: rows[i].at == l.latest)
      && l.loaded == h.loaded
  {
    if rows != [] {
      var n := |rows| - 1;
      LatestIsLearned(h, rows[..n]);
      assert forall i | 0 <= i < n :: rows[..n][i] == rows[i];
    }
  }

  /** A later commit than the lookback allows for is missed: the bound is exact. */
  lemma LateCommitIsMissed(delay: int)
    returns (ws: seq<World>, es: seq<Event>, e: Ended)
    requires delay > LOOKBACK
    ensures Run(ws, delay, es) && e in ws[|es|].seen
    ensures e.id !in ws[|es|].held.ids && e.at >= ws[|es|].now - RETENTION
  {
    var t := 1 + LOOKBACK + 1;
    var a, b := Ended("a", 1), Ended("b", t);
    e := a;
    var w0 := Start(1);
    var w1 := w0.(open := {a}, now := t);
    var w2 := w1.(open := {a, b});
    var w3 := w2.(open := {a}, table := map["b" := t], ends := {b});
    var w4 := w3.(reading := Some(Reading([b], map["b" := t], {b})));
    var h := Held(map["b" := t], t, true);
    var w5 := w4.(reading := None, held := h, seen := {b}, cutoff := t - RETENTION);
    var w6 := w5.(open := {}, table := map["b" := t, "a" := 1], ends := {b, a});
    var w7 := w6.(reading := Some(Reading([b], map["b" := t], {b, a})));
    var w8 := w7.(reading := None, seen := {b, a});
    LearnB(Held(map[], NEVER, false), t);
    LearnB(h, t);
    assert "a" != "b";
    assert Step(w0, delay, Begin("a"), w1);
    assert Step(w1, delay, Begin("b"), w2);
    assert {a, b} - {b} == {a};
    assert Step(w2, delay, Commit(b), w3);
    assert Chosen(w3.table, Since(w3.held)) == map["b" := t] && [b][0] == b;
    assert Step(w3, delay, Read([b]), w4);
    assert Step(w4, delay, Apply, w5);
    assert {a} - {a} == {};
    assert Step(w5, delay, Commit(a), w6);
    assert Chosen(w6.table, Since(w6.held)) == map["b" := t];
    assert Step(w6, delay, Read([b]), w7);
    assert Step(w7, delay, Apply, w8);
    ws := [w0, w1, w2, w3, w4, w5, w6, w7, w8];
    es := [Begin("a"), Begin("b"), Commit(b), Read([b]), Apply, Commit(a), Read([b]), Apply];
  }

  lemma LearnB(h: Held, t: Time)
    requires t == LOOKBACK + 2 && h.latest <= t && h.ids.Keys <= {"b"}
    ensures Refreshed(h, [Ended("b", t)], t) == Held(map["b" := t], t, true)
  {
    assert [Ended("b", t)][..0] == [];
    assert Learn(h, [Ended("b", t)]) == h.(ids := map["b" := t], latest := t);
    assert Evict(map["b" := t], t - RETENTION) == map["b" := t];
  }

  // ---------- What forgetting an end costs ----------

  /** A session cookie sealed at `sealed`, at `now`. */
  predicate CookieOpens(sealed: Time, now: Time) {
    Seal.Seconds(now) < Seal.Seconds(sealed + SESSION_TTL)
  }

  /** Which is when the session keyring opens it. */
  lemma CookieOpensWhenUnsealed<V>(keys: seq<Seal.Key>, session: V, sealed: Time, now: Time)
    requires Seal.Keyring(keys)
    ensures Seal.Open(keys, "session", Seal.SealFor(keys, "session", session, SESSION_TTL, sealed), now).Some?
      <==> CookieOpens(sealed, now)
  {
    Seal.OpensExactly(keys, "session", session, SESSION_TTL, sealed, keys, "session", now);
  }

  /**
   Forgetting an end revives no cookie sealed up to that end. Exactly: some cookie of the session sealed at `sealed`
   opens at a time its end may have been forgotten by, if and only if it was sealed in a later second than the end.
   */
  lemma ForgettingRevivesOnlyLaterCookies(ended: Time, sealed: Time)
    ensures (exists now :: ended < now - RETENTION && CookieOpens(sealed, now))
      <==> Seal.Seconds(ended + 1) < Seal.Seconds(sealed)
  {
    assert Seal.Seconds(sealed + SESSION_TTL) == Seal.Seconds(sealed) + 604_800;
    var first := ended + RETENTION + 1;
    assert Seal.Seconds(first) == Seal.Seconds(ended + 1) + 604_800;
    if now :| ended < now - RETENTION && CookieOpens(sealed, now) {
      assert first <= now;
    }
    if Seal.Seconds(ended + 1) < Seal.Seconds(sealed) {
      assert CookieOpens(sealed, first);
    }
  }

  /** A request with a cookie of this Keycloak session is taken as signed in. */
  predicate LetsIn(h: Held, ksid: string, sealed: Time, now: Time) {
    CookieOpens(sealed, now) && StatusOf(h, ksid) == (false, true)
  }

  /**
   So a cookie of an ended session, sealed no later than the end, is refused ever after, as ended or as expired, once a
   read made since has been applied.
   */
  lemma EndedStaysEnded(ws: seq<World>, delay: int, es: seq<Event>, n: nat, e: Ended, sealed: Time)
    requires delay <= LOOKBACK && Run(ws, delay, es) && n < |ws| && e in ws[n].seen && sealed <= e.at
    ensures !LetsIn(ws[n].held, e.id, sealed, ws[n].now)
    ensures e.id in ws[n].held.ids || !CookieOpens(sealed, ws[n].now)
  {
    CacheIsComplete(ws, delay, es, n, e);
    ForgettingRevivesOnlyLaterCookies(e.at, sealed);
    assert Seal.Seconds(sealed) <= Seal.Seconds(e.at + 1);
    Reached(ws, delay, es, n);
    assert e.id != "" by { assert e in ws[n].ends; }
  }

  /** And nobody else's: once the cache has been read, a session never ended gets in while its cookie opens. */
  lemma LiveSessionsGetIn(ws: seq<World>, delay: int, es: seq<Event>, n: nat, ksid: string, sealed: Time)
    requires Run(ws, delay, es) && n < |ws| && forall e | e in ws[n].ends :: e.id != ksid
    ensures LetsIn(ws[n].held, ksid, sealed, ws[n].now) <==>
              ws[n].held.loaded && Seal.Seconds(ws[n].now) < Seal.Seconds(sealed + SESSION_TTL)
  {
    HeldHaveEnded(ws, delay, es, n);
  }
}
