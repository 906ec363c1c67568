/**
 The verifier's cache of access lists: how old a list an answer may rest on.

 Requests check the cache concurrently. Each reads the map, looks at the clock, and loads the list afresh when it must;
 loads finish in any order, fail, and store their result over whatever the map holds by then.
 */
module AccessCache {
  import opened Options
  import opened Access

  type Time = int
  type Host = string

  const SECOND: int := 1_000_000_000
  /** A copy is answered from unread until this old. */
  const TTL: int := 30_000_000_000
  /** A no from a copy older than this is checked against the database. */
  const RECHECK: int := 5_000_000_000
  const LOAD_TIMEOUT: int := 3_000_000_000
  const LIMIT: nat := 10000

  datatype AccessList = AccessList(owner: Owner, entries: seq<Entry>)

  /** What is read of a host that no header app has: nobody's list. */
  const NOBODY := AccessList(Owner("", ""), [])

  /** `readAt`, when the database held the list, is kept only to state the theorems. */
  datatype Cached = Cached(list: AccessList, loaded: Time, readAt: Time)

  datatype Who = Who(sub: string, email: string)

  predicate Admitted(l: AccessList, who: Who) {
    Admit(l.owner, l.entries, who.sub, who.email).ok
  }

  type Cache = map<Host, Cached>

  function Kept(byHost: Cache, host: Host, e: Cached): Cache {
    (if |byHost| >= LIMIT then map[] else byHost)[host := e]
  }

  function Find(byHost: Cache, host: Host): Option<Cached> {
    if host in byHost then Some(byHost[host]) else None
  }

  /** What a look at the clock makes of the copy held: too old, an answer, or a refusal to be checked. */
  datatype Look = Stale | Yes | Doubt

  function LookAt(held: Option<Cached>, who: Who, now: Time): Look {
    if held.None? || now - held.value.loaded >= TTL then Stale
    else if Admitted(held.value.list, who) then Yes
    else Doubt
  }

  predicate Recent(held: Cached, now: Time) {
    now - held.loaded <= RECHECK
  }

  /** What a load comes back with: what it read, or, when the database did not answer, whatever the map holds. */
  function LoadResult(byHost: Cache, host: Host, read: Option<Cached>): Option<Cached> {
    if read.Some? then read else Find(byHost, host)
  }

  function AfterLoad(byHost: Cache, host: Host, read: Option<Cached>): Cache {
    if read.Some? then Kept(byHost, host, read.value) else byHost
  }

  predicate Says(got: Option<Cached>, who: Who) {
    got.Some? && Admitted(got.value.list, who)
  }

  class AccessCacheMap {
    var byHost: Cache

    method Load(host: Host, read: Option<Cached>) returns (got: Option<Cached>)
      modifies this
      ensures got == LoadResult(old(byHost), host, read)
      ensures byHost == AfterLoad(old(byHost), host, read)
    {
      if read.None? {
        return if host in byHost then Some(byHost[host]) else None;
      }
      if |byHost| >= LIMIT {
        byHost := map[];
      }
      byHost := byHost[host := read.value];
      return read;
    }

    /** One request with nothing else going on: `first` and `second` are what its loads would read. */
    method Admits(host: Host, who: Who, now: Time, first: Option<Cached>, later: Time, second: Option<Cached>)
      returns (ok: bool)
      modifies this
      ensures
        var held := Find(old(byHost), host);
        match LookAt(held, who, now)
        case Stale =>
          && byHost == AfterLoad(old(byHost), host, first)
          && ok == Says(LoadResult(old(byHost), host, first), who)
        case Yes => ok && byHost == old(byHost)
        case Doubt =>
          if Recent(held.value, later) then !ok && byHost == old(byHost)
          else
            && byHost == AfterLoad(old(byHost), host, second)
            && ok == Says(LoadResult(old(byHost), host, second), who)
    {
      var held := if host in byHost then Some(byHost[host]) else None;
      var read := false;
      if held.None? || now - held.value.loaded >= TTL {
        held := Load(host, first);
        read := true;
      }
      if held.Some? && Admitted(held.value.list, who) {
        return true;
      }
      if read || (held.Some? && later - held.value.loaded <= RECHECK) {
        return false;
      }
      held := Load(host, second);
      return held.Some? && Admitted(held.value.list, who);
    }
  }

  // ---------- Concurrent requests ----------

  /** `judged` is when the copy an answer rests on was last looked at the clock for, or was loaded. */
  datatype Phase =
    | Looking(held: Option<Cached>)
    | Doubting(copy: Cached)
    | Loading(began: Time)
    | Reading(began: Time, list: AccessList, readAt: Time)
    | Stored(got: Cached)
    | Done(ok: bool, basis: Option<Cached>, judged: Time)

  /** `failed` records whether any of the request's reads has failed. */
  datatype Request = Request(host: Host, who: Who, phase: Phase, failed: bool)

  type Pid = nat

  /** What the database is known to have held: a host's list at a time it was read. */
  datatype Fact = Fact(host: Host, readAt: Time, list: AccessList)

  datatype World = World(
    now: Time, db: map<Host, AccessList>, byHost: Cache, requests: map<Pid, Request>, facts: set<Fact>)

  datatype Event =
    | Ask(p: Pid, host: Host, who: Who)
    | Look(p: Pid)
    | Recheck(p: Pid)
    | Read(p: Pid)
    | ReadFails(p: Pid)
    | Store(p: Pid)
    | Answer(p: Pid)
    | Change(db: map<Host, AccessList>)

  function ListOf(db: map<Host, AccessList>, host: Host): AccessList {
    if host in db then db[host] else NOBODY
  }

  function To(w: World, p: Pid, phase: Phase): World
    requires p in w.requests
  {
    w.(requests := w.requests[p := w.requests[p].(phase := phase)])
  }

  ghost predicate Enabled(w: World, e: Event) {
    match e
    case Ask(p, _, _) => p !in w.requests
    case Look(p) => p in w.requests && w.requests[p].phase.Looking?
    case Recheck(p) => p in w.requests && w.requests[p].phase.Doubting?
    case Read(p) =>
      p in w.requests && w.requests[p].phase.Loading? && w.now <= w.requests[p].phase.began + LOAD_TIMEOUT
    case ReadFails(p) => p in w.requests && w.requests[p].phase.Loading?
    case Store(p) =>
      p in w.requests && w.requests[p].phase.Reading? && w.now <= w.requests[p].phase.began + LOAD_TIMEOUT
    case Answer(p) => p in w.requests && w.requests[p].phase.Stored?
    case Change(_) => true
  }

  function Effect(w: World, e: Event): World
    requires Enabled(w, e)
  {
    match e
    case Ask(p, host, who) =>
      w.(requests := w.requests[p := Request(host, who, Looking(Find(w.byHost, host)), false)])
    case Look(p) =>
      var r := w.requests[p];
      To(w, p,
         match LookAt(r.phase.held, r.who, w.now)
         case Stale => Loading(w.now)
         case Yes => Done(true, r.phase.held, w.now)
         case Doubt => Doubting(r.phase.held.value))
    case Recheck(p) =>
      var r := w.requests[p];
      To(w, p, if Recent(r.phase.copy, w.now) then Done(false, Some(r.phase.copy), w.now) else Loading(w.now))
    case Read(p) =>
      var r := w.requests[p];
      var list := ListOf(w.db, r.host);
      To(w, p, Reading(r.phase.began, list, w.now)).(facts := w.facts + {Fact(r.host, w.now, list)})
    case ReadFails(p) =>
      var r := w.requests[p];
      var got := LoadResult(w.byHost, r.host, None);
      w.(requests := w.requests[p := r.(phase := Done(Says(got, r.who), got, w.now), failed := true)])
    case Store(p) =>
      var r := w.requests[p];
      var got := Cached(r.phase.list, w.now, r.phase.readAt);
      To(w, p, Stored(got))
    case Answer(p) =>
      var r := w.requests[p];
      To(w, p, Done(Says(Some(r.phase.got), r.who), Some(r.phase.got), r.phase.got.loaded))
      .(byHost := Kept(w.byHost, r.host, r.phase.got))
    case Change(db) => w.(db := db)
  }

  ghost predicate Step(w: World, e: Event, w': World) {
    Enabled(w, e) && w.now <= w'.now && w' == Effect(w, e).(now := w'.now)
  }

  ghost predicate Run(ws: seq<World>, es: seq<Event>) {
    && |ws| == |es| + 1
    && ws[0] == World(ws[0].now, ws[0].db, map[], map[], {})
    && forall i | 0 <= i < |es| :: Step(ws[i], es[i], ws[i + 1])
  }

  /** A held copy is what the database held when it was read, at most a load's time before it counted as loaded. */
  ghost predicate Genuine(facts: set<Fact>, host: Host, c: Cached) {
    Fact(host, c.readAt, c.list) in facts && c.readAt <= c.loaded <= c.readAt + LOAD_TIMEOUT
  }

  /** A decision that no failed read had a part in rests on a list this recently read. */
  predicate FreshEnough(ok: bool, basis: Cached, judged: Time) {
    if ok then judged - basis.readAt < TTL + LOAD_TIMEOUT else judged - basis.readAt <= RECHECK + LOAD_TIMEOUT
  }

  ghost predicate RequestOk(w: World, r: Request) {
    match r.phase
    case Looking(held) => held.Some? ==> Genuine(w.facts, r.host, held.value)
    case Doubting(held) => Genuine(w.facts, r.host, held) && !Admitted(held.list, r.who)
    case Loading(began) => began <= w.now
    case Reading(began, list, readAt) => began <= readAt <= w.now && Fact(r.host, readAt, list) in w.facts
    case Stored(got) => Genuine(w.facts, r.host, got)
    case Done(ok, basis, judged) =>
      && (basis.Some? ==> Genuine(w.facts, r.host, basis.value))
      && (ok <==> Says(basis, r.who))
      && (!r.failed ==> basis.Some? && FreshEnough(ok, basis.value, judged))
  }

  ghost predicate Inv(w: World) {
    && (forall h | h in w.byHost :: Genuine(w.facts, h, w.byHost[h]))
    && (forall p | p in w.requests :: RequestOk(w, w.requests[p]))
  }

  lemma OthersStay(w: World, e: Event, w': World, p: Pid)
    requires Inv(w) && Step(w, e, w') && p in w'.requests
    requires !e.Change? ==> e.p != p
    ensures RequestOk(w', w'.requests[p])
  {
    assert w'.requests[p] == w.requests[p] && RequestOk(w, w.requests[p]);
  }

  lemma OwnStep(w: World, e: Event, w': World)
    requires Inv(w) && Step(w, e, w') && !e.Change?
    ensures RequestOk(w', w'.requests[e.p])
  {
    hide Admitted;
    if !e.Ask? {
      assert RequestOk(w, w.requests[e.p]);
    }
  }

  lemma CacheStep(w: World, e: Event, w': World)
    requires Inv(w) && Step(w, e, w')
    ensures forall h | h in w'.byHost :: Genuine(w'.facts, h, w'.byHost[h])
  {
    hide Admitted;
    if e.Answer? {
      assert RequestOk(w, w.requests[e.p]);
    }
  }

  lemma InvStep(w: World, e: Event, w': World)
    requires Inv(w) && Step(w, e, w')
    ensures Inv(w')
  {
    CacheStep(w, e, w');
    forall p | p in w'.requests
      ensures RequestOk(w', w'.requests[p])
    {
      if !e.Change? && e.p == p {
        OwnStep(w, e, w');
      } else {
        OthersStay(w, e, w', p);
      }
    }
  }

  lemma {:induction false} Reached(ws: seq<World>, es: seq<Event>, n: nat)
    requires Run(ws, es) && n < |ws|
    ensures Inv(ws[n])
  {
    if n > 0 {
      Reached(ws, es, n - 1);
      InvStep(ws[n - 1], es[n - 1], ws[n]);
    }
  }

  /**
   Bounded staleness: an answer none of whose reads failed is what a list the database really held says, and that list
   was read less than 33 s before a yes was judged, or at most 8 s before a no, in whatever order loads finish and
   however often the map is emptied.
   */
  lemma BoundedStaleness(ws: seq<World>, es: seq<Event>, n: nat, p: Pid)
    requires Run(ws, es) && n < |ws| && p in ws[n].requests
    requires ws[n].requests[p].phase.Done? && !ws[n].requests[p].failed
    ensures var r := ws[n].requests[p];
      && r.phase.basis.Some?
      && Fact(r.host, r.phase.basis.value.readAt, r.phase.basis.value.list) in ws[n].facts
      && (r.phase.ok <==> Admitted(r.phase.basis.value.list, r.who))
      && (if r.phase.ok then r.phase.judged - r.phase.basis.value.readAt < 33 * SECOND
          else r.phase.judged - r.phase.basis.value.readAt <= 8 * SECOND)
  {
    Reached(ws, es, n);
    assert RequestOk(ws[n], ws[n].requests[p]);
  }

  /** Whatever fails, a yes rests on a list that was really read for the host: until one has been, the answer is no. */
  lemma NeverReadAdmitsNobody(ws: seq<World>, es: seq<Event>, n: nat, p: Pid)
    requires Run(ws, es) && n < |ws| && p in ws[n].requests && ws[n].requests[p].phase.Done?
    requires forall f | f in ws[n].facts :: f.host != ws[n].requests[p].host
    ensures !ws[n].requests[p].phase.ok
  {
    Reached(ws, es, n);
    assert RequestOk(ws[n], ws[n].requests[p]);
  }

  /** A fact is what the database held at that moment of the run. */
  lemma {:induction false} FactsAreTrue(ws: seq<World>, es: seq<Event>, n: nat, f: Fact)
    returns (k: nat)
    requires Run(ws, es) && n < |ws| && f in ws[n].facts
    ensures k <= n && ws[k].now == f.readAt && ListOf(ws[k].db, f.host) == f.list
  {
    if f in ws[n - 1].facts {
      k := FactsAreTrue(ws, es, n - 1, f);
    } else {
      k := n - 1;
      assert Step(ws[k], es[k], ws[k + 1]);
    }
  }

  // ---------- Without a bound ----------

  const OWN := AccessList(Owner("a@b", "s"), [])
  const OWNER := Who("s", "")
  const COPY := Cached(OWN, 0, 0)

  /** The first request while it loads the list of the one host there is. */
  function FirstOf(phase: Phase): Request {
    Request("h", OWNER, phase, false)
  }

  function Alone(phase: Phase, facts: set<Fact>): World {
    World(0, map["h" := OWN], map[], map[0 := FirstOf(phase)], facts)
  }

  const KNOWN := {Fact("h", 0, OWN)}

  /** Once it is answered the list is emptied, and a second request comes `age` later. */
  function Later(age: nat, requests: map<Pid, Request>): World {
    World(age, map[], map["h" := COPY], map[0 := FirstOf(Done(true, Some(COPY), 0))] + requests, KNOWN)
  }

  function Second(phase: Phase, failed: bool): map<Pid, Request> {
    map[1 := Request("h", OWNER, phase, failed)]
  }

  function LoadingWorlds(): seq<World> {
    [World(0, map["h" := OWN], map[], map[], {}), Alone(Looking(None), {}), Alone(Loading(0), {}),
     Alone(Reading(0, OWN, 0), KNOWN), Alone(Stored(COPY), KNOWN),
     Later(0, map[]).(db := map["h" := OWN])]
  }

  lemma OwnerIsAdmitted()
    ensures Admitted(OWN, OWNER)
  {
    assert "s" != "" && OwnerRule(OWN.owner, "s", "");
  }

  lemma LoadsOnce()
    ensures var ws := LoadingWorlds();
      Step(ws[0], Ask(0, "h", OWNER), ws[1]) && Step(ws[1], Look(0), ws[2]) && Step(ws[2], Read(0), ws[3])
      && Step(ws[3], Store(0), ws[4]) && Step(ws[4], Answer(0), ws[5])
  {
    hide Admitted;
    OwnerIsAdmitted();
    var ws := LoadingWorlds();
    assert Effect(ws[0], Ask(0, "h", OWNER)) == ws[1];
    assert Effect(ws[1], Look(0)) == ws[2];
    assert {} + {Fact("h", 0, OWN)} == KNOWN;
    assert Effect(ws[2], Read(0)) == ws[3];
    assert Effect(ws[3], Store(0)) == ws[4];
    assert Kept(map[], "h", COPY) == map["h" := COPY];
    assert Effect(ws[4], Answer(0)) == ws[5];
  }

  lemma AsksAgain(age: nat)
    ensures Step(Later(0, map[]).(db := map["h" := OWN]), Change(map[]), Later(age, map[]))
    ensures var asked := Later(age, Second(Looking(Some(COPY)), false));
      && Step(Later(age, map[]), Ask(1, "h", OWNER), asked)
      && if age < TTL then Step(asked, Look(1), Later(age, Second(Done(true, Some(COPY), age), false)))
         else
           var loading := Later(age, Second(Loading(age), false));
           Step(asked, Look(1), loading)
           && Step(loading, ReadFails(1), Later(age, Second(Done(true, Some(COPY), age), true)))
  {
    hide Admitted;
    OwnerIsAdmitted();
  }

  const ASKS := [Ask(0, "h", OWNER), Look(0), Read(0), Store(0), Answer(0), Change(map[]), Ask(1, "h", OWNER), Look(1)]

  function Asked(age: nat): seq<World> {
    LoadingWorlds() + [Later(age, map[]), Later(age, Second(Looking(Some(COPY)), false))]
  }

  lemma AsksRun(age: nat)
    ensures var ws := Asked(age);
      |ws| == 8 && ws[0] == World(0, map["h" := OWN], map[], map[], {})
      && ws[7] == Later(age, Second(Looking(Some(COPY)), false))
      && forall i | 0 <= i < 7 :: Step(ws[i], ASKS[i], ws[i + 1])
  {
    hide Step, Admitted, Later;
    LoadsOnce();
    AsksAgain(age);
  }

  /**
   After a failed read there is no bound: from the start there is a run in which a list is read and then emptied, and
   any time later a request is admitted by the copy. Up to the time to live it needs no read; from then on, one that
   fails.
   */
  lemma FailedReadsAnswerFromAnyAge(age: nat)
    returns (ws: seq<World>, es: seq<Event>)
    ensures Run(ws, es) && ws[0].now == 0 && es == ASKS + if age < TTL then [] else [ReadFails(1)]
    ensures var w := ws[|es|];
      && w.now == age && 1 in w.requests && w.requests[1].failed == (age >= TTL)
      && w.requests[1].phase.Done? && w.requests[1].phase.ok && w.requests[1].phase.judged == age
      && w.requests[1].phase.basis.Some? && w.requests[1].phase.basis.value.readAt == 0
      && !Admitted(ListOf(w.db, "h"), OWNER)
  {
    hide Step, Admitted, Asked;
    AsksRun(age);
    AsksAgain(age);
    NobodyIsRefused();
    if age < TTL {
      es := ASKS;
      ws := Asked(age) + [Later(age, Second(Done(true, Some(COPY), age), false))];
    } else {
      es := ASKS + [ReadFails(1)];
      ws := Asked(age) + [Later(age, Second(Loading(age), false)),
                          Later(age, Second(Done(true, Some(COPY), age), true))];
    }
  }

  lemma NobodyIsRefused()
    ensures !Admitted(NOBODY, OWNER)
  {
  }

  // ---------- When the database is read ----------

  /** A copy younger than half a minute that admits is answered from, one that does not doubted, any other is stale. */
  lemma LooksExactly(held: Option<Cached>, who: Who, now: Time)
    ensures LookAt(held, who, now).Stale? <==> held.None? || now - held.value.loaded >= 30_000_000_000
    ensures LookAt(held, who, now).Yes? <==>
      held.Some? && now - held.value.loaded < 30_000_000_000 && Admitted(held.value.list, who)
    ensures held.Some? ==> (Recent(held.value, now) <==> now - held.value.loaded <= 5_000_000_000)
  {
  }

  /** A no of a copy at most five seconds old stands; an older one is checked against the database. */
  lemma DoubtsExactly(w: World, p: Pid, w': World)
    requires Step(w, Recheck(p), w')
    ensures var copy := w.requests[p].phase.copy;
      && p in w'.requests && w'.byHost == w.byHost
      && w'.requests[p].phase ==
         if w.now - copy.loaded <= 5_000_000_000 then Done(false, Some(copy), w.now) else Loading(w.now)
  {
  }

  /** A copy is as old as its storing, not as its reading. */
  lemma StoredIsNow(w: World, p: Pid, w': World)
    requires Step(w, Store(p), w')
    ensures p in w'.requests && w'.requests[p].phase.Stored?
    ensures var got := w'.requests[p].phase.got;
      got.list == w.requests[p].phase.list && got.loaded == w.now && got.readAt == w.requests[p].phase.readAt
  {
  }

  /** Whatever is stored, the map holds it, and no more than ten thousand: it is emptied first when it is full. */
  lemma StaysSmall(byHost: Cache, host: Host, e: Cached)
    requires |byHost| <= 10000
    ensures var kept := Kept(byHost, host, e);
      && host in kept && kept[host] == e && |kept| <= 10000
      && (|byHost| < 10000 ==> forall other | other in byHost && other != host ::
           other in kept && kept[other] == byHost[other])
      && forall other | other in kept && other != host :: other in byHost && kept[other] == byHost[other]
  {
    if |byHost| < 10000 && host in byHost {
      assert byHost[host := e].Keys == byHost.Keys;
    }
    MapSize(byHost, host, e);
  }

  /** A read is stored and answered with; a failed one changes nothing and is answered with whatever is held. */
  lemma LoadsExactly(byHost: Cache, host: Host, read: Option<Cached>)
    ensures read.Some? ==> AfterLoad(byHost, host, read) == Kept(byHost, host, read.value)
    ensures read.Some? ==> LoadResult(byHost, host, read) == read
    ensures read.None? ==> AfterLoad(byHost, host, read) == byHost
    ensures read.None? && host in byHost ==> LoadResult(byHost, host, read) == Some(byHost[host])
    ensures read.None? && host !in byHost ==> LoadResult(byHost, host, read) == None
  {
  }

  lemma MapSize(byHost: Cache, host: Host, e: Cached)
    ensures |byHost[host := e]| <= |byHost| + 1 && |map[][host := e]| <= 1
  {
    var m: Cache := map[];
    assert byHost[host := e].Keys == byHost.Keys + {host};
    assert |byHost[host := e]| == |byHost[host := e].Keys|;
    assert m[host := e].Keys == {host};
  }
}
