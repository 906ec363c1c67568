/**
 No write the log has shown is forgotten.

 The exporter's reader (`ReadOne`: pick a bucket, ask Garage, record the answer) and its refresher interleave at
 every call they make on the scheduler. `Watch` is the scheduler with the reader's call in flight and two records
 kept only to state the theorem: the latest write shown of each bucket, and when the read last recorded of each listed
 bucket was begun, which may be before the bucket was listed.
 */
module Freshness {
  import opened Scheduler

  datatype Flight = Grounded | Flying(alias: string, at: Time)

  datatype Watch = Watch(
    s: Sched,
    clock: Time,
    flight: Flight,
    lastWrite: map<string, Time>,
    begun: map<string, Time>)

  /** `ReadOne` and `Refresh`, one scheduler call at a time, each with the time it was made at. */
  datatype Act =
    | Pick(alias: string, changed: bool)
    | Land(bytes: int)
    | Miss
    | List(list: seq<GarageBucket>)
    | Show(names: seq<string>, to: Time)
    | Recover(sizes: map<string, int>)
    | Flag(ok: bool)
    | Answer(at: Time)

  /** The alias each Garage id really belongs to. */
  type Owners = map<string, string>

  function Max(a: Time, b: Time): Time {
    if a < b then b else a
  }

  function LastWrite(w: Watch, a: string): Time {
    if a in w.lastWrite then w.lastWrite[a] else NEVER
  }

  /** The buckets a window's names really stand for, by alias or by Garage id. */
  function Written(owners: Owners, names: seq<string>): set<string> {
    set i | 0 <= i < |names| :: Resolve(owners, names[i])
  }

  function WritesAfter(w: Watch, owners: Owners, names: seq<string>, to: Time): map<string, Time> {
    if w.s.activityOK then
      map a | a in w.lastWrite.Keys + Written(owners, names) ::
        if a in Written(owners, names) then Max(LastWrite(w, a), to) else w.lastWrite[a]
    else
      w.lastWrite
  }

  function StillListed(begun: map<string, Time>, s: Sched): map<string, Time> {
    map b | b in begun && b in s.buckets :: begun[b]
  }

  ghost predicate WStep(w: Watch, owners: Owners, now: Time, act: Act, w': Watch) {
    && w.clock <= now == w'.clock
    && match act
       case Pick(alias, changed) =>
         && w.flight.Grounded?
         && Step(w.s, Picked(now, alias, changed), w'.s)
         && w' == w.(s := w'.s, clock := now, flight := if alias == "" then Grounded else Flying(alias, now))
       case Land(bytes) =>
         && w.flight.Flying?
         && Step(w.s, Landed(w.flight.alias, bytes, w.flight.at), w'.s)
         && w' == w.(s := w'.s, clock := now, flight := Grounded,
                     begun := if w.flight.alias in w.s.buckets then w.begun[w.flight.alias := w.flight.at] else w.begun)
       case Miss =>
         && w.flight.Flying?
         && Step(w.s, Failed, w'.s)
         && w' == w.(s := w'.s, clock := now, flight := Grounded)
       case List(list) =>
         && Step(w.s, Relisted(list), w'.s)
         && w' == w.(s := w'.s, clock := now, begun := StillListed(w.begun, w'.s))
       case Show(names, to) =>
         && to <= now
         && Step(w.s, Shown(names, to), w'.s)
         && w' == w.(s := w'.s, clock := now, lastWrite := WritesAfter(w, owners, names, to))
       case Recover(sizes) =>
         && Step(w.s, Recovered(sizes), w'.s)
         && w' == w.(s := w'.s, clock := now)
       case Flag(ok) =>
         && Step(w.s, Signal(ok), w'.s)
         && w' == w.(s := w'.s, clock := now)
       case Answer(at) =>
         && at <= now
         && Step(w.s, Answered(at), w'.s)
         && w' == w.(s := w'.s, clock := now)
  }

  function Started(): Watch {
    Watch(Sched(map[], map[], true, false, NEVER, 0), NEVER, Grounded, map[], map[])
  }

  // ---------- What is not to be forgotten ----------

  /** Every listed bucket recorded as read counts as changed, or that read was begun no earlier than its last write. */
  ghost predicate Remembers(w: Watch) {
    forall b | b in w.s.buckets && b in w.begun :: w.s.buckets[b].Changed() || LastWrite(w, b) <= w.begun[b]
  }

  /** Nothing is forgotten in this state, nor once the read in flight, if any, has landed. */
  ghost predicate Lossless(w: Watch, owners: Owners) {
    && Remembers(w)
    && forall bytes, w' | WStep(w, owners, w.clock, Land(bytes), w') :: Remembers(w')
  }

  /** Were `b` read as of `at`, it would count as changed, or no write shown of it would be later. */
  predicate Covers(w: Watch, b: string, at: Time)
    requires b in w.s.buckets
  {
    w.s.buckets[b].writtenAt > at || LastWrite(w, b) <= at
  }

  predicate InFlight(w: Watch, b: string) {
    w.flight.Flying? && w.flight.alias == b
  }

  /** What every step keeps, whether or not anything is forgotten: reads are recorded as of when they were begun. */
  ghost predicate Sound(w: Watch) {
    && NEVER <= w.clock
    && (w.flight.Flying? ==> NEVER <= w.flight.at <= w.clock)
    && (forall b | b in w.begun :: b in w.s.buckets && w.s.buckets[b].readAt == w.begun[b])
    && (forall a | a in w.lastWrite :: w.lastWrite[a] <= w.clock)
  }

  lemma SoundStep(w: Watch, owners: Owners, now: Time, act: Act, w': Watch)
    requires Sound(w) && WStep(w, owners, now, act, w')
    ensures Sound(w')
  {
    hide Names, Written, Resolve, FirstAlias, ListedAliases, AliasMap;
  }

  // ---------- What does forget ----------

  /**
   The write to `b` that a window shows up to `to` makes no difference if it is missed: `b` is not recorded as read, or
   counts as changed already, or was read that late; and the read in flight, if it is of `b`, is that late too or will
   leave `b` counting as changed.
   */
  predicate Harmless(w: Watch, b: string, to: Time)
    requires b in w.s.buckets
  {
    && (b in w.begun ==> w.s.buckets[b].writtenAt > w.s.buckets[b].readAt || to <= w.s.buckets[b].readAt)
    && (InFlight(w, b) ==> w.s.buckets[b].writtenAt > w.flight.at || to <= w.flight.at)
  }

  /** Of the listed buckets a window really names, the scheduler knows each by that name, or it does not matter. */
  ghost predicate WindowHeeded(w: Watch, owners: Owners, names: seq<string>, to: Time) {
    w.s.activityOK ==>
      forall b | b in w.s.buckets && b in Written(owners, names) :: Names(w.s.aliasOf, names, b) || Harmless(w, b, to)
  }

  /** If `added` lists the bucket of the read in flight anew, no write to it has been shown since it was begun. */
  predicate ListingHeeded(w: Watch, added: set<string>) {
    w.flight.Flying? && w.flight.alias in added && w.flight.alias !in w.s.buckets ==>
      LastWrite(w, w.flight.alias) <= w.flight.at
  }

  ghost predicate Heeded(w: Watch, owners: Owners, act: Act) {
    match act
    case Show(names, to) => WindowHeeded(w, owners, names, to)
    case List(list) => ListingHeeded(w, ListedAliases(list))
    case Recover(sizes) => ListingHeeded(w, DepKeys(sizes))
    case Pick(_, _) | Land(_) | Miss | Flag(_) | Answer(_) => true
  }

  /** A landing forgets nothing exactly when it is covered. */
  lemma LandsExactly(w: Watch, owners: Owners, now: Time, bytes: int, w': Watch)
    requires Sound(w) && Remembers(w) && WStep(w, owners, now, Land(bytes), w')
    ensures Remembers(w') <==> (w.flight.alias in w.s.buckets ==> Covers(w, w.flight.alias, w.flight.at))
  {
    if w.flight.alias in w.s.buckets {
      assert w'.begun[w.flight.alias] == w.flight.at == w'.s.buckets[w.flight.alias].readAt;
    }
  }

  /** So this is what it takes for nothing to be forgotten however the read in flight ends. */
  ghost predicate Clear(w: Watch) {
    && Remembers(w)
    && (w.flight.Flying? && w.flight.alias in w.s.buckets ==> Covers(w, w.flight.alias, w.flight.at))
  }

  lemma LosslessIsClear(w: Watch, owners: Owners)
    requires Sound(w)
    ensures Lossless(w, owners) <==> Clear(w)
  {
    if Clear(w) {
      forall bytes, w' | WStep(w, owners, w.clock, Land(bytes), w') ensures Remembers(w') {
        LandsExactly(w, owners, w.clock, bytes, w');
      }
    }
    if Lossless(w, owners) && w.flight.Flying? {
      var a, at := w.flight.alias, w.flight.at;
      var w' := w.(s := ReadOf(w.s, a, 0, at), flight := Grounded,
                   begun := if a in w.s.buckets then w.begun[a := at] else w.begun);
      assert WStep(w, owners, w.clock, Land(0), w');
      LandsExactly(w, owners, w.clock, 0, w');
    }
  }

  /** A window does not uncover a read of `b` as of `at` if it is known to name `b`, or its missing `b` is harmless. */
  lemma ShowCovers(
      w: Watch, owners: Owners, now: Time, names: seq<string>, to: Time, w': Watch, b: string, at: Time)
    requires WStep(w, owners, now, Show(names, to), w') && b in w.s.buckets && Covers(w, b, at)
    ensures w'.s.buckets.Keys == w.s.buckets.Keys && w'.s.buckets[b].readAt == w.s.buckets[b].readAt
    ensures Covers(w', b, at) <==>
      (w.s.activityOK && b in Written(owners, names) ==>
        Names(w.s.aliasOf, names, b) || w.s.buckets[b].writtenAt > at || to <= at)
  {
    hide Names, Written;
  }

  lemma ShowExactly(w: Watch, owners: Owners, now: Time, names: seq<string>, to: Time, w': Watch)
    requires Sound(w) && Clear(w) && WStep(w, owners, now, Show(names, to), w')
    ensures Clear(w') <==> WindowHeeded(w, owners, names, to)
  {
    hide Names, Written, Marked, WritesAfter;
    SoundStep(w, owners, now, Show(names, to), w');
    forall b | b in w.s.buckets
      ensures b in w'.s.buckets
      ensures b in w.begun ==> Covers(w, b, w.begun[b])
      ensures b in w.begun ==> (Covers(w', b, w.begun[b]) <==>
        (w.s.activityOK && b in Written(owners, names) ==>
          Names(w.s.aliasOf, names, b) || w.s.buckets[b].writtenAt > w.begun[b] || to <= w.begun[b]))
      ensures InFlight(w, b) ==> (Covers(w', b, w.flight.at) <==>
        (w.s.activityOK && b in Written(owners, names) ==>
          Names(w.s.aliasOf, names, b) || w.s.buckets[b].writtenAt > w.flight.at || to <= w.flight.at))
    {
      if b in w.begun { ShowCovers(w, owners, now, names, to, w', b, w.begun[b]); }
      if InFlight(w, b) { ShowCovers(w, owners, now, names, to, w', b, w.flight.at); }
      assert b in w'.s.buckets by { MarkedKeys(w.s, names, to); }
    }
    MarkedKeys(w.s, names, to);
  }

  lemma MarkedKeys(s: Sched, names: seq<string>, to: Time)
    ensures Marked(s, names, to).buckets.Keys == s.buckets.Keys
  {
    hide Names;
  }

  /** A change of the list leaves what was listed as it was, or gone, and what is new unread and unmarked. */
  lemma ListingExactly(w: Watch, w': Watch, added: set<string>)
    requires Sound(w) && Clear(w) && w'.flight == w.flight && w'.lastWrite == w.lastWrite
    requires w'.begun == StillListed(w.begun, w'.s)
    requires forall b | b in w'.s.buckets :: b in w.s.buckets || b in added
    requires forall b | b in added :: b in w'.s.buckets
    requires forall b | b in w'.s.buckets ::
      var before := Kept(w.s.buckets, b);
      w'.s.buckets[b].readAt == before.readAt && w'.s.buckets[b].writtenAt == before.writtenAt
    ensures Clear(w') <==> ListingHeeded(w, added)
  {
  }

  /** One step leaves nothing forgotten exactly when it is heeded. */
  lemma StepRemembersExactly(w: Watch, owners: Owners, now: Time, act: Act, w': Watch)
    requires Sound(w) && Lossless(w, owners) && WStep(w, owners, now, act, w')
    ensures Lossless(w', owners) <==> Heeded(w, owners, act)
  {
    hide Lossless, WindowHeeded, ListingHeeded, Clear;
    SoundStep(w, owners, now, act, w');
    LosslessIsClear(w, owners);
    LosslessIsClear(w', owners);
    match act {
      case Show(names, to) =>
        hide Sound, WStep;
        ShowExactly(w, owners, now, names, to, w');
      case List(list) =>
        hide ListedAliases, AliasMap, Sound;
        ListingExactly(w, w', ListedAliases(list));
      case Recover(sizes) =>
        hide Sound, DepKeys;
        SoundBegun(w, w');
        ListingExactly(w, w', DepKeys(sizes));
      case _ =>
        OthersForgetNothing(w, owners, now, act, w');
    }
  }

  lemma SoundBegun(w: Watch, w': Watch)
    requires Sound(w) && w.s.buckets.Keys <= w'.s.buckets.Keys
    ensures StillListed(w.begun, w'.s) == w.begun
  {
  }

  lemma OthersForgetNothing(w: Watch, owners: Owners, now: Time, act: Act, w': Watch)
    requires Sound(w) && Clear(w) && WStep(w, owners, now, act, w')
    requires !act.Show? && !act.List? && !act.Recover?
    ensures Clear(w')
  {
    if act.Land? {
      LandsExactly(w, owners, now, act.bytes, w');
    }
  }

  ghost predicate WRun(ws: seq<Watch>, owners: Owners, times: seq<Time>, acts: seq<Act>) {
    && |ws| == |acts| + 1 && |times| == |acts|
    && ws[0] == Started()
    && forall i | 0 <= i < |acts| :: WStep(ws[i], owners, times[i], acts[i], ws[i + 1])
  }

  /** Every step of the run up to state `n` is heeded. */
  ghost predicate AllHeeded(ws: seq<Watch>, owners: Owners, acts: seq<Act>, n: nat)
    requires n <= |ws| && n <= |acts|
  {
    forall i | 0 <= i < n :: Heeded(ws[i], owners, acts[i])
  }

  lemma {:induction false} Reached(ws: seq<Watch>, owners: Owners, times: seq<Time>, acts: seq<Act>, n: nat)
    requires WRun(ws, owners, times, acts) && n < |ws|
    ensures Sound(ws[n])
  {
    hide WStep;
    if n > 0 {
      Reached(ws, owners, times, acts, n - 1);
      SoundStep(ws[n - 1], owners, times[n - 1], acts[n - 1], ws[n]);
    }
  }

  /**
   Over a whole run nothing is forgotten, in any of its states or by whatever read is in flight in it, if and only if
   every window names each listed bucket as the scheduler knows it, or missing it is harmless, and no list brings back
   the bucket being read when a write to it has been shown since that read was begun.
   */
  lemma {:induction false} RunRemembersExactly(
      ws: seq<Watch>, owners: Owners, times: seq<Time>, acts: seq<Act>, n: nat)
    requires WRun(ws, owners, times, acts) && n < |ws|
    ensures AllHeeded(ws, owners, acts, n) <==> forall i | 0 <= i <= n :: Lossless(ws[i], owners)
  {
    hide WStep, Lossless, Heeded, Sound;
    if n == 0 {
      StartsLossless(owners);
    } else {
      RunRemembersExactly(ws, owners, times, acts, n - 1);
      Reached(ws, owners, times, acts, n - 1);
      if Lossless(ws[n - 1], owners) {
        StepRemembersExactly(ws[n - 1], owners, times[n - 1], acts[n - 1], ws[n]);
      }
    }
  }

  lemma StartsLossless(owners: Owners)
    ensures Lossless(Started(), owners)
  {
  }

  /**
   No shown write is forgotten: in every state of a run whose steps are heeded, if a bucket recorded as read does not
   count as changed, that read was begun no earlier than the last write of it that any window shown with the signal up
   had, which is when it is recorded as read.
   */
  lemma NoShownWriteForgotten(ws: seq<Watch>, owners: Owners, times: seq<Time>, acts: seq<Act>, n: nat, b: string)
    requires WRun(ws, owners, times, acts) && n < |ws| && AllHeeded(ws, owners, acts, n)
    requires b in ws[n].s.buckets && b in ws[n].begun && !ws[n].s.buckets[b].Changed()
    ensures LastWrite(ws[n], b) <= ws[n].begun[b] == ws[n].s.buckets[b].readAt
  {
    hide WStep, Heeded;
    Reached(ws, owners, times, acts, n);
    RunRemembersExactly(ws, owners, times, acts, n);
    assert Lossless(ws[n], owners);
  }

  // ---------- When every window is heeded ----------

  /** The list in force knows each of its buckets by its own id, and no alias as an id. */
  ghost predicate Known(s: Sched, owners: Owners) {
    forall n | Resolve(owners, n) in s.buckets :: Resolve(s.aliasOf, n) == Resolve(owners, n)
  }

  /** It does exactly when no window whatever can name a listed bucket by a name the scheduler does not know it by. */
  lemma KnownExactly(s: Sched, owners: Owners)
    ensures Known(s, owners) <==>
      forall names, b | b in s.buckets && b in Written(owners, names) :: Names(s.aliasOf, names, b)
  {
    if Known(s, owners) {
      forall names, b | b in s.buckets && b in Written(owners, names) ensures Names(s.aliasOf, names, b) {
        var i :| 0 <= i < |names| && Resolve(owners, names[i]) == b;
        assert Resolve(s.aliasOf, names[i]) == b;
      }
    }
    if forall names, b | b in s.buckets && b in Written(owners, names) :: Names(s.aliasOf, names, b) {
      forall n | Resolve(owners, n) in s.buckets ensures Resolve(s.aliasOf, n) == Resolve(owners, n) {
        assert [n][0] == n && Resolve(owners, n) in Written(owners, [n]);
        assert Names(s.aliasOf, [n], Resolve(owners, n));
      }
    }
  }

  /** Which is a finite check: each listed bucket is known by all its ids, and by its alias unless that is an id. */
  lemma KnownBucketByBucket(s: Sched, owners: Owners)
    ensures Known(s, owners) <==>
      && (forall n | n in owners && owners[n] in s.buckets :: Resolve(s.aliasOf, n) == owners[n])
      && (forall b | b in s.buckets && b !in owners :: Resolve(s.aliasOf, b) == b)
  {
    if Known(s, owners) {
      forall n | n in owners && owners[n] in s.buckets ensures Resolve(s.aliasOf, n) == owners[n] {
        assert Resolve(owners, n) == owners[n];
      }
      forall b | b in s.buckets && b !in owners ensures Resolve(s.aliasOf, b) == b {
        assert Resolve(owners, b) == b;
      }
    }
  }

  lemma KnownIsHeeded(w: Watch, owners: Owners, names: seq<string>, to: Time)
    requires Known(w.s, owners)
    ensures WindowHeeded(w, owners, names, to)
  {
    KnownExactly(w.s, owners);
  }

  /** Garage's answer is true: each id with its own alias, all ids of what it lists, and no alias used as an id. */
  ghost predicate TrueList(list: seq<GarageBucket>, owners: Owners) {
    && (forall i | 0 <= i < |list| && FirstAlias(list[i].globalAliases) != "" ::
          Resolve(owners, list[i].id) == FirstAlias(list[i].globalAliases))
    && (forall n | n in owners && owners[n] in ListedAliases(list) ::
          exists i | 0 <= i < |list| :: list[i].id == n && FirstAlias(list[i].globalAliases) != "")
    && (forall n | n in ListedAliases(list) && n !in owners :: n !in AliasMap(list))
  }

  lemma {:induction false} AliasMapTrue(list: seq<GarageBucket>, owners: Owners, n: string)
    requires forall i | 0 <= i < |list| && FirstAlias(list[i].globalAliases) != "" ::
      Resolve(owners, list[i].id) == FirstAlias(list[i].globalAliases)
    ensures n in AliasMap(list) ==> AliasMap(list)[n] == Resolve(owners, n)
    ensures (exists i | 0 <= i < |list| :: list[i].id == n && FirstAlias(list[i].globalAliases) != "") ==>
              n in AliasMap(list)
  {
    if list != [] {
      var front := list[..|list| - 1];
      assert forall i | 0 <= i < |front| :: front[i] == list[i];
      AliasMapTrue(front, owners, n);
      if i :| 0 <= i < |list| && list[i].id == n && FirstAlias(list[i].globalAliases) != "" && i < |front| {
        assert front[i].id == n;
      }
    }
  }

  /** One true list is enough for the theorem's premise, and it holds until sizes of unlisted buckets are recovered. */
  lemma KnownOnceListed(s: Sched, list: seq<GarageBucket>, owners: Owners)
    requires TrueList(list, owners)
    ensures Known(WithList(s, list), owners)
  {
    var s' := WithList(s, list);
    forall n | Resolve(owners, n) in s'.buckets
      ensures Resolve(s'.aliasOf, n) == Resolve(owners, n)
    {
      AliasMapTrue(list, owners, n);
    }
  }

  lemma KnownKept(s: Sched, e: Event, s': Sched, owners: Owners)
    requires Known(s, owners) && Step(s, e, s') && !e.Relisted?
    requires e.Recovered? ==> DepKeys(e.sizes) <= s.buckets.Keys
    ensures Known(s', owners)
  {
    assert s'.buckets.Keys == s.buckets.Keys;
  }

  // A bucket recovered from a stored size and never listed has no id: a run in which that loses a write.

  const MISS_OWNERS: Owners := map["id0" := "dep-a"]
  const MISS_BUCKET := Bucket(7, true, NEVER, NEVER, NEVER)
  const MISS_TRIED := MISS_BUCKET.(triedAt := 1)
  const MISS_READ := MISS_TRIED.(readAt := 1)

  const MISS_RECOVERED := Watch(
    Sched(map["dep-a" := MISS_BUCKET], map[], true, false, NEVER, 0), 1, Grounded, map[], map[])
  const MISS_UP := MISS_RECOVERED.(s := MISS_RECOVERED.s.(activityOK := true))
  const MISS_FLYING := MISS_UP.(
    s := MISS_UP.s.(changedTurn := false, buckets := map["dep-a" := MISS_TRIED]), flight := Flying("dep-a", 1))
  const MISS_LANDED := Watch(
    MISS_FLYING.s.(buckets := map["dep-a" := MISS_READ], lastSuccess := 1), 1, Grounded, map[], map["dep-a" := 1])
  const MISS_LOST := MISS_LANDED.(clock := 2, lastWrite := map["dep-a" := 2])

  lemma RecoverTheBucket()
    ensures WStep(Started(), MISS_OWNERS, 1, Recover(map["dep-a" := 7]), MISS_RECOVERED)
  {
    assert BUCKET_PREFIX <= "dep-a";
    assert DepKeys(map["dep-a" := 7]) == {"dep-a"};
    assert Seeded(Started().s, map["dep-a" := 7]).buckets == map["dep-a" := MISS_BUCKET];
  }

  lemma ReadTheBucket()
    ensures WStep(MISS_UP, MISS_OWNERS, 1, Pick("dep-a", false), MISS_FLYING)
    ensures WStep(MISS_FLYING, MISS_OWNERS, 1, Land(7), MISS_LANDED)
  {
    assert Tried(MISS_UP.s.buckets, "dep-a", 1) == map["dep-a" := MISS_TRIED];
    assert Turn(MISS_UP.s, 1, "dep-a", false, MISS_FLYING.s) by {
      assert !MISS_BUCKET.Changed() && "dep-a" in MISS_UP.s.buckets;
      assert IsOldest(MISS_UP.s.buckets, false, "dep-a");
    }
    assert ReadOf(MISS_FLYING.s, "dep-a", 7, 1) == MISS_LANDED.s;
  }

  lemma ShowTheWrite()
    ensures WStep(MISS_LANDED, MISS_OWNERS, 2, Show(["id0"], 2), MISS_LOST)
    ensures !WindowHeeded(MISS_LANDED, MISS_OWNERS, ["id0"], 2)
  {
    NamedOnlyById();
    assert Marked(MISS_LANDED.s, ["id0"], 2).buckets == MISS_LANDED.s.buckets;
    assert WritesAfter(MISS_LANDED, MISS_OWNERS, ["id0"], 2) == MISS_LOST.lastWrite;
    assert !Harmless(MISS_LANDED, "dep-a", 2);
  }

  /**
   The exporter starts, recovers the bucket, reads it, and is shown a later write to it by Garage's id: the write is
   dropped, and the bucket does not count as changed.
   */
  lemma UnlistedIdIsMissed() returns (ws: seq<Watch>, times: seq<Time>, acts: seq<Act>)
    ensures |acts| == 5 && acts[4] == Show(["id0"], 2) && WRun(ws, MISS_OWNERS, times, acts)
    ensures AllHeeded(ws, MISS_OWNERS, acts, 4) && !Heeded(ws[4], MISS_OWNERS, acts[4])
    ensures "dep-a" in ws[5].s.buckets && "dep-a" in ws[5].begun && !ws[5].s.buckets["dep-a"].Changed()
    ensures LastWrite(ws[5], "dep-a") == 2 && ws[5].begun["dep-a"] == 1
  {
    acts := [Recover(map["dep-a" := 7]), Flag(true), Pick("dep-a", false), Land(7), Show(["id0"], 2)];
    times := [1, 1, 1, 1, 2];
    ws := [Started(), MISS_RECOVERED, MISS_UP, MISS_FLYING, MISS_LANDED, MISS_LOST];
    RecoverTheBucket();
    ReadTheBucket();
    ShowTheWrite();
    assert WStep(MISS_RECOVERED, MISS_OWNERS, 1, Flag(true), MISS_UP);
    hide WStep, WindowHeeded;
  }

  // A bucket that vanishes and comes back while it is being read: a run in which that loses a write.

  const LISTING := [GarageBucket("id0", ["dep-a"])]
  const FRESH := map["dep-a" := UNREAD]
  const TRIED := map["dep-a" := UNREAD.(triedAt := 1)]
  const STALE := map["dep-a" := UNREAD.(bytes := 7, known := true, readAt := 1)]
  const BACK := Sched(FRESH, MISS_OWNERS, false, true, NEVER, 0)
  const FLIGHT := Flying("dep-a", 1)
  const LATE := map["dep-a" := 2]

  const BACK_LISTED := Watch(BACK.(changedTurn := true, activityOK := false), 1, Grounded, map[], map[])
  const BACK_UP := BACK_LISTED.(s := BACK.(changedTurn := true))
  const BACK_FLYING := BACK_UP.(s := BACK.(buckets := TRIED), flight := FLIGHT)
  const BACK_GONE := BACK_FLYING.(s := BACK.(buckets := map[], aliasOf := map[]))
  const BACK_SHOWN := BACK_GONE.(clock := 2, lastWrite := LATE)
  const BACK_AGAIN := BACK_SHOWN.(s := BACK)
  const BACK_LOST := Watch(BACK.(buckets := STALE, lastSuccess := 1), 2, Grounded, LATE, map["dep-a" := 1])

  lemma ListingIsOneBucket()
    ensures ListedAliases(LISTING) == {"dep-a"} && AliasMap(LISTING) == MISS_OWNERS
    ensures ListedAliases([]) == {} && AliasMap([]) == map[]
  {
    assert BUCKET_PREFIX <= "dep-a" && FirstAlias(["dep-a"]) == "dep-a";
    assert LISTING[..0] == [] && NamedBy(LISTING[0]) == {"dep-a"};
  }

  lemma ListTheBucket()
    ensures WStep(Started(), MISS_OWNERS, 1, List(LISTING), BACK_LISTED)
    ensures WStep(BACK_FLYING, MISS_OWNERS, 1, List([]), BACK_GONE)
    ensures WStep(BACK_SHOWN, MISS_OWNERS, 2, List(LISTING), BACK_AGAIN)
  {
    ListingIsOneBucket();
    assert WithListed(map[], LISTING) == FRESH;
    assert WithListed(TRIED, []) == map[];
  }

  lemma ReadAcrossTheListing()
    ensures WStep(BACK_UP, MISS_OWNERS, 1, Pick("dep-a", false), BACK_FLYING)
    ensures WStep(BACK_AGAIN, MISS_OWNERS, 2, Land(7), BACK_LOST)
  {
    assert Tried(FRESH, "dep-a", 1) == TRIED;
    assert Turn(BACK_UP.s, 1, "dep-a", false, BACK_FLYING.s) by {
      assert !UNREAD.Changed() && "dep-a" in FRESH;
      assert IsOldest(FRESH, false, "dep-a");
    }
    assert ReadOf(BACK, "dep-a", 7, 1) == BACK_LOST.s;
  }

  lemma ShowToNoBucket()
    ensures WStep(BACK_GONE, MISS_OWNERS, 2, Show(["dep-a"], 2), BACK_SHOWN)
    ensures WindowHeeded(BACK_GONE, MISS_OWNERS, ["dep-a"], 2)
  {
    assert "id0"[0] == 'i' && "dep-a"[0] == 'd';
    assert Written(MISS_OWNERS, ["dep-a"]) == {"dep-a"} by { assert ["dep-a"][0] == "dep-a"; }
    assert Marked(BACK_GONE.s, ["dep-a"], 2).buckets == map[];
    assert WritesAfter(BACK_GONE, MISS_OWNERS, ["dep-a"], 2) == LATE;
  }

  /**
   A refresh that does not find the bucket while it is being read, a window with a write to it, and a refresh that finds
   it again: the mark went nowhere, the read that comes in then is older than the write, and the bucket does not count
   as changed, though the list in force knows all its names.
   */
  lemma RelistedReadIsMissed() returns (ws: seq<Watch>, times: seq<Time>, acts: seq<Act>)
    ensures acts ==
      [List(LISTING), Flag(true), Pick("dep-a", false), List([]), Show(["dep-a"], 2), List(LISTING), Land(7)]
    ensures WRun(ws, MISS_OWNERS, times, acts) && Known(ws[7].s, MISS_OWNERS)
    ensures AllHeeded(ws, MISS_OWNERS, acts, 5) && !Heeded(ws[5], MISS_OWNERS, acts[5])
    ensures "dep-a" in ws[7].s.buckets && "dep-a" in ws[7].begun && !ws[7].s.buckets["dep-a"].Changed()
    ensures LastWrite(ws[7], "dep-a") == 2 && ws[7].begun["dep-a"] == 1
  {
    acts := [List(LISTING), Flag(true), Pick("dep-a", false), List([]), Show(["dep-a"], 2), List(LISTING), Land(7)];
    times := [1, 1, 1, 1, 2, 2, 2];
    ws := [Started(), BACK_LISTED, BACK_UP, BACK_FLYING, BACK_GONE, BACK_SHOWN, BACK_AGAIN, BACK_LOST];
    ListTheBucket();
    ReadAcrossTheListing();
    ShowToNoBucket();
    UpAndBack();
    hide WStep, WindowHeeded, ListingHeeded, Known;
  }

  lemma UpAndBack()
    ensures WStep(BACK_LISTED, MISS_OWNERS, 1, Flag(true), BACK_UP)
    ensures ListingHeeded(Started(), ListedAliases(LISTING)) && ListingHeeded(BACK_FLYING, ListedAliases([]))
    ensures !ListingHeeded(BACK_SHOWN, ListedAliases(LISTING))
    ensures Known(BACK_LOST.s, MISS_OWNERS)
  {
    ListingIsOneBucket();
  }

  lemma NamedOnlyById()
    ensures Written(map["id0" := "dep-a"], ["id0"]) == {"dep-a"}
    ensures !Names(map[], ["id0"], "dep-a")
  {
    assert ["id0"][0] == "id0" && "id0"[0] == 'i' && "dep-a"[0] == 'd';
  }
}
