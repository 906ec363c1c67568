/**
 The exporter's read scheduler: which bucket's size is read next.

 `Sched` is the state as a value and `Step` the effect of each operation on it.
 `State` is the exporter's object, whose methods are proved to take exactly those
 steps. The theorems are about whole runs of steps in any order.
 */
module Scheduler {
  import opened Text

  type Time = int

  /** The zero time, which every clock reading is after. */
  const NEVER: Time := 0

  const BUCKET_PREFIX := "dep-"

  datatype Bucket = Bucket(bytes: int, known: bool, readAt: Time, triedAt: Time, writtenAt: Time) {
    predicate Changed() {
      readAt < writtenAt
    }
  }

  const UNREAD := Bucket(0, false, NEVER, NEVER, NEVER)

  datatype GarageBucket = GarageBucket(id: string, globalAliases: seq<string>)

  type Buckets = map<string, Bucket>

  datatype Sched = Sched(
    buckets: Buckets,
    aliasOf: map<string, string>,
    changedTurn: bool,
    activityOK: bool,
    lastSuccess: Time,
    readErrors: nat)

  // ---------- What each operation does ----------

  /** The first of the aliases that names a deployment, or "". */
  function FirstAlias(aliases: seq<string>): (alias: string)
    ensures alias == "" || (BUCKET_PREFIX <= alias && alias in aliases)
    ensures alias == "" ==> forall i | 0 <= i < |aliases| :: !(BUCKET_PREFIX <= aliases[i])
  {
    if aliases == [] then ""
    else if BUCKET_PREFIX <= aliases[0] then aliases[0]
    else FirstAlias(aliases[1..])
  }

  function NamedBy(b: GarageBucket): set<string> {
    {FirstAlias(b.globalAliases)} - {""}
  }

  function ListedAliases(list: seq<GarageBucket>): set<string> {
    if list == [] then {}
    else ListedAliases(list[..|list| - 1]) + NamedBy(list[|list| - 1])
  }

  /** The alias each Garage id stands for, a later listing of the same id winning. */
  function AliasMap(list: seq<GarageBucket>): map<string, string> {
    if list == [] then map[]
    else
      var last := list[|list| - 1];
      var before := AliasMap(list[..|list| - 1]);
      var alias := FirstAlias(last.globalAliases);
      if alias == "" then before else before[last.id := alias]
  }

  function Kept(bs: Buckets, alias: string): Bucket {
    if alias in bs then bs[alias] else UNREAD
  }

  function Only(bs: Buckets, keep: set<string>): Buckets {
    map a | a in bs && a in keep :: bs[a]
  }

  function WithListed(bs: Buckets, list: seq<GarageBucket>): Buckets {
    map a | a in ListedAliases(list) :: Kept(bs, a)
  }

  function WithList(s: Sched, list: seq<GarageBucket>): Sched {
    s.(buckets := WithListed(s.buckets, list), aliasOf := AliasMap(list))
  }

  function SeededBucket(b: Bucket, bytes: int): Bucket {
    if b.known then b else b.(bytes := bytes, known := true)
  }

  function DepKeys(sizes: map<string, int>): set<string> {
    set a | a in sizes && BUCKET_PREFIX <= a
  }

  function Seeded(s: Sched, sizes: map<string, int>): Sched {
    s.(buckets := map a | a in s.buckets.Keys + DepKeys(sizes) ::
      if a in DepKeys(sizes) then SeededBucket(Kept(s.buckets, a), sizes[a]) else s.buckets[a])
  }

  function Resolve(aliasOf: map<string, string>, name: string): string {
    if name in aliasOf then aliasOf[name] else name
  }

  predicate Names(aliasOf: map<string, string>, names: seq<string>, alias: string) {
    exists i | 0 <= i < |names| :: Resolve(aliasOf, names[i]) == alias
  }

  function WrittenAt(b: Bucket, at: Time): Bucket {
    if at > b.writtenAt then b.(writtenAt := at) else b
  }

  function Marked(s: Sched, names: seq<string>, at: Time): Sched {
    if !s.activityOK then s
    else s.(buckets := map a | a in s.buckets ::
      if Names(s.aliasOf, names, a) then WrittenAt(s.buckets[a], at) else s.buckets[a])
  }

  function ReadOf(s: Sched, alias: string, bytes: int, at: Time): Sched {
    var s' := s.(lastSuccess := at);
    if alias in s.buckets then
      s'.(buckets := s.buckets[alias := s.buckets[alias].(bytes := bytes, known := true, readAt := at)])
    else s'
  }

  /** Bucket `a` was tried longer ago than bucket `b`, an equal time being decided by alias. */
  predicate Before(bs: Buckets, a: string, b: string)
    requires a in bs && b in bs
  {
    bs[a].triedAt < bs[b].triedAt || (bs[a].triedAt == bs[b].triedAt && Less(a, b))
  }

  predicate IsCandidate(bs: Buckets, onlyChanged: bool, a: string) {
    a in bs && (onlyChanged ==> bs[a].Changed())
  }

  ghost predicate IsOldest(bs: Buckets, onlyChanged: bool, pick: string) {
    && IsCandidate(bs, onlyChanged, pick)
    && forall a | IsCandidate(bs, onlyChanged, a) && a != pick :: Before(bs, pick, a)
  }

  predicate AnyChanged(bs: Buckets) {
    exists a | a in bs :: bs[a].Changed()
  }

  function Tried(bs: Buckets, alias: string, now: Time): Buckets
    requires alias in bs
  {
    bs[alias := bs[alias].(triedAt := now)]
  }

  /** One turn: whether it goes to a changed bucket, and which bucket is tried. */
  ghost predicate Turn(s: Sched, now: Time, alias: string, changed: bool, s': Sched) {
    if s.buckets == map[] then
      alias == "" && !changed && s' == s.(changedTurn := !s.changedTurn)
    else
      && changed == (s.changedTurn && s.activityOK && AnyChanged(s.buckets))
      && IsOldest(s.buckets, changed, alias)
      && s' == s.(changedTurn := !s.changedTurn, buckets := Tried(s.buckets, alias, now))
  }

  datatype Event =
    | Picked(now: Time, alias: string, changed: bool)
    | Relisted(list: seq<GarageBucket>)
    | Recovered(sizes: map<string, int>)
    | Shown(names: seq<string>, to: Time)
    | Signal(ok: bool)
    | Landed(alias: string, bytes: int, at: Time)
    | Failed
    | Answered(at: Time)

  ghost predicate Step(s: Sched, e: Event, s': Sched) {
    match e
    case Picked(now, alias, changed) => Turn(s, now, alias, changed, s')
    case Relisted(list) => s' == WithList(s, list)
    case Recovered(sizes) => s' == Seeded(s, sizes)
    case Shown(names, to) => s' == Marked(s, names, to)
    case Signal(ok) => s' == s.(activityOK := ok)
    case Landed(alias, bytes, at) => s' == ReadOf(s, alias, bytes, at)
    case Failed => s' == s.(readErrors := s.readErrors + 1)
    case Answered(at) => s' == if at > s.lastSuccess then s.(lastSuccess := at) else s
  }

  ghost predicate Run(ss: seq<Sched>, es: seq<Event>) {
    && |ss| == |es| + 1
    && forall i | 0 <= i < |es| :: Step(ss[i], es[i], ss[i + 1])
  }

  // ---------- The object ----------

  /** Every listed name is a deployment bucket's alias: the platform's own buckets are never read. */
  ghost predicate OnlyDeployments(bs: Buckets) {
    forall a | a in bs :: BUCKET_PREFIX <= a
  }

  method DeploymentAlias(b: GarageBucket) returns (alias: string)
    ensures alias == FirstAlias(b.globalAliases)
  {
    for i := 0 to |b.globalAliases|
      invariant FirstAlias(b.globalAliases) == FirstAlias(b.globalAliases[i..])
    {
      if BUCKET_PREFIX <= b.globalAliases[i] {
        return b.globalAliases[i];
      }
    }
    return "";
  }

  class State {
    var buckets: Buckets
    var aliasOf: map<string, string>
    var changedTurn: bool
    var activityOK: bool
    var lastSuccess: Time
    var readErrors: nat

    ghost function Abs(): Sched
      reads this
    {
      Sched(buckets, aliasOf, changedTurn, activityOK, lastSuccess, readErrors)
    }

    ghost predicate Valid()
      reads this
    {
      OnlyDeployments(buckets)
    }

    constructor ()
      ensures Valid()
      ensures Abs() == Sched(map[], map[], true, false, NEVER, 0)
    {
      buckets, aliasOf := map[], map[];
      changedTurn, activityOK := true, false;
      lastSuccess, readErrors := NEVER, 0;
    }

    method SetBuckets(list: seq<GarageBucket>)
      requires Valid()
      modifies this`buckets, this`aliasOf
      ensures Valid()
      ensures Step(old(Abs()), Relisted(list), Abs())
    {
      var bs := buckets;
      var present: set<string> := {};
      var ids: map<string, string> := map[];
      for i := 0 to |list|
        invariant unchanged(this)
        invariant present == ListedAliases(list[..i])
        invariant ids == AliasMap(list[..i])
        invariant bs.Keys == buckets.Keys + present
        invariant forall a | a in bs :: bs[a] == Kept(buckets, a)
      {
        var alias := DeploymentAlias(list[i]);
        ListedSnoc(list, i);
        AliasMapSnoc(list, i);
        if alias != "" {
          present := present + {alias};
          ids := ids[list[i].id := alias];
          if alias !in bs {
            bs := bs[alias := UNREAD];
          }
        }
      }
      assert list[..|list|] == list;
      DropVanished(buckets, bs, list);
      ListedAreDeployments(list);
      buckets := Only(bs, present);
      aliasOf := ids;
    }

    method Seed(sizes: map<string, int>)
      requires Valid()
      modifies this`buckets
      ensures Valid()
      ensures Step(old(Abs()), Recovered(sizes), Abs())
    {
      ghost var was := buckets;
      var todo := sizes.Keys;
      while todo != {}
        invariant todo <= sizes.Keys
        invariant buckets.Keys == was.Keys + (DepKeys(sizes) - todo)
        invariant forall a | a in buckets ::
          buckets[a] == if a in DepKeys(sizes) - todo then SeededBucket(Kept(was, a), sizes[a]) else was[a]
      {
        var alias :| alias in todo;
        todo := todo - {alias};
        if BUCKET_PREFIX <= alias {
          var b := if alias in buckets then buckets[alias] else UNREAD;
          if !b.known {
            b := b.(bytes := sizes[alias], known := true);
          }
          buckets := buckets[alias := b];
        }
      }
      assert Abs().buckets == Seeded(old(Abs()), sizes).buckets;
    }

    method MarkWritten(names: seq<string>, at: Time)
      requires Valid()
      modifies this`buckets
      ensures Valid()
      ensures Step(old(Abs()), Shown(names, at), Abs())
    {
      if !activityOK {
        return;
      }
      ghost var was := buckets;
      for i := 0 to |names|
        invariant buckets.Keys == was.Keys
        invariant forall a | a in buckets ::
          buckets[a] == if Names(aliasOf, names[..i], a) then WrittenAt(was[a], at) else was[a]
      {
        var name := names[i];
        if name in aliasOf {
          name := aliasOf[name];
        }
        NamesSnoc(aliasOf, names, i);
        if name in buckets && at > buckets[name].writtenAt {
          buckets := buckets[name := buckets[name].(writtenAt := at)];
        }
      }
      assert names[..|names|] == names;
      assert Abs().buckets == Marked(old(Abs()), names, at).buckets;
    }

    method SetActivityOK(ok: bool)
      requires Valid()
      modifies this`activityOK
      ensures Valid()
      ensures Step(old(Abs()), Signal(ok), Abs())
    {
      activityOK := ok;
    }

    method Next(now: Time) returns (alias: string, changed: bool)
      requires Valid()
      modifies this`changedTurn, this`buckets
      ensures Valid()
      ensures Step(old(Abs()), Picked(now, alias, changed), Abs())
      ensures alias == "" <==> buckets == map[]
    {
      var turn := changedTurn && activityOK;
      changedTurn := !changedTurn;
      alias, changed := "", false;
      if turn {
        alias := Oldest(true);
        changed := alias != "";
      }
      if alias == "" {
        alias := Oldest(false);
      }
      if alias != "" {
        buckets := Tried(buckets, alias, now);
      }
    }

    method Oldest(onlyChanged: bool) returns (pick: string)
      requires Valid()
      ensures pick == "" ==> forall a | a in buckets :: !IsCandidate(buckets, onlyChanged, a)
      ensures pick != "" ==> IsOldest(buckets, onlyChanged, pick)
    {
      pick := "";
      var at := NEVER;
      var todo := buckets.Keys;
      while todo != {}
        invariant todo <= buckets.Keys
        invariant pick == "" ==> forall a | a in buckets.Keys - todo :: !IsCandidate(buckets, onlyChanged, a)
        invariant pick != "" ==> IsCandidate(buckets, onlyChanged, pick) && pick !in todo && at == buckets[pick].triedAt
        invariant pick != "" ==>
          forall a | a in buckets.Keys - todo && IsCandidate(buckets, onlyChanged, a) && a != pick ::
            Before(buckets, pick, a)
      {
        var alias :| alias in todo;
        todo := todo - {alias};
        var b := buckets[alias];
        if onlyChanged && !b.Changed() {
          continue;
        }
        if pick == "" || b.triedAt < at || (b.triedAt == at && Less(alias, pick)) {
          if pick != "" {
            BeforeAll(buckets, alias, pick);
          }
          pick, at := alias, b.triedAt;
        } else {
          LessTotal(alias, pick);
        }
      }
    }

    method Read(alias: string, bytes: int, at: Time)
      requires Valid()
      modifies this`lastSuccess, this`buckets
      ensures Valid()
      ensures Step(old(Abs()), Landed(alias, bytes, at), Abs())
    {
      lastSuccess := at;
      if alias in buckets {
        buckets := buckets[alias := buckets[alias].(bytes := bytes, known := true, readAt := at)];
      }
    }

    method ReadFailed()
      requires Valid()
      modifies this`readErrors
      ensures Valid()
      ensures Step(old(Abs()), Failed, Abs())
    {
      readErrors := readErrors + 1;
    }

    method Succeeded(at: Time)
      requires Valid()
      modifies this`lastSuccess
      ensures Valid()
      ensures Step(old(Abs()), Answered(at), Abs())
    {
      if at > lastSuccess {
        lastSuccess := at;
      }
    }
  }

  lemma DropVanished(was: Buckets, bs: Buckets, list: seq<GarageBucket>)
    requires bs.Keys == was.Keys + ListedAliases(list)
    requires forall a | a in bs :: bs[a] == Kept(was, a)
    ensures Only(bs, ListedAliases(list)) == WithListed(was, list)
  {
  }

  lemma {:induction false} ListedAreDeployments(list: seq<GarageBucket>)
    ensures forall a | a in ListedAliases(list) :: BUCKET_PREFIX <= a
  {
    if list != [] {
      ListedAreDeployments(list[..|list| - 1]);
    }
  }

  lemma ListedSnoc(list: seq<GarageBucket>, i: nat)
    requires i < |list|
    ensures ListedAliases(list[..i + 1]) == ListedAliases(list[..i]) + NamedBy(list[i])
  {
    assert list[..i + 1][..i] == list[..i];
  }

  /** The listed aliases are exactly the first `dep-` aliases of the listed buckets. */
  lemma {:induction false} ListedExactly(list: seq<GarageBucket>, a: string)
    ensures a in ListedAliases(list) <==>
      a != "" && exists i | 0 <= i < |list| :: FirstAlias(list[i].globalAliases) == a
  {
    if list != [] {
      var front := list[..|list| - 1];
      ListedExactly(front, a);
      assert forall i | 0 <= i < |front| :: front[i] == list[i];
      if i :| 0 <= i < |list| && FirstAlias(list[i].globalAliases) == a && i < |front| {
        assert FirstAlias(front[i].globalAliases) == a;
      }
    }
  }

  /** It is the first of the aliases with the prefix. */
  lemma {:induction false} FirstAliasIsFirst(aliases: seq<string>, i: nat)
    requires i < |aliases| && BUCKET_PREFIX <= aliases[i]
    requires forall k | 0 <= k < i :: !(BUCKET_PREFIX <= aliases[k])
    ensures FirstAlias(aliases) == aliases[i]
  {
    if i > 0 {
      assert forall k | 0 <= k < i - 1 :: aliases[1..][k] == aliases[k + 1];
      FirstAliasIsFirst(aliases[1..], i - 1);
    }
  }

  /** An id stands for the deployment alias it was last listed with. */
  lemma {:induction false} AliasMapIsLast(list: seq<GarageBucket>, i: nat)
    requires i < |list| && FirstAlias(list[i].globalAliases) != ""
    requires forall k | i < k < |list| && list[k].id == list[i].id :: FirstAlias(list[k].globalAliases) == ""
    ensures list[i].id in AliasMap(list) && AliasMap(list)[list[i].id] == FirstAlias(list[i].globalAliases)
  {
    var front := list[..|list| - 1];
    if i < |front| {
      assert forall k | 0 <= k < |front| :: front[k] == list[k];
      AliasMapIsLast(front, i);
    }
  }

  lemma AliasMapSnoc(list: seq<GarageBucket>, i: nat)
    requires i < |list|
    ensures AliasMap(list[..i + 1]) ==
      var alias := FirstAlias(list[i].globalAliases);
      if alias == "" then AliasMap(list[..i]) else AliasMap(list[..i])[list[i].id := alias]
  {
    assert list[..i + 1][..i] == list[..i];
  }

  lemma NamesSnoc(aliasOf: map<string, string>, names: seq<string>, i: nat)
    requires i < |names|
    ensures forall a :: Names(aliasOf, names[..i + 1], a) <==>
      Names(aliasOf, names[..i], a) || a == Resolve(aliasOf, names[i])
  {
    var longer, shorter := names[..i + 1], names[..i];
    assert forall k | 0 <= k < i :: longer[k] == shorter[k];
    assert longer[i] == names[i];
    forall a
      ensures Names(aliasOf, longer, a) <==> Names(aliasOf, shorter, a) || a == Resolve(aliasOf, names[i])
    {
      if Names(aliasOf, shorter, a) {
        var k :| 0 <= k < i && Resolve(aliasOf, shorter[k]) == a;
        assert Resolve(aliasOf, longer[k]) == a;
      }
      if a == Resolve(aliasOf, names[i]) {
        assert Resolve(aliasOf, longer[i]) == a;
      }
    }
  }

  // ---------- What is published ----------

  /** The event gives `b` this size: a read of it lands while it is listed, or a size is recovered that it lacked. */
  predicate GivesSize(s: Sched, e: Event, b: string, bytes: int) {
    || (e.Landed? && e.alias == b && e.bytes == bytes && b in s.buckets)
    || (e.Recovered? && BUCKET_PREFIX <= b && b in e.sizes && e.sizes[b] == bytes
        && (b in s.buckets ==> !s.buckets[b].known))
  }

  predicate HasSize(s: Sched, b: string) {
    b in s.buckets && s.buckets[b].known
  }

  lemma SizeStep(s: Sched, e: Event, s': Sched, b: string)
    requires Step(s, e, s')
    ensures forall bytes | GivesSize(s, e, b, bytes) :: HasSize(s', b) && s'.buckets[b].bytes == bytes
    ensures HasSize(s', b) && !GivesSize(s, e, b, s'.buckets[b].bytes) ==>
              HasSize(s, b) && s'.buckets[b].bytes == s.buckets[b].bytes && !(e.Landed? && e.alias == b)
  {
  }

  /**
   A bucket's size is the one read of it last, or recovered if it has not been read, since it was listed; and it has
   none until then.
   */
  lemma {:induction false} SizeIsLatest(ss: seq<Sched>, es: seq<Event>, n: nat, b: string)
    requires Run(ss, es) && ss[0].buckets == map[] && n < |ss| && HasSize(ss[n], b)
    ensures exists k | 0 <= k < n ::
      && GivesSize(ss[k], es[k], b, ss[n].buckets[b].bytes)
      && forall m | k < m < n :: HasSize(ss[m], b) && !(es[m].Landed? && es[m].alias == b)
  {
    SizeStep(ss[n - 1], es[n - 1], ss[n], b);
    if GivesSize(ss[n - 1], es[n - 1], b, ss[n].buckets[b].bytes) {
      assert 0 <= n - 1 < n;
    } else {
      SizeIsLatest(ss, es, n - 1, b);
    }
  }

  /** When Garage is known to have answered. */
  predicate AnsweredAt(e: Event, at: Time) {
    (e.Landed? || e.Answered?) && e.at == at
  }

  /** The last success published is that of the last read, or of a later answer since. */
  lemma {:induction false} LastSuccessIsReal(ss: seq<Sched>, es: seq<Event>, n: nat)
    requires Run(ss, es) && n < |ss|
    ensures ss[n].lastSuccess == ss[0].lastSuccess || exists k | 0 <= k < n :: AnsweredAt(es[k], ss[n].lastSuccess)
    ensures forall k | 0 <= k < n && (es[k].Landed? || es[k].Answered?)
                     && (forall m | k < m < n :: !es[m].Landed?) :: es[k].at <= ss[n].lastSuccess
  {
    if n > 0 {
      LastSuccessIsReal(ss, es, n - 1);
      assert Step(ss[n - 1], es[n - 1], ss[n]);
    }
  }

  function Failures(es: seq<Event>): nat {
    if es == [] then 0 else Failures(es[..|es| - 1]) + if es[|es| - 1].Failed? then 1 else 0
  }

  /** Each failed read is counted once. */
  lemma {:induction false} ErrorsAreFailures(ss: seq<Sched>, es: seq<Event>, n: nat)
    requires Run(ss, es) && n < |ss|
    ensures ss[n].readErrors == ss[0].readErrors + Failures(es[..n])
  {
    if n > 0 {
      ErrorsAreFailures(ss, es, n - 1);
      assert Step(ss[n - 1], es[n - 1], ss[n]);
      assert es[..n][..n - 1] == es[..n - 1];
    }
  }

  /** Turns alternate by picks alone, the signal moves by itself alone, and ids are learned from lists alone. */
  lemma FieldsStay(s: Sched, e: Event, s': Sched)
    requires Step(s, e, s')
    ensures !e.Picked? ==> s'.changedTurn == s.changedTurn
    ensures if e.Signal? then s'.activityOK == e.ok else s'.activityOK == s.activityOK
    ensures !e.Relisted? ==> s'.aliasOf == s.aliasOf
    ensures e.Signal? || e.Failed? || e.Answered? ==> s'.buckets == s.buckets
  {
  }

  /** A write is marked on the bucket its name stands for, unless the signal is down or the mark is as late already. */
  lemma MarksExactly(s: Sched, names: seq<string>, at: Time, b: string)
    requires b in s.buckets
    ensures var m := Marked(s, names, at);
      var named := exists i | 0 <= i < |names| ::
                     if names[i] in s.aliasOf then s.aliasOf[names[i]] == b else names[i] == b;
      && m == s.(buckets := m.buckets) && m.buckets.Keys == s.buckets.Keys
      && m.buckets[b] == if s.activityOK && named && s.buckets[b].writtenAt < at then s.buckets[b].(writtenAt := at)
                         else s.buckets[b]
  {
    assert forall i | 0 <= i < |names| ::
        Resolve(s.aliasOf, names[i]) == b <==>
        if names[i] in s.aliasOf then s.aliasOf[names[i]] == b else names[i] == b;
  }

  // ---------- The order of reads ----------

  lemma BeforeTransitive(bs: Buckets, a: string, b: string, c: string)
    requires a in bs && b in bs && c in bs
    requires Before(bs, a, b) && Before(bs, b, c)
    ensures Before(bs, a, c)
  {
    if bs[a].triedAt == bs[b].triedAt == bs[c].triedAt {
      LessTransitive(a, b, c);
    }
  }

  lemma BeforeAll(bs: Buckets, a: string, b: string)
    requires a in bs && b in bs && Before(bs, a, b)
    ensures forall c | c in bs && Before(bs, b, c) :: Before(bs, a, c)
  {
    forall c | c in bs && Before(bs, b, c)
      ensures Before(bs, a, c)
    {
      BeforeTransitive(bs, a, b, c);
    }
  }

  /**
   A turn is a changed bucket's only if it is its turn to be, the signal is up and the bucket counts as changed; with
   the signal down, as on every other turn, it is the oldest of all that is read. Turns alternate.
   */
  lemma TurnsAlternate(s: Sched, now: Time, alias: string, changed: bool, s': Sched)
    requires Step(s, Picked(now, alias, changed), s') && s.buckets != map[]
    ensures changed ==> s.changedTurn && s.activityOK && s.buckets[alias].readAt < s.buckets[alias].writtenAt
    ensures !changed ==> forall a | a in s.buckets :: s.buckets[alias].triedAt <= s.buckets[a].triedAt
    ensures s.changedTurn && s.activityOK && (exists a | a in s.buckets :: s.buckets[a].Changed()) ==> changed
    ensures s'.changedTurn == !s.changedTurn && s'.buckets.Keys == s.buckets.Keys
    ensures alias in s'.buckets && s'.buckets[alias].triedAt == now
  {
    if !changed {
      forall a | a in s.buckets ensures s.buckets[alias].triedAt <= s.buckets[a].triedAt {
        assert IsCandidate(s.buckets, false, a);
      }
    }
  }

  /** The buckets a turn would reach before `b`. */
  function Ahead(bs: Buckets, b: string): set<string>
    requires b in bs
  {
    set a | a in bs && Before(bs, a, b)
  }

  function Added(s: Sched, s': Sched): set<string> {
    s'.buckets.Keys - s.buckets.Keys
  }

  /** How many buckets a run adds to the list, in all. */
  function Adds(ss: seq<Sched>): nat {
    if |ss| < 2 then 0 else |Added(ss[0], ss[1])| + Adds(ss[1..])
  }

  function Picks(es: seq<Event>): nat {
    if es == [] then 0 else (if es[0].Picked? then 1 else 0) + Picks(es[1..])
  }

  ghost predicate Returned(es: seq<Event>, b: string) {
    exists i | 0 <= i < |es| :: es[i].Picked? && es[i].alias == b
  }

  /** A turn at `now` that picks `c` puts it behind `b`: `b` was tried earlier, or just then under a lesser alias. */
  predicate Yields(bs: Buckets, c: string, b: string, now: Time)
    requires b in bs
  {
    bs[b].triedAt < now || (bs[b].triedAt == now && Less(b, c))
  }

  /** Every turn of the run that passes over `b` does. */
  ghost predicate AllYield(ss: seq<Sched>, es: seq<Event>, b: string) {
    |ss| == |es| + 1 &&
    forall i | 0 <= i < |es| && es[i].Picked? && es[i].alias != b ::
      b in ss[i].buckets && Yields(ss[i].buckets, es[i].alias, b, es[i].now)
  }

  /** No event but a turn changes when a bucket was last tried; a new bucket was never tried. */
  lemma TriedFrame(s: Sched, e: Event, s': Sched, a: string)
    requires Step(s, e, s') && a in s'.buckets && a in s.buckets
    requires e.Picked? ==> e.alias != a
    ensures s'.buckets[a].triedAt == s.buckets[a].triedAt
  {
  }

  /** A bucket tried at `now` is behind `b` exactly when it yields to it. */
  lemma YieldsTo(bs: Buckets, c: string, b: string, now: Time)
    requires b in bs && c in bs && b != c
    ensures c !in Ahead(Tried(bs, c, now), b) <==> Yields(bs, c, b, now)
  {
    LessTotal(b, c);
    if Less(b, c) && Less(c, b) {
      LessTransitive(b, c, b);
      LessIrreflexive(b);
    }
  }

  /** A turn that passes over `b` sends whatever it picked behind `b`, and puts nothing ahead of it. */
  lemma PassedOver(s: Sched, e: Event, s': Sched, b: string)
    requires Step(s, e, s') && b in s.buckets && b in s'.buckets
    requires e.Picked? ==> e.alias != b && Yields(s.buckets, e.alias, b, e.now)
    ensures Ahead(s'.buckets, b) <= Ahead(s.buckets, b) + Added(s, s')
    ensures e.Picked? ==> Added(s, s') == {} && e.alias !in Ahead(s'.buckets, b)
  {
    if e.Picked? {
      YieldsTo(s.buckets, e.alias, b, e.now);
    }
    forall a | a in Ahead(s'.buckets, b) && a in s.buckets
      ensures a in Ahead(s.buckets, b)
    {
      TriedFrame(s, e, s', b);
      if !e.Picked? || a != e.alias {
        TriedFrame(s, e, s', a);
      }
    }
  }

  lemma AheadSizes(s: Sched, e: Event, s': Sched, b: string)
    requires Step(s, e, s') && b in s.buckets && b in s'.buckets
    requires e.Picked? ==> e.alias != b && Yields(s.buckets, e.alias, b, e.now)
    ensures |Ahead(s'.buckets, b)| <= |Ahead(s.buckets, b)| + |Added(s, s')|
    ensures e.Picked? && e.alias in Ahead(s.buckets, b) ==> |Ahead(s'.buckets, b)| < |Ahead(s.buckets, b)|
  {
    PassedOver(s, e, s', b);
    SubsetSize(Ahead(s'.buckets, b), Ahead(s.buckets, b) + Added(s, s'));
    if e.Picked? && e.alias in Ahead(s.buckets, b) {
      SubsetSize(Ahead(s'.buckets, b), Ahead(s.buckets, b) - {e.alias});
    }
  }

  /** What is left of `b`'s wait: two turns for each bucket ahead of it, one more while the turn is a changed one's. */
  function Wait(s: Sched, b: string): nat
    requires b in s.buckets
  {
    2 * |Ahead(s.buckets, b)| + if s.changedTurn then 1 else 0
  }

  /** Every turn that passes over `b` shortens its wait; only a bucket being added lengthens it, by two. */
  lemma WaitShortens(s: Sched, e: Event, s': Sched, b: string)
    requires Step(s, e, s') && b in s.buckets && b in s'.buckets
    requires e.Picked? ==> e.alias != b && Yields(s.buckets, e.alias, b, e.now)
    ensures Wait(s', b) + (if e.Picked? then 1 else 0) <= Wait(s, b) + 2 * |Added(s, s')|
  {
    AheadSizes(s, e, s', b);
    if e.Picked? {
      PassedOver(s, e, s', b);
      if !e.changed {
        assert IsCandidate(s.buckets, false, b);
      }
    }
  }

  lemma {:induction false} PassedOverTurns(ss: seq<Sched>, es: seq<Event>, b: string)
    requires Run(ss, es) && AllYield(ss, es, b)
    requires forall i | 0 <= i < |ss| :: b in ss[i].buckets
    requires !Returned(es, b)
    ensures Picks(es) <= Wait(ss[0], b) + 2 * Adds(ss)
  {
    if es != [] {
      var e, ss', es' := es[0], ss[1..], es[1..];
      assert Step(ss[0], e, ss[1]) && (e.Picked? ==> e.alias != b);
      WaitShortens(ss[0], e, ss[1], b);
      assert forall i | 0 <= i < |es'| :: es'[i] == es[i + 1] && ss'[i] == ss[i + 1];
      PassedOverTurns(ss', es', b);
    }
  }

  /**
   No bucket starves. Whatever is added, dropped, written to, read or fails to be read meanwhile, and whichever
   kind of turn comes first, a bucket that stays listed is picked within twice as many turns as the buckets ahead
   of it, those added meanwhile and itself, as long as what is picked instead of it each time yields to it.
   */
  lemma NoStarvation(ss: seq<Sched>, es: seq<Event>, b: string)
    requires Run(ss, es) && AllYield(ss, es, b)
    requires forall i | 0 <= i < |ss| :: b in ss[i].buckets
    requires Picks(es) >= 2 * (|Ahead(ss[0].buckets, b)| + 1 + Adds(ss))
    ensures Returned(es, b)
  {
    if !Returned(es, b) {
      PassedOverTurns(ss, es, b);
    }
  }

  /** With nothing added, that is at most twice the number of buckets. */
  lemma StalenessBound(ss: seq<Sched>, es: seq<Event>, b: string)
    requires Run(ss, es) && AllYield(ss, es, b)
    requires forall i | 0 <= i < |ss| :: b in ss[i].buckets
    requires Adds(ss) == 0 && Picks(es) >= 2 * |ss[0].buckets|
    ensures Returned(es, b)
  {
    var bs := ss[0].buckets;
    LessIrreflexive(b);
    SubsetSize(Ahead(bs, b), bs.Keys - {b});
    NoStarvation(ss, es, b);
  }

  /** While the activity signal stays up, every turn that passes over a changed bucket picks one ahead of it. */
  lemma {:induction false} ChangedPassedOver(ss: seq<Sched>, es: seq<Event>, b: string)
    requires Run(ss, es) && AllYield(ss, es, b)
    requires forall i | 0 <= i < |ss| :: b in ss[i].buckets
    requires forall i | 0 <= i < |es| :: es[i].Picked? ==> ss[i].activityOK && ss[i].buckets[b].Changed()
    requires !Returned(es, b)
    ensures Picks(es) <= |Ahead(ss[0].buckets, b)| + Adds(ss)
  {
    if es != [] {
      var e, ss', es' := es[0], ss[1..], es[1..];
      assert Step(ss[0], e, ss[1]) && (e.Picked? ==> e.alias != b);
      AheadSizes(ss[0], e, ss[1], b);
      if e.Picked? {
        assert IsCandidate(ss[0].buckets, e.changed, b);
        PassedOver(ss[0], e, ss[1], b);
      }
      assert forall i | 0 <= i < |es'| :: es'[i] == es[i + 1] && ss'[i] == ss[i + 1];
      ChangedPassedOver(ss', es', b);
    }
  }

  /** Changed buckets jump the queue: half the wait of `NoStarvation`. */
  lemma ChangedComesSooner(ss: seq<Sched>, es: seq<Event>, b: string)
    requires Run(ss, es) && AllYield(ss, es, b)
    requires forall i | 0 <= i < |ss| :: b in ss[i].buckets
    requires forall i | 0 <= i < |es| :: es[i].Picked? ==> ss[i].activityOK && ss[i].buckets[b].Changed()
    requires Picks(es) >= |Ahead(ss[0].buckets, b)| + 1 + Adds(ss)
    ensures Returned(es, b)
  {
    if !Returned(es, b) {
      ChangedPassedOver(ss, es, b);
    }
  }

  // ---------- When what is picked yields ----------

  /** Each turn's time is later than `last` and than the turn before it. */
  predicate Increasing(es: seq<Event>, last: Time) {
    es == [] ||
    if es[0].Picked? then last < es[0].now && Increasing(es[1..], es[0].now)
    else Increasing(es[1..], last)
  }

  ghost predicate TriedBy(s: Sched, last: Time) {
    NEVER <= last && forall a | a in s.buckets :: s.buckets[a].triedAt <= last
  }

  lemma TriedByStep(s: Sched, e: Event, s': Sched, last: Time)
    requires Step(s, e, s') && TriedBy(s, last)
    requires e.Picked? ==> last < e.now
    ensures TriedBy(s', if e.Picked? then e.now else last)
  {
  }

  /** At every turn, if each comes at a later time than the one before. */
  lemma {:induction false} IncreasingTimesYield(ss: seq<Sched>, es: seq<Event>, b: string, last: Time)
    requires Run(ss, es) && TriedBy(ss[0], last) && Increasing(es, last)
    requires forall i | 0 <= i < |ss| :: b in ss[i].buckets
    ensures AllYield(ss, es, b)
  {
    if es != [] {
      var e, ss', es' := es[0], ss[1..], es[1..];
      assert Step(ss[0], e, ss[1]);
      TriedByStep(ss[0], e, ss[1], last);
      assert forall i | 0 <= i < |es'| :: es'[i] == es[i + 1] && ss'[i] == ss[i + 1];
      IncreasingTimesYield(ss', es', b, if e.Picked? then e.now else last);
      forall i | 0 < i < |es| && es[i].Picked? && es[i].alias != b
        ensures Yields(ss[i].buckets, es[i].alias, b, es[i].now)
      {
        assert es'[i - 1] == es[i] && ss'[i - 1] == ss[i];
      }
    }
  }

  const STUCK := map["dep-a" := UNREAD.(triedAt := 1), "dep-b" := UNREAD.(triedAt := 1)]

  function Stuck(turn: bool): Sched {
    Sched(STUCK, map[], turn, false, NEVER, 0)
  }

  /** Turns that all come at one time can pass over a bucket for ever. */
  lemma EqualTimesStarve(n: nat)
    returns (ss: seq<Sched>, es: seq<Event>)
    ensures Run(ss, es) && Picks(es) == n && Adds(ss) == 0
    ensures forall i | 0 <= i < |ss| :: "dep-b" in ss[i].buckets
    ensures !Returned(es, "dep-b")
  {
    StuckRun(n, true);
    ss, es := StuckStates(n, true), StuckPicks(n);
  }

  function StuckStates(n: nat, turn: bool): (ss: seq<Sched>)
    ensures |ss| == n + 1 && ss[0] == Stuck(turn)
  {
    if n == 0 then [Stuck(turn)] else [Stuck(turn)] + StuckStates(n - 1, !turn)
  }

  function StuckPicks(n: nat): (es: seq<Event>)
    ensures |es| == n && Picks(es) == n
  {
    if n == 0 then [] else [Picked(1, "dep-a", false)] + StuckPicks(n - 1)
  }

  lemma StuckOrder()
    ensures Less("dep-a", "dep-b")
  {
    LessBehindPrefix("dep-", "a", "b");
  }

  lemma {:induction false} StuckRun(n: nat, turn: bool)
    ensures Run(StuckStates(n, turn), StuckPicks(n)) && Adds(StuckStates(n, turn)) == 0
    ensures forall i | 0 <= i < n :: StuckPicks(n)[i] == Picked(1, "dep-a", false)
    ensures forall i | 0 <= i <= n :: StuckStates(n, turn)[i].buckets == STUCK
  {
    if n != 0 {
      StuckRun(n - 1, !turn);
      assert StuckStates(n, turn)[1..] == StuckStates(n - 1, !turn);
      StuckOrder();
      assert Tried(STUCK, "dep-a", 1) == STUCK;
      assert Turn(Stuck(turn), 1, "dep-a", false, Stuck(!turn));
    }
  }
}
