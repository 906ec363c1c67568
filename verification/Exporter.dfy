/**
 The exporter itself: how a refresh and a read drive the scheduler and the activity signal.

 Garage's and Loki's answers are parameters, `None` or `Unreachable` for a call that failed.
 */
module Exporter {
  import opened Options
  import opened Scheduler
  import opened Freshness
  import L = ActivityLog

  datatype Parts = Parts(s: Sched, a: L.Log)

  function Listed(s: Sched, now: Time, list: Option<seq<GarageBucket>>): Sched {
    match list
    case None => s
    case Some(bs) =>
      var t := WithList(s, bs);
      if now > t.lastSuccess then t.(lastSuccess := now) else t
  }

  function Counted(a: L.Log, now: Time, count: Option<nat>): L.Log {
    if count.None? then a else L.CountedAt(a, now, count.value)
  }

  /** The log was asked for a range and did not answer. */
  predicate Silent(a: L.Log, now: Time, answer: L.Answer) {
    L.Due(a, now) && answer.Unreachable?
  }

  function NamesOf(a: L.Log, now: Time, answer: L.Answer): seq<string> {
    if L.Due(a, now) && answer.Samples? then L.Buckets(answer.samples) else []
  }

  function Refreshed(
    x: Parts, now: Time, list: Option<seq<GarageBucket>>, count: Option<nat>, answer: L.Answer): Parts {
    var s := Listed(x.s, now, list);
    var a := Counted(x.a, now, count);
    var b := L.Consumed(a, now, answer);
    if Silent(a, now, answer) then Parts(s.(activityOK := false), b)
    else if L.Verdict(b) then Parts(s.(activityOK := false), b.(broken := true))
    else Parts(Marked(s.(activityOK := true), NamesOf(a, now, answer), b.cursor), b.(broken := false))
  }

  /** What follows a pick: the size is recorded, or the failure counted. */
  ghost predicate ThenRead(picked: Sched, alias: string, now: Time, size: string -> Option<int>, s: Sched) {
    if alias == "" then s == picked
    else
      match size(alias)
      case Some(bytes) => Step(picked, Landed(alias, bytes, now), s)
      case None => Step(picked, Failed, s)
  }

  class Exporter {
    const state: State
    const activity: L.Activity

    ghost function Abs(): Parts
      reads state, activity
    {
      Parts(state.Abs(), activity.Abs())
    }

    ghost predicate Valid()
      reads state
    {
      state.Valid()
    }

    constructor (lag: int, now: Time)
      ensures Valid() && fresh(state) && fresh(activity)
      ensures Abs() == Parts(Started().s, L.Fresh(lag, now))
    {
      state := new State();
      activity := new L.Activity(lag, now);
    }

    method Relist(now: Time, list: Option<seq<GarageBucket>>)
      requires Valid()
      modifies state
      ensures Valid()
      ensures state.Abs() == Listed(old(state.Abs()), now, list)
    {
      hide WithList;
      if list.Some? {
        state.SetBuckets(list.value);
        state.Succeeded(now);
      }
    }

    method Refresh(now: Time, list: Option<seq<GarageBucket>>, count: Option<nat>, answer: L.Answer)
      requires Valid()
      modifies state, activity
      ensures Valid()
      ensures Abs() == Refreshed(old(Abs()), now, list, count, answer)
    {
      hide L.Verdict, L.RangeEnd, L.Buckets, L.KeepLast, L.Consumed, L.CountedAt, Listed, Marked;
      Relist(now, list);
      if count.Some? {
        activity.Counted(now, count.value);
      }
      var names, to, ok := activity.Writes(now, answer);
      if !ok {
        state.SetActivityOK(false);
        return;
      }
      var broken := activity.Broken();
      state.SetActivityOK(!broken);
      if !broken {
        state.MarkWritten(names, to);
      }
    }

    /** One turn of the reader; `size` is what Garage answers of each bucket. */
    method ReadOne(now: Time, size: string -> Option<int>) returns (alias: string, changed: bool)
      requires Valid()
      modifies state
      ensures Valid()
      ensures activity.Abs() == old(activity.Abs())
      ensures exists picked ::
        && Step(old(state.Abs()), Picked(now, alias, changed), picked)
        && ThenRead(picked, alias, now, size, state.Abs())
    {
      alias, changed := state.Next(now);
      ghost var picked := state.Abs();
      if alias == "" {
        return;
      }
      match size(alias) {
        case None => state.ReadFailed();
        case Some(bytes) => state.Read(alias, bytes, now);
      }
      assert Step(old(state.Abs()), Picked(now, alias, changed), picked);
    }
  }

  // ---------- What a refresh does to the signal ----------

  /** Counting first does not change what the log is asked. */
  lemma SameRange(a: L.Log, now: Time, count: Option<nat>)
    ensures L.RangeEnd(Counted(a, now, count), now) == L.RangeEnd(a, now)
    ensures L.Due(Counted(a, now, count), now) == L.Due(a, now)
    ensures Counted(a, now, count).cursor == a.cursor && Counted(a, now, count).broken == a.broken
  {
    hide L.Truncate, L.RangeEnd, L.Due, L.KeepLast;
    if count.Some? {
      L.CountedRange(a, now, count.value);
    }
  }

  /** The signal is up after a refresh exactly when the log was readable and the cross-check found nothing missing. */
  lemma SignalAfterRefresh(
      x: Parts, now: Time, list: Option<seq<GarageBucket>>, count: Option<nat>, answer: L.Answer)
    ensures var y := Refreshed(x, now, list, count, answer);
      y.s.activityOK <==> !(L.Due(x.a, now) && answer.Unreachable?) && !y.a.broken
  {
    hide L.Verdict, L.RangeEnd, L.Due, L.KeepLast, L.Total, WithList, NamesOf;
    SameRange(x.a, now, count);
  }

  /** The log is told the count, asked for its range, and judged if it answered. */
  lemma LogAfterRefresh(x: Parts, now: Time, list: Option<seq<GarageBucket>>, count: Option<nat>, answer: L.Answer)
    ensures var counted := if count.Some? then L.Do(x.a, L.Count(now, count.value)) else x.a;
      var asked := L.Do(counted, L.Ask(now, answer));
      Refreshed(x, now, list, count, answer).a ==
        if L.Due(x.a, now) && answer.Unreachable? then asked else L.Do(asked, L.Judge)
  {
    hide L.Verdict, L.RangeEnd, L.Due, L.KeepLast, L.Total, WithList, NamesOf;
    SameRange(x.a, now, count);
  }

  ghost predicate HonestRefresh(w: L.World, a: L.Log, now: Time, count: Option<nat>, answer: L.Answer) {
    && (count.Some? ==> count.value == L.Counter(w, now))
    && L.Honest(w, a, L.Ask(now, answer))
  }

  datatype Round = Round(now: Time, list: Option<seq<GarageBucket>>, count: Option<nat>, answer: L.Answer)

  function RefreshedBy(x: Parts, r: Round): Parts {
    Refreshed(x, r.now, r.list, r.count, r.answer)
  }

  function Rounds(x: Parts, rs: seq<Round>): Parts {
    if rs == [] then x else RefreshedBy(Rounds(x, rs[..|rs| - 1]), rs[|rs| - 1])
  }

  ghost predicate HonestRounds(w: L.World, x: Parts, rs: seq<Round>, start: Time) {
    rs == [] ||
    var n := |rs| - 1;
    && HonestRounds(w, x, rs[..n], start)
    && HonestRefresh(w, Rounds(x, rs[..n]).a, rs[n].now, rs[n].count, rs[n].answer)
    && LastTime(rs[..n], start) <= rs[n].now
  }

  function LastTime(rs: seq<Round>, start: Time): Time {
    if rs == [] then start else rs[|rs| - 1].now
  }

  function Read(a: L.Log, r: Round): L.Log {
    L.Consumed(Counted(a, r.now, r.count), r.now, r.answer)
  }

  lemma FaithfulRead(w: L.World, a: L.Log, r: Round, clock: Time)
    requires L.Faithful(w, a, clock) && clock <= r.now && L.EveryWriteLogged(w) && !a.broken
    requires HonestRefresh(w, a, r.now, r.count, r.answer)
    ensures L.Faithful(w, Read(a, r), r.now) && !Read(a, r).broken && !L.Verdict(Read(a, r))
  {
    hide L.Faithful, L.Verdict, L.RangeEnd, L.Counter;
    var c := Counted(a, r.now, r.count);
    SameRange(a, r.now, r.count);
    if r.count.Some? {
      L.FaithfulStays(w, a, L.Count(r.now, r.count.value), clock);
    } else {
      L.FaithfulLater(w, a, clock, r.now);
    }
    L.FaithfulStays(w, c, L.Ask(r.now, r.answer), r.now);
    if L.Verdict(Read(a, r)) {
      L.VerdictSound(w, Read(a, r), r.now);
    }
  }

  /** What a refresh makes of the reads it did. */
  lemma RefreshOfRead(x: Parts, r: Round)
    requires !Read(x.a, r).broken && !L.Verdict(Read(x.a, r))
    ensures RefreshedBy(x, r).a == Read(x.a, r)
    ensures RefreshedBy(x, r).s.activityOK <==> !(L.Due(x.a, r.now) && r.answer.Unreachable?)
  {
    hide L.Verdict, L.RangeEnd, L.KeepLast, WithList, L.Total;
    SameRange(x.a, r.now, r.count);
  }

  lemma FaithfulRefresh(w: L.World, x: Parts, r: Round, clock: Time)
    requires L.Faithful(w, x.a, clock) && clock <= r.now && L.EveryWriteLogged(w) && !x.a.broken
    requires HonestRefresh(w, x.a, r.now, r.count, r.answer)
    ensures L.Faithful(w, RefreshedBy(x, r).a, r.now) && !RefreshedBy(x, r).a.broken
    ensures RefreshedBy(x, r).s.activityOK <==> !(L.Due(x.a, r.now) && r.answer.Unreachable?)
  {
    hide L.Faithful, L.Verdict, RefreshedBy, Read;
    FaithfulRead(w, x.a, r, clock);
    RefreshOfRead(x, r);
  }

  lemma {:induction false} FaithfulRounds(w: L.World, lag: int, start: Time, rs: seq<Round>)
    requires L.EveryWriteLogged(w) && HonestRounds(w, Parts(Started().s, L.Fresh(lag, start)), rs, start)
    ensures var y := Rounds(Parts(Started().s, L.Fresh(lag, start)), rs);
      L.Faithful(w, y.a, LastTime(rs, start)) && !y.a.broken
  {
    if rs != [] {
      var n := |rs| - 1;
      FaithfulRounds(w, lag, start, rs[..n]);
      FaithfulRefresh(w, Rounds(Parts(Started().s, L.Fresh(lag, start)), rs[..n]), rs[n], LastTime(rs[..n], start));
    }
  }

  /** While Garage logs every write at its time, the only thing that takes the signal down is Loki not answering. */
  lemma OnlySilenceTakesTheSignalDown(w: L.World, lag: int, start: Time, rs: seq<Round>)
    requires rs != []
    requires L.EveryWriteLogged(w) && HonestRounds(w, Parts(Started().s, L.Fresh(lag, start)), rs, start)
    ensures var x := Parts(Started().s, L.Fresh(lag, start));
      var n := |rs| - 1;
      Rounds(x, rs).s.activityOK <==> !(L.Due(Rounds(x, rs[..n]).a, rs[n].now) && rs[n].answer.Unreachable?)
  {
    var n := |rs| - 1;
    FaithfulRounds(w, lag, start, rs[..n]);
    FaithfulRefresh(w, Rounds(Parts(Started().s, L.Fresh(lag, start)), rs[..n]), rs[n], LastTime(rs[..n], start));
  }

  // ---------- A refresh is made of the steps the freshness theorem is about ----------

  ghost predicate Chain(ws: seq<Watch>, owners: Owners, now: Time, acts: seq<Act>) {
    |ws| == |acts| + 1 && forall i | 0 <= i < |acts| :: WStep(ws[i], owners, now, acts[i], ws[i + 1])
  }

  lemma Extend(ws: seq<Watch>, owners: Owners, now: Time, acts: seq<Act>, act: Act, w: Watch)
    requires Chain(ws, owners, now, acts) && WStep(ws[|acts|], owners, now, act, w)
    ensures Chain(ws + [w], owners, now, acts + [act])
  {
    var vs, bs := ws + [w], acts + [act];
    forall i | 0 <= i < |bs|
      ensures WStep(vs[i], owners, now, bs[i], vs[i + 1])
    {
      if i < |acts| {
        assert vs[i] == ws[i] && vs[i + 1] == ws[i + 1] && bs[i] == acts[i];
      }
    }
  }

  /** A window never ends after the refresh that reads it. */
  lemma WindowsEndInThePast(a: L.Log, now: Time)
    requires a.lag >= 0 && L.Due(a, now)
    ensures L.RangeEnd(a, now) <= now
  {
  }

  lemma ListIsWatched(w: Watch, owners: Owners, now: Time, list: Option<seq<GarageBucket>>)
    returns (ws: seq<Watch>, acts: seq<Act>)
    requires w.clock <= now
    ensures Chain(ws, owners, now, acts) && ws[0] == w
    ensures ws[|acts|].s == Listed(w.s, now, list) && ws[|acts|].clock <= now
  {
    hide WithList;
    ws, acts := [w], [];
    if list.Some? {
      var u := w.(s := WithList(w.s, list.value), clock := now);
      u := u.(begun := StillListed(w.begun, u.s));
      Extend(ws, owners, now, acts, List(list.value), u);
      ws, acts := ws + [u], acts + [List(list.value)];
      var v := u.(s := Listed(w.s, now, list));
      Extend(ws, owners, now, acts, Answer(now), v);
      ws, acts := ws + [v], acts + [Answer(now)];
    }
  }

  /** The names a refresh marks, if any, and as of when. */
  lemma MarksAfter(x: Parts, now: Time, list: Option<seq<GarageBucket>>, count: Option<nat>, answer: L.Answer)
    ensures var y, s := Refreshed(x, now, list, count, answer).s, Listed(x.s, now, list);
      y == if y.activityOK && L.Due(x.a, now) && answer.Samples?
           then Marked(s.(activityOK := true), L.Buckets(answer.samples), L.RangeEnd(x.a, now))
           else s.(activityOK := y.activityOK)
  {
    hide L.Verdict, L.RangeEnd, L.Buckets, WithList, L.Total, L.KeepLast;
    SameRange(x.a, now, count);
    var s := Listed(x.s, now, list).(activityOK := true);
    assert forall to :: Marked(s, [], to).buckets == s.buckets;
  }

  /** The range's log has a line of a bucket by a name the scheduler takes for `b`. */
  ghost predicate LineFor(w: L.World, s: Sched, from: Time, to: Time, b: string) {
    exists k | 0 <= k < |w.lines| :: from < w.lines[k].at <= to && Resolve(s.aliasOf, w.lines[k].bucket) == b
  }

  /**
   A refresh that Loki answers truly marks exactly the listed buckets with a line in the range read, as of its end, and
   leaves all else of every bucket as the list left it.
   */
  lemma RefreshMarksTheWritten(
      w: L.World, x: Parts, now: Time, list: Option<seq<GarageBucket>>, count: Option<nat>, answer: L.Answer, b: string)
    requires L.Due(x.a, now) && answer.Samples?
    requires L.TrueAnswer(w, x.a.cursor, L.RangeEnd(x.a, now), answer.samples)
    requires forall i | 0 <= i < |answer.samples| :: answer.samples[i].lines > 0
    requires Refreshed(x, now, list, count, answer).s.activityOK && b in Listed(x.s, now, list).buckets
    ensures var s, s' := Listed(x.s, now, list), Refreshed(x, now, list, count, answer).s;
      var to := L.RangeEnd(x.a, now);
      && b in s'.buckets
      && s'.buckets[b] ==
         if LineFor(w, s, x.a.cursor, to, b) && to > s.buckets[b].writtenAt
         then s.buckets[b].(writtenAt := to) else s.buckets[b]
  {
    hide L.RangeEnd, L.Due, L.Buckets, Listed, Refreshed, L.TrueAnswer;
    MarksAfter(x, now, list, count, answer);
    var s, to, names := Listed(x.s, now, list), L.RangeEnd(x.a, now), L.Buckets(answer.samples);
    forall i | 0 <= i < |names| ensures L.LineNamed(w, x.a.cursor, to, names[i]) {
      assert names[i] in names;
      L.NamesAreWritten(w, x.a.cursor, to, answer.samples, names[i]);
    }
    forall k | 0 <= k < |w.lines| && x.a.cursor < w.lines[k].at <= to ensures w.lines[k].bucket in names {
      L.NamesAreWritten(w, x.a.cursor, to, answer.samples, w.lines[k].bucket);
    }
    assert Names(s.aliasOf, names, b) <==> LineFor(w, s, x.a.cursor, to, b) by {
      if k :| 0 <= k < |w.lines| && x.a.cursor < w.lines[k].at <= to && Resolve(s.aliasOf, w.lines[k].bucket) == b {
        var i :| 0 <= i < |names| && names[i] == w.lines[k].bucket;
      }
      if i :| 0 <= i < |names| && Resolve(s.aliasOf, names[i]) == b {
        assert L.LineNamed(w, x.a.cursor, to, names[i]);
      }
    }
  }

  /** Whatever the calls answer, a refresh acts on the scheduler in steps `Freshness` allows: its theorem covers it. */
  lemma RefreshIsWatched(
      w: Watch, owners: Owners, a: L.Log,
      now: Time, list: Option<seq<GarageBucket>>, count: Option<nat>, answer: L.Answer)
    returns (ws: seq<Watch>, acts: seq<Act>)
    requires w.clock <= now && a.lag >= 0
    ensures Chain(ws, owners, now, acts) && ws[0] == w
    ensures ws[|acts|].s == Refreshed(Parts(w.s, a), now, list, count, answer).s
  {
    hide Refreshed, Listed, Marked, WritesAfter, L.RangeEnd, L.Buckets;
    var y := Refreshed(Parts(w.s, a), now, list, count, answer).s;
    MarksAfter(Parts(w.s, a), now, list, count, answer);
    ws, acts := ListIsWatched(w, owners, now, list);
    var v := ws[|acts|];
    var u := v.(s := v.s.(activityOK := y.activityOK), clock := now);
    Extend(ws, owners, now, acts, Flag(y.activityOK), u);
    ws, acts := ws + [u], acts + [Flag(y.activityOK)];
    if y.activityOK && L.Due(a, now) && answer.Samples? {
      WindowsEndInThePast(a, now);
      var names, to := L.Buckets(answer.samples), L.RangeEnd(a, now);
      v := u.(s := Marked(u.s, names, to), lastWrite := WritesAfter(u, owners, names, to));
      Extend(ws, owners, now, acts, Show(names, to), v);
      ws, acts := ws + [v], acts + [Show(names, to)];
    }
  }
}
