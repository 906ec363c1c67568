/** One pass of the build worker: what it decides for a build, and the loops that visit and claim. */
module BuildWorker {
  import opened Options
  import L = BuildLog

  type Id = nat
  type Time = int

  datatype Status = Queued | Running | Succeeded | Failed | Canceled

  /** A Job is named after its build, so a recorded name is the build's own id. */
  datatype Build = Build(
    status: Status, createdAt: Time, startedAt: Option<Time>, finishedAt: Option<Time>,
    jobId: Option<Id>, image: Option<string>, log: L.Bytes)

  datatype Job = Job(succeeded: nat, failed: nat)

  datatype Limits = Limits(deadline: int, grace: int, inFlight: nat, logCap: nat)

  /** What the cluster answers about a running build: its Job, the image it reported, and why its pod failed. */
  datatype Reading = Reading(job: Option<Job>, image: Option<string>, gateFailed: bool, eviction: Option<L.Bytes>)

  datatype Verdict = GoOn | Close(kill: bool, status: Status, image: Option<string>, line: Option<L.Bytes>)

  const GATE_FAILURE_LINE :=
    "freepod: the build could not start because its network isolation was not ready in time. "
    + "This is a platform problem, not your code; start the build again.\n"

  predicate Active(j: Job) {
    j.succeeded == 0 && j.failed == 0
  }

  predicate Terminal(s: Status) {
    s == Succeeded || s == Failed || s == Canceled
  }

  predicate CanTransition(current: Status, to: Status) {
    (current == Queued && to == Running) || (current == Running && (to == Succeeded || to == Failed))
  }

  /** None is the ValueError a forbidden transition raises. */
  function TransitionTo(b: Build, to: Status, image: Option<string>, now: Time): Option<Build> {
    if !CanTransition(b.status, to) then None
    else if to == Succeeded && (image.None? || image.value == "") then None
    else if to != Succeeded && image.Some? then None
    else
      Some(b.(status := to,
              startedAt := if to == Running then Some(now) else b.startedAt,
              finishedAt := if Terminal(to) then Some(now) else b.finishedAt,
              image := if image.Some? then image else b.image))
  }

  /** A queued build may start, and a running one fail, or succeed with an image; when it did is stamped on it. */
  lemma TransitionsExactly(b: Build, to: Status, image: Option<string>, now: Time)
    ensures var r := TransitionTo(b, to, image, now);
      && (r.Some? <==>
           || (b.status == Queued && to == Running && image.None?)
           || (b.status == Running && to == Failed && image.None?)
           || (b.status == Running && to == Succeeded && image.Some? && image.value != ""))
      && (r.Some? ==> r.value.status == to && r.value.image == (if to == Succeeded then image else b.image)
                      && (if to == Running then r.value.startedAt == Some(now) && r.value.finishedAt == b.finishedAt
                          else r.value.finishedAt == Some(now) && r.value.startedAt == b.startedAt))
  {
  }

  /** The deadline and the grace on top of it have both gone by. */
  predicate Overdue(b: Build, now: Time, lim: Limits) {
    b.startedAt.Some? && now > b.startedAt.value + lim.deadline + lim.grace
  }

  function Failing(line: Option<L.Bytes>): Verdict {
    Close(false, Failed, None, line)
  }

  function Judge(b: Build, r: Reading, now: Time, lim: Limits): Verdict {
    if b.jobId.None? then Close(true, Failed, None, None)
    else if r.job.None? then Failing(None)
    else if r.job.value.succeeded > 0 then
      if r.image.Some? && r.image.value != "" then Close(false, Succeeded, r.image, None) else Failing(None)
    else if r.job.value.failed > 0 then
      Failing(if r.gateFailed then Some(GATE_FAILURE_LINE) else r.eviction)
    else if Overdue(b, now, lim) then Close(true, Failed, None, None)
    else GoOn
  }

  function Finished(b: Build, v: Verdict, now: Time): Option<Build>
    requires v.Close?
  {
    TransitionTo(if v.line.Some? then b.(log := L.AppendLine(b.log, v.line.value)) else b, v.status, v.image, now)
  }

  function Mirrored(b: Build, read: Option<L.Bytes>, lim: Limits): Build {
    b.(log := L.MergeLog(b.log, read, lim.logCap))
  }

  /** The answers one visit gets; None is a call that raised. */
  datatype Answer = Answer(log: Option<Option<L.Bytes>>, reading: Option<Reading>)

  /** A build after its visit. Whatever raised, the pass goes on and the build is as last committed. */
  function Visited(b: Build, a: Answer, now: Time, lim: Limits): Build {
    if a.log.None? then b
    else
      var m := Mirrored(b, a.log.value, lim);
      if a.reading.None? then m
      else
        var v := Judge(m, a.reading.value, now, lim);
        if v.GoOn? then m
        else
          var f := Finished(m, v, now);
          if f.None? then m else f.value
  }

  /**
   How a visit leaves a running build: succeeded only with its Job complete and an image reported; still running only
   when something raised, or its recorded Job is active and not overdue; and failed in every other case. What was
   read of its log is kept, whatever the outcome.
   */
  lemma VisitOutcome(b: Build, a: Answer, now: Time, lim: Limits)
    requires b.status == Running && b.image.None?
    ensures var v, read := Visited(b, a, now, lim), a.log.Some? && a.reading.Some?;
      && (v.status == Succeeded <==>
           && read && b.jobId.Some? && a.reading.value.job.Some? && a.reading.value.job.value.succeeded > 0
           && a.reading.value.image.Some? && a.reading.value.image.value != "")
      && (v.status == Running <==>
           !read || (b.jobId.Some? && a.reading.value.job.Some? && Active(a.reading.value.job.value)
                     && !Overdue(b, now, lim)))
      && v.status in {Succeeded, Running, Failed}
      && (if v.status == Succeeded then v.image == a.reading.value.image else v.image.None?)
      && (v.status != Running ==> v.finishedAt == Some(now))
      && (a.log.Some? ==> L.MergeLog(b.log, a.log.value, lim.logCap) <= v.log)
      && (v.status == Failed && b.jobId.Some? && a.reading.value.job.Some? && a.reading.value.job.value.succeeded == 0
          && a.reading.value.job.value.failed > 0 && (a.reading.value.gateFailed || a.reading.value.eviction.Some?) ==>
            v.log == L.AppendLine(L.MergeLog(b.log, a.log.value, lim.logCap),
                                  if a.reading.value.gateFailed then GATE_FAILURE_LINE
                                  else a.reading.value.eviction.value))
      && (!(read && b.jobId.Some? && a.reading.value.job.Some? && a.reading.value.job.value.succeeded == 0
            && a.reading.value.job.value.failed > 0
            && (a.reading.value.gateFailed || a.reading.value.eviction.Some?)) ==>
            v.log == if a.log.Some? then L.MergeLog(b.log, a.log.value, lim.logCap) else b.log)
      && v.jobId == b.jobId && v.startedAt == b.startedAt && v.createdAt == b.createdAt
  {
  }

  function VisitAll(builds: map<Id, Build>, order: seq<Id>, answers: map<Id, Answer>, now: Time, lim: Limits)
    : (r: map<Id, Build>)
    requires forall i | 0 <= i < |order| :: order[i] in builds && order[i] in answers
    ensures r.Keys == builds.Keys
    ensures forall id | id in builds && id !in order :: r[id] == builds[id]
  {
    if order == [] then builds
    else
      var before := VisitAll(builds, order[..|order| - 1], answers, now, lim);
      var id := order[|order| - 1];
      before[id := Visited(before[id], answers[id], now, lim)]
  }

  /** A pass visits each build once, as it was: no visit has a bearing on another build's. */
  lemma {:induction false} VisitsAreApart(
      builds: map<Id, Build>, order: seq<Id>, answers: map<Id, Answer>, now: Time, lim: Limits, i: nat)
    requires forall k | 0 <= k < |order| :: order[k] in builds && order[k] in answers
    requires forall k, l | 0 <= k < l < |order| :: order[k] != order[l]
    requires i < |order|
    ensures VisitAll(builds, order, answers, now, lim)[order[i]]
              == Visited(builds[order[i]], answers[order[i]], now, lim)
  {
    hide Visited;
    var front := order[..|order| - 1];
    if i < |front| {
      VisitsAreApart(builds, front, answers, now, lim, i);
      assert front[i] == order[i] != order[|order| - 1];
    } else {
      assert order[i] !in front;
    }
  }

  /**
   What the visits of a pass leave of the builds running when it started: succeeded are exactly those whose Job is
   complete and reported an image, still running exactly those for which something raised or whose recorded Job is
   active and not overdue, and every other one has failed, now. No other build has changed.
   */
  lemma PassOutcome(builds: map<Id, Build>, order: seq<Id>, answers: map<Id, Answer>, now: Time, lim: Limits, id: Id)
    requires forall k | 0 <= k < |order| :: order[k] in builds && order[k] in answers
    requires forall k, l | 0 <= k < l < |order| :: order[k] != order[l]
    requires forall b | b in builds :: b in order <==> builds[b].status == Running
    requires id in builds && (builds[id].status == Running ==> builds[id].image.None?)
    ensures var b, v := builds[id], VisitAll(builds, order, answers, now, lim)[id];
      if b.status != Running then v == b
      else
        var a := answers[id];
        var read := a.log.Some? && a.reading.Some?;
        var job := if read && b.jobId.Some? then a.reading.value.job else None;
        && (v.status == Succeeded <==>
             && job.Some? && job.value.succeeded > 0
             && a.reading.value.image.Some? && a.reading.value.image.value != "")
        && (v.status == Running <==> !read || (job.Some? && Active(job.value) && !Overdue(b, now, lim)))
        && (v.status != Succeeded && v.status != Running ==> v.status == Failed)
        && (if v.status == Succeeded then v.image == a.reading.value.image else v.image.None?)
        && (v.status != Running ==> v.finishedAt == Some(now))
  {
    hide Visited, VisitAll;
    if builds[id].status == Running {
      var i :| 0 <= i < |order| && order[i] == id;
      VisitsAreApart(builds, order, answers, now, lim, i);
      VisitOutcome(builds[id], answers[id], now, lim);
    }
  }

  // ---------- Claiming ----------

  predicate Before(builds: map<Id, Build>, a: Id, b: Id)
    requires a in builds && b in builds
  {
    builds[a].createdAt < builds[b].createdAt || (builds[a].createdAt == builds[b].createdAt && a < b)
  }

  predicate Oldest(builds: map<Id, Build>, id: Id) {
    && id in builds && builds[id].status == Queued
    && forall other | other in builds && builds[other].status == Queued && other != id :: Before(builds, id, other)
  }

  function RunningIds(builds: map<Id, Build>): set<Id> {
    set id | id in builds && builds[id].status == Running
  }

  function Claimed(builds: map<Id, Build>, id: Id, now: Time): map<Id, Build>
    requires id in builds
  {
    builds[id := builds[id].(status := Running, startedAt := Some(now))]
  }

  function Recorded(builds: map<Id, Build>, id: Id): map<Id, Build>
    requires id in builds
  {
    builds[id := builds[id].(jobId := Some(id))]
  }

  /** The claims of a pass: `ids` in order, each Job created and recorded but, where `broke`, the last one's. */
  ghost predicate Claims(
    before: map<Id, Build>, ids: seq<Id>, broke: bool, now: Time, lim: Limits, after: map<Id, Build>)
    decreases |ids|
  {
    if ids == [] then before == after && !broke
    else
      var id := ids[0];
      && |RunningIds(before)| < lim.inFlight && Oldest(before, id)
      && if |ids| == 1 && broke then after == Claimed(before, id, now)
         else Claims(Recorded(Claimed(before, id, now), id), ids[1..], broke, now, lim, after)
  }

  class Worker {
    var builds: map<Id, Build>
    var claimed: seq<Id>
    var succeeded: seq<Id>
    var failed: seq<Id>
    var advanced: nat

    constructor (builds: map<Id, Build>)
      ensures this.builds == builds && claimed == [] && succeeded == [] && failed == [] && advanced == 0
    {
      this.builds := builds;
      claimed, succeeded, failed, advanced := [], [], [], 0;
    }

    /** One visit: the log is mirrored before the verdict, so it is kept whatever that is. */
    method AdvanceBuild(id: Id, a: Answer, now: Time, lim: Limits) returns (raised: bool)
      requires id in builds
      modifies this`builds, this`succeeded, this`failed, this`advanced
      ensures builds == old(builds)[id := Visited(old(builds)[id], a, now, lim)]
      ensures raised ==> succeeded == old(succeeded) && failed == old(failed) && advanced == old(advanced)
      ensures old(builds)[id].status == Running && !raised ==>
                && succeeded == old(succeeded) + (if builds[id].status == Succeeded then [id] else [])
                && failed == old(failed) + (if builds[id].status == Failed then [id] else [])
                && advanced == old(advanced) + (if builds[id].status == Running then 1 else 0)
      ensures old(builds)[id].status == Running ==> (raised <==> a.log.None? || a.reading.None?)
    {
      if a.log.None? {
        builds := builds[id := builds[id]];
        return true;
      }
      var b := Mirrored(builds[id], a.log.value, lim);
      builds := builds[id := b];
      if a.reading.None? {
        return true;
      }
      var v := Judge(b, a.reading.value, now, lim);
      if v.GoOn? {
        advanced := advanced + 1;
        return false;
      }
      var f := Finished(b, v, now);
      if f.None? {
        return true;
      }
      builds := builds[id := f.value];
      if v.status == Succeeded {
        succeeded := succeeded + [id];
      } else {
        failed := failed + [id];
      }
      return false;
    }

    /** The oldest queued build becomes a running one. */
    method ClaimNextBuild(now: Time) returns (claim: Option<Id>)
      modifies this`builds
      ensures claim.None? ==> builds == old(builds) && forall id | id in builds :: builds[id].status != Queued
      ensures claim.Some? ==> Oldest(old(builds), claim.value) && builds == Claimed(old(builds), claim.value, now)
      ensures claim.Some? ==>
                var was := old(builds);
                && was[claim.value].status == Queued
                && forall id | id in was && was[id].status == Queued ::
                     || was[claim.value].createdAt < was[id].createdAt
                     || (was[claim.value].createdAt == was[id].createdAt && claim.value <= id)
      ensures claim.Some? ==>
                var id := claim.value;
                var b, was := builds[id], old(builds)[id];
                && b.status == Running && b.startedAt == Some(now)
                && b.createdAt == was.createdAt && b.finishedAt == was.finishedAt && b.jobId == was.jobId
                && b.image == was.image && b.log == was.log
                && builds.Keys == old(builds).Keys
                && forall other | other in builds && other != id :: builds[other] == old(builds)[other]
    {
      claim := None;
      var todo := builds.Keys;
      while todo != {}
        invariant todo <= builds.Keys && unchanged(this)
        invariant claim.None? ==> forall id | id in builds.Keys - todo :: builds[id].status != Queued
        invariant claim.Some? ==> claim.value in builds && builds[claim.value].status == Queued
        invariant claim.Some? ==> forall id | id in builds.Keys - todo && builds[id].status == Queued ::
                    id == claim.value || Before(builds, claim.value, id)
      {
        var id :| id in todo;
        todo := todo - {id};
        if builds[id].status == Queued && (claim.None? || Before(builds, id, claim.value)) {
          claim := Some(id);
        }
      }
      if claim.Some? {
        builds := Claimed(builds, claim.value, now);
      }
    }

    /** Claims builds up to the limit; `starts` says of each whether starting it raises, and `broke` that one did. */
    method ClaimBuilds(starts: map<Id, bool>, now: Time, lim: Limits) returns (ids: seq<Id>, broke: bool)
      requires claimed == []
      modifies this`builds, this`claimed
      ensures Claims(old(builds), ids, broke, now, lim, builds)
      ensures claimed == if broke then ids[..|ids| - 1] else ids
      ensures broke || |set id | id in builds && builds[id].status == Running| >= lim.inFlight
              || forall id | id in builds :: builds[id].status != Queued
    {
      hide Claims;
      ghost var first := builds;
      ClaimsNone(first, now, lim);
      ids, broke := [], false;
      while |RunningIds(builds)| < lim.inFlight
        invariant Claims(first, ids, false, now, lim, builds) && claimed == ids && !broke
        decreases |QueuedIds(builds)|
      {
        ghost var before := builds;
        var claim := ClaimNextBuild(now);
        if claim.None? {
          return;
        }
        FewerQueued(before, claim.value, now);
        broke := claim.value in starts && starts[claim.value];
        ClaimsSnoc(first, ids, now, lim, before, claim.value, broke);
        ids := ids + [claim.value];
        if broke {
          return;
        }
        builds := Recorded(builds, claim.value);
        claimed := ids;
      }
      assert RunningIds(builds) == set id | id in builds && builds[id].status == Running;
    }

    /** `order` are the builds running when the pass starts. Advancing comes first, so a build that ends makes room. */
    method RunPass(order: seq<Id>, answers: map<Id, Answer>, starts: map<Id, bool>, now: Time, lim: Limits)
      requires forall i | 0 <= i < |order| :: order[i] in builds && order[i] in answers
      modifies this
      ensures exists ids, broke ::
                && Claims(VisitAll(old(builds), order, answers, now, lim), ids, broke, now, lim, builds)
                && claimed == (if broke then ids[..|ids| - 1] else ids)
                && (broke || |set id | id in builds && builds[id].status == Running| >= lim.inFlight
                    || forall id | id in builds :: builds[id].status != Queued)
    {
      hide Claims, Visited;
      claimed, succeeded, failed, advanced := [], [], [], 0;
      for i := 0 to |order|
        invariant builds == VisitAll(old(builds), order[..i], answers, now, lim) && claimed == []
      {
        assert order[..i + 1][..i] == order[..i];
        var _ := AdvanceBuild(order[i], answers[order[i]], now, lim);
      }
      assert order[..|order|] == order;
      var ids, broke := ClaimBuilds(starts, now, lim);
    }
  }

  lemma ClaimsNone(builds: map<Id, Build>, now: Time, lim: Limits)
    ensures Claims(builds, [], false, now, lim, builds)
  {
  }

  ghost function QueuedIds(builds: map<Id, Build>): set<Id> {
    set id | id in builds && builds[id].status == Queued
  }

  lemma FewerQueued(builds: map<Id, Build>, id: Id, now: Time)
    requires id in builds && builds[id].status == Queued
    ensures |QueuedIds(Claimed(builds, id, now))| < |QueuedIds(builds)|
    ensures QueuedIds(Recorded(Claimed(builds, id, now), id)) == QueuedIds(Claimed(builds, id, now))
  {
    assert QueuedIds(Claimed(builds, id, now)) == QueuedIds(builds) - {id};
  }

  lemma {:induction false} ClaimsSnoc(
    first: map<Id, Build>, ids: seq<Id>, now: Time, lim: Limits, mid: map<Id, Build>, id: Id, broke: bool)
    requires Claims(first, ids, false, now, lim, mid)
    requires |RunningIds(mid)| < lim.inFlight && Oldest(mid, id)
    ensures Claims(first, ids + [id], broke, now, lim,
                   if broke then Claimed(mid, id, now) else Recorded(Claimed(mid, id, now), id))
    decreases |ids|
  {
    if ids == [] {
      var done := Recorded(Claimed(mid, id, now), id);
      assert Claims(done, [], false, now, lim, done);
      assert (ids + [id])[1..] == [];
    } else {
      var next := Recorded(Claimed(first, ids[0], now), ids[0]);
      ClaimsSnoc(next, ids[1..], now, lim, mid, id, broke);
      assert (ids + [id])[1..] == ids[1..] + [id];
    }
  }
}
