/**
 The build worker, its database and the cluster, run together. Every call is a step; the worker may die between any two
 of them, and any call may fail. There is one worker at a time.

 `KubectlBuildJobClient` does not report a failed `kubectl get` or `kubectl delete`: the first reads as "no such Job"
 and the second as success. Such an answer is untruthful when the Job is active, and the theorem that no Job
 outlives its build holds exactly without them.
 */
module BuildCrash {
  import opened Options
  import opened BuildWorker
  import opened Text
  import L = BuildLog

  /** Where the worker is. `todo` starts with the build being visited. */
  datatype At =
    | Idle
    | Visiting(todo: seq<Id>)
    | Looking(todo: seq<Id>)
    | Killing(todo: seq<Id>, verdict: Verdict)
    | Finishing(todo: seq<Id>, verdict: Verdict)
    | Claiming
    | Creating(id: Id)
    | Recording(id: Id)

  /** `passNow` is the time the pass began with; `created`, the Jobs ever created, only serves to state a theorem. */
  datatype World = World(
    at: At, passNow: Time, builds: map<Id, Build>, jobs: map<Id, Job>, created: seq<Id>)

  datatype Event =
    | Begin(order: seq<Id>, now: Time)
    | Mirror(read: Option<L.Bytes>)
    | Look(reading: Reading)
    | Kill(done: bool)
    | Commit
    | Raise
    | Claim
    | ClaimOne(id: Id)
    | EndPass
    | Create(done: bool, ok: bool)
    | Record
    | Crash
    | Request(id: Id, createdAt: Time)
    | JobEnds(id: Id, job: Job)
    | JobGone(id: Id)

  predicate InVisit(at: At) {
    at.Visiting? || at.Looking? || at.Killing? || at.Finishing?
  }

  function Todo(at: At): seq<Id> {
    if InVisit(at) then at.todo else []
  }

  predicate Busy(at: At) {
    InVisit(at) && at.todo != []
  }

  predicate ActiveJob(w: World, id: Id) {
    id in w.jobs && Active(w.jobs[id])
  }

  /** Each running build once. */
  ghost predicate ListsRunning(order: seq<Id>, builds: map<Id, Build>) {
    && (forall i, j | 0 <= i < j < |order| :: order[i] != order[j])
    && (forall i | 0 <= i < |order| :: order[i] in RunningIds(builds))
    && (forall id | id in RunningIds(builds) :: id in order)
  }

  ghost predicate Enabled(w: World, e: Event, lim: Limits) {
    match e
    case Begin(order, _) => w.at.Idle? && ListsRunning(order, w.builds)
    case Mirror(_) => w.at.Visiting? && Busy(w.at) && w.at.todo[0] in w.builds
    case Look(r) =>
      && w.at.Looking? && Busy(w.at) && w.at.todo[0] in w.builds
      && (r.job.Some? ==> w.at.todo[0] in w.jobs && r.job.value == w.jobs[w.at.todo[0]])
    case Kill(_) => w.at.Killing? && Busy(w.at)
    case Commit =>
      w.at.Finishing? && Busy(w.at) && w.at.todo[0] in w.builds && w.at.verdict.Close?
      && Finished(w.builds[w.at.todo[0]], w.at.verdict, w.passNow).Some?
    case Raise => Busy(w.at) || w.at.Creating? || w.at.Recording?
    case Claim => w.at == Visiting([])
    case ClaimOne(id) => w.at.Claiming? && |RunningIds(w.builds)| < lim.inFlight && Oldest(w.builds, id)
    case EndPass =>
      && w.at.Claiming?
      && (|RunningIds(w.builds)| >= lim.inFlight || forall id | id in w.builds :: w.builds[id].status != Queued)
    case Create(done, ok) => w.at.Creating? && (ok ==> done)
    case Record => w.at.Recording? && w.at.id in w.builds
    case Crash => true
    case Request(id, _) => id !in w.builds
    case JobEnds(id, job) =>
      id in w.jobs && w.jobs[id].succeeded <= job.succeeded && w.jobs[id].failed <= job.failed
    case JobGone(id) => id in w.jobs
  }

  function AfterLook(w: World, r: Reading, lim: Limits): World
    requires Busy(w.at) && w.at.todo[0] in w.builds
  {
    var v := Judge(w.builds[w.at.todo[0]], r, w.passNow, lim);
    w.(at := if v.GoOn? then Visiting(w.at.todo[1..])
             else if v.kill then Killing(w.at.todo, v) else Finishing(w.at.todo, v))
  }

  /** A create that raises may have created the Job all the same. */
  function AfterCreate(w: World, done: bool, ok: bool): World
    requires w.at.Creating?
  {
    var id := w.at.id;
    var v := if done then w.(jobs := w.jobs[id := Job(0, 0)], created := w.created + [id]) else w;
    v.(at := if ok then Recording(id) else Idle)
  }

  function Effect(w: World, e: Event, lim: Limits): World
    requires Enabled(w, e, lim)
  {
    match e
    case Begin(order, now) => w.(at := Visiting(order), passNow := now)
    case Mirror(read) =>
      var id := w.at.todo[0];
      w.(at := Looking(w.at.todo), builds := w.builds[id := Mirrored(w.builds[id], read, lim)])
    case Look(r) => AfterLook(w, r, lim)
    case Kill(done) =>
      w.(at := Finishing(w.at.todo, w.at.verdict), jobs := if done then w.jobs - {w.at.todo[0]} else w.jobs)
    case Commit =>
      var id := w.at.todo[0];
      w.(at := Visiting(w.at.todo[1..]),
         builds := w.builds[id := Finished(w.builds[id], w.at.verdict, w.passNow).value])
    case Raise => w.(at := if Busy(w.at) then Visiting(w.at.todo[1..]) else Idle)
    case Claim => w.(at := Claiming)
    case ClaimOne(id) => w.(at := Creating(id), builds := Claimed(w.builds, id, w.passNow))
    case EndPass => w.(at := Idle)
    case Create(done, ok) => AfterCreate(w, done, ok)
    case Record => w.(at := Claiming, builds := Recorded(w.builds, w.at.id))
    case Crash => w.(at := Idle)
    case Request(id, createdAt) => w.(builds := w.builds[id := Build(Queued, createdAt, None, None, None, None, "")])
    case JobEnds(id, job) => w.(jobs := w.jobs[id := job])
    case JobGone(id) => w.(jobs := w.jobs - {id})
  }

  ghost predicate Step(w: World, e: Event, w': World, lim: Limits) {
    Enabled(w, e, lim) && w' == Effect(w, e, lim)
  }

  ghost predicate Run(ws: seq<World>, es: seq<Event>, lim: Limits) {
    && |ws| == |es| + 1
    && ws[0].at.Idle? && ws[0].builds == map[] && ws[0].jobs == map[] && ws[0].created == []
    && forall i | 0 <= i < |es| :: Step(ws[i], es[i], ws[i + 1], lim)
  }

  // ---------- What every step keeps ----------

  ghost predicate BuildOk(id: Id, b: Build, created: seq<Id>) {
    && (b.status == Queued ==> b.jobId.None? && id !in created)
    && (b.status == Running ==> b.startedAt.Some?)
    && (b.jobId.Some? ==> b.jobId.value == id && id in created)
    && (b.status == Succeeded <==> b.image.Some?)
    && (b.image.Some? ==> b.image.value != "")
    && (Terminal(b.status) <==> b.finishedAt.Some?)
  }

  predicate IsRunning(builds: map<Id, Build>, id: Id) {
    id in builds && builds[id].status == Running
  }

  /** A verdict the state machine accepts. */
  predicate VerdictOk(v: Verdict) {
    v.Close? && ((v.status == Failed && v.image.None?)
                 || (v.status == Succeeded && v.image.Some? && v.image.value != ""))
  }

  /** Running builds, each once. */
  ghost predicate TodoOk(todo: seq<Id>, builds: map<Id, Build>) {
    && (forall i | 0 <= i < |todo| :: IsRunning(builds, todo[i]))
    && (forall i, j | 0 <= i < j < |todo| :: todo[i] != todo[j])
  }

  ghost predicate AtOk(w: World) {
    && TodoOk(Todo(w.at), w.builds)
    && (w.at.Looking? || w.at.Killing? || w.at.Finishing? ==> Busy(w.at))
    && (w.at.Killing? || w.at.Finishing? ==> VerdictOk(w.at.verdict))
    && (w.at.Creating? || w.at.Recording? ==> IsRunning(w.builds, w.at.id) && w.builds[w.at.id].jobId.None?)
    && (w.at.Creating? ==> w.at.id !in w.created)
    && (w.at.Recording? ==> w.at.id in w.created)
  }

  ghost predicate BuildsOk(w: World) {
    forall id | id in w.builds :: BuildOk(id, w.builds[id], w.created)
  }

  /** Jobs are those once created for a build, none created twice. */
  ghost predicate CreatedOk(w: World) {
    && (forall id | id in w.jobs :: id in w.created)
    && (forall id | id in w.created :: id in w.builds)
    && (forall i, j | 0 <= i < j < |w.created| :: w.created[i] != w.created[j])
  }

  ghost predicate Inv(w: World, lim: Limits) {
    BuildsOk(w) && CreatedOk(w) && |RunningIds(w.builds)| <= lim.inFlight && AtOk(w)
  }

  lemma FewerRunning(builds: map<Id, Build>, id: Id, b: Build)
    requires b.status == Running ==> IsRunning(builds, id)
    ensures |RunningIds(builds[id := b])| <= |RunningIds(builds)|
  {
    SubsetSize(RunningIds(builds[id := b]), RunningIds(builds));
  }

  lemma VerdictIsOk(b: Build, r: Reading, now: Time, lim: Limits)
    ensures Judge(b, r, now, lim).GoOn? || VerdictOk(Judge(b, r, now, lim))
  {
  }

  /** The state machine never rejects the outcome a visit has settled on. */
  lemma OutcomeAccepted(b: Build, v: Verdict, now: Time)
    requires b.status == Running && b.startedAt.Some? && b.image.None? && VerdictOk(v)
    ensures Finished(b, v, now).Some?
    ensures var f := Finished(b, v, now).value;
      f.status == v.status && f.image == v.image && f.finishedAt == Some(now) && f.jobId == b.jobId
  {
  }

  /** Steps that leave the builds and the Jobs ever created alone. */
  lemma OtherStep(w: World, e: Event, lim: Limits)
    requires Inv(w, lim) && Enabled(w, e, lim)
    requires !e.Mirror? && !e.Commit? && !e.ClaimOne? && !e.Record? && !e.Request? && !e.Create?
    ensures Inv(Effect(w, e, lim), lim)
  {
    var v := Effect(w, e, lim);
    if Busy(w.at) {
      assert TodoOk(w.at.todo[1..], w.builds);
    }
    if e.Begin? {
      forall i | 0 <= i < |e.order| ensures IsRunning(w.builds, e.order[i]) {
        assert e.order[i] in RunningIds(w.builds);
      }
    } else if e.Look? {
      VerdictIsOk(w.builds[w.at.todo[0]], e.reading, w.passNow, lim);
    }
    assert AtOk(v);
  }

  lemma CommitStep(w: World, lim: Limits)
    requires Inv(w, lim) && Enabled(w, Commit, lim)
    ensures Inv(Effect(w, Commit, lim), lim)
  {
    var id := w.at.todo[0];
    var b := w.builds[id];
    assert IsRunning(w.builds, Todo(w.at)[0]) && BuildOk(id, b, w.created);
    OutcomeAccepted(b, w.at.verdict, w.passNow);
    var f := Finished(b, w.at.verdict, w.passNow).value;
    FewerRunning(w.builds, id, f);
    var v := Effect(w, Commit, lim);
    forall i | 0 <= i < |Todo(v.at)| ensures IsRunning(v.builds, Todo(v.at)[i]) {
      assert Todo(v.at)[i] == Todo(w.at)[i + 1];
    }
  }

  lemma MirrorStep(w: World, read: Option<L.Bytes>, lim: Limits)
    requires Inv(w, lim) && Enabled(w, Mirror(read), lim)
    ensures Inv(Effect(w, Mirror(read), lim), lim)
  {
    var id := w.at.todo[0];
    assert IsRunning(w.builds, Todo(w.at)[0]) && BuildOk(id, w.builds[id], w.created);
    FewerRunning(w.builds, id, Mirrored(w.builds[id], read, lim));
  }

  lemma ClaimStep(w: World, id: Id, lim: Limits)
    requires Inv(w, lim) && Enabled(w, ClaimOne(id), lim)
    ensures Inv(Effect(w, ClaimOne(id), lim), lim)
  {
    var v := Effect(w, ClaimOne(id), lim);
    assert BuildOk(id, w.builds[id], w.created);
    assert RunningIds(v.builds) == RunningIds(w.builds) + {id};
  }

  lemma CreateStep(w: World, done: bool, ok: bool, lim: Limits)
    requires Inv(w, lim) && Enabled(w, Create(done, ok), lim)
    ensures Inv(Effect(w, Create(done, ok), lim), lim)
  {
    var v := Effect(w, Create(done, ok), lim);
    var id := w.at.id;
    assert forall other | other in w.created :: other in v.created;
    if done {
      assert v.created[|w.created|] == id;
      forall other | other in v.builds ensures BuildOk(other, v.builds[other], v.created) {
        assert BuildOk(other, w.builds[other], w.created);
      }
    }
  }

  lemma RecordStep(w: World, lim: Limits)
    requires Inv(w, lim) && Enabled(w, Record, lim)
    ensures Inv(Effect(w, Record, lim), lim)
  {
    var id := w.at.id;
    assert BuildOk(id, w.builds[id], w.created);
    FewerRunning(w.builds, id, w.builds[id].(jobId := Some(id)));
  }

  lemma RequestStep(w: World, id: Id, createdAt: Time, lim: Limits)
    requires Inv(w, lim) && Enabled(w, Request(id, createdAt), lim)
    ensures Inv(Effect(w, Request(id, createdAt), lim), lim)
  {
    FewerRunning(w.builds, id, Build(Queued, createdAt, None, None, None, None, ""));
  }

  lemma InvStep(w: World, e: Event, w': World, lim: Limits)
    requires Inv(w, lim) && Step(w, e, w', lim)
    ensures Inv(w', lim)
  {
    hide Inv, Enabled, Effect;
    match e
    case Mirror(read) => MirrorStep(w, read, lim);
    case Commit => CommitStep(w, lim);
    case ClaimOne(id) => ClaimStep(w, id, lim);
    case Record => RecordStep(w, lim);
    case Request(id, createdAt) => RequestStep(w, id, createdAt, lim);
    case Create(done, ok) => CreateStep(w, done, ok, lim);
    case _ => OtherStep(w, e, lim);
  }

  lemma {:induction false} Reached(ws: seq<World>, es: seq<Event>, lim: Limits, n: nat)
    requires Run(ws, es, lim) && n < |ws|
    ensures Inv(ws[n], lim)
  {
    if n == 0 {
      assert RunningIds(ws[0].builds) == {};
    } else {
      Reached(ws, es, lim, n - 1);
      assert Step(ws[n - 1], es[n - 1], ws[n], lim);
      InvStep(ws[n - 1], es[n - 1], ws[n], lim);
    }
  }

  /** The steps of a visit that nothing interrupts do to the build what `Worker.AdvanceBuild` does. */
  lemma VisitIsItsSteps(w: World, read: Option<L.Bytes>, w1: World, r: Reading, w2: World, lim: Limits)
    requires Inv(w, lim) && Step(w, Mirror(read), w1, lim) && Step(w1, Look(r), w2, lim)
    ensures var id := w.at.todo[0];
      var after := w.builds[id := Visited(w.builds[id], Answer(Some(read), Some(r)), w.passNow, lim)];
      if w2.at.Visiting? then w2.builds == after
      else && Finished(w2.builds[id], w2.at.verdict, w2.passNow).Some?
           && w2.builds[id := Finished(w2.builds[id], w2.at.verdict, w2.passNow).value] == after
  {
    var id := w.at.todo[0];
    assert IsRunning(w.builds, Todo(w.at)[0]) && BuildOk(id, w.builds[id], w.created);
    VerdictIsOk(w1.builds[id], r, w.passNow, lim);
    if !w2.at.Visiting? {
      OutcomeAccepted(w2.builds[id], w2.at.verdict, w2.passNow);
    }
  }

  // ---------- Whole runs ----------

  /** However the worker crashes, it never runs more builds than it may, and never creates two Jobs for one. */
  lemma LimitsHold(ws: seq<World>, es: seq<Event>, lim: Limits, n: nat)
    requires Run(ws, es, lim) && n < |ws|
    ensures |RunningIds(ws[n].builds)| <= lim.inFlight
    ensures forall i, j | 0 <= i < j < |ws[n].created| :: ws[n].created[i] != ws[n].created[j]
    ensures forall id | id in ws[n].jobs :: id in ws[n].created && id in ws[n].builds
  {
    Reached(ws, es, lim, n);
  }

  /** A build has an image exactly when it succeeded, and the image is not empty. */
  lemma SuccessHasAnImage(ws: seq<World>, es: seq<Event>, lim: Limits, n: nat, id: Id)
    requires Run(ws, es, lim) && n < |ws| && id in ws[n].builds
    ensures var b := ws[n].builds[id];
      (b.status == Succeeded <==> b.image.Some?) && (b.image.Some? ==> b.image.value != "")
  {
    Reached(ws, es, lim, n);
    assert BuildOk(id, ws[n].builds[id], ws[n].created);
  }

  predicate IsTerminal(w: World, id: Id) {
    id in w.builds && Terminal(w.builds[id].status)
  }

  lemma TerminalStep(w: World, e: Event, w': World, lim: Limits, id: Id)
    requires Inv(w, lim) && Step(w, e, w', lim) && IsTerminal(w, id)
    ensures id in w'.builds && w'.builds[id] == w.builds[id]
  {
    if Busy(w.at) { assert IsRunning(w.builds, Todo(w.at)[0]); }
  }

  /** A terminal build is never touched again: not its status, its image or its log. */
  lemma {:induction false} TerminalForever(ws: seq<World>, es: seq<Event>, lim: Limits, i: nat, j: nat, id: Id)
    requires Run(ws, es, lim) && i <= j < |ws|
    requires id in ws[i].builds && ws[i].builds[id].status in {Succeeded, Failed, Canceled}
    ensures id in ws[j].builds && ws[j].builds[id] == ws[i].builds[id]
  {
    hide Step, Inv;
    if i < j {
      TerminalForever(ws, es, lim, i, j - 1, id);
      Reached(ws, es, lim, j - 1);
      assert Step(ws[j - 1], es[j - 1], ws[j], lim);
      TerminalStep(ws[j - 1], es[j - 1], ws[j], lim, id);
    }
  }

  // ---------- How long a build may run ----------

  lemma StartStep(w: World, e: Event, w': World, lim: Limits, id: Id)
    requires Inv(w, lim) && Step(w, e, w', lim) && id in w'.builds
    ensures (id in w.builds && w'.builds[id].startedAt == w.builds[id].startedAt)
            || (e == ClaimOne(id) && w'.builds[id].startedAt == Some(w.passNow) && w.builds[id].status == Queued)
            || (e.Request? && e.id == id && w'.builds[id].startedAt.None?)
  {
    if Busy(w.at) { TodoHead(w, lim); }
    if e.Commit? {
      assert BuildOk(w.at.todo[0], w.builds[w.at.todo[0]], w.created);
      OutcomeAccepted(w.builds[w.at.todo[0]], w.at.verdict, w.passNow);
    }
  }

  /** The pass's time is the one it began with. */
  lemma {:induction false} PassTimeIsBegun(ws: seq<World>, es: seq<Event>, lim: Limits, n: nat)
    requires Run(ws, es, lim) && n < |ws|
    ensures ws[n].passNow == ws[0].passNow || exists k | 0 <= k < n :: es[k].Begin? && es[k].now == ws[n].passNow
    ensures forall k | 0 <= k < n && es[k].Begin? && (forall m | k < m < n :: !es[m].Begin?) ::
              es[k].now == ws[n].passNow
  {
    if n > 0 {
      PassTimeIsBegun(ws, es, lim, n - 1);
      RunStep(ws, es, lim, n - 1);
    }
  }

  /** A visit that raises is left for the next one; a start that does, or one not recorded, ends the pass. */
  lemma RaiseGoesOn(w: World, w': World, lim: Limits)
    requires Step(w, Raise, w', lim)
    ensures w'.builds == w.builds && w'.jobs == w.jobs && w'.passNow == w.passNow
    ensures if w.at.Creating? || w.at.Recording? then w'.at == Idle else w'.at == Visiting(Todo(w.at)[1..])
  {
  }

  /** A build counts as started from the time of the pass that claimed it. */
  lemma {:induction false} StartedWhenClaimed(ws: seq<World>, es: seq<Event>, lim: Limits, n: nat, id: Id)
    returns (k: nat)
    requires Run(ws, es, lim) && n < |ws| && id in ws[n].builds && ws[n].builds[id].startedAt.Some?
    ensures k < n && es[k] == ClaimOne(id) && ws[n].builds[id].startedAt == Some(ws[k].passNow)
  {
    hide Step, Inv;
    RunStep(ws, es, lim, n - 1);
    Reached(ws, es, lim, n - 1);
    StartStep(ws[n - 1], es[n - 1], ws[n], lim, id);
    if es[n - 1] == ClaimOne(id) && ws[n].builds[id].startedAt == Some(ws[n - 1].passNow) {
      k := n - 1;
    } else {
      k := StartedWhenClaimed(ws, es, lim, n - 1, id);
    }
  }

  /**
   A visit that finds the recorded Job active gives the build up exactly when its pass began more than the deadline and
   the grace after the pass that claimed it; else it lets it go on.
   */
  lemma GivenUpExactly(ws: seq<World>, es: seq<Event>, lim: Limits, n: nat, r: Reading) returns (k: nat)
    requires Run(ws, es, lim) && n < |es| && es[n] == Look(r) && r.job.Some? && Active(r.job.value)
    requires Busy(ws[n].at) && ws[n].at.todo[0] in ws[n].builds && ws[n].builds[ws[n].at.todo[0]].jobId.Some?
    ensures k < n && es[k] == ClaimOne(ws[n].at.todo[0])
    ensures var late := ws[n].passNow - ws[k].passNow > lim.deadline + lim.grace;
      && (late ==> ws[n + 1].at == Killing(ws[n].at.todo, Close(true, Failed, None, None)))
      && (!late ==> ws[n + 1].at == Visiting(ws[n].at.todo[1..]))
  {
    hide Inv;
    RunStep(ws, es, lim, n);
    Reached(ws, es, lim, n);
    RunningHasStarted(ws[n], lim);
    k := StartedWhenClaimed(ws, es, lim, n, ws[n].at.todo[0]);
  }

  lemma RunningHasStarted(w: World, lim: Limits)
    requires Inv(w, lim) && Busy(w.at)
    ensures w.at.todo[0] in w.builds && w.builds[w.at.todo[0]].startedAt.Some?
  {
    TodoHead(w, lim);
    assert BuildOk(w.at.todo[0], w.builds[w.at.todo[0]], w.created);
  }

  // ---------- No Job outlives its build ----------

  ghost predicate NoOrphan(w: World) {
    forall id | ActiveJob(w, id) :: IsRunning(w.builds, id)
  }

  /**
   A Job is there from a create that takes effect, whether or not its call comes back, until a delete that does or until
   it is gone by itself.
   */
  lemma JobsComeAndGo(w: World, e: Event, w': World, lim: Limits, id: Id)
    requires Step(w, e, w', lim)
    ensures id in w'.jobs && id !in w.jobs <==> id !in w.jobs && e.Create? && e.done && w.at.id == id
    ensures id in w.jobs && id !in w'.jobs <==>
              id in w.jobs && (e == JobGone(id) || (e == Kill(true) && w.at.todo[0] == id))
    ensures e.Create? ==> w'.at == (if e.ok then Recording(w.at.id) else Idle) && w'.builds == w.builds
  {
  }

  /** An active Job is not said to be missing, and a delete said to have succeeded has. */
  predicate Truthful(w: World, e: Event) {
    match e
    case Look(r) =>
      Busy(w.at) && w.at.todo[0] in w.builds && w.builds[w.at.todo[0]].jobId.Some? && r.job.None? ==>
        !ActiveJob(w, w.at.todo[0])
    case Kill(done) => Busy(w.at) && !done ==> !ActiveJob(w, w.at.todo[0])
    case _ => true
  }

  /** By the time an outcome is about to be committed, the Job is not active. */
  ghost predicate OrphanFree(w: World) {
    NoOrphan(w) && (w.at.Finishing? && Busy(w.at) ==> !ActiveJob(w, w.at.todo[0]))
  }

  lemma OrphanFreeStep(w: World, e: Event, w': World, lim: Limits)
    requires Inv(w, lim) && OrphanFree(w) && Step(w, e, w', lim) && Truthful(w, e)
    ensures OrphanFree(w')
  {
    if Busy(w.at) { assert IsRunning(w.builds, Todo(w.at)[0]); }
    forall id | ActiveJob(w', id) ensures IsRunning(w'.builds, id) {
      assert ActiveJob(w, id) || (e.Create? && id == w.at.id);
    }
  }

  /**
   Wherever the worker dies and whatever calls raise, an active Job's build is running in every state, when the cluster
   client's answers are truthful.
   */
  lemma {:induction false} NoOrphans(ws: seq<World>, es: seq<Event>, lim: Limits, n: nat)
    requires Run(ws, es, lim) && n < |ws|
    requires forall i | 0 <= i < n :: Truthful(ws[i], es[i])
    ensures OrphanFree(ws[n])
  {
    if n > 0 {
      NoOrphans(ws, es, lim, n - 1);
      Reached(ws, es, lim, n - 1);
      assert Step(ws[n - 1], es[n - 1], ws[n], lim);
      OrphanFreeStep(ws[n - 1], es[n - 1], ws[n], lim);
    }
  }

  /** The answer that settles an outcome leaves no orphan behind exactly when it is truthful. */
  lemma OutcomeOrphansExactly(ws: seq<World>, es: seq<Event>, lim: Limits, n: nat)
    requires Run(ws, es, lim) && n + 2 < |ws| && forall i | 0 <= i < n :: Truthful(ws[i], es[i])
    requires (es[n].Look? || es[n].Kill?) && es[n + 1] == Commit
    ensures NoOrphan(ws[n + 2]) <==> Truthful(ws[n], es[n])
  {
    NoOrphans(ws, es, lim, n);
    Reached(ws, es, lim, n);
    Reached(ws, es, lim, n + 1);
    var w, w', w'' := ws[n], ws[n + 1], ws[n + 2];
    assert Step(w, es[n], w', lim) && Step(w', Commit, w'', lim);
    OutcomeOrphans(w, es[n], w', w'', lim);
  }

  lemma OutcomeOrphans(w: World, e: Event, w': World, w'': World, lim: Limits)
    requires Inv(w, lim) && Inv(w', lim) && OrphanFree(w) && (e.Look? || e.Kill?)
    requires Step(w, e, w', lim) && Step(w', Commit, w'', lim)
    ensures NoOrphan(w'') <==> Truthful(w, e)
  {
    var id := w.at.todo[0];
    assert IsRunning(w.builds, Todo(w.at)[0]) && IsRunning(w'.builds, Todo(w'.at)[0]);
    OutcomeAccepted(w'.builds[id], w'.at.verdict, w'.passNow) by {
      assert BuildOk(id, w'.builds[id], w'.created);
    }
    if Truthful(w, e) {
      OrphanFreeStep(w, e, w', lim);
      OrphanFreeStep(w', Commit, w'', lim);
    } else {
      assert ActiveJob(w'', id) && !IsRunning(w''.builds, id);
    }
  }

  /** The outcome about to be committed is of a build whose Job is active. */
  predicate CommitsActive(w: World, e: Event) {
    e.Commit? && Busy(w.at) && ActiveJob(w, w.at.todo[0])
  }

  lemma OrphanedExactly(w: World, e: Event, w': World, lim: Limits)
    requires Inv(w, lim) && Step(w, e, w', lim) && NoOrphan(w)
    ensures NoOrphan(w') <==> !CommitsActive(w, e)
  {
    if Busy(w.at) { TodoHead(w, lim); }
    if e.Commit? {
      var id := w.at.todo[0];
      assert BuildOk(id, w.builds[id], w.created);
      OutcomeAccepted(w.builds[id], w.at.verdict, w.passNow);
      assert !IsRunning(w'.builds, id);
    }
    forall id | ActiveJob(w', id) && !CommitsActive(w, e) ensures IsRunning(w'.builds, id) {
      assert ActiveJob(w, id) || (e.Create? && id == w.at.id);
    }
  }

  /**
   Over a whole run no active Job is ever without a running build if and only if no outcome is committed of a build
   whose Job is still active, whatever the answers and wherever the worker dies.
   */
  lemma {:induction false} NoOrphansExactly(ws: seq<World>, es: seq<Event>, lim: Limits, n: nat)
    requires Run(ws, es, lim) && n < |ws|
    ensures (forall m | 0 <= m <= n :: NoOrphan(ws[m])) <==> (forall i | 0 <= i < n :: !CommitsActive(ws[i], es[i]))
  {
    hide Step, Inv, NoOrphan, CommitsActive;
    if n == 0 {
      StartsWithout(ws, es, lim);
    } else {
      NoOrphansExactly(ws, es, lim, n - 1);
      Reached(ws, es, lim, n - 1);
      assert Step(ws[n - 1], es[n - 1], ws[n], lim);
      if NoOrphan(ws[n - 1]) { OrphanedExactly(ws[n - 1], es[n - 1], ws[n], lim); }
    }
  }

  lemma StartsWithout(ws: seq<World>, es: seq<Event>, lim: Limits)
    requires Run(ws, es, lim)
    ensures NoOrphan(ws[0])
  {
  }

  /** Nothing makes a Job active that is not, but its creation. */
  lemma SettledStep(w: World, e: Event, w': World, lim: Limits)
    requires Inv(w, lim) && Step(w, e, w', lim) && w'.at.Finishing? && ActiveJob(w', w'.at.todo[0])
    ensures w'.at.todo[0] == w.at.todo[0] && ActiveJob(w, w.at.todo[0])
    ensures (w.at == w'.at && !e.Look? && !e.Kill?) || ((e.Look? || e.Kill?) && w.at.todo == w'.at.todo)
    ensures (e.Look? || e.Kill?) ==> Busy(w.at) && !Truthful(w, e)
  {
  }

  /**
   And it is always an answer's doing: such a commit follows an untruthful answer about that very Job, by which its
   visit was settled, and the Job has been active ever since.
   */
  lemma {:induction false} UntruthfulAnswerToBlame(ws: seq<World>, es: seq<Event>, lim: Limits, n: nat)
    returns (k: nat)
    requires Run(ws, es, lim) && n < |ws| && ws[n].at.Finishing? && Busy(ws[n].at)
    requires ActiveJob(ws[n], ws[n].at.todo[0])
    ensures k < n && (es[k].Look? || es[k].Kill?) && !Truthful(ws[k], es[k])
    ensures Busy(ws[k].at) && ws[k].at.todo == ws[n].at.todo
    ensures forall m | k < m <= n :: ws[m].at == ws[n].at && ActiveJob(ws[m], ws[n].at.todo[0])
  {
    hide Inv, Truthful, ActiveJob, Enabled;
    RunStep(ws, es, lim, n - 1);
    Reached(ws, es, lim, n - 1);
    SettledStep(ws[n - 1], es[n - 1], ws[n], lim);
    if es[n - 1].Look? || es[n - 1].Kill? {
      k := n - 1;
    } else {
      k := UntruthfulAnswerToBlame(ws, es, lim, n - 1);
    }
  }

  // A `kubectl get` that fails: build 7 is claimed and started in one pass, and lost sight of in the next.

  const LOST := Reading(None, None, false, None)
  const ASKED := Build(Queued, 0, None, None, None, None, "")
  const CLAIMED := ASKED.(status := Running, startedAt := Some(0))
  const STARTED := CLAIMED.(jobId := Some(7))
  const GIVEN_UP := STARTED.(status := Failed, finishedAt := Some(0))

  function At7(at: At, b: Build, job: bool): World {
    World(at, 0, map[7 := b], if job then map[7 := Job(0, 0)] else map[], if job then [7] else [])
  }

  lemma StartingSeven(lim: Limits)
    requires lim.inFlight > 0
    ensures Step(World(Idle, 0, map[], map[], []), Request(7, 0), At7(Idle, ASKED, false), lim)
    ensures Step(At7(Idle, ASKED, false), Begin([], 0), At7(Visiting([]), ASKED, false), lim)
    ensures Step(At7(Visiting([]), ASKED, false), Claim, At7(Claiming, ASKED, false), lim)
    ensures Step(At7(Claiming, ASKED, false), ClaimOne(7), At7(Creating(7), CLAIMED, false), lim)
  {
    assert RunningIds(At7(Claiming, ASKED, false).builds) == {};
  }

  lemma StartedSeven(lim: Limits)
    requires lim.inFlight > 0
    ensures Step(At7(Creating(7), CLAIMED, false), Create(true, true), At7(Recording(7), CLAIMED, true), lim)
    ensures Step(At7(Recording(7), CLAIMED, true), Record, At7(Claiming, STARTED, true), lim)
    ensures Step(At7(Claiming, STARTED, true), EndPass, At7(Idle, STARTED, true), lim)
  {
  }

  lemma LosingSeven(lim: Limits)
    ensures Step(At7(Idle, STARTED, true), Begin([7], 0), At7(Visiting([7]), STARTED, true), lim)
    ensures Step(At7(Visiting([7]), STARTED, true), Mirror(None), At7(Looking([7]), STARTED, true), lim)
    ensures Step(At7(Looking([7]), STARTED, true), Look(LOST), At7(Finishing([7], Failing(None)), STARTED, true), lim)
    ensures Step(At7(Finishing([7], Failing(None)), STARTED, true), Commit, At7(Visiting([]), GIVEN_UP, true), lim)
  {
    assert Finished(STARTED, Failing(None), 0) == Some(GIVEN_UP);
    assert [7][1..] == [] && map[7 := STARTED][7 := GIVEN_UP] == map[7 := GIVEN_UP];
  }

  /** The build is failed, and its Job runs on; nothing crashed and nothing raised. */
  lemma FailedGetOrphans(lim: Limits) returns (ws: seq<World>, es: seq<Event>)
    requires lim.inFlight > 0
    ensures Run(ws, es, lim) && !NoOrphan(ws[|es|]) && forall i | 0 <= i < |es| :: !es[i].Raise? && !es[i].Crash?
  {
    hide Step;
    es := [Request(7, 0), Begin([], 0), Claim, ClaimOne(7), Create(true, true), Record, EndPass,
           Begin([7], 0), Mirror(None), Look(LOST), Commit];
    ws := [World(Idle, 0, map[], map[], []), At7(Idle, ASKED, false), At7(Visiting([]), ASKED, false),
           At7(Claiming, ASKED, false), At7(Creating(7), CLAIMED, false), At7(Recording(7), CLAIMED, true),
           At7(Claiming, STARTED, true), At7(Idle, STARTED, true), At7(Visiting([7]), STARTED, true),
           At7(Looking([7]), STARTED, true), At7(Finishing([7], Failing(None)), STARTED, true),
           At7(Visiting([]), GIVEN_UP, true)];
    StartingSeven(lim);
    StartedSeven(lim);
    LosingSeven(lim);
    assert ActiveJob(ws[11], 7) && !IsRunning(ws[11].builds, 7);
  }

  // ---------- What a pass without errors settles ----------

  /** During the pass, the build's Job was seen active, and within its deadline and the grace beyond. */
  ghost predicate SeenGoing(ws: seq<World>, i: nat, n: nat, id: Id, lim: Limits) {
    exists m | i < m < n && m < |ws| ::
      && ActiveJob(ws[m], id) && id in ws[m].builds && ws[m].builds[id].jobId.Some?
      && !Overdue(ws[m].builds[id], ws[m].passNow, lim)
  }

  /** The build is still to be visited, or is over, or is rightly going on. */
  ghost predicate Dealt(ws: seq<World>, i: nat, n: nat, id: Id, lim: Limits)
    requires n < |ws|
  {
    id in Todo(ws[n].at) || IsTerminal(ws[n], id) || SeenGoing(ws, i, n, id, lim)
  }

  predicate Undisturbed(e: Event) {
    !e.Raise? && !e.Crash? && !e.Begin?
  }

  lemma RunStep(ws: seq<World>, es: seq<Event>, lim: Limits, n: nat)
    requires Run(ws, es, lim) && n + 1 < |ws|
    ensures n < |es| && Step(ws[n], es[n], ws[n + 1], lim)
  {
  }

  lemma DealtStep(ws: seq<World>, es: seq<Event>, lim: Limits, i: nat, n: nat, id: Id)
    requires Run(ws, es, lim) && i < n && n + 1 < |ws| && n < |es| && Undisturbed(es[n]) && Dealt(ws, i, n, id, lim)
    ensures Dealt(ws, i, n + 1, id, lim)
  {
    hide Inv, Run;
    RunStep(ws, es, lim, n);
    Reached(ws, es, lim, n);
    var w, e, w' := ws[n], es[n], ws[n + 1];
    if IsTerminal(w, id) {
      TerminalStep(w, e, w', lim, id);
    } else if id in Todo(w.at) && id !in Todo(w'.at) {
      TodoHead(w, lim);
      if e.Commit? {
        assert IsTerminal(w', id);
      } else {
        assert e.Look? && ActiveJob(w, id);
      }
    }
  }

  lemma TodoHead(w: World, lim: Limits)
    requires Inv(w, lim) && Busy(w.at)
    ensures IsRunning(w.builds, w.at.todo[0])
    ensures forall id | id in w.at.todo && id !in w.at.todo[1..] :: id == w.at.todo[0]
    ensures w.at.Finishing? ==> VerdictOk(w.at.verdict)
  {
    assert Todo(w.at)[0] == w.at.todo[0];
  }

  lemma {:induction false} AllDealt(ws: seq<World>, es: seq<Event>, lim: Limits, i: nat, n: nat, id: Id)
    requires Run(ws, es, lim) && i < n < |ws| && es[i].Begin? && IsRunning(ws[i].builds, id)
    requires forall k | i < k < n :: Undisturbed(es[k])
    ensures Dealt(ws, i, n, id, lim)
  {
    if n == i + 1 {
      assert Step(ws[i], es[i], ws[n], lim);
      assert id in RunningIds(ws[i].builds);
    } else {
      AllDealt(ws, es, lim, i, n - 1, id);
      DealtStep(ws, es, lim, i, n - 1, id);
    }
  }

  /**
   Once a pass in which nothing raised is past its visits, every build running at its start is terminal, unless its Job
   was recorded and seen active within deadline and grace. A build whose worker died before recording its Job is
   therefore always given up.
   */
  lemma PassSettles(ws: seq<World>, es: seq<Event>, lim: Limits, i: nat, n: nat, id: Id)
    requires Run(ws, es, lim) && i < n < |ws| && es[i].Begin? && IsRunning(ws[i].builds, id)
    requires (forall k | i < k < n :: Undisturbed(es[k])) && !Busy(ws[n].at)
    ensures IsTerminal(ws[n], id) || SeenGoing(ws, i, n, id, lim)
  {
    AllDealt(ws, es, lim, i, n, id);
  }
}
