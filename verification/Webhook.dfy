/**
 Payment notifications. A delivery fetches the payment's real state, acts on it in one database transaction, and may ask
 the provider for a recurring subscription on the way; that request is not undone when the transaction is.
 */
module Webhook {
  import opened Options

  type SubId = nat
  type DepId = nat

  datatype PayState = PayPending | PayCurrent | PayArrears

  datatype DepStatus = DepPending | DepProvisioning | DepOther

  /** `remote` is the provider's subscription. */
  datatype Sub = Sub(state: PayState, mandate: Option<string>, remote: Option<string>, deployments: seq<DepId>)

  datatype Payment = Payment(sub: SubId, status: string, first: bool, payload: Option<string>)

  datatype Job = Job(deployment: DepId, create: bool, open: bool)

  datatype Db = Db(
    subs: map<SubId, Sub>, payments: map<string, Payment>, deployments: map<DepId, DepStatus>, jobs: seq<Job>)

  datatype Info = Info(status: string, mandate: Option<string>, subscription: Option<string>, payload: string)

  /** `remotes` is the provider's memory, by idempotency key: a key it has seen gives the subscription it gave then. */
  datatype World = World(db: Db, remotes: map<SubId, string>)

  /** Where a delivery fails: asking the provider, before or after it acted, or committing. */
  datatype Fault = NoFault | BeforeCreate | AfterCreate | AtCommit

  const STATUSES := {"open", "pending", "authorized", "paid", "canceled", "expired", "failed"}
  const TERMINAL_FAILURES := {"failed", "expired", "canceled"}

  /** The subscription a payment belongs to, and the rows with the payment among them. */
  ghost function FindSub(db: Db, id: string, info: Info): Option<(SubId, Db)> {
    if id in db.payments then Some((db.payments[id].sub, db))
    else if info.subscription.None? || info.subscription.value == "" then None
    else
      var sub := SubOf(db.subs, info.subscription.value);
      if sub.None? then None
      else Some((sub.value, db.(payments := db.payments[id := Payment(sub.value, info.status, false, None)])))
  }

  predicate IsSubOf(subs: map<SubId, Sub>, s: SubId, remote: string) {
    s in subs && subs[s].remote == Some(remote)
  }

  ghost function SubOf(subs: map<SubId, Sub>, remote: string): (r: Option<SubId>)
    ensures r.Some? ==> IsSubOf(subs, r.value, remote)
    ensures r.None? ==> forall s :: !IsSubOf(subs, s, remote)
  {
    if exists s :: IsSubOf(subs, s, remote) then (var s :| IsSubOf(subs, s, remote); Some(s)) else None
  }

  function Provision(ds: seq<DepId>, deployments: map<DepId, DepStatus>): map<DepId, DepStatus> {
    map d | d in deployments :: if d in ds && deployments[d] == DepPending then DepProvisioning else deployments[d]
  }

  predicate HasOpenJob(jobs: seq<Job>, d: DepId) {
    exists i | 0 <= i < |jobs| :: jobs[i].deployment == d && jobs[i].open
  }

  /** A create job for each that is provisioning; None when one of them already has a job in progress. */
  function EnqueueAll(ds: seq<DepId>, deployments: map<DepId, DepStatus>, jobs: seq<Job>): Option<seq<Job>> {
    if ds == [] then Some(jobs)
    else
      var before := EnqueueAll(ds[..|ds| - 1], deployments, jobs);
      var d := ds[|ds| - 1];
      if before.None? then None
      else if d !in deployments || deployments[d] != DepProvisioning then before
      else if HasOpenJob(before.value, d) then None
      else Some(before.value + [Job(d, true, true)])
  }

  /** The database half of a paid first payment; None when it raises before the provider is asked. */
  function FirstPaid(db: Db, s: SubId, info: Info): Option<Db>
    requires s in db.subs
  {
    var sub := db.subs[s];
    var deployments := Provision(sub.deployments, db.deployments);
    var jobs := if sub.state == PayPending then EnqueueAll(sub.deployments, deployments, db.jobs) else Some(db.jobs);
    if jobs.None? || (sub.remote.None? && sub.deployments == []) then None
    else
      Some(db.(subs := db.subs[s := sub.(state := PayCurrent, mandate := info.mandate)],
               deployments := deployments, jobs := jobs.value))
  }

  function WithState(db: Db, s: SubId, state: PayState): Db
    requires s in db.subs
  {
    db.(subs := db.subs[s := db.subs[s].(state := state)])
  }

  /** Every foreign key is there. */
  predicate Linked(db: Db) {
    forall id | id in db.payments :: db.payments[id].sub in db.subs
  }

  /** `made` is the name the provider would give a subscription it has not made before. */
  ghost function Deliver(w: World, id: string, info: Option<Info>, fault: Fault, made: string): World
    requires Linked(w.db)
  {
    if info.None? then w
    else
      var found := FindSub(w.db, id, info.value);
      if found.None? || info.value.status !in STATUSES then w
      else
        var (s, db) := found.value;
        Settle(w, s, db.(payments := db.payments[id := db.payments[id].(
                                  status := info.value.status, payload := Some(info.value.payload))]),
               db.payments[id].first, info.value, fault, made)
  }

  function Settle(w: World, s: SubId, db: Db, first: bool, info: Info, fault: Fault, made: string): World
    requires s in db.subs
  {
    if first && info.status == "paid" then Activate(w, s, db, info, fault, made)
    else if fault == AtCommit then w
    else if info.status == "paid" then w.(db := WithState(db, s, PayCurrent))
    else if info.status in TERMINAL_FAILURES then w.(db := WithState(db, s, PayArrears))
    else w.(db := db)
  }

  function Activate(w: World, s: SubId, db: Db, info: Info, fault: Fault, made: string): World
    requires s in db.subs
  {
    var paid := FirstPaid(db, s, info);
    if paid.None? then w
    else if db.subs[s].remote.Some? then if fault == AtCommit then w else w.(db := paid.value)
    else if fault == BeforeCreate then w
    else
      var remote := if s in w.remotes then w.remotes[s] else made;
      var asked := w.(remotes := w.remotes[s := remote]);
      if fault != NoFault then asked
      else
        asked.(db := paid.value.(subs := paid.value.subs[s := paid.value.subs[s].(remote := Some(remote))]))
  }

  // ---------- The handler ----------

  class Handler {
    var db: Db
    var remotes: map<SubId, string>

    ghost function View(): World
      reads this
    {
      World(db, remotes)
    }

    constructor (w: World)
      ensures View() == w
    {
      db, remotes := w.db, w.remotes;
    }

    /** The provider honours the idempotency key. None is a call that raised. */
    method CreateSubscription(s: SubId, fault: Fault, made: string) returns (remote: Option<string>)
      modifies this`remotes
      ensures fault == BeforeCreate ==> remote.None? && remotes == old(remotes)
      ensures fault != BeforeCreate ==>
                && remotes == old(remotes)[s := if s in old(remotes) then old(remotes)[s] else made]
                && remote == if fault == AfterCreate then None else Some(remotes[s])
    {
      if fault == BeforeCreate {
        return None;
      }
      if s !in remotes {
        remotes := remotes[s := made];
      }
      return if fault == AfterCreate then None else Some(remotes[s]);
    }

    method HandleFirstPaymentPaid(tx: Db, s: SubId, info: Info, fault: Fault, made: string) returns (r: Option<Db>)
      requires s in tx.subs
      modifies this`remotes
      ensures View().(db := if r.Some? && fault != AtCommit then r.value else old(db))
              == Activate(old(View()), s, tx, info, fault, made)
    {
      hide Provision, EnqueueAll;
      var sub := tx.subs[s];
      var wasPending := sub.state == PayPending;
      var deployments := ProvisionEach(sub.deployments, tx.deployments);
      var jobs := Some(tx.jobs);
      if wasPending {
        jobs := EnqueueEach(sub.deployments, deployments, tx.jobs);
        if jobs.None? {
          return None;
        }
      }
      var active := tx.(subs := tx.subs[s := sub.(state := PayCurrent, mandate := info.mandate)],
                        deployments := deployments, jobs := jobs.value);
      if sub.remote.None? {
        if sub.deployments == [] {
          return None;
        }
        var remote := CreateSubscription(s, fault, made);
        if remote.None? {
          return None;
        }
        active := active.(subs := active.subs[s := active.subs[s].(remote := remote)]);
      }
      return Some(active);
    }

    method FindSubscription(remote: string) returns (r: Option<SubId>)
      requires forall a, b | IsSubOf(db.subs, a, remote) && IsSubOf(db.subs, b, remote) :: a == b
      ensures r == SubOf(db.subs, remote)
    {
      r := None;
      var todo := db.subs.Keys;
      while todo != {} && r.None?
        invariant todo <= db.subs.Keys
        invariant r.None? ==> forall s | s in db.subs.Keys - todo :: !IsSubOf(db.subs, s, remote)
        invariant r.Some? ==> IsSubOf(db.subs, r.value, remote)
      {
        var s :| s in todo;
        todo := todo - {s};
        if db.subs[s].remote == Some(remote) {
          r := Some(s);
        }
      }
    }

    /** `info` is the payment as the provider has it now, None when it cannot be fetched. */
    method MollieWebhook(id: string, info: Option<Info>, fault: Fault, made: string)
      requires Linked(db)
      requires forall a, b, remote | IsSubOf(db.subs, a, remote) && IsSubOf(db.subs, b, remote) :: a == b
      modifies this
      ensures View() == Deliver(old(View()), id, info, fault, made)
    {
      if info.None? {
        return;
      }
      var i := info.value;
      var s: SubId;
      var tx := db;
      if id in tx.payments {
        s := tx.payments[id].sub;
      } else {
        if i.subscription.None? || i.subscription.value == "" {
          return;
        }
        var found := FindSubscription(i.subscription.value);
        if found.None? {
          return;
        }
        s := found.value;
        tx := tx.(payments := tx.payments[id := Payment(s, i.status, false, None)]);
      }
      if i.status !in STATUSES {
        return;
      }
      tx := tx.(payments := tx.payments[id := tx.payments[id].(status := i.status, payload := Some(i.payload))]);
      var first := tx.payments[id].first;
      if first && i.status == "paid" {
        var r := HandleFirstPaymentPaid(tx, s, i, fault, made);
        if r.None? {
          return;
        }
        tx := r.value;
      } else if i.status == "paid" {
        tx := WithState(tx, s, PayCurrent);
      } else if i.status in TERMINAL_FAILURES {
        tx := WithState(tx, s, PayArrears);
      }
      if fault != AtCommit {
        db := tx;
      }
    }
  }

  method ProvisionEach(ds: seq<DepId>, deployments: map<DepId, DepStatus>) returns (r: map<DepId, DepStatus>)
    ensures r == Provision(ds, deployments)
  {
    r := deployments;
    for i := 0 to |ds|
      invariant r == Provision(ds[..i], deployments)
    {
      if ds[i] in r && r[ds[i]] == DepPending {
        r := r[ds[i] := DepProvisioning];
      }
    }
    assert ds[..|ds|] == ds;
  }

  method EnqueueEach(ds: seq<DepId>, deployments: map<DepId, DepStatus>, jobs: seq<Job>) returns (r: Option<seq<Job>>)
    ensures r == EnqueueAll(ds, deployments, jobs)
  {
    var all := jobs;
    for i := 0 to |ds|
      invariant EnqueueAll(ds[..i], deployments, jobs) == Some(all)
    {
      assert ds[..i + 1][..i] == ds[..i];
      if ds[i] in deployments && deployments[ds[i]] == DepProvisioning {
        if HasOpenJob(all, ds[i]) {
          EnqueueFails(ds, i + 1, deployments, jobs);
          return None;
        }
        all := all + [Job(ds[i], true, true)];
      }
    }
    assert ds[..|ds|] == ds;
    return Some(all);
  }

  lemma {:induction false} EnqueueFails(ds: seq<DepId>, i: nat, deployments: map<DepId, DepStatus>, jobs: seq<Job>)
    requires i <= |ds| && EnqueueAll(ds[..i], deployments, jobs).None?
    ensures EnqueueAll(ds, deployments, jobs).None?
    decreases |ds| - i
  {
    if i == |ds| {
      assert ds[..i] == ds;
    } else {
      assert ds[..i + 1][..i] == ds[..i];
      EnqueueFails(ds, i + 1, deployments, jobs);
    }
  }

  // ---------- What a delivery does ----------

  /** How a subscription and its deployments come out of a notification; `starts` is a paid first payment. */
  ghost predicate Settled(w: World, v: World, s: SubId, info: Info, starts: bool) {
    && s in w.db.subs && s in v.db.subs && v.db.subs == w.db.subs[s := v.db.subs[s]]
    && v.db.subs[s].deployments == w.db.subs[s].deployments
    && v.db.subs[s].state == (if info.status == "paid" then PayCurrent
                              else if info.status in {"failed", "expired", "canceled"} then PayArrears
                              else w.db.subs[s].state)
    && v.db.subs[s].mandate == (if starts then info.mandate else w.db.subs[s].mandate)
    && (v.db.subs[s].remote.Some? <==> starts || w.db.subs[s].remote.Some?)
    && (w.db.subs[s].remote.Some? || !starts ==> v.db.subs[s].remote == w.db.subs[s].remote)
    && v.db.deployments.Keys == w.db.deployments.Keys
    && (forall d | d in w.db.deployments ::
         v.db.deployments[d] ==
         if starts && d in w.db.subs[s].deployments && w.db.deployments[d] == DepPending then DepProvisioning
         else w.db.deployments[d])
    && (!starts || w.db.subs[s].state != PayPending ==> v.db.jobs == w.db.jobs)
    && w.db.jobs <= v.db.jobs
    && forall i | |w.db.jobs| <= i < |v.db.jobs| ::
         v.db.jobs[i] == Job(v.db.jobs[i].deployment, true, true)
         && v.db.jobs[i].deployment in w.db.subs[s].deployments
  }

  lemma {:induction false} EnqueuedJobs(ds: seq<DepId>, deployments: map<DepId, DepStatus>, jobs: seq<Job>)
    requires EnqueueAll(ds, deployments, jobs).Some?
    ensures var all := EnqueueAll(ds, deployments, jobs).value;
      && jobs <= all
      && forall i | |jobs| <= i < |all| :: all[i] == Job(all[i].deployment, true, true) && all[i].deployment in ds
  {
    if ds != [] { EnqueuedJobs(ds[..|ds| - 1], deployments, jobs); }
  }

  lemma SettleOutcome(w: World, s: SubId, db: Db, first: bool, info: Info, made: string)
    requires s in db.subs && db == w.db.(payments := db.payments)
    ensures var v := Settle(w, s, db, first, info, NoFault, made);
      if first && info.status == "paid" && FirstPaid(db, s, info).None? then v == w
      else v.db.payments == db.payments && Settled(w, v, s, info, first && info.status == "paid")
  {
    hide Provision, EnqueueAll;
    if first && info.status == "paid" {
      ActivateOutcome(w, s, db, info, made);
    }
  }

  lemma ActivateOutcome(w: World, s: SubId, db: Db, info: Info, made: string)
    requires s in db.subs && db == w.db.(payments := db.payments) && info.status == "paid"
    ensures var v := Activate(w, s, db, info, NoFault, made);
      if FirstPaid(db, s, info).None? then v == w else v.db.payments == db.payments && Settled(w, v, s, info, true)
  {
    hide EnqueueAll;
    var deployments := Provision(db.subs[s].deployments, db.deployments);
    if EnqueueAll(db.subs[s].deployments, deployments, db.jobs).Some? {
      EnqueuedJobs(db.subs[s].deployments, deployments, db.jobs);
    }
  }

  /** A payment is known by its own id, or by the provider's id of a subscription of ours. */
  lemma FoundExactly(db: Db, id: string, info: Info)
    ensures FindSub(db, id, info).Some? <==>
      || id in db.payments
      || (info.subscription.Some? && info.subscription.value != ""
          && exists s :: s in db.subs && db.subs[s].remote == info.subscription)
    ensures FindSub(db, id, info).Some? ==>
      var s := FindSub(db, id, info).value.0;
      if id in db.payments then s == db.payments[id].sub else s in db.subs && db.subs[s].remote == info.subscription
  {
    if s :| s in db.subs && info.subscription.Some? && db.subs[s].remote == info.subscription {
      assert IsSubOf(db.subs, s, info.subscription.value);
    }
  }

  /** What is not known, cannot be fetched, or has a status not heard of changes nothing. */
  lemma IgnoredDeliveries(w: World, id: string, info: Option<Info>, fault: Fault, made: string)
    requires Linked(w.db)
    requires info.Some? ==> FindSub(w.db, id, info.value).None? || info.value.status !in
                            {"open", "pending", "authorized", "paid", "canceled", "expired", "failed"}
    ensures Deliver(w, id, info, fault, made) == w
  {
  }

  predicate Starting(deployments: map<DepId, DepStatus>, d: DepId) {
    d in deployments && deployments[d] != DepOther
  }

  lemma {:induction false} EnqueueRaises(ds: seq<DepId>, deployments: map<DepId, DepStatus>, jobs: seq<Job>, d: DepId)
    requires Distinct(ds)
    ensures EnqueueAll(ds, deployments, jobs).None? <==>
            exists x :: x in ds && x in deployments && deployments[x] == DepProvisioning && HasOpenJob(jobs, x)
    ensures EnqueueAll(ds, deployments, jobs).Some? && d !in ds ==>
              (HasOpenJob(EnqueueAll(ds, deployments, jobs).value, d) <==> HasOpenJob(jobs, d))
  {
    if ds != [] {
      var init, last := ds[..|ds| - 1], ds[|ds| - 1];
      EnqueueRaises(init, deployments, jobs, d);
      EnqueueRaises(init, deployments, jobs, last);
      assert ds == init + [last] && last !in init;
      var before := EnqueueAll(init, deployments, jobs);
      if before.Some? { OpenSnoc(before.value, last, d); }
    }
  }

  lemma OpenSnoc(jobs: seq<Job>, last: DepId, d: DepId)
    ensures d != last ==> (HasOpenJob(jobs + [Job(last, true, true)], d) <==> HasOpenJob(jobs, d))
  {
    var more := jobs + [Job(last, true, true)];
    assert forall i | 0 <= i < |jobs| :: more[i] == jobs[i];
  }

  /**
   A paid first payment raises exactly when its subscription awaited it and one of its deployments, not past
   provisioning, has a job in progress, or when there is no deployment to describe the recurring subscription by.
   */
  lemma FirstPaidRaises(db: Db, s: SubId, info: Info)
    requires s in db.subs && Distinct(db.subs[s].deployments)
    ensures var sub := db.subs[s];
      FirstPaid(db, s, info).None? <==>
      || (sub.remote.None? && sub.deployments == [])
      || (sub.state == PayPending
          && exists i | 0 <= i < |db.jobs| ::
               db.jobs[i].open && db.jobs[i].deployment in sub.deployments
               && Starting(db.deployments, db.jobs[i].deployment))
  {
    var sub := db.subs[s];
    var deployments := Provision(sub.deployments, db.deployments);
    EnqueueRaises(sub.deployments, deployments, db.jobs, 0);
    assert forall d | d in sub.deployments ::
        Starting(db.deployments, d) <==> d in deployments && deployments[d] == DepProvisioning;
  }

  /**
   What a delivery that meets no fault leaves: nothing when it raises, which `FirstPaidRaises` says when. The payment's
   record says what the provider says. Its subscription is current after a paid payment, in arrears after a failed one,
   and as it was after any other; only a paid first payment sets its mandate, asks for its recurring subscription and
   provisions its pending deployments. Nothing else changes.
   */
  lemma DeliveryOutcome(w: World, id: string, info: Info, made: string)
    requires Linked(w.db) && FindSub(w.db, id, info).Some?
    requires info.status in {"open", "pending", "authorized", "paid", "canceled", "expired", "failed"}
    ensures var v, s := Deliver(w, id, Some(info), NoFault, made), FindSub(w.db, id, info).value.0;
      var first := id in w.db.payments && w.db.payments[id].first;
      if first && info.status == "paid" && FirstPaid(w.db, s, info).None? then v == w
      else
        && v.db.payments == w.db.payments[id := Payment(s, info.status, first, Some(info.payload))]
        && Settled(w, v, s, info, first && info.status == "paid")
  {
    hide Settle, Settled;
    var (s, found) := FindSub(w.db, id, info).value;
    var first := found.payments[id].first;
    var db := found.(payments := found.payments[id := found.payments[id].(
                                   status := info.status, payload := Some(info.payload))]);
    assert db.payments == w.db.payments[id := Payment(s, info.status, first, Some(info.payload))];
    SettleOutcome(w, s, db, first, info, made);
  }

  // ---------- Delivering again ----------

  lemma ProvisionTwice(ds: seq<DepId>, deployments: map<DepId, DepStatus>)
    ensures Provision(ds, Provision(ds, deployments)) == Provision(ds, deployments)
  {
  }

  /** A notification that was processed changes nothing when it comes again, whatever then fails. */
  lemma RedeliveryIsNoOp(w: World, id: string, info: Option<Info>, made: string, again: Fault, made': string)
    requires Linked(w.db)
    ensures var v := Deliver(w, id, info, NoFault, made);
      Linked(v.db) && Deliver(v, id, info, again, made') == v
  {
    var v := Deliver(w, id, info, NoFault, made);
    if info.Some? {
      var found := FindSub(w.db, id, info.value);
      if found.Some? && info.value.status in STATUSES && v != w {
        ProvisionTwice(v.db.subs[found.value.0].deployments, w.db.deployments);
        assert v.db.payments[id].status == info.value.status && v.db.payments[id].sub == found.value.0;
        assert FindSub(v.db, id, info.value) == Some((found.value.0, v.db));
        Again(v, found.value.0, id, info.value, again, made');
      }
    }
  }

  /** What a processed notification leaves, and what it then does again. */
  lemma Again(v: World, s: SubId, id: string, i: Info, again: Fault, made: string)
    requires Linked(v.db) && i.status in STATUSES && id in v.db.payments
    requires v.db.payments[id] == Payment(s, i.status, v.db.payments[id].first, Some(i.payload))
    requires var sub := v.db.subs[s];
      && (i.status == "paid" ==> sub.state == PayCurrent)
      && (i.status in TERMINAL_FAILURES ==> sub.state == PayArrears)
      && (v.db.payments[id].first && i.status == "paid" ==>
           && sub.mandate == i.mandate && sub.remote.Some?
           && Provision(sub.deployments, v.db.deployments) == v.db.deployments)
    ensures Deliver(v, id, Some(i), again, made) == v
  {
    assert v.db.(payments := v.db.payments[id := v.db.payments[id]]) == v.db;
    assert v.db.(subs := v.db.subs[s := v.db.subs[s]]) == v.db;
  }

  /**
   A delivery that met a fault did what it would have without, or nothing, or only asked the provider; one that fails to
   commit leaves the database as it was.
   */
  lemma FaultyDelivery(w: World, id: string, info: Option<Info>, fault: Fault, made: string)
    requires Linked(w.db)
    ensures var v := Deliver(w, id, info, fault, made);
      || v == Deliver(w, id, info, NoFault, made)
      || v == w
      || (info.Some? && FindSub(w.db, id, info.value).Some?
          && var s := FindSub(w.db, id, info.value).value.0;
             s !in w.remotes && v == w.(remotes := w.remotes[s := made])
             && Deliver(v, id, info, NoFault, made) == Deliver(w, id, info, NoFault, made))
    ensures fault == AtCommit ==> Deliver(w, id, info, fault, made).db == w.db
  {
    hide FirstPaid, WithState;
    if info.Some? && FindSub(w.db, id, info.value).Some? {
      var s := FindSub(w.db, id, info.value).value.0;
      if s in w.remotes { assert w.remotes[s := w.remotes[s]] == w.remotes; }
      assert w.remotes[s := made][s := made] == w.remotes[s := made];
    }
  }

  lemma MadeOnce(w: World, id: string, info: Option<Info>, made: string, made': string)
    requires Linked(w.db) && info.Some? && FindSub(w.db, id, info.value).Some?
    requires FindSub(w.db, id, info.value).value.0 in w.remotes
    ensures Deliver(w, id, info, NoFault, made) == Deliver(w, id, info, NoFault, made')
  {
    hide FirstPaid, WithState;
  }

  /** A delivery that failed and comes again ends where one that had never failed would have. */
  lemma RetryIsOnce(w: World, id: string, info: Option<Info>, fault: Fault, made: string, made': string)
    requires Linked(w.db)
    ensures var v := Deliver(w, id, info, fault, made);
      && Linked(v.db)
      && (Deliver(v, id, info, NoFault, made') == Deliver(w, id, info, NoFault, made')
          || Deliver(v, id, info, NoFault, made') == Deliver(w, id, info, NoFault, made))
  {
    hide Deliver;
    var v := Deliver(w, id, info, fault, made);
    FaultyDelivery(w, id, info, fault, made);
    if v == Deliver(w, id, info, NoFault, made) {
      RedeliveryIsNoOp(w, id, info, made, NoFault, made');
    } else if v != w {
      MadeOnce(v, id, info, made, made');
    }
  }

  // ---------- Runs ----------

  /** `SignUp` orders a deployment, paid for or free; the platform's other work moves deployments and jobs. */
  datatype Event =
    | Notify(id: string, info: Option<Info>, fault: Fault, made: string)
    | SignUp(s: SubId, d: DepId, payment: Option<string>)
    | Reconcile(d: DepId, status: DepStatus)
    | EndJob(i: nat)
    | OtherJob(d: DepId)
    | SetState(s: SubId, state: PayState)

  /** No subscription of the provider's has this name yet. */
  ghost predicate Unused(w: World, made: string) {
    forall s | s in w.remotes :: w.remotes[s] != made
  }

  ghost predicate Enabled(w: World, e: Event) {
    match e
    case Notify(_, _, _, made) => Linked(w.db) && Unused(w, made)
    case SignUp(s, d, payment) =>
      && s !in w.db.subs && s !in w.remotes && d !in w.db.deployments
      && (forall i | 0 <= i < |w.db.jobs| :: w.db.jobs[i].deployment != d)
      && (payment.Some? ==> payment.value !in w.db.payments)
    case Reconcile(d, status) => d in w.db.deployments && status != DepPending
    case EndJob(i) => i < |w.db.jobs|
    case OtherJob(d) => d in w.db.deployments && !HasOpenJob(w.db.jobs, d)
    case SetState(s, _) => s in w.db.subs
  }

  function SignedUp(db: Db, s: SubId, d: DepId, payment: Option<string>): Db {
    if payment.Some? then
      db.(subs := db.subs[s := Sub(PayPending, None, None, [d])],
          payments := db.payments[payment.value := Payment(s, "open", true, None)],
          deployments := db.deployments[d := DepPending])
    else
      db.(subs := db.subs[s := Sub(PayCurrent, None, None, [d])],
          deployments := db.deployments[d := DepProvisioning],
          jobs := db.jobs + [Job(d, true, true)])
  }

  ghost function After(w: World, e: Event): World
    requires Enabled(w, e)
  {
    match e
    case Notify(id, info, fault, made) => Deliver(w, id, info, fault, made)
    case SignUp(s, d, payment) => w.(db := SignedUp(w.db, s, d, payment))
    case Reconcile(d, status) => w.(db := w.db.(deployments := w.db.deployments[d := status]))
    case EndJob(i) => w.(db := w.db.(jobs := w.db.jobs[i := w.db.jobs[i].(open := false)]))
    case OtherJob(d) => w.(db := w.db.(jobs := w.db.jobs + [Job(d, false, true)]))
    case SetState(s, state) => w.(db := WithState(w.db, s, state))
  }

  /** A run from any world, and one from the empty one. */
  ghost predicate RunFrom(ws: seq<World>, es: seq<Event>) {
    |ws| == |es| + 1 && forall i | 0 <= i < |es| :: Enabled(ws[i], es[i]) && ws[i + 1] == After(ws[i], es[i])
  }

  ghost predicate Run(ws: seq<World>, es: seq<Event>) {
    RunFrom(ws, es) && ws[0] == World(Db(map[], map[], map[], []), map[])
  }

  function CreateJobs(jobs: seq<Job>, d: DepId): nat {
    if jobs == [] then 0
    else
      var j := jobs[|jobs| - 1];
      CreateJobs(jobs[..|jobs| - 1], d) + if j.create && j.deployment == d then 1 else 0
  }

  predicate Distinct(ds: seq<DepId>) {
    forall i, j | 0 <= i < j < |ds| :: ds[i] != ds[j]
  }

  /** A deployment has one subscription. */
  ghost predicate OwnsOk(db: Db) {
    && (forall s | s in db.subs :: Distinct(db.subs[s].deployments))
    && (forall s, d | s in db.subs && d in db.subs[s].deployments :: d in db.deployments)
    && (forall s, t, d | s in db.subs && t in db.subs && d in db.subs[s].deployments && d in db.subs[t].deployments ::
         s == t)
  }

  ghost predicate RemotesOk(w: World) {
    && (forall s | s in w.db.subs && w.db.subs[s].remote.Some? ::
         s in w.remotes && w.remotes[s] == w.db.subs[s].remote.value)
    && (forall s, t | s in w.remotes && t in w.remotes && w.remotes[s] == w.remotes[t] :: s == t)
    && (forall s | s in w.remotes :: s in w.db.subs)
  }

  predicate IsFirstOf(payments: map<string, Payment>, id: string, s: SubId) {
    id in payments && payments[id].sub == s && payments[id].first
  }

  /** Only a subscription with a first payment can start anything once more. */
  predicate HasFirst(payments: map<string, Payment>, s: SubId) {
    exists id | id in payments :: IsFirstOf(payments, id, s)
  }

  ghost predicate NoNewFirsts(before: map<string, Payment>, after: map<string, Payment>) {
    forall s | HasFirst(after, s) :: HasFirst(before, s)
  }

  /** At most one create job for each deployment, and none while its subscription awaits a first payment it has. */
  ghost predicate JobsOk(db: Db) {
    && (forall d :: CreateJobs(db.jobs, d) <= 1)
    && (forall s, d | s in db.subs && db.subs[s].state == PayPending && HasFirst(db.payments, s)
                      && d in db.subs[s].deployments ::
         CreateJobs(db.jobs, d) == 0)
  }

  ghost predicate Sound(w: World) {
    Linked(w.db) && OwnsOk(w.db) && RemotesOk(w)
  }

  lemma {:induction false} EnqueueCounts(
    ds: seq<DepId>, deployments: map<DepId, DepStatus>, jobs: seq<Job>, d: DepId)
    requires Distinct(ds) && EnqueueAll(ds, deployments, jobs).Some?
    ensures CreateJobs(EnqueueAll(ds, deployments, jobs).value, d) ==
            CreateJobs(jobs, d) + if d in ds && d in deployments && deployments[d] == DepProvisioning then 1 else 0
  {
    if ds != [] {
      hide HasOpenJob, CreateJobs;
      var init, last := ds[..|ds| - 1], ds[|ds| - 1];
      EnqueueCounts(init, deployments, jobs, d);
      CountSnoc(EnqueueAll(init, deployments, jobs).value, Job(last, true, true), d);
      assert ds == init + [last] && last !in init;
    }
  }

  /** What a paid first payment changes, when it is committed. */
  lemma Activated(w: World, s: SubId, db: Db, info: Info, fault: Fault, made: string)
    requires s in db.subs && db == w.db.(payments := db.payments)
    ensures var v := Activate(w, s, db, info, fault, made);
      v.db != w.db ==>
        && FirstPaid(db, s, info).Some? && v.db.jobs == FirstPaid(db, s, info).value.jobs
        && v.db.payments == db.payments && v.db.deployments == Provision(db.subs[s].deployments, db.deployments)
        && v.db.subs == w.db.subs[s := v.db.subs[s]]
        && v.db.subs[s] == Sub(PayCurrent, info.mandate, v.db.subs[s].remote, w.db.subs[s].deployments)
        && v.db.subs[s].remote.Some?
        && (v.db.subs[s].remote == w.db.subs[s].remote || (s in v.remotes && v.db.subs[s].remote == Some(v.remotes[s])))
  {
    hide Provision, EnqueueAll;
  }

  /** The provider is asked with the subscription's own key, so it makes at most one subscription for it. */
  lemma Asked(w: World, s: SubId, db: Db, info: Info, fault: Fault, made: string)
    requires s in db.subs
    ensures var v := Activate(w, s, db, info, fault, made);
      v.remotes == w.remotes || (s !in w.remotes && v.remotes == w.remotes[s := made])
  {
    if s in w.remotes { assert w.remotes[s := w.remotes[s]] == w.remotes; }
  }

  lemma OwnsKept(db: Db, v: Db)
    requires OwnsOk(db) && db.subs.Keys == v.subs.Keys && db.deployments.Keys == v.deployments.Keys
    requires forall s | s in db.subs :: v.subs[s].deployments == db.subs[s].deployments
    ensures OwnsOk(v)
  {
  }

  lemma ActivateSound(w: World, s: SubId, db: Db, info: Info, fault: Fault, made: string)
    requires Sound(w) && Linked(db) && s in db.subs && db == w.db.(payments := db.payments) && Unused(w, made)
    ensures Sound(Activate(w, s, db, info, fault, made))
  {
    hide Activate, FirstPaid, OwnsOk;
    Activated(w, s, db, info, fault, made);
    Asked(w, s, db, info, fault, made);
    var v := Activate(w, s, db, info, fault, made);
    if v.db != w.db { OwnsKept(w.db, v.db); }
  }

  lemma ActivateJobs(w: World, s: SubId, db: Db, info: Info, fault: Fault, made: string)
    requires OwnsOk(w.db) && JobsOk(w.db) && s in db.subs && db == w.db.(payments := db.payments)
    requires NoNewFirsts(w.db.payments, db.payments) && HasFirst(db.payments, s)
    ensures JobsOk(Activate(w, s, db, info, fault, made).db)
  {
    hide Activate, HasFirst;
    Activated(w, s, db, info, fault, made);
    var v := Activate(w, s, db, info, fault, made);
    if v.db != w.db {
      var sub := db.subs[s];
      forall d ensures CreateJobs(v.db.jobs, d) <= 1
      ensures d !in sub.deployments ==> CreateJobs(v.db.jobs, d) == CreateJobs(w.db.jobs, d)
      {
        if sub.state == PayPending { EnqueueCounts(sub.deployments, v.db.deployments, db.jobs, d); }
      }
    }
  }

  lemma JobsKept(db: Db, v: Db)
    requires JobsOk(db) && v.jobs == db.jobs && v.subs.Keys == db.subs.Keys
    requires NoNewFirsts(db.payments, v.payments)
    requires forall s | s in db.subs ::
               v.subs[s].deployments == db.subs[s].deployments
               && (v.subs[s].state == PayPending ==> db.subs[s].state == PayPending)
    ensures JobsOk(v)
  {
  }

  /** Changes of state alone. */
  lemma StateKeeps(w: World, v: World)
    requires Sound(w) && Linked(v.db)
    requires v.remotes == w.remotes && v.db.subs.Keys == w.db.subs.Keys
    requires v.db.deployments.Keys == w.db.deployments.Keys
    requires forall s | s in w.db.subs ::
               v.db.subs[s].deployments == w.db.subs[s].deployments && v.db.subs[s].remote == w.db.subs[s].remote
    ensures Sound(v)
  {
    hide OwnsOk;
    OwnsKept(w.db, v.db);
  }

  lemma SettleKeeps(w: World, s: SubId, db: Db, first: bool, info: Info, fault: Fault, made: string)
    requires Sound(w) && Linked(db) && s in db.subs && db == w.db.(payments := db.payments) && Unused(w, made)
    requires NoNewFirsts(w.db.payments, db.payments) && (first ==> HasFirst(db.payments, s))
    ensures var v := Settle(w, s, db, first, info, fault, made); Sound(v) && (JobsOk(w.db) ==> JobsOk(v.db))
  {
    hide Activate, OwnsOk, JobsOk, RemotesOk, Unused, HasFirst;
    var v := Settle(w, s, db, first, info, fault, made);
    if first && info.status == "paid" {
      ActivateSound(w, s, db, info, fault, made);
      if JobsOk(w.db) { ActivateJobs(w, s, db, info, fault, made); }
    } else {
      StateKeeps(w, v);
      if JobsOk(w.db) { JobsKept(w.db, v.db); }
    }
  }

  lemma NotifyKeeps(w: World, e: Event)
    requires Sound(w) && e.Notify? && Enabled(w, e)
    ensures Sound(After(w, e)) && (JobsOk(w.db) ==> JobsOk(After(w, e).db))
  {
    hide Settle, OwnsOk, JobsOk, RemotesOk, Unused, NoNewFirsts, HasFirst;
    if e.info.Some? && FindSub(w.db, e.id, e.info.value).Some? && e.info.value.status in STATUSES {
      var (s, found) := FindSub(w.db, e.id, e.info.value).value;
      var info := e.info.value;
      var db := found.(payments := found.payments[e.id := found.payments[e.id].(
                                     status := info.status, payload := Some(info.payload))]);
      FirstsStay(w.db, e.id, info, s, found, db);
      SettleKeeps(w, s, db, found.payments[e.id].first, info, e.fault, e.made);
    }
  }

  /** A notification makes no payment a first one. */
  lemma FirstsStay(db: Db, id: string, info: Info, s: SubId, found: Db, v: Db)
    requires FindSub(db, id, info) == Some((s, found))
    requires id in found.payments && v == found.(payments := found.payments[id := found.payments[id].(
                                                                status := info.status, payload := Some(info.payload))])
    ensures NoNewFirsts(db.payments, v.payments) && (found.payments[id].first ==> HasFirst(v.payments, s))
  {
    forall t | HasFirst(v.payments, t) ensures HasFirst(db.payments, t) {
      var other :| other in v.payments && IsFirstOf(v.payments, other, t);
      assert IsFirstOf(db.payments, other, t);
    }
    assert found.payments[id].first ==> IsFirstOf(v.payments, id, s);
  }

  /** Nor does a sign-up give another subscription one. */
  lemma FirstsOfOthers(payments: map<string, Payment>, id: string, s: SubId, t: SubId)
    requires id !in payments && t != s
    ensures HasFirst(payments[id := Payment(s, "open", true, None)], t) ==> HasFirst(payments, t)
  {
    var after := payments[id := Payment(s, "open", true, None)];
    if HasFirst(after, t) {
      var other :| other in after && IsFirstOf(after, other, t);
      assert IsFirstOf(payments, other, t);
    }
  }

  lemma {:induction false} CountUpdate(jobs: seq<Job>, i: nat, d: DepId)
    requires i < |jobs|
    ensures CreateJobs(jobs[i := jobs[i].(open := false)], d) == CreateJobs(jobs, d)
  {
    var after := jobs[i := jobs[i].(open := false)];
    var n := |jobs| - 1;
    if i < n {
      CountUpdate(jobs[..n], i, d);
      assert after[..n] == jobs[..n][i := jobs[i].(open := false)];
    } else {
      assert after[..n] == jobs[..n];
    }
  }

  lemma CountSnoc(jobs: seq<Job>, j: Job, d: DepId)
    ensures CreateJobs(jobs + [j], d) == CreateJobs(jobs, d) + if j.create && j.deployment == d then 1 else 0
  {
    assert (jobs + [j])[..|jobs|] == jobs;
  }

  lemma {:induction false} CountNone(jobs: seq<Job>, d: DepId)
    requires forall i | 0 <= i < |jobs| :: jobs[i].deployment != d
    ensures CreateJobs(jobs, d) == 0
  {
    if jobs != [] { CountNone(jobs[..|jobs| - 1], d); }
  }

  /**
   A subscription that has a first payment is set back to await it only while none of its deployments has had a create
   job.
   */
  predicate SafeReset(db: Db, e: Event) {
    e.SetState? && e.state == PayPending && e.s in db.subs && HasFirst(db.payments, e.s) ==>
      forall d | d in db.subs[e.s].deployments :: CreateJobs(db.jobs, d) == 0
  }

  lemma SignUpKeeps(w: World, e: Event)
    requires Sound(w) && e.SignUp? && Enabled(w, e)
    ensures Sound(After(w, e)) && (JobsOk(w.db) ==> JobsOk(After(w, e).db))
  {
    if JobsOk(w.db) { SignUpJobs(w, e); }
  }

  lemma SignUpJobs(w: World, e: Event)
    requires Sound(w) && e.SignUp? && Enabled(w, e) && JobsOk(w.db)
    ensures JobsOk(After(w, e).db)
  {
    hide HasFirst, Linked, RemotesOk;
    var v := After(w, e);
    CountNone(w.db.jobs, e.d);
    forall d ensures CreateJobs(v.db.jobs, d) ==
                     CreateJobs(w.db.jobs, d) + if e.payment.None? && d == e.d then 1 else 0 {
      CountSnoc(w.db.jobs, Job(e.d, true, true), d);
    }
    forall t | t in w.db.subs && HasFirst(v.db.payments, t) ensures HasFirst(w.db.payments, t) {
      if e.payment.Some? { FirstsOfOthers(w.db.payments, e.payment.value, e.s, t); }
    }
  }

  lemma JobEventKeeps(w: World, e: Event)
    requires Sound(w) && (e.EndJob? || e.OtherJob?) && Enabled(w, e)
    ensures Sound(After(w, e)) && (JobsOk(w.db) ==> JobsOk(After(w, e).db))
  {
    hide OwnsOk;
    var v := After(w, e);
    OwnsKept(w.db, v.db);
    forall d ensures CreateJobs(v.db.jobs, d) == CreateJobs(w.db.jobs, d) {
      if e.EndJob? { CountUpdate(w.db.jobs, e.i, d); } else { CountSnoc(w.db.jobs, Job(e.d, false, true), d); }
    }
  }

  lemma ReconcileKeeps(w: World, e: Event)
    requires Sound(w) && e.Reconcile? && Enabled(w, e)
    ensures Sound(After(w, e)) && (JobsOk(w.db) ==> JobsOk(After(w, e).db))
  {
    hide JobsOk;
    StateKeeps(w, After(w, e));
    if JobsOk(w.db) { JobsKept(w.db, After(w, e).db); }
  }

  /** The guard is exact: setting a state keeps the jobs in order if and only if it is no unsafe reset. */
  lemma ResetExactly(w: World, e: Event)
    requires Sound(w) && e.SetState? && Enabled(w, e)
    ensures Sound(After(w, e))
    ensures JobsOk(w.db) ==> (JobsOk(After(w, e).db) <==> SafeReset(w.db, e))
  {
    hide HasFirst;
    StateKeeps(w, After(w, e));
  }

  lemma StepKeeps(w: World, e: Event)
    requires Sound(w) && Enabled(w, e)
    ensures Sound(After(w, e)) && (JobsOk(w.db) && SafeReset(w.db, e) ==> JobsOk(After(w, e).db))
  {
    hide Sound, JobsOk, SafeReset;
    match e
    case Notify(_, _, _, _) => NotifyKeeps(w, e);
    case SignUp(_, _, _) => SignUpKeeps(w, e);
    case EndJob(_) => JobEventKeeps(w, e);
    case OtherJob(_) => JobEventKeeps(w, e);
    case Reconcile(_, _) => ReconcileKeeps(w, e);
    case SetState(_, _) => ResetExactly(w, e);
  }

  /** Every reset of the run, up to state `n`, is safe. */
  ghost predicate SafeResets(ws: seq<World>, es: seq<Event>, n: nat) {
    n < |ws| && forall i | 0 <= i < n && i < |es| :: SafeReset(ws[i].db, es[i])
  }

  lemma {:induction false} Reached(ws: seq<World>, es: seq<Event>, n: nat)
    requires RunFrom(ws, es) && n < |ws| && Sound(ws[0])
    ensures Sound(ws[n])
    ensures JobsOk(ws[0].db) && SafeResets(ws, es, n) ==> JobsOk(ws[n].db)
  {
    hide Sound, JobsOk, SafeReset;
    if n > 0 {
      Reached(ws, es, n - 1);
      StepKeeps(ws[n - 1], es[n - 1]);
      if SafeResets(ws, es, n) { assert SafeResets(ws, es, n - 1); }
    }
  }

  /**
   Over any run of notifications, redeliveries, failures and safe resets, a deployment is given at most one create job.
   */
  lemma AtMostOneCreateJob(ws: seq<World>, es: seq<Event>, n: nat, d: DepId)
    requires Run(ws, es) && SafeResets(ws, es, n)
    ensures CreateJobs(ws[n].db.jobs, d) <= 1
  {
    Reached(ws, es, n);
  }

  /**
   The provider has at most one subscription for each of ours, the one on record if any is, and no two of ours share
   one; so a recurring payment is always some one subscription's. No reset changes that.
   */
  lemma OneRemoteEach(ws: seq<World>, es: seq<Event>, n: nat)
    requires Run(ws, es) && n < |ws|
    ensures RemotesOk(ws[n])
    ensures forall a, b, remote | IsSubOf(ws[n].db.subs, a, remote) && IsSubOf(ws[n].db.subs, b, remote) :: a == b
    ensures forall i | 0 <= i < n :: forall s | s in ws[i].remotes ::
              s in ws[n].remotes && ws[n].remotes[s] == ws[i].remotes[s]
  {
    Reached(ws, es, n);
    forall i | 0 <= i < n
      ensures forall s | s in ws[i].remotes :: s in ws[n].remotes && ws[n].remotes[s] == ws[i].remotes[s]
    {
      RemotesGrow(ws, es, i, n);
    }
  }

  lemma {:induction false} RemotesGrow(ws: seq<World>, es: seq<Event>, i: nat, n: nat)
    requires Run(ws, es) && i <= n < |ws|
    ensures forall s | s in ws[i].remotes :: s in ws[n].remotes && ws[n].remotes[s] == ws[i].remotes[s]
  {
    hide After, Enabled;
    if i < n {
      RemotesGrow(ws, es, i, n - 1);
      RemotesStep(ws[n - 1], es[n - 1]);
    }
  }

  lemma RemotesStep(w: World, e: Event)
    requires Enabled(w, e)
    ensures forall s | s in w.remotes :: s in After(w, e).remotes && After(w, e).remotes[s] == w.remotes[s]
  {
    hide FirstPaid, WithState;
  }

  // ---------- What a payment starts ----------

  /**
   A committed first payment gives a deployment of the subscription its create job exactly when the subscription was
   still awaiting it and the deployment was pending or provisioning.
   */
  lemma JobExactlyWhenAwaited(w: World, s: SubId, db: Db, info: Info, made: string, d: DepId)
    requires OwnsOk(w.db) && s in db.subs && db == w.db.(payments := db.payments) && d in db.subs[s].deployments
    requires FirstPaid(db, s, info).Some?
    ensures var v := Activate(w, s, db, info, NoFault, made);
      CreateJobs(v.db.jobs, d) == CreateJobs(w.db.jobs, d) +
        if db.subs[s].state == PayPending && db.deployments[d] in {DepPending, DepProvisioning} then 1 else 0
  {
    var deployments := Provision(db.subs[s].deployments, db.deployments);
    if db.subs[s].state == PayPending {
      EnqueueCounts(db.subs[s].deployments, deployments, db.jobs, d);
    }
  }

  const ORDERED := World(
    Db(map[1 := Sub(PayPending, None, None, [2])], map["tr" := Payment(1, "open", true, None)],
       map[2 := DepPending], []),
    map[])
  const REFUSED := World(
    Db(map[1 := Sub(PayArrears, None, None, [2])], map["tr" := Payment(1, "failed", true, Some(""))],
       map[2 := DepPending], []),
    map[])
  const PAID_LATE := World(
    Db(map[1 := Sub(PayCurrent, Some("mdt"), Some("a"), [2])], map["tr" := Payment(1, "paid", true, Some(""))],
       map[2 := DepProvisioning], []),
    map[1 := "a"])

  function Told(status: string, made: string): Event {
    Notify("tr", Some(Info(status, Some("mdt"), None, "")), NoFault, made)
  }

  lemma Refusing()
    ensures Enabled(ORDERED, Told("failed", "a")) && After(ORDERED, Told("failed", "a")) == REFUSED
  {
    assert After(ORDERED, Told("failed", "a")).db == REFUSED.db;
  }

  lemma PayingLate()
    ensures Enabled(REFUSED, Told("paid", "a")) && After(REFUSED, Told("paid", "a")) == PAID_LATE
  {
    assert After(REFUSED, Told("paid", "a")).db == PAID_LATE.db;
  }

  /** A first payment that fails and is then reported paid: the deployment is provisioning, and nothing is to do it. */
  lemma LatePaymentStartsNothing(ws: seq<World>, es: seq<Event>)
    requires es == [SignUp(1, 2, Some("tr")), Told("failed", "a"), Told("paid", "a")]
    requires ws == [World(Db(map[], map[], map[], []), map[]), ORDERED, REFUSED, PAID_LATE]
    ensures Run(ws, es)
    ensures ws[3].db.deployments == map[2 := DepProvisioning] && ws[3].db.jobs == []
  {
    hide Deliver;
    Refusing();
    PayingLate();
    assert After(ws[0], es[0]) == ORDERED;
  }

  /** With its first payment in, by what state the subscription is in, and what jobs the deployment has had. */
  function Started(state: PayState, jobs: seq<Job>): World {
    World(Db(map[1 := Sub(state, Some("mdt"), Some("a"), [2])], map["tr" := Payment(1, "paid", true, Some(""))],
             map[2 := DepProvisioning], jobs),
          map[1 := "a"])
  }

  lemma EnqueueOne(d: DepId, deployments: map<DepId, DepStatus>, jobs: seq<Job>)
    requires d in deployments && deployments[d] == DepProvisioning && !HasOpenJob(jobs, d)
    ensures EnqueueAll([d], deployments, jobs) == Some(jobs + [Job(d, true, true)])
  {
    assert [d][..0] == [];
  }

  lemma PayingFirst()
    ensures Enabled(ORDERED, Told("paid", "a"))
    ensures After(ORDERED, Told("paid", "a")) == Started(PayCurrent, [Job(2, true, true)])
  {
    EnqueueOne(2, Provision([2], ORDERED.db.deployments), []);
    assert After(ORDERED, Told("paid", "a")).db == Started(PayCurrent, [Job(2, true, true)]).db;
  }

  lemma PayingAgain()
    ensures var w := Started(PayPending, [Job(2, true, false)]);
      && Enabled(w, Told("paid", "b"))
      && After(w, Told("paid", "b")) == Started(PayCurrent, [Job(2, true, false), Job(2, true, true)])
  {
    var w := Started(PayPending, [Job(2, true, false)]);
    EnqueueOne(2, Provision([2], w.db.deployments), w.db.jobs);
    assert After(w, Told("paid", "b")).db == Started(PayCurrent, [Job(2, true, false), Job(2, true, true)]).db;
  }

  /**
   The subscriptions API lets a paid subscription be set back to `pending`; the next notification of its first payment
   then gives its deployment a second create job.
   */
  lemma ResetEnqueuesTwice(ws: seq<World>, es: seq<Event>)
    requires es == [SignUp(1, 2, Some("tr")), Told("paid", "a"), EndJob(0), SetState(1, PayPending), Told("paid", "b")]
    requires ws == [World(Db(map[], map[], map[], []), map[]), ORDERED, Started(PayCurrent, [Job(2, true, true)]),
                    Started(PayCurrent, [Job(2, true, false)]), Started(PayPending, [Job(2, true, false)]),
                    Started(PayCurrent, [Job(2, true, false), Job(2, true, true)])]
    ensures Run(ws, es) && CreateJobs(ws[5].db.jobs, 2) == 2
  {
    hide Deliver;
    PayingFirst();
    PayingAgain();
    assert After(ws[0], es[0]) == ORDERED;
    CountSnoc([], Job(2, true, false), 2);
    CountSnoc([Job(2, true, false)], Job(2, true, true), 2);
  }

  // ---------- What an unsafe reset can lead to ----------

  ghost function Longer(names: set<string>): (r: string)
    ensures forall n | n in names :: |n| < |r|
  {
    if names == {} then "x"
    else
      var n :| n in names;
      var r := Longer(names - {n});
      if |n| < |r| then r else n + "x"
  }

  lemma NameLeft(w: World) returns (made: string)
    ensures Unused(w, made)
  {
    made := Longer(w.remotes.Values);
  }

  /** All jobs over, one after the other. */
  lemma {:induction false} CloseAll(w: World, n: nat) returns (ws: seq<World>, es: seq<Event>)
    requires n <= |w.db.jobs|
    ensures RunFrom(ws, es) && ws[0] == w && forall i | 0 <= i < |es| :: es[i].EndJob?
    ensures var v := ws[|es|];
      && v == w.(db := w.db.(jobs := v.db.jobs)) && |v.db.jobs| == |w.db.jobs|
      && (forall i | 0 <= i < n :: !v.db.jobs[i].open)
      && forall d :: CreateJobs(v.db.jobs, d) == CreateJobs(w.db.jobs, d)
  {
    if n == 0 {
      ws, es := [w], [];
    } else {
      ws, es := CloseAll(w, n - 1);
      var u := ws[|es|];
      forall d ensures CreateJobs(After(u, EndJob(n - 1)).db.jobs, d) == CreateJobs(u.db.jobs, d) {
        CountUpdate(u.db.jobs, n - 1, d);
      }
      ws, es := Further(ws, es, EndJob(n - 1));
    }
  }

  lemma Further(ws: seq<World>, es: seq<Event>, e: Event) returns (vs: seq<World>, fs: seq<Event>)
    requires RunFrom(ws, es) && Enabled(ws[|es|], e)
    ensures vs == ws + [After(ws[|es|], e)] && fs == es + [e] && RunFrom(vs, fs)
  {
    hide After, Enabled;
    vs, fs := ws + [After(ws[|es|], e)], es + [e];
    forall i | 0 <= i < |fs| ensures Enabled(vs[i], fs[i]) && vs[i + 1] == After(vs[i], fs[i]) {
      if i < |es| { assert vs[i] == ws[i] && vs[i + 1] == ws[i + 1] && fs[i] == es[i]; }
    }
  }

  const PAID := Info("paid", Some("mandate"), None, "payload")

  /** A first payment reported paid, with nothing of its subscription's in progress, gives each deployment a job. */
  lemma PaidStarts(w: World, s: SubId, id: string, d: DepId, made: string)
    requires Sound(w) && s in w.db.subs && w.db.subs[s].state == PayPending && d in w.db.subs[s].deployments
    requires id in w.db.payments && w.db.payments[id].sub == s && w.db.payments[id].first
    requires w.db.deployments[d] == DepProvisioning && forall i | 0 <= i < |w.db.jobs| :: !w.db.jobs[i].open
    ensures CreateJobs(Deliver(w, id, Some(PAID), NoFault, made).db.jobs, d) == CreateJobs(w.db.jobs, d) + 1
  {
    hide FirstPaid, Activate;
    var db := w.db.(payments := w.db.payments[id := w.db.payments[id].(
                                  status := PAID.status, payload := Some(PAID.payload))]);
    FirstPaidRaises(db, s, PAID);
    JobExactlyWhenAwaited(w, s, db, PAID, made, d);
  }

  lemma UnsafeResetEnqueuesAgain(w: World, s: SubId, id: string, d: DepId) returns (ws: seq<World>, es: seq<Event>)
    requires Sound(w) && s in w.db.subs && d in w.db.subs[s].deployments && CreateJobs(w.db.jobs, d) > 0
    requires id in w.db.payments && w.db.payments[id].sub == s && w.db.payments[id].first
    ensures RunFrom(ws, es) && ws[0] == After(w, SetState(s, PayPending))
    ensures forall i | 0 <= i < |es| :: !es[i].SetState?
    ensures CreateJobs(ws[|es|].db.jobs, d) > 1
  {
    hide Deliver, Sound;
    ResetExactly(w, SetState(s, PayPending));
    var w1 := After(w, SetState(s, PayPending));
    assert d in w1.db.deployments by { DeploymentIsThere(w1, s, d); }
    var w2 := After(w1, Reconcile(d, DepProvisioning));
    ReconcileKeeps(w1, Reconcile(d, DepProvisioning));
    var vs, fs := CloseAll(w2, |w2.db.jobs|);
    ws, es := [w1] + vs, [Reconcile(d, DepProvisioning)] + fs;
    assert RunFrom(ws, es) by { Prepended(w1, Reconcile(d, DepProvisioning), vs, fs); }
    Reached(vs, fs, |fs|);
    var v := vs[|fs|];
    assert ws[|es|] == v;
    var made := NameLeft(v);
    var told := Notify(id, Some(PAID), NoFault, made);
    assert Linked(v.db) by { SoundIsLinked(v); }
    PaidStarts(v, s, id, d, made);
    ws, es := Further(ws, es, told);
  }

  lemma DeploymentIsThere(w: World, s: SubId, d: DepId)
    requires Sound(w) && s in w.db.subs && d in w.db.subs[s].deployments
    ensures d in w.db.deployments
  {
  }

  lemma SoundIsLinked(w: World)
    requires Sound(w)
    ensures Linked(w.db)
  {
  }

  lemma Prepended(w: World, e: Event, vs: seq<World>, fs: seq<Event>)
    requires Enabled(w, e) && RunFrom(vs, fs) && vs[0] == After(w, e)
    ensures RunFrom([w] + vs, [e] + fs)
  {
    hide After, Enabled;
    var ws, es := [w] + vs, [e] + fs;
    forall i | 0 <= i < |es| ensures Enabled(ws[i], es[i]) && ws[i + 1] == After(ws[i], es[i]) {
      if i > 0 { assert ws[i] == vs[i - 1] && ws[i + 1] == vs[i] && es[i] == fs[i - 1]; }
    }
  }

  /** Whatever follows, no deployment is given a second create job as long as later resets are safe. */
  ghost predicate NeverTwice(w: World) {
    forall ws: seq<World>, es, n: nat, d | RunFrom(ws, es) && ws[0] == w && SafeResets(ws, es, n) ::
      CreateJobs(ws[n].db.jobs, d) <= 1
  }

  /**
   Setting a subscription back to `pending` can lead to a second create job exactly when it has a first payment and one
   of its deployments has had a create job: the guard leaves out no harmless reset.
   */
  lemma ResetIsSafeExactly(w: World, s: SubId)
    requires Sound(w) && JobsOk(w.db) && s in w.db.subs
    ensures NeverTwice(After(w, SetState(s, PayPending))) <==> SafeReset(w.db, SetState(s, PayPending))
  {
    hide Sound, Deliver;
    var v := After(w, SetState(s, PayPending));
    ResetExactly(w, SetState(s, PayPending));
    if SafeReset(w.db, SetState(s, PayPending)) {
      forall ws: seq<World>, es, n: nat, d | RunFrom(ws, es) && ws[0] == v && SafeResets(ws, es, n)
        ensures CreateJobs(ws[n].db.jobs, d) <= 1
      {
        Reached(ws, es, n);
      }
    } else {
      var d :| d in w.db.subs[s].deployments && CreateJobs(w.db.jobs, d) != 0;
      var id :| id in w.db.payments && IsFirstOf(w.db.payments, id, s);
      var ws, es := UnsafeResetEnqueuesAgain(w, s, id, d);
      assert SafeResets(ws, es, |es|);
    }
  }
}
