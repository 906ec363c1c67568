/**
 Where the sign-in machine and the access list meet: the answer `SignIn` takes as given when it binds an entry is that
 of a call of its own, which `AccessBinding` follows.
 */
module SignInAdmission {
  import A = AccessBinding
  import opened Options
  import opened SignIn

  /** The call made for one binding: the step its request came to bind at, and where in the list's run it began. */
  datatype Link = Link(since: nat, begun: nat, call: A.Pid)

  /** A binding call of `admitted` for this identity and deployment that has answered yes. */
  predicate SaysYes(c: A.Call, deployment: Deployment, id: Identity) {
    c.deployment == deployment && c.sub == id.sub && c.email == id.email && c.bind && c.phase == A.Answered(true)
  }

  predicate IsBinding(w: World, p: Pid, flow: Flow, id: Identity, served: Served) {
    p in w.requests && w.requests[p] == ToBind(flow, id, served)
  }

  /** Request `p` comes to bind at step `since`, and is still at it before step `m`. */
  ghost predicate BindsFrom(
    ws: seq<World>, since: nat, m: nat, p: Pid, flow: Flow, id: Identity, served: Served)
  {
    && since < m < |ws|
    && !IsBinding(ws[since], p, flow, id, served)
    && forall k | since < k <= m :: IsBinding(ws[k], p, flow, id, served)
  }

  /** The call began once the request had come to bind, and had answered by the time it went on. */
  ghost predicate OwnCall(
    bs: seq<A.World>, bes: seq<A.Event>, when: seq<nat>, l: Link, m: nat, deployment: Deployment, id: Identity)
  {
    && l.since < m < |when| && when[l.since] <= l.begun < |bes| && l.begun < when[m] < |bs|
    && bes[l.begun].Begin? && bes[l.begun].p == l.call
    && l.call in bs[when[m]].calls && SaysYes(bs[when[m]].calls[l.call], deployment, id)
  }

  /** Step `m` goes on from binding an entry of a listed deployment, the list having said yes. */
  predicate Bound(w: World, e: Event) {
    e.BindEntry? && e.ok && e.p in w.requests && w.requests[e.p].ToBind? && w.requests[e.p].served.listed
  }

  /**
   The two machines run side by side: step `m` of the sign-ins is taken while the list's is in its state `when[m]`, and
   each sign-in that goes on from binding an entry has made a call of its own.
   */
  ghost predicate Joined(
    ws: seq<World>, es: seq<Event>, bs: seq<A.World>, bes: seq<A.Event>, when: seq<nat>, links: map<nat, Link>)
  {
    && Run(ws, es) && A.Run(bs, bes) && |when| == |es|
    && (forall m, o | 0 <= m < o < |when| :: when[m] <= when[o])
    && (forall m | 0 <= m < |es| && Bound(ws[m], es[m]) ::
         var r := ws[m].requests[es[m].p];
         && m in links
         && BindsFrom(ws, links[m].since, m, es[m].p, r.flow, r.id, r.served)
         && OwnCall(bs, bes, when, links[m], m, r.served.deployment, r.id))
    && forall m, o | m in links && o in links && m != o :: links[m].call != links[o].call
  }

  /** The list's owner rule or one of its entries admits the identity. */
  ghost predicate AdmitsThen(b: A.World, deployment: Deployment, id: Identity) {
    A.Admissible(b.owners, b.rows, A.Call(deployment, id.sub, id.email, true, A.Answered(true), false))
  }

  lemma {:induction false} CallsStay(bs: seq<A.World>, bes: seq<A.Event>, k: nat, x: nat, q: A.Pid)
    requires A.Run(bs, bes) && k <= x < |bs| && q !in bs[x].calls
    ensures q !in bs[k].calls
  {
    if k < x {
      assert A.Step(bs[x - 1], bes[x - 1], bs[x]);
      CallsStay(bs, bes, k, x - 1, q);
    }
  }

  /** A yes to a binding was the list's own doing, at a moment within the call made for it. */
  lemma OwnCallWasAdmissible(
    ws: seq<World>, es: seq<Event>, bs: seq<A.World>, bes: seq<A.Event>, when: seq<nat>, links: map<nat, Link>, m: nat)
    returns (k: nat)
    requires Joined(ws, es, bs, bes, when, links) && m < |es| && Bound(ws[m], es[m])
    ensures m in links && links[m].since < m < |when| && m < |ws|
    ensures when[links[m].since] <= links[m].begun < k <= when[m] && k < |bs|
    ensures var r := ws[m].requests[es[m].p];
      && BindsFrom(ws, links[m].since, m, es[m].p, r.flow, r.id, r.served)
      && AdmitsThen(bs[k], r.served.deployment, r.id)
  {
    var l := links[m];
    k := A.AdmittedWasAdmissible(bs, bes, when[m], l.call);
    assert A.Step(bs[l.begun], bes[l.begun], bs[l.begun + 1]);
    if k <= l.begun {
      CallsStay(bs, bes, k, l.begun, l.call);
    }
  }

  /** An admission in the history is that of one sign-in, which the list admitted while it was binding. */
  lemma AdmissionWasTrue(
    ws: seq<World>, es: seq<Event>, bs: seq<A.World>, bes: seq<A.Event>, when: seq<nat>, links: map<nat, Link>,
    n: nat, j: nat) returns (m: nat, k: nat)
    requires Joined(ws, es, bs, bes, when, links) && n < |ws| && j < |ws[n].log| && ws[n].log[j].Admitted?
    ensures m < n && m < |when| && |ws[m].log| <= j && m in links && links[m].since < m
    ensures when[links[m].since] < k <= when[m] && k < |bs|
    ensures AdmitsThen(bs[k], ws[n].log[j].deployment, ws[n].log[j].id)
  {
    var x := ws[n].log[j];
    LoggedTruly(ws, es, n, j);
    m :| 0 <= m < n && LoggedAt(ws, es, m, j, x);
    RunStep(ws, es, m);
    BoundWhenListed(ws[m], es[m], ws[m + 1]);
    k := OwnCallWasAdmissible(ws, es, bs, bes, when, links, m);
  }

  /** Only a listed deployment's sign-in logs an admission. */
  lemma BoundWhenListed(w: World, e: Event, w': World)
    requires Step(w, e, w') && e.BindEntry? && |w'.log| > |w.log|
    ensures Bound(w, e)
  {
  }

  predicate IsIssuing(w: World, p: Pid, flow: Flow, id: Identity, served: Served) {
    p in w.requests && w.requests[p] == ToInsert(flow, id, served)
  }

  lemma IssuingStep(w: World, e: Event, w': World, p: Pid, flow: Flow, id: Identity, served: Served)
    requires Step(w, e, w') && IsIssuing(w', p, flow, id, served)
    ensures IsIssuing(w, p, flow, id, served)
            || (e.BindEntry? && e.p == p && IsBinding(w, p, flow, id, served) && (served.listed ==> Bound(w, e)))
  {
    hide AfterCallback, AfterRedeem, AfterResolve, AfterList, AfterLookUp, AfterBind, AfterInsert, NewCode, Find;
    match e
    case Resolve(q) => ResolveIssuesNothing(w, q);
    case CheckList(q, ok) => ListIssuesNothing(w, q, ok);
    case LookUpConsent(q) => LookUpIssuesNothing(w, q);
    case BindEntry(q, ok) => BindIssues(w, q, ok);
    case InsertCode(q, code) => InsertEnds(w, q, code);
    case Callback(host, code, nonces) => CallbackLeaves(w, host, code, nonces);
    case Redeem(client, uri, code, verifier, admitted) => RedeemLeaves(w, client, uri, code, verifier, admitted);
    case _ =>
  }

  predicate OnlyMoves(w: World, v: World, p: Pid) {
    p in v.requests && v.requests == w.requests[p := v.requests[p]]
  }

  lemma ResolveIssuesNothing(w: World, p: Pid)
    requires IsAt(w, p) && Resolving(w.requests[p])
    ensures OnlyMoves(w, AfterResolve(w, p), p) && !AfterResolve(w, p).requests[p].ToInsert?
  {
    hide Find;
  }

  lemma ListIssuesNothing(w: World, p: Pid, ok: bool)
    requires IsAt(w, p) && (w.requests[p].ToAdmit? || w.requests[p].FormToAdmit?)
    ensures OnlyMoves(w, AfterList(w, p, ok), p) && !AfterList(w, p, ok).requests[p].ToInsert?
  {
  }

  lemma LookUpIssuesNothing(w: World, p: Pid)
    requires IsAt(w, p) && w.requests[p].ToLookUpConsent?
    ensures OnlyMoves(w, AfterLookUp(w, p), p) && !AfterLookUp(w, p).requests[p].ToInsert?
  {
  }

  lemma BindIssues(w: World, p: Pid, ok: bool)
    requires IsAt(w, p) && w.requests[p].ToBind?
    ensures var r, v := w.requests[p], AfterBind(w, p, ok);
      OnlyMoves(w, v, p) &&
      (v.requests[p].ToInsert? ==> v.requests[p] == ToInsert(r.flow, r.id, r.served) && (r.served.listed ==> ok))
  {
  }

  lemma InsertEnds(w: World, p: Pid, code: Token)
    requires IsAt(w, p) && w.requests[p].ToInsert?
    ensures OnlyMoves(w, AfterInsert(w, p, code), p) && AfterInsert(w, p, code).requests[p].Over?
  {
  }

  lemma CallbackLeaves(w: World, host: Host, code: Token, nonces: seq<Token>)
    ensures AfterCallback(w, host, code, nonces).requests == w.requests
  {
  }

  lemma RedeemLeaves(w: World, client: Deployment, uri: Uri, code: Token, verifier: Option<Token>, admitted: bool)
    ensures AfterRedeem(w, client, uri, code, verifier, admitted).requests == w.requests
  {
  }

  /** A request that is to store a code came from binding, in that very sign-in. */
  lemma {:induction false} CameFromBinding(
    ws: seq<World>, es: seq<Event>, n: nat, p: Pid, flow: Flow, id: Identity, served: Served)
    returns (m: nat)
    requires Run(ws, es) && n < |ws| && IsIssuing(ws[n], p, flow, id, served)
    ensures m < n && m < |es| && es[m].BindEntry? && es[m].p == p && IsBinding(ws[m], p, flow, id, served)
    ensures served.listed ==> Bound(ws[m], es[m])
    ensures forall k | m < k <= n :: IsIssuing(ws[k], p, flow, id, served)
  {
    RunStep(ws, es, n - 1);
    IssuingStep(ws[n - 1], es[n - 1], ws[n], p, flow, id, served);
    if IsIssuing(ws[n - 1], p, flow, id, served) {
      m := CameFromBinding(ws, es, n - 1, p, flow, id, served);
    } else {
      m := n - 1;
    }
  }

  /**
   Between step `since`, at which some request came to bind, and step `m`, at which it went on to store the code, the
   list admitted the account; and by the time it came to bind, Keycloak had authenticated the account for this flow and
   its consent was recorded.
   */
  ghost predicate AdmittedOnTheWay(
    ws: seq<World>, es: seq<Event>, bs: seq<A.World>, when: seq<nat>, x: Entry, since: nat, m: nat, o: nat, k: nat)
    requires x.Issued?
  {
    && since < m < o < |es| && o < |ws| && |es| <= |when|
    && es[o].InsertCode? && es[o].code == x.code && es[m].BindEntry? && es[m].p == es[o].p
    && BindsFrom(ws, since, m, es[o].p, x.flow, x.id, x.served)
    && Agreed(ws[since + 1].log, |ws[since + 1].log|, x.flow, x.id, x.served)
    && (forall l | m < l <= o :: IsIssuing(ws[l], es[o].p, x.flow, x.id, x.served))
    && when[since] < k <= when[m] && k < |bs| && AdmitsThen(bs[k], x.served.deployment, x.id)
  }

  lemma IssuedByRequest(ws: seq<World>, es: seq<Event>, n: nat, i: nat) returns (o: nat)
    requires Run(ws, es) && n < |ws| && i < |ws[n].log| && ws[n].log[i].Issued?
    ensures o < n && o < |es| && |ws[o].log| <= i && es[o].InsertCode? && es[o].code == ws[n].log[i].code
    ensures IsIssuing(ws[o], es[o].p, ws[n].log[i].flow, ws[n].log[i].id, ws[n].log[i].served)
  {
    hide Step;
    LoggedTruly(ws, es, n, i);
    o :| 0 <= o < n && LoggedAt(ws, es, o, i, ws[n].log[i]);
  }

  lemma AgreedToBind(ws: seq<World>, es: seq<Event>, n: nat, p: Pid, flow: Flow, id: Identity, served: Served)
    requires Run(ws, es) && n < |ws| && IsBinding(ws[n], p, flow, id, served)
    ensures Agreed(ws[n].log, |ws[n].log|, flow, id, served)
  {
    hide Agreed, LogOk, TablesOk;
    Reached(ws, es, n);
    assert RequestOk(ws[n].log, ws[n].requests[p]);
  }

  /** No code is issued for a listed deployment but by a sign-in that its list admitted, on its way to that code. */
  lemma ListedCodeWasAdmissible(
    ws: seq<World>, es: seq<Event>, bs: seq<A.World>, bes: seq<A.Event>, when: seq<nat>, links: map<nat, Link>,
    n: nat, i: nat)
    requires Joined(ws, es, bs, bes, when, links) && n < |ws| && i < |ws[n].log|
    requires ws[n].log[i].Issued? && ws[n].log[i].served.listed
    ensures exists since: nat, m: nat, o: nat, k: nat ::
              AdmittedOnTheWay(ws, es, bs, when, ws[n].log[i], since, m, o, k) && |ws[o].log| <= i
  {
    hide Joined, Agreed, AdmitsThen, Run;
    JoinedRuns(ws, es, bs, bes, when, links);
    var x := ws[n].log[i];
    var o := IssuedByRequest(ws, es, n, i);
    var m := CameFromBinding(ws, es, o, es[o].p, x.flow, x.id, x.served);
    var k := OwnCallWasAdmissible(ws, es, bs, bes, when, links, m);
    var since := links[m].since;
    AgreedToBind(ws, es, since + 1, es[o].p, x.flow, x.id, x.served);
    assert AdmittedOnTheWay(ws, es, bs, when, x, since, m, o, k);
  }

  /** So it is of every session of a listed deployment. */
  lemma ListedSessionWasAdmissible(
    ws: seq<World>, es: seq<Event>, bs: seq<A.World>, bes: seq<A.Event>, when: seq<nat>, links: map<nat, Link>,
    n: nat, j: nat)
    requires Joined(ws, es, bs, bes, when, links) && n < |ws| && j < |ws[n].log| && ws[n].log[j].Session?
    ensures var log := ws[n].log;
      exists i, r | 0 <= i < r < j ::
        && Backed(log, i, r, log[j].code) && log[i].Issued?
        && (log[i].served.listed ==>
             exists since: nat, m: nat, o: nat, k: nat ::
               AdmittedOnTheWay(ws, es, bs, when, log[i], since, m, o, k) && |ws[o].log| <= i)
  {
    hide Backed, AdmittedOnTheWay, Joined;
    assert Run(ws, es) by { JoinedRuns(ws, es, bs, bes, when, links); }
    SessionProvenance(ws, es, n, j);
    var log := ws[n].log;
    var i, r :| 0 <= i < r < j && Backed(log, i, r, log[j].code);
    BackedIsIssued(log, i, r, log[j].code);
    if log[i].served.listed { ListedCodeWasAdmissible(ws, es, bs, bes, when, links, n, i); }
  }

  /** And of every ID token of one. */
  lemma ListedTokenWasAdmissible(
    ws: seq<World>, es: seq<Event>, bs: seq<A.World>, bes: seq<A.Event>, when: seq<nat>, links: map<nat, Link>,
    n: nat, j: nat)
    requires Joined(ws, es, bs, bes, when, links) && n < |ws| && j < |ws[n].log| && ws[n].log[j].IDToken?
    ensures var log := ws[n].log;
      exists i, r | 0 <= i < r < j ::
        && Backed(log, i, r, log[j].code) && log[i].Issued? && log[i].served.deployment == log[j].client
        && (log[i].served.listed ==>
             exists since: nat, m: nat, o: nat, k: nat ::
               AdmittedOnTheWay(ws, es, bs, when, log[i], since, m, o, k) && |ws[o].log| <= i)
  {
    hide Backed, AdmittedOnTheWay, Joined;
    assert Run(ws, es) by { JoinedRuns(ws, es, bs, bes, when, links); }
    IDTokenProvenance(ws, es, n, j);
    var log := ws[n].log;
    var t := log[j];
    var i, r :| 0 <= i < r < j && Backed(log, i, r, t.code)
                && IssuedToClient(log[i], t.code, t.client, t.sub, t.redirectURI, t.verifier, t.at)
                && log[i].served.deployment == t.client;
    if log[i].served.listed { ListedCodeWasAdmissible(ws, es, bs, bes, when, links, n, i); }
  }

  lemma JoinedRuns(
    ws: seq<World>, es: seq<Event>, bs: seq<A.World>, bes: seq<A.Event>, when: seq<nat>, links: map<nat, Link>)
    requires Joined(ws, es, bs, bes, when, links)
    ensures Run(ws, es) && |ws| == |es| + 1 && |when| == |es|
  {
  }

  lemma BackedIsIssued(log: seq<Entry>, i: nat, r: nat, code: Token)
    requires i < r < |log| && Backed(log, i, r, code)
    ensures log[i].Issued? && log[i].code == code
  {
  }
}
