/**
 What becomes of a browser's sign-ins to OIDC apps once its session at Keycloak is over.

 Each (Keycloak session, deployment) pair with a sign-in has one record, which carries the session ID the app knows.
 The record is created and refreshed in the transaction that stores a code, and leaves in the one that ends the
 session, or when it passes its retention, or with its deployment. Every removal by an end is followed by one attempt
 to deliver a logout token; attempts run concurrently with everything else.
 */
module SignOut {
  import opened Options

  type Time = int
  type Ksid = string
  type Deployment = string
  type Subject = string

  const SIGN_IN_RETENTION: int := 2_592_000_000_000_000
  const ENDED_RETENTION: int := 604_800_000_000_000

  /** What a client sees of a Keycloak session: a keyed digest, one per key, client and session. */
  datatype Sid = Sid(key: nat, client: Deployment, session: Ksid)

  datatype Place = Place(ksid: Ksid, deployment: Deployment)

  /** `serial` names this record among all there have been at its place. */
  datatype Row = Row(serial: nat, subject: Subject, sid: Sid, signedInAt: Time)

  /** What the store hands back of a record it removed, and what a logout token then says. */
  datatype Removed = Removed(serial: nat, deployment: Deployment, subject: Subject, sid: Sid)

  datatype Tables = Tables(rows: map<Place, Row>, ended: map<Ksid, Time>, next: nat)

  function RemovedRow(at: Place, row: Row): Removed {
    Removed(row.serial, at.deployment, row.subject, row.sid)
  }

  /** A first sign-in's session ID is kept by every later one; the rest of the record is the latest sign-in's. */
  function SignedIn(t: Tables, at: Place, subject: Subject, proposed: Sid, now: Time): Tables {
    if at in t.rows then t.(rows := t.rows[at := t.rows[at].(subject := subject, signedInAt := now)])
    else t.(rows := t.rows[at := Row(t.next, subject, proposed, now)], next := t.next + 1)
  }

  /** The earliest end of a session is the one that counts. */
  function MarkEnded(t: Tables, ksid: Ksid, now: Time): Tables {
    if ksid in t.ended then t else t.(ended := t.ended[ksid := now])
  }

  function OfSession(rows: map<Place, Row>, ksid: Ksid): set<Place> {
    set at | at in rows && at.ksid == ksid
  }

  function Stale(rows: map<Place, Row>, now: Time): set<Place> {
    set at | at in rows && rows[at].signedInAt < now - SIGN_IN_RETENTION
  }

  function OfDeployment(rows: map<Place, Row>, deployment: Deployment): set<Place> {
    set at | at in rows && at.deployment == deployment
  }

  function Without(t: Tables, gone: set<Place>): Tables {
    t.(rows := t.rows - gone)
  }

  function EndedKept(ended: map<Ksid, Time>, now: Time): map<Ksid, Time> {
    map k | k in ended && ended[k] >= now - ENDED_RETENTION :: ended[k]
  }

  /** The database tables, a method a statement or transaction. */
  class Store {
    var rows: map<Place, Row>
    var ended: map<Ksid, Time>
    var next: nat

    ghost function View(): Tables
      reads this
    {
      Tables(rows, ended, next)
    }

    constructor ()
      ensures View() == Tables(map[], map[], 0)
    {
      rows, ended, next := map[], map[], 0;
    }

    /** The record's half of storing a code; the code then carries the session ID this returns. */
    method SignIn(at: Place, subject: Subject, proposed: Sid, now: Time) returns (sid: Sid)
      modifies this
      ensures View() == SignedIn(old(View()), at, subject, proposed, now)
      ensures at in rows && sid == rows[at].sid
    {
      if at in rows {
        var row := rows[at];
        rows := rows[at := row.(subject := subject, signedInAt := now)];
      } else {
        rows := rows[at := Row(next, subject, proposed, now)];
        next := next + 1;
      }
      sid := rows[at].sid;
    }

    method EndSession(ksid: Ksid, now: Time) returns (places: seq<Place>, out: seq<Removed>)
      modifies this
      ensures Lists(places, OfSession(old(rows), ksid))
      ensures |out| == |places| && forall i | 0 <= i < |out| :: out[i] == RemovedRow(places[i], old(rows)[places[i]])
      ensures View() == Without(MarkEnded(old(View()), ksid, now), OfSession(old(rows), ksid))
    {
      if ksid !in ended {
        ended := ended[ksid := now];
      }
      var gone := OfSession(rows, ksid);
      places, out := [], [];
      var todo := gone;
      while todo != {}
        invariant unchanged(`rows) && todo <= gone && Lists(places, gone - todo)
        invariant |out| == |places| && forall i | 0 <= i < |out| :: out[i] == RemovedRow(places[i], rows[places[i]])
        modifies {}
      {
        var at :| at in todo;
        todo := todo - {at};
        places, out := places + [at], out + [RemovedRow(at, rows[at])];
      }
      rows := rows - gone;
    }

    method PurgeSignIns(now: Time)
      modifies this`rows
      ensures View() == Without(old(View()), Stale(old(rows), now))
    {
      rows := rows - Stale(rows, now);
    }

    method PurgeEnded(now: Time)
      modifies this`ended
      ensures View() == old(View()).(ended := EndedKept(old(ended), now))
    {
      ended := EndedKept(ended, now);
    }
  }

  /** The places of a set, each once, in some order. */
  ghost predicate Lists(places: seq<Place>, of: set<Place>) {
    && (forall i, j | 0 <= i < j < |places| :: places[i] != places[j])
    && (forall i | 0 <= i < |places| :: places[i] in of)
    && (forall at | at in of :: at in places)
  }

  /** What a logout token says: by and for whom it is, and which account's session at that client has ended. */
  datatype LogoutToken = LogoutToken(issuer: string, audience: Deployment, subject: Subject, sid: Sid, at: Time)

  datatype Post = Post(uri: string, token: LogoutToken)

  /**
   What one delivery meets: the lookup of the app, which may fail, find none, or find one with its logout URI, which
   may be empty; whether the provider is enabled, the token signed and the request made; and the app's status, if it
   answers.
   */
  datatype Answers = Answers(
    client: Option<Option<string>>, provider: bool, signs: bool, requests: bool, status: Option<int>)

  datatype Outcome =
    | LookupFailed | TakesNoTokens | ProviderDisabled | NotSigned | NoRequest
    | NotDelivered | Refused(status: int) | SignedOut

  /** The app is found with a logout URI, and a token can be made and sent there. */
  predicate Posts(a: Answers) {
    a.client.Some? && a.client.value.Some? && a.client.value.value != "" && a.provider && a.signs && a.requests
  }

  function PostFor(r: Removed, a: Answers, issuer: string, now: Time): Post
    requires Posts(a)
  {
    Post(a.client.value.value, LogoutToken(issuer, r.deployment, r.subject, r.sid, now))
  }

  /** The posts deliveries make of `out`, in order. */
  function PostsFor(out: seq<Removed>, answers: seq<Answers>, issuer: string, now: Time): seq<Post>
    requires |answers| == |out|
  {
    if out == [] then []
    else
      var n := |out| - 1;
      PostsFor(out[..n], answers[..n], issuer, now)
      + if Posts(answers[n]) then [PostFor(out[n], answers[n], issuer, now)] else []
  }

  ghost predicate IsPostOf(p: Post, out: seq<Removed>, answers: seq<Answers>, issuer: string, now: Time, i: nat)
    requires |answers| == |out|
  {
    i < |out| && Posts(answers[i]) && p == PostFor(out[i], answers[i], issuer, now)
  }

  /** They are those of the apps that can be sent a token, and no others. */
  lemma {:induction false} PostsForExactly(
      out: seq<Removed>, answers: seq<Answers>, issuer: string, now: Time, p: Post)
    requires |answers| == |out|
    ensures p in PostsFor(out, answers, issuer, now) <==> exists i: nat :: IsPostOf(p, out, answers, issuer, now, i)
  {
    if out != [] {
      hide PostFor, Posts;
      var n := |out| - 1;
      PostsForExactly(out[..n], answers[..n], issuer, now, p);
      if i: nat :| IsPostOf(p, out, answers, issuer, now, i) && i < n {
        assert IsPostOf(p, out[..n], answers[..n], issuer, now, i);
      }
      if i: nat :| IsPostOf(p, out[..n], answers[..n], issuer, now, i) {
        assert IsPostOf(p, out, answers, issuer, now, i);
      }
      assert Posts(answers[n]) ==> IsPostOf(PostFor(out[n], answers[n], issuer, now), out, answers, issuer, now, n);
    }
  }

  /** One attempt for each record an end removed, whatever comes of it, and the tokens sent. */
  class Deliveries {
    const issuer: string
    var attempts: seq<Entry>
    var posts: seq<Post>

    constructor (issuer: string)
      ensures this.issuer == issuer && attempts == [] && posts == []
    {
      this.issuer := issuer;
      attempts, posts := [], [];
    }

    /** The app is sent its token at most once, at its own URI, and is signed out only if it took it. */
    method Deliver(r: Removed, a: Answers, now: Time) returns (outcome: Outcome)
      modifies this
      ensures attempts == old(attempts) + [Attempted(r, Posts(a))]
      ensures posts == old(posts) + if Posts(a) then [PostFor(r, a, issuer, now)] else []
      ensures |posts| == |old(posts)| + 1 <==>
                && a.client.Some? && a.client.value.Some? && a.client.value.value != ""
                && a.provider && a.signs && a.requests
      ensures |posts| == |old(posts)| + 1 <==> outcome.NotDelivered? || outcome.Refused? || outcome.SignedOut?
      ensures outcome.SignedOut? <==> Posts(a) && a.status.Some? && 200 <= a.status.value <= 299
      ensures outcome.LookupFailed? <==> a.client.None?
      ensures outcome.TakesNoTokens? <==> a.client.Some? && (a.client.value.None? || a.client.value.value == "")
    {
      attempts := attempts + [Attempted(r, false)];
      if a.client.None? {
        return LookupFailed;
      }
      if a.client.value.None? || a.client.value.value == "" {
        return TakesNoTokens;
      }
      if !a.provider {
        return ProviderDisabled;
      }
      if !a.signs {
        return NotSigned;
      }
      var token := LogoutToken(issuer, r.deployment, r.subject, r.sid, now);
      if !a.requests {
        return NoRequest;
      }
      attempts := attempts[|attempts| - 1 := Attempted(r, true)];
      posts := posts + [Post(a.client.value.value, token)];
      if a.status.None? {
        return NotDelivered;
      }
      if a.status.value < 200 || a.status.value > 299 {
        return Refused(a.status.value);
      }
      return SignedOut;
    }

    method DeliverLogouts(out: seq<Removed>, answers: seq<Answers>, now: Time)
      requires |answers| == |out|
      modifies this
      ensures attempts ==
        old(attempts) + seq(|out|, i requires 0 <= i < |out| => Attempted(out[i], Posts(answers[i])))
      ensures posts == old(posts) + PostsFor(out, answers, issuer, now)
    {
      hide PostFor, Posts;
      for i := 0 to |out|
        invariant attempts == old(attempts) + seq(i, k requires 0 <= k < i => Attempted(out[k], Posts(answers[k])))
        invariant posts == old(posts) + PostsFor(out[..i], answers[..i], issuer, now)
      {
        var _ := Deliver(out[i], answers[i], now);
        assert out[..i + 1][..i] == out[..i] && answers[..i + 1][..i] == answers[..i];
      }
      assert out[..|out|] == out && answers[..|out|] == answers;
    }
  }

  // ---------- The tables, the keys and the deliveries, run together ----------

  datatype Cause = SessionEnded | RetentionPassed | DeploymentDeleted

  /** A code stored under a record, a record gone, a delivery attempted. */
  datatype Entry =
    | Coded(rec: Removed)
    | Left(rec: Removed, cause: Cause)
    | Attempted(rec: Removed, sent: bool)

  datatype World = World(
    now: Time, key: nat, deployments: set<Deployment>, t: Tables, pending: set<Removed>, log: seq<Entry>)

  datatype Event =
    | SignInTo(at: Place, subject: Subject)
    | End(ksid: Ksid, places: seq<Place>)
    | PurgeRows(places: seq<Place>)
    | PurgeEnds
    | Delete(deployment: Deployment, places: seq<Place>)
    | Attempt(rec: Removed, sent: bool)
    | Rotate(key: nat)
    | Create(deployment: Deployment)

  ghost predicate Enabled(w: World, e: Event) {
    match e
    case SignInTo(at, _) => at.deployment in w.deployments
    case End(ksid, places) => Lists(places, OfSession(w.t.rows, ksid))
    case PurgeRows(places) => Lists(places, Stale(w.t.rows, w.now))
    case Delete(deployment, places) => Lists(places, OfDeployment(w.t.rows, deployment))
    case Attempt(rec, _) => rec in w.pending
    case PurgeEnds | Rotate(_) | Create(_) => true
  }

  function AfterSignIn(w: World, at: Place, subject: Subject): World {
    var t := SignedIn(w.t, at, subject, Sid(w.key, at.deployment, at.ksid), w.now);
    w.(t := t, log := w.log + [Coded(Removed(t.rows[at].serial, at.deployment, subject, t.rows[at].sid))])
  }

  function LeaveOne(w: World, at: Place, cause: Cause): World
    requires at in w.t.rows
  {
    var rec := RemovedRow(at, w.t.rows[at]);
    w.(t := Without(w.t, {at}),
       pending := if cause == SessionEnded then w.pending + {rec} else w.pending,
       log := w.log + [Left(rec, cause)])
  }

  function Elems(places: seq<Place>): set<Place> {
    set at | at in places
  }

  lemma WithoutSnoc(t: Tables, places: seq<Place>)
    requires places != []
    ensures var n := |places| - 1; Without(Without(t, Elems(places[..n])), {places[n]}) == Without(t, Elems(places))
  {
    var n := |places| - 1;
    assert places == places[..n] + [places[n]];
    assert Elems(places) == Elems(places[..n]) + {places[n]};
  }

  /** The records at `places` leave, all in one transaction. */
  function Leave(w: World, places: seq<Place>, cause: Cause): (v: World)
    requires forall i | 0 <= i < |places| :: places[i] in w.t.rows
    requires forall i, j | 0 <= i < j < |places| :: places[i] != places[j]
    ensures v == w.(t := v.t, pending := v.pending, log := v.log)
    ensures v.t == Without(w.t, Elems(places))
  {
    if places == [] then w
    else
      var n := |places| - 1;
      WithoutSnoc(w.t, places);
      LeaveOne(Leave(w, places[..n], cause), places[n], cause)
  }

  function Effect(w: World, e: Event): World
    requires Enabled(w, e)
  {
    match e
    case SignInTo(at, subject) => AfterSignIn(w, at, subject)
    case End(ksid, places) => Leave(w.(t := MarkEnded(w.t, ksid, w.now)), places, SessionEnded)
    case PurgeRows(places) => Leave(w, places, RetentionPassed)
    case PurgeEnds => w.(t := w.t.(ended := EndedKept(w.t.ended, w.now)))
    case Delete(deployment, places) =>
      Leave(w, places, DeploymentDeleted).(deployments := w.deployments - {deployment})
    case Attempt(rec, sent) => w.(pending := w.pending - {rec}, log := w.log + [Attempted(rec, sent)])
    case Rotate(key) => w.(key := key)
    case Create(deployment) => w.(deployments := w.deployments + {deployment})
  }

  ghost predicate Step(w: World, e: Event, w': World) {
    Enabled(w, e) && w.now <= w'.now && w' == Effect(w, e).(now := w'.now)
  }

  ghost predicate Run(ws: seq<World>, es: seq<Event>) {
    && |ws| == |es| + 1
    && ws[0].t == Tables(map[], map[], 0) && ws[0].pending == {} && ws[0].log == []
    && forall i | 0 <= i < |es| :: Step(ws[i], es[i], ws[i + 1])
  }

  /** The steps move the tables exactly as the store's methods do. */
  lemma StepsAreStatements(w: World, e: Event)
    requires Enabled(w, e)
    ensures e.SignInTo? ==>
              Effect(w, e).t == SignedIn(w.t, e.at, e.subject, Sid(w.key, e.at.deployment, e.at.ksid), w.now)
    ensures e.End? ==> Effect(w, e).t == Without(MarkEnded(w.t, e.ksid, w.now), OfSession(w.t.rows, e.ksid))
    ensures e.PurgeRows? ==> Effect(w, e).t == Without(w.t, Stale(w.t.rows, w.now))
    ensures e.Delete? ==> Effect(w, e).t == Without(w.t, OfDeployment(w.t.rows, e.deployment))
    ensures Effect(w, e).key == if e.Rotate? then e.key else w.key
  {
    if e.End? || e.PurgeRows? || e.Delete? {
      var of := if e.End? then OfSession(w.t.rows, e.ksid)
                else if e.PurgeRows? then Stale(w.t.rows, w.now) else OfDeployment(w.t.rows, e.deployment);
      assert Elems(e.places) == of;
    }
  }

  // ---------- What every step keeps ----------

  /** The account of the last code stored under a record. */
  function LastSubject(log: seq<Entry>, serial: nat): Option<Subject> {
    if log == [] then None
    else
      var e := log[|log| - 1];
      if e.Coded? && e.rec.serial == serial then Some(e.rec.subject) else LastSubject(log[..|log| - 1], serial)
  }

  predicate Gone(e: Entry, serial: nat) {
    e.Left? && e.rec.serial == serial
  }

  /** Two entries about one record agree on its session ID, and it does not leave, and is not delivered, twice. */
  ghost predicate Agree(a: Entry, b: Entry) {
    a.rec.serial == b.rec.serial ==>
      && a.rec.sid == b.rec.sid && a.rec.deployment == b.rec.deployment
      && !(a.Left? && b.Left?) && !(a.Attempted? && b.Attempted?)
  }

  ghost predicate EntryOk(log: seq<Entry>, next: nat, j: nat)
    requires j < |log|
  {
    var e := log[j];
    && e.rec.serial < next && e.rec.sid.client == e.rec.deployment
    && (!e.Coded? ==> LastSubject(log, e.rec.serial) == Some(e.rec.subject))
    && (e.Attempted? ==> exists i | 0 <= i < j :: log[i] == Left(e.rec, SessionEnded))
  }

  ghost predicate RowOk(log: seq<Entry>, next: nat, at: Place, row: Row) {
    && row.serial < next && row.sid.client == at.deployment && row.sid.session == at.ksid
    && LastSubject(log, row.serial) == Some(row.subject)
    && forall i | 0 <= i < |log| && log[i].rec.serial == row.serial ::
         log[i].Coded? && log[i].rec.sid == row.sid && log[i].rec.deployment == at.deployment
  }

  ghost predicate PendingOk(log: seq<Entry>, rec: Removed) {
    && Left(rec, SessionEnded) in log
    && forall i | 0 <= i < |log| && log[i].Attempted? :: log[i].rec.serial != rec.serial
  }

  /** A record once opened is still there, or has left. */
  ghost predicate Accounted(w: World, serial: nat) {
    || (exists at | at in w.t.rows :: w.t.rows[at].serial == serial)
    || (exists i | 0 <= i < |w.log| :: Gone(w.log[i], serial))
  }

  ghost predicate LogOk(log: seq<Entry>, next: nat) {
    && (forall j | 0 <= j < |log| :: EntryOk(log, next, j))
    && (forall i, j | 0 <= i < j < |log| :: Agree(log[i], log[j]))
  }

  ghost predicate RowsOk(w: World) {
    && (forall at | at in w.t.rows :: RowOk(w.log, w.t.next, at, w.t.rows[at]))
    && (forall at, other | at in w.t.rows && other in w.t.rows && at != other ::
         w.t.rows[at].serial != w.t.rows[other].serial)
  }

  ghost predicate PendingsOk(w: World) {
    forall rec | rec in w.pending :: PendingOk(w.log, rec)
  }

  ghost predicate AllAccounted(w: World) {
    forall serial: nat | serial < w.t.next :: Accounted(w, serial)
  }

  /** The record an end removed is still to be delivered, or has been attempted since. */
  ghost predicate Handled(w: World, i: nat)
    requires i < |w.log|
  {
    w.log[i].rec in w.pending
    || exists j | i < j < |w.log| :: w.log[j].Attempted? && w.log[j].rec == w.log[i].rec
  }

  ghost predicate EndsHandled(w: World) {
    forall i | 0 <= i < |w.log| && w.log[i].Left? && w.log[i].cause == SessionEnded :: Handled(w, i)
  }

  ghost predicate Inv(w: World) {
    LogOk(w.log, w.t.next) && RowsOk(w) && PendingsOk(w) && AllAccounted(w) && EndsHandled(w)
  }

  lemma LogGrows(log: seq<Entry>, next: nat, e: Entry, next': nat)
    requires LogOk(log, next) && next <= next' && EntryOk(log + [e], next', |log|)
    requires forall i | 0 <= i < |log| :: Agree(log[i], e)
    requires forall i | 0 <= i < |log| && e.Coded? && log[i].rec.serial == e.rec.serial :: log[i].Coded?
    ensures LogOk(log + [e], next')
  {
    var b := log + [e];
    assert b[..|log|] == log;
    assert forall i | 0 <= i < |log| :: b[i] == log[i];
    forall j | 0 <= j < |log| ensures EntryOk(b, next', j) { assert EntryOk(log, next, j); }
    forall i, j | 0 <= i < j < |b| ensures Agree(b[i], b[j]) {
      if j < |log| { assert Agree(log[i], log[j]); }
    }
  }

  /** What was accounted for, and handled, stays so as the history grows and no record leaves unseen. */
  lemma AccountsGrow(w: World, v: World, e: Entry)
    requires AllAccounted(w) && EndsHandled(w) && v.log == w.log + [e]
    requires forall at | at in w.t.rows && !Gone(e, w.t.rows[at].serial) ::
               at in v.t.rows && v.t.rows[at].serial == w.t.rows[at].serial
    requires forall serial: nat | w.t.next <= serial < v.t.next :: Accounted(v, serial)
    requires forall rec | rec in w.pending :: rec in v.pending || (e.Attempted? && e.rec == rec)
    requires e.Left? && e.cause == SessionEnded ==> e.rec in v.pending
    ensures AllAccounted(v) && EndsHandled(v)
  {
    forall serial: nat | serial < v.t.next ensures Accounted(v, serial) {
      if serial < w.t.next {
        assert Accounted(w, serial);
        if i :| 0 <= i < |w.log| && Gone(w.log[i], serial) {
          assert v.log[i] == w.log[i];
        } else {
          var at :| at in w.t.rows && w.t.rows[at].serial == serial;
          assert v.log[|w.log|] == e;
        }
      }
    }
    forall i | 0 <= i < |v.log| && v.log[i].Left? && v.log[i].cause == SessionEnded ensures Handled(v, i) {
      assert v.log[|w.log|] == e;
      if i < |w.log| {
        assert v.log[i] == w.log[i];
        assert Handled(w, i);
        if w.log[i].rec !in w.pending {
          var j :| i < j < |w.log| && w.log[j].Attempted? && w.log[j].rec == w.log[i].rec;
          assert v.log[j] == w.log[j];
        }
      }
    }
  }

  lemma SignInStep(w: World, at: Place, subject: Subject)
    requires Inv(w)
    ensures Inv(AfterSignIn(w, at, subject))
  {
    var v := AfterSignIn(w, at, subject);
    var rec := RemovedRow(at, v.t.rows[at]);
    var e := Coded(rec);
    assert v.log[..|w.log|] == w.log;
    if at in w.t.rows { assert RowOk(w.log, w.t.next, at, w.t.rows[at]); }
    forall i | 0 <= i < |w.log| ensures Agree(w.log[i], e) && (w.log[i].rec.serial == rec.serial ==> w.log[i].Coded?) {
      assert EntryOk(w.log, w.t.next, i);
    }
    LogGrows(w.log, w.t.next, e, v.t.next);
    forall other | other in v.t.rows ensures RowOk(v.log, v.t.next, other, v.t.rows[other]) {
      if other in w.t.rows { assert RowOk(w.log, w.t.next, other, w.t.rows[other]); }
      if other == at {
        forall i | 0 <= i < |w.log| && w.log[i].rec.serial == rec.serial
          ensures w.log[i].rec.sid == rec.sid && w.log[i].rec.deployment == at.deployment
        {
          assert EntryOk(w.log, w.t.next, i);
        }
      }
    }
    forall other | other in w.t.rows && at !in w.t.rows ensures w.t.rows[other].serial != rec.serial {
      assert RowOk(w.log, w.t.next, other, w.t.rows[other]);
    }
    forall p | p in v.pending ensures PendingOk(v.log, p) { assert PendingOk(w.log, p); }
    forall serial: nat | w.t.next <= serial < v.t.next ensures Accounted(v, serial) {
      assert v.t.rows[at].serial == serial;
    }
    AccountsGrow(w, v, e);
  }

  lemma LeaveStep(w: World, at: Place, cause: Cause)
    requires Inv(w) && at in w.t.rows
    ensures Inv(LeaveOne(w, at, cause))
  {
    var v := LeaveOne(w, at, cause);
    var rec := RemovedRow(at, w.t.rows[at]);
    var e := Left(rec, cause);
    assert v.log[..|w.log|] == w.log && v.log[|w.log|] == e;
    assert RowOk(w.log, w.t.next, at, w.t.rows[at]);
    LogGrows(w.log, w.t.next, e, w.t.next);
    forall other | other in v.t.rows ensures RowOk(v.log, v.t.next, other, v.t.rows[other]) {
      assert RowOk(w.log, w.t.next, other, w.t.rows[other]);
    }
    forall p | p in v.pending ensures PendingOk(v.log, p) {
      if p in w.pending { assert PendingOk(w.log, p); }
    }
    AccountsGrow(w, v, e);
  }

  lemma AgreeAt(log: seq<Entry>, next: nat, i: nat, k: nat)
    requires LogOk(log, next) && i < |log| && k < |log|
    requires log[i].rec.serial == log[k].rec.serial
    ensures log[i].rec.sid == log[k].rec.sid && log[i].rec.deployment == log[k].rec.deployment
    ensures i != k ==> !(log[i].Left? && log[k].Left?) && !(log[i].Attempted? && log[k].Attempted?)
  {
    if i < k { assert Agree(log[i], log[k]); } else if k < i { assert Agree(log[k], log[i]); }
  }

  lemma PendingOnce(log: seq<Entry>, next: nat, p: Removed, rec: Removed)
    requires LogOk(log, next) && PendingOk(log, p) && PendingOk(log, rec)
    ensures p.serial == rec.serial ==> p == rec
  {
    var i :| 0 <= i < |log| && log[i] == Left(p, SessionEnded);
    var k :| 0 <= k < |log| && log[k] == Left(rec, SessionEnded);
    if p.serial == rec.serial { AgreeAt(log, next, i, k); }
  }

  lemma AttemptEntry(log: seq<Entry>, next: nat, rec: Removed, sent: bool)
    requires LogOk(log, next) && PendingOk(log, rec)
    ensures LogOk(log + [Attempted(rec, sent)], next)
    ensures forall p | PendingOk(log, p) && p != rec :: PendingOk(log + [Attempted(rec, sent)], p)
  {
    var e := Attempted(rec, sent);
    var b := log + [e];
    assert b[..|log|] == log;
    var k :| 0 <= k < |log| && log[k] == Left(rec, SessionEnded);
    assert EntryOk(log, next, k);
    assert b[k] == log[k];
    forall i | 0 <= i < |log| && log[i].rec.serial == rec.serial ensures Agree(log[i], e) { AgreeAt(log, next, i, k); }
    LogGrows(log, next, e, next);
    forall p | PendingOk(log, p) && p != rec ensures PendingOk(b, p) {
      var i :| 0 <= i < |log| && log[i] == Left(p, SessionEnded);
      assert b[i] == log[i];
      PendingOnce(log, next, p, rec);
    }
  }

  lemma AttemptStep(w: World, rec: Removed, sent: bool)
    requires Inv(w) && rec in w.pending
    ensures Inv(Effect(w, Attempt(rec, sent)))
  {
    hide LogOk, PendingOk;
    var v := Effect(w, Attempt(rec, sent));
    var e := Attempted(rec, sent);
    assert v.log[..|w.log|] == w.log && v.log[|w.log|] == e;
    AttemptEntry(w.log, w.t.next, rec, sent);
    forall at | at in v.t.rows ensures RowOk(v.log, v.t.next, at, v.t.rows[at]) {
      AttemptRow(w, at, rec);
    }
    AccountsGrow(w, v, e);
  }

  /** A record still there has never left, so no delivery is about it. */
  lemma AttemptRow(w: World, at: Place, rec: Removed)
    requires Inv(w) && at in w.t.rows && rec in w.pending
    ensures RowOk(w.log, w.t.next, at, w.t.rows[at]) && rec.serial != w.t.rows[at].serial
  {
    assert RowOk(w.log, w.t.next, at, w.t.rows[at]);
    assert PendingOk(w.log, rec);
  }

  lemma Unrelated(w: World, v: World)
    requires Inv(w) && v.t.rows == w.t.rows && v.t.next == w.t.next && v.pending == w.pending && v.log == w.log
    ensures Inv(v)
  {
    forall serial: nat | serial < v.t.next ensures Accounted(v, serial) { assert Accounted(w, serial); }
    forall i | 0 <= i < |v.log| && v.log[i].Left? && v.log[i].cause == SessionEnded ensures Handled(v, i) {
      assert Handled(w, i);
    }
  }

  lemma {:induction false} LeaveSteps(w: World, places: seq<Place>, cause: Cause)
    requires Inv(w)
    requires forall i | 0 <= i < |places| :: places[i] in w.t.rows
    requires forall i, j | 0 <= i < j < |places| :: places[i] != places[j]
    ensures Inv(Leave(w, places, cause))
  {
    hide Inv;
    if places != [] {
      var n := |places| - 1;
      LeaveSteps(w, places[..n], cause);
      LeaveStep(Leave(w, places[..n], cause), places[n], cause);
    }
  }

  lemma InvStep(w: World, e: Event, w': World)
    requires Inv(w) && Step(w, e, w')
    ensures Inv(w')
  {
    hide Inv;
    var v := Effect(w, e);
    match e {
      case SignInTo(at, subject) => SignInStep(w, at, subject);
      case End(ksid, places) =>
        var marked := w.(t := MarkEnded(w.t, ksid, w.now));
        Unrelated(w, marked);
        LeaveSteps(marked, places, SessionEnded);
      case PurgeRows(places) => LeaveSteps(w, places, RetentionPassed);
      case Delete(deployment, places) =>
        LeaveSteps(w, places, DeploymentDeleted);
        Unrelated(Leave(w, places, DeploymentDeleted), v);
      case Attempt(rec, sent) => AttemptStep(w, rec, sent);
      case PurgeEnds => Unrelated(w, v);
      case Rotate(_) => Unrelated(w, v);
      case Create(_) => Unrelated(w, v);
    }
    Unrelated(v, w');
  }

  lemma {:induction false} Reached(ws: seq<World>, es: seq<Event>, n: nat)
    requires Run(ws, es) && n < |ws|
    ensures Inv(ws[n])
  {
    if n > 0 {
      Reached(ws, es, n - 1);
      assert Step(ws[n - 1], es[n - 1], ws[n]);
      InvStep(ws[n - 1], es[n - 1], ws[n]);
    }
  }

  // ---------- What the records and the tokens say ----------

  /**
   However the keys rotate, every code stored under one record, and the logout token sent for it, carry one session ID,
   made for that client.
   */
  lemma OneSid(ws: seq<World>, es: seq<Event>, n: nat, i: nat, j: nat)
    requires Run(ws, es) && n < |ws| && i < |ws[n].log| && j < |ws[n].log|
    requires ws[n].log[i].rec.serial == ws[n].log[j].rec.serial
    ensures ws[n].log[i].rec.sid == ws[n].log[j].rec.sid
    ensures ws[n].log[i].rec.deployment == ws[n].log[j].rec.deployment == ws[n].log[i].rec.sid.client
  {
    Reached(ws, es, n);
    AgreeAt(ws[n].log, ws[n].t.next, i, j);
    assert EntryOk(ws[n].log, ws[n].t.next, i);
  }

  ghost predicate Live(w: World, serial: nat) {
    exists at | at in w.t.rows :: w.t.rows[at].serial == serial
  }

  /** Every record there has been is there still, or left in exactly one way, once. */
  lemma LeavesOnce(ws: seq<World>, es: seq<Event>, n: nat, serial: nat)
    requires Run(ws, es) && n < |ws| && serial < ws[n].t.next
    ensures Live(ws[n], serial) <==> !exists i | 0 <= i < |ws[n].log| :: Gone(ws[n].log[i], serial)
    ensures forall i, j | 0 <= i < |ws[n].log| && 0 <= j < |ws[n].log|
              && Gone(ws[n].log[i], serial) && Gone(ws[n].log[j], serial) :: i == j
  {
    Reached(ws, es, n);
    var w := ws[n];
    assert Accounted(w, serial);
    if at :| at in w.t.rows && w.t.rows[at].serial == serial {
      assert RowOk(w.log, w.t.next, at, w.t.rows[at]);
    }
    forall i, j | 0 <= i < |w.log| && 0 <= j < |w.log| && Gone(w.log[i], serial) && Gone(w.log[j], serial)
      ensures i == j
    {
      AgreeAt(w.log, w.t.next, i, j);
    }
  }

  /** A record an end removed is waiting for its one delivery or has had it: one or the other, and never a second. */
  lemma OneDeliveryEach(ws: seq<World>, es: seq<Event>, n: nat, i: nat)
    requires Run(ws, es) && n < |ws| && i < |ws[n].log|
    requires ws[n].log[i].Left? && ws[n].log[i].cause == SessionEnded
    ensures var log := ws[n].log; var rec := log[i].rec;
      && (rec in ws[n].pending <==> !exists j | 0 <= j < |log| :: log[j].Attempted? && log[j].rec == rec)
      && forall j, k | 0 <= j < |log| && 0 <= k < |log| && log[j].Attempted? && log[k].Attempted?
                       && log[j].rec.serial == rec.serial && log[k].rec.serial == rec.serial :: j == k
  {
    Reached(ws, es, n);
    var w := ws[n];
    assert Handled(w, i);
    if w.log[i].rec in w.pending { assert PendingOk(w.log, w.log[i].rec); }
    forall j, k | 0 <= j < |w.log| && 0 <= k < |w.log| && w.log[j].Attempted? && w.log[k].Attempted?
                  && w.log[j].rec.serial == w.log[i].rec.serial && w.log[k].rec.serial == w.log[i].rec.serial
      ensures j == k
    {
      AgreeAt(w.log, w.t.next, j, k);
    }
  }

  /**
   A delivery is only ever made for a record its session's end removed, and its token names the account of the last
   code stored under that record (section 2.4 of OpenID Connect Back-Channel Logout 1.0).
   */
  lemma TokenSaysWhoSignedIn(ws: seq<World>, es: seq<Event>, n: nat, j: nat)
    requires Run(ws, es) && n < |ws| && j < |ws[n].log| && ws[n].log[j].Attempted?
    ensures exists i | 0 <= i < j :: ws[n].log[i] == Left(ws[n].log[j].rec, SessionEnded)
    ensures LastSubject(ws[n].log, ws[n].log[j].rec.serial) == Some(ws[n].log[j].rec.subject)
  {
    Reached(ws, es, n);
    assert EntryOk(ws[n].log, ws[n].t.next, j);
  }

  /**
   What is posted for record `rec`: its session ID as it was stored, which is the one every code under the record
   carried, addressed to the client that ID was made for, with the account of the last code.
   */
  ghost predicate SaysWhoSignedIn(log: seq<Entry>, rec: Removed, a: Answers, issuer: string, now: Time, p: Post) {
    && a.client.Some? && a.client.value.Some? && p.uri == a.client.value.value
    && p.token.issuer == issuer && p.token.at == now
    && p.token.sid == rec.sid && p.token.audience == rec.deployment == rec.sid.client
    && LastSubject(log, rec.serial) == Some(p.token.subject)
    && forall i | 0 <= i < |log| && log[i].Coded? && log[i].rec.serial == rec.serial :: log[i].rec.sid == p.token.sid
  }

  /** Each post made for records their session's end removed says so of one of them. */
  lemma PostsSayWhoSignedIn(
      ws: seq<World>, es: seq<Event>, n: nat, out: seq<Removed>, answers: seq<Answers>, issuer: string, now: Time)
    requires Run(ws, es) && n < |ws| && |answers| == |out|
    requires forall i | 0 <= i < |out| :: Left(out[i], SessionEnded) in ws[n].log
    ensures forall p | p in PostsFor(out, answers, issuer, now) ::
              exists i | 0 <= i < |out| :: SaysWhoSignedIn(ws[n].log, out[i], answers[i], issuer, now, p)
  {
    Reached(ws, es, n);
    var log := ws[n].log;
    forall p | p in PostsFor(out, answers, issuer, now)
      ensures exists i | 0 <= i < |out| :: SaysWhoSignedIn(log, out[i], answers[i], issuer, now, p)
    {
      PostsForExactly(out, answers, issuer, now, p);
      var i: nat :| IsPostOf(p, out, answers, issuer, now, i);
      PostSaysWho(ws, es, n, out[i], answers[i], issuer, now);
    }
  }

  lemma PostSaysWho(
      ws: seq<World>, es: seq<Event>, n: nat, rec: Removed, a: Answers, issuer: string, now: Time)
    requires Run(ws, es) && n < |ws| && Posts(a) && Left(rec, SessionEnded) in ws[n].log
    ensures SaysWhoSignedIn(ws[n].log, rec, a, issuer, now, PostFor(rec, a, issuer, now))
  {
    var log := ws[n].log;
    var j :| 0 <= j < |log| && log[j] == Left(rec, SessionEnded);
    Reached(ws, es, n);
    assert EntryOk(log, ws[n].t.next, j);
    forall i | 0 <= i < |log| && log[i].Coded? && log[i].rec.serial == rec.serial ensures log[i].rec.sid == rec.sid {
      OneSid(ws, es, n, i, j);
    }
  }

  /** A purge takes a record exactly when its latest sign-in is longer ago than the retention. */
  lemma PurgeGoesByLatestSignIn(t: Tables, at: Place, subject: Subject, proposed: Sid, now: Time, later: Time)
    ensures at in Stale(SignedIn(t, at, subject, proposed, now).rows, later) <==> later - now > 2_592_000_000_000_000
  {
  }

  /** An end takes exactly its session's records, a purge the stale ones, a deletion its deployment's. */
  lemma RecordsLeaveExactly(w: World, e: Event, w': World, at: Place)
    requires Step(w, e, w') && at in w.t.rows
    ensures at !in w'.t.rows <==>
      || (e.End? && at.ksid == e.ksid)
      || (e.PurgeRows? && w.now - w.t.rows[at].signedInAt > 2_592_000_000_000_000)
      || (e.Delete? && at.deployment == e.deployment)
    ensures at in w'.t.rows && !(e.SignInTo? && e.at == at) ==> w'.t.rows[at] == w.t.rows[at]
  {
    if e.End? || e.PurgeRows? || e.Delete? {
      assert at in Elems(e.places) <==> at in e.places;
    }
  }

  /** What removed the record said to have left, and why it could. */
  ghost predicate LeavesFor(w: World, e: Event, rec: Removed, cause: Cause) {
    exists at | at in w.t.rows ::
      && RemovedRow(at, w.t.rows[at]) == rec
      && match cause
         case SessionEnded => e.End? && e.ksid == at.ksid
         case RetentionPassed => e.PurgeRows? && w.now - w.t.rows[at].signedInAt > SIGN_IN_RETENTION
         case DeploymentDeleted => e.Delete? && e.deployment == at.deployment
  }

  lemma {:induction false} LeaveLogs(w: World, places: seq<Place>, cause: Cause)
    requires forall i | 0 <= i < |places| :: places[i] in w.t.rows
    requires forall i, j | 0 <= i < j < |places| :: places[i] != places[j]
    ensures var v := Leave(w, places, cause);
      && w.log <= v.log
      && forall k | |w.log| <= k < |v.log| ::
           exists at | at in places :: v.log[k] == Left(RemovedRow(at, w.t.rows[at]), cause)
  {
    if places != [] {
      var n := |places| - 1;
      LeaveLogs(w, places[..n], cause);
      assert places[n] !in Elems(places[..n]);
      assert places[n] in places && forall at | at in places[..n] :: at in places;
    }
  }

  lemma LeftInStep(w: World, e: Event, w': World)
    requires Step(w, e, w')
    ensures w.log <= w'.log
    ensures forall k | |w.log| <= k < |w'.log| && w'.log[k].Left? :: LeavesFor(w, e, w'.log[k].rec, w'.log[k].cause)
  {
    match e
    case End(ksid, places) => LeaveLogs(w.(t := MarkEnded(w.t, ksid, w.now)), places, SessionEnded);
    case PurgeRows(places) => LeaveLogs(w, places, RetentionPassed);
    case Delete(_, places) => LeaveLogs(w, places, DeploymentDeleted);
    case _ =>
  }

  /** A record only ever leaves for its own session's end, its own age or its own deployment's deletion. */
  lemma {:induction false} LeavesForItsOwn(ws: seq<World>, es: seq<Event>, n: nat, k: nat)
    requires Run(ws, es) && n < |ws| && k < |ws[n].log| && ws[n].log[k].Left?
    ensures exists m | 0 <= m < n :: LeavesFor(ws[m], es[m], ws[n].log[k].rec, ws[n].log[k].cause)
  {
    hide Step, LeavesFor;
    assert Step(ws[n - 1], es[n - 1], ws[n]);
    LeftInStep(ws[n - 1], es[n - 1], ws[n]);
    if k < |ws[n - 1].log| {
      LeavesForItsOwn(ws, es, n - 1, k);
    } else {
      assert LeavesFor(ws[n - 1], es[n - 1], ws[n].log[k].rec, ws[n].log[k].cause);
    }
  }

  /** A session's first end stands until it is purged. */
  lemma FirstEndStands(w: World, e: Event, w': World, ksid: Ksid)
    requires Step(w, e, w') && ksid in w.t.ended
    ensures ksid in w'.t.ended ==> w'.t.ended[ksid] == w.t.ended[ksid]
    ensures ksid !in w'.t.ended ==> e.PurgeEnds? && w.now - w.t.ended[ksid] > ENDED_RETENTION
  {
  }

  lemma EndStep(w: World, e: Event, w': World, ksid: Ksid)
    requires Step(w, e, w')
    ensures e.End? && e.ksid == ksid ==> ksid in w'.t.ended
    ensures ksid in w'.t.ended && ksid !in w.t.ended ==> e.End? && e.ksid == ksid && w'.t.ended[ksid] == w.now
  {
  }

  /** A recorded end is stamped with the moment the session was first ended at since it was last not on record. */
  lemma {:induction false} EndIsStamped(ws: seq<World>, es: seq<Event>, n: nat, ksid: Ksid) returns (m: nat)
    requires Run(ws, es) && n < |ws| && ksid in ws[n].t.ended
    ensures m < n && es[m].End? && es[m].ksid == ksid && ws[n].t.ended[ksid] == ws[m].now
    ensures ksid !in ws[m].t.ended && forall k | m < k <= n :: ksid in ws[k].t.ended
  {
    hide Step;
    assert Step(ws[n - 1], es[n - 1], ws[n]);
    if ksid in ws[n - 1].t.ended {
      m := EndIsStamped(ws, es, n - 1, ksid);
      FirstEndStands(ws[n - 1], es[n - 1], ws[n], ksid);
    } else {
      EndStep(ws[n - 1], es[n - 1], ws[n], ksid);
      m := n - 1;
    }
  }

  /** Purging the ends leaves exactly those within the retention. */
  lemma PurgeLeavesRecentEnds(w: World, w': World, ksid: Ksid)
    requires Step(w, PurgeEnds, w')
    ensures ksid in w'.t.ended <==> ksid in w.t.ended && w.now - w.t.ended[ksid] <= 604_800_000_000_000
  {
  }

  // ---------- Sign-ins that miss the end of their session ----------

  /** No app is left signed in to a session that has ended. */
  ghost predicate NoneLeft(w: World) {
    forall at | at in w.t.rows :: at.ksid !in w.t.ended
  }

  ghost predicate InTime(w: World, e: Event) {
    e.SignInTo? ==> e.at.ksid !in w.t.ended
  }

  lemma NoneLeftStep(w: World, e: Event, w': World)
    requires Step(w, e, w') && NoneLeft(w)
    ensures NoneLeft(w') <==> InTime(w, e)
  {
    if e.SignInTo? {
      assert e.at in w'.t.rows;
    }
    if e.End? {
      forall at | at in OfSession(w.t.rows, e.ksid) ensures at !in w'.t.rows {
        assert at in e.places;
      }
    }
  }

  lemma {:induction false} AllNoneLeft(ws: seq<World>, es: seq<Event>, n: nat)
    requires Run(ws, es) && n < |ws| && forall i | 0 <= i < |es| :: InTime(ws[i], es[i])
    ensures NoneLeft(ws[n])
  {
    if n > 0 {
      AllNoneLeft(ws, es, n - 1);
      assert Step(ws[n - 1], es[n - 1], ws[n]);
      NoneLeftStep(ws[n - 1], es[n - 1], ws[n]);
    }
  }

  /**
   Nothing stops a sign-in from being stored after its session has ended: it then leaves a record that no end will
   remove. Ends leave no app signed in, in every state of a run, exactly when every code is stored before its session
   ends.
   */
  lemma NoAppLeftSignedIn(ws: seq<World>, es: seq<Event>)
    requires Run(ws, es)
    ensures (forall n | 0 <= n < |ws| :: NoneLeft(ws[n])) <==> (forall i | 0 <= i < |es| :: InTime(ws[i], es[i]))
  {
    if forall i | 0 <= i < |es| :: InTime(ws[i], es[i]) {
      forall n | 0 <= n < |ws| ensures NoneLeft(ws[n]) { AllNoneLeft(ws, es, n); }
    }
    if forall n | 0 <= n < |ws| :: NoneLeft(ws[n]) {
      forall i | 0 <= i < |es| ensures InTime(ws[i], es[i]) {
        assert NoneLeft(ws[i]) && NoneLeft(ws[i + 1]);
        assert Step(ws[i], es[i], ws[i + 1]);
        NoneLeftStep(ws[i], es[i], ws[i + 1]);
      }
    }
  }

  /** A sign-in under way while its session ends: the app stays signed in, and hears nothing. */
  lemma LateSignInIsMissed() returns (ws: seq<World>, es: seq<Event>)
    ensures Run(ws, es) && !NoneLeft(ws[|es|]) && ws[|es|].pending == {}
    ensures es == [Create("app"), End("s", []), SignInTo(Place("s", "app"), "alice")]
  {
    var at := Place("s", "app");
    es := [Create("app"), End("s", []), SignInTo(at, "alice")];
    var w0 := World(0, 0, {}, Tables(map[], map[], 0), {}, []);
    var w1 := Effect(w0, es[0]);
    var w2 := Effect(w1, es[1]);
    var w3 := Effect(w2, es[2]);
    ws := [w0, w1, w2, w3];
    assert Step(w0, es[0], w1) && Step(w1, es[1], w2) && Step(w2, es[2], w3);
    assert at in w3.t.rows && "s" in w3.t.ended;
  }
}
