/**
 Signing in, from the link that starts it to the session or the ID token it ends in.

 A sign-in crosses two hosts, an identity provider, a consent page and a single-use code. Its requests run
 concurrently with each other and with everything the platform does to apps; every database statement is a step of its
 own, but that a host and the app it previews are looked up together. Sealed cookies, codes, nonces and digests are
 unforgeable: a request can present only what was once minted.

 `log` is the history of what happened. The theorems say of every session and every ID token ever issued what must have
 happened before it, and that it happened once.
 */
module SignIn {
  import opened Access
  import opened Options
  import opened Preview

  type Time = int
  type Host = string
  type Deployment = string
  type Subject = string
  type Uri = string
  type Token = nat

  const CODE_TTL: int := 60_000_000_000

  /** What leaves of a nonce, or of a proof key: its digest. */
  datatype Digest = Digest(of: Token)

  /** What a sign-in is for: a header app's host, or an OIDC client's validated request. */
  datatype Target =
    | App(host: Host, nonceHash: Digest)
    | Client(client: Deployment, redirectURI: Uri, challenge: Option<Digest>)

  datatype Flow = Flow(id: Token, target: Target, promptNone: bool, forceConsent: bool)

  datatype Identity = Identity(sub: Subject, email: string, keycloakSID: string)

  datatype Served = Served(deployment: Deployment, listed: bool)

  /** An OIDC client's record: whether it keeps an access list, and where its users may be sent back to. */
  datatype Registration = Registration(listed: bool, redirects: set<Uri>)

  /** What the consent page carries from the browser's first request to its second. */
  datatype Pending = Pending(flow: Flow, id: Identity, deployment: Deployment)

  datatype CodeRecord = CodeRecord(flow: Flow, id: Identity, served: Served, expires: Time)

  datatype Entry =
    | Started(flow: Flow)
    | Authenticated(flow: Flow, id: Identity)
    | Resolved(target: Target, served: Served)
    | Allowed(flow: Flow, id: Identity, deployment: Deployment)
    | Consented(sub: Subject, deployment: Deployment)
    | Admitted(deployment: Deployment, id: Identity)
    | Issued(code: Token, flow: Flow, id: Identity, served: Served, at: Time)
    | Redeemed(code: Token)
    | Session(host: Host, sub: Subject, keycloakSID: string, code: Token, nonce: Token, at: Time)
    | IDToken(client: Deployment, sub: Subject, redirectURI: Uri, code: Token, verifier: Option<Token>, at: Time)

  /** Where a browser's request to the login host has got to. */
  datatype Request =
    | ToFind(flow: Flow)
    | ToExchange(flow: Flow, found: Option<Served>)
    | ToResolve(flow: Flow, id: Identity)
    | ToAdmit(flow: Flow, id: Identity, served: Served)
    | ToLookUpConsent(flow: Flow, id: Identity, served: Served)
    | FormToResolve(pending: Pending)
    | FormToAdmit(pending: Pending, served: Served)
    | FormToRecord(pending: Pending, served: Served)
    | ToBind(flow: Flow, id: Identity, served: Served)
    | ToInsert(flow: Flow, id: Identity, served: Served)
    | Over

  type Pid = nat

  datatype World = World(
    now: Time,
    tenantDomain: string,
    apps: map<Host, Served>,
    clients: map<Deployment, Registration>,
    flows: set<Flow>,
    pendings: set<Pending>,
    requests: map<Pid, Request>,
    consents: set<(Subject, Deployment)>,
    appCodes: map<Token, CodeRecord>,
    oidcCodes: map<Token, CodeRecord>,
    log: seq<Entry>)

  /**
   `id` is Keycloak's answer, `ok` the access list's, and `admitted` that of a client's record and list together when
   it redeems. `Fail` is every refusal, time-out and error that ends a request.
   */
  datatype Event =
    | Start(flow: Flow)
    | Return(p: Pid, flow: Flow)
    | Exchange(p: Pid, id: Identity)
    | Resolve(p: Pid)
    | CheckList(p: Pid, ok: bool)
    | LookUpConsent(p: Pid)
    | Form(p: Pid, pending: Pending, allow: bool)
    | RecordConsent(p: Pid)
    | BindEntry(p: Pid, ok: bool)
    | InsertCode(p: Pid, code: Token)
    | Callback(host: Host, code: Token, nonces: seq<Token>)
    | Redeem(client: Deployment, redirectURI: Uri, code: Token, verifier: Option<Token>, admitted: bool)
    | Fail(p: Pid)
    | PurgeCodes
    | Change(apps: map<Host, Served>, clients: map<Deployment, Registration>, consents: set<(Subject, Deployment)>)

  // ---------- The steps ----------

  /** A host's own app, or the app it previews. */
  function HeaderApp(w: World, host: Host): Option<Served> {
    if host in w.apps then Some(w.apps[host])
    else
      var base := PreviewBase(host, w.tenantDomain);
      if base.Some? && base.value in w.apps then Some(w.apps[base.value]) else None
  }

  function Find(w: World, target: Target): Option<Served> {
    match target
    case App(host, _) => HeaderApp(w, host)
    case Client(client, uri, _) =>
      if client in w.clients && uri in w.clients[client].redirects then Some(Served(client, w.clients[client].listed))
      else None
  }

  function To(w: World, p: Pid, r: Request): World {
    w.(requests := w.requests[p := r])
  }

  function Logged(w: World, e: Entry): World {
    w.(log := w.log + [e])
  }

  predicate IsAt(w: World, p: Pid) {
    p in w.requests
  }

  predicate NewCode(w: World, code: Token) {
    && code !in w.appCodes && code !in w.oidcCodes
    && forall i | 0 <= i < |w.log| :: !(w.log[i].Issued? && w.log[i].code == code)
  }

  predicate Resolving(r: Request) {
    r.ToFind? || r.ToResolve? || r.FormToResolve?
  }

  ghost predicate Enabled(w: World, e: Event) {
    match e
    case Start(flow) => flow !in w.flows && Find(w, flow.target).Some?
    case Return(p, flow) => p !in w.requests && flow in w.flows
    case Exchange(p, id) => IsAt(w, p) && w.requests[p].ToExchange? && id.keycloakSID != ""
    case Resolve(p) => IsAt(w, p) && Resolving(w.requests[p])
    case CheckList(p, _) => IsAt(w, p) && (w.requests[p].ToAdmit? || w.requests[p].FormToAdmit?)
    case LookUpConsent(p) => IsAt(w, p) && w.requests[p].ToLookUpConsent?
    case Form(p, pending, _) => p !in w.requests && pending in w.pendings && pending.id.keycloakSID != ""
    case RecordConsent(p) => IsAt(w, p) && w.requests[p].FormToRecord?
    case BindEntry(p, _) => IsAt(w, p) && w.requests[p].ToBind?
    case InsertCode(p, code) => IsAt(w, p) && w.requests[p].ToInsert? && NewCode(w, code)
    case Callback(_, _, _) => true
    case Redeem(_, _, _, _, _) => true
    case Fail(p) => IsAt(w, p)
    case PurgeCodes => true
    case Change(_, _, consents) => consents <= w.consents
  }

  /** The app found for a form must still be the one its consent page was about. */
  function AfterResolve(w: World, p: Pid): (v: World)
    requires IsAt(w, p) && Resolving(w.requests[p])
    ensures v.appCodes == w.appCodes && v.oidcCodes == w.oidcCodes
  {
    var r := w.requests[p];
    var target := if r.FormToResolve? then r.pending.flow.target else r.flow.target;
    var found := Find(w, target);
    if found.None? then To(w, p, Over)
    else
      var next := if r.ToFind? then ToExchange(r.flow, found)
                  else if r.ToResolve? then ToAdmit(r.flow, r.id, found.value)
                  else if found.value.deployment == r.pending.deployment then FormToAdmit(r.pending, found.value)
                  else Over;
      Logged(To(w, p, next), Resolved(target, found.value))
  }

  function AfterList(w: World, p: Pid, ok: bool): (v: World)
    requires IsAt(w, p) && (w.requests[p].ToAdmit? || w.requests[p].FormToAdmit?)
    ensures v.appCodes == w.appCodes && v.oidcCodes == w.oidcCodes
  {
    var r := w.requests[p];
    To(w, p,
       if r.served.listed && !ok then Over
       else if r.ToAdmit? then ToLookUpConsent(r.flow, r.id, r.served)
       else FormToRecord(r.pending, r.served))
  }

  function AfterLookUp(w: World, p: Pid): (v: World)
    requires IsAt(w, p) && w.requests[p].ToLookUpConsent?
    ensures v.appCodes == w.appCodes && v.oidcCodes == w.oidcCodes
  {
    var r := w.requests[p];
    if (r.id.sub, r.served.deployment) in w.consents && !r.flow.forceConsent then
      To(w, p, ToBind(r.flow, r.id, r.served))
    else if r.flow.promptNone then To(w, p, Over)
    else To(w, p, Over).(pendings := w.pendings + {Pending(r.flow, r.id, r.served.deployment)})
  }

  function AfterBind(w: World, p: Pid, ok: bool): (v: World)
    requires IsAt(w, p) && w.requests[p].ToBind?
    ensures v.appCodes == w.appCodes && v.oidcCodes == w.oidcCodes
  {
    var r := w.requests[p];
    if !r.served.listed then To(w, p, ToInsert(r.flow, r.id, r.served))
    else if ok then Logged(To(w, p, ToInsert(r.flow, r.id, r.served)), Admitted(r.served.deployment, r.id))
    else To(w, p, Over)
  }

  function AfterInsert(w: World, p: Pid, code: Token): World
    requires IsAt(w, p) && w.requests[p].ToInsert?
  {
    var r := w.requests[p];
    var rec := CodeRecord(r.flow, r.id, r.served, w.now + CODE_TTL);
    var v := Logged(To(w, p, Over), Issued(code, r.flow, r.id, r.served, w.now));
    if r.flow.target.App? then v.(appCodes := w.appCodes[code := rec]) else v.(oidcCodes := w.oidcCodes[code := rec])
  }

  predicate HasNonce(nonces: seq<Token>, want: Digest) {
    exists i | 0 <= i < |nonces| :: Digest(nonces[i]) == want
  }

  /** The app host's half: the code is burnt by the lookup itself, whatever is wrong with the request. */
  function AfterCallback(w: World, host: Host, code: Token, nonces: seq<Token>): World {
    if code !in w.appCodes then w
    else
      var rec := w.appCodes[code];
      var v := Logged(w.(appCodes := w.appCodes - {code}), Redeemed(code));
      if rec.expires > w.now && rec.flow.target.App? && rec.flow.target.host == host
         && HasNonce(nonces, rec.flow.target.nonceHash) then
        Logged(v, Session(host, rec.id.sub, rec.id.keycloakSID, code, rec.flow.target.nonceHash.of, w.now))
      else v
  }

  /** A verifier must match its challenge, and there must be none without one. */
  predicate ProofMatches(challenge: Option<Digest>, verifier: Option<Token>) {
    if challenge.None? then verifier.None? else verifier.Some? && Digest(verifier.value) == challenge.value
  }

  function AfterRedeem(
      w: World, client: Deployment, redirectURI: Uri, code: Token, verifier: Option<Token>, admitted: bool): World {
    if code !in w.oidcCodes then w
    else
      var rec := w.oidcCodes[code];
      var v := Logged(w.(oidcCodes := w.oidcCodes - {code}), Redeemed(code));
      if rec.expires > w.now && rec.flow.target.Client? && rec.flow.target.client == client
         && rec.flow.target.redirectURI == redirectURI && admitted
         && ProofMatches(rec.flow.target.challenge, verifier) then
        Logged(v, IDToken(client, rec.id.sub, redirectURI, code, verifier, w.now))
      else v
  }

  function Unexpired(codes: map<Token, CodeRecord>, now: Time): map<Token, CodeRecord> {
    map c | c in codes && codes[c].expires >= now :: codes[c]
  }

  function Effect(w: World, e: Event): World
    requires Enabled(w, e)
  {
    match e
    case Start(flow) => Logged(w.(flows := w.flows + {flow}), Started(flow))
    case Return(p, flow) => To(w, p, if flow.target.App? then ToExchange(flow, None) else ToFind(flow))
    case Exchange(p, id) =>
      var r := w.requests[p];
      var next := if r.found.None? then ToResolve(r.flow, id) else ToAdmit(r.flow, id, r.found.value);
      Logged(To(w, p, next), Authenticated(r.flow, id))
    case Resolve(p) => AfterResolve(w, p)
    case CheckList(p, ok) => AfterList(w, p, ok)
    case LookUpConsent(p) => AfterLookUp(w, p)
    case Form(p, pending, allow) =>
      if allow then Logged(To(w, p, FormToResolve(pending)), Allowed(pending.flow, pending.id, pending.deployment))
      else To(w, p, Over)
    case RecordConsent(p) =>
      var r := w.requests[p];
      var sub, d := r.pending.id.sub, r.served.deployment;
      var v := To(w, p, ToBind(r.pending.flow, r.pending.id, r.served)).(consents := w.consents + {(sub, d)});
      Logged(v, Consented(sub, d))
    case BindEntry(p, ok) => AfterBind(w, p, ok)
    case InsertCode(p, code) => AfterInsert(w, p, code)
    case Callback(host, code, nonces) => AfterCallback(w, host, code, nonces)
    case Redeem(client, uri, code, verifier, admitted) => AfterRedeem(w, client, uri, code, verifier, admitted)
    case Fail(p) => To(w, p, Over)
    case PurgeCodes => w.(appCodes := Unexpired(w.appCodes, w.now), oidcCodes := Unexpired(w.oidcCodes, w.now))
    case Change(apps, clients, consents) => w.(apps := apps, clients := clients, consents := consents)
  }

  ghost predicate Step(w: World, e: Event, w': World) {
    Enabled(w, e) && w.now <= w'.now && w' == Effect(w, e).(now := w'.now)
  }

  ghost predicate Empty(w: World) {
    && w.flows == {} && w.pendings == {} && w.requests == map[] && w.consents == {}
    && w.appCodes == map[] && w.oidcCodes == map[] && w.log == []
  }

  ghost predicate Run(ws: seq<World>, es: seq<Event>) {
    |ws| == |es| + 1 && Empty(ws[0]) && forall i | 0 <= i < |es| :: Step(ws[i], es[i], ws[i + 1])
  }

  // ---------- What every step keeps ----------

  /** `e` is among the first `n` entries. */
  ghost predicate Happened(log: seq<Entry>, n: nat, e: Entry) {
    exists k | 0 <= k < n && k < |log| :: log[k] == e
  }

  ghost predicate Ever(log: seq<Entry>, e: Entry) {
    Happened(log, |log|, e)
  }

  /** The flow was started, and then Keycloak authenticated the identity for it. */
  ghost predicate Known(log: seq<Entry>, n: nat, flow: Flow, id: Identity) {
    Happened(log, n, Started(flow)) && Happened(log, n, Authenticated(flow, id))
  }

  /** A flow that asks for consent afresh has been given it on its own consent page. */
  ghost predicate Agreed(log: seq<Entry>, n: nat, flow: Flow, id: Identity, served: Served) {
    && Known(log, n, flow, id)
    && Happened(log, n, Resolved(flow.target, served))
    && Happened(log, n, Consented(id.sub, served.deployment))
    && (flow.forceConsent ==> Happened(log, n, Allowed(flow, id, served.deployment)))
  }

  /** Consent was given on the page about this deployment. */
  ghost predicate Given(log: seq<Entry>, n: nat, p: Pending) {
    Known(log, n, p.flow, p.id) && Happened(log, n, Allowed(p.flow, p.id, p.deployment))
  }

  ghost predicate Issuable(log: seq<Entry>, n: nat, flow: Flow, id: Identity, served: Served) {
    && Agreed(log, n, flow, id, served)
    && (served.listed ==> Happened(log, n, Admitted(served.deployment, id)))
  }

  ghost predicate RequestOk(log: seq<Entry>, r: Request) {
    var n := |log|;
    match r
    case ToFind(flow) => Happened(log, n, Started(flow))
    case ToExchange(flow, found) =>
      Happened(log, n, Started(flow)) && (found.Some? ==> Happened(log, n, Resolved(flow.target, found.value)))
    case ToResolve(flow, id) => Known(log, n, flow, id)
    case ToAdmit(flow, id, served) => Known(log, n, flow, id) && Happened(log, n, Resolved(flow.target, served))
    case ToLookUpConsent(flow, id, served) => Known(log, n, flow, id) && Happened(log, n, Resolved(flow.target, served))
    case FormToResolve(p) => Given(log, n, p)
    case FormToAdmit(p, served) =>
      Given(log, n, p) && served.deployment == p.deployment && Happened(log, n, Resolved(p.flow.target, served))
    case FormToRecord(p, served) =>
      Given(log, n, p) && served.deployment == p.deployment && Happened(log, n, Resolved(p.flow.target, served))
    case ToBind(flow, id, served) => Agreed(log, n, flow, id, served)
    case ToInsert(flow, id, served) => Issuable(log, n, flow, id, served)
    case Over => true
  }

  /** What must come before each entry. */
  ghost predicate EntryOk(log: seq<Entry>, j: nat)
    requires j < |log|
  {
    match log[j]
    case Authenticated(flow, _) => Happened(log, j, Started(flow))
    case Allowed(flow, _, _) => !flow.promptNone
    case Consented(sub, deployment) => exists k | 0 <= k < j :: AllowedBy(log[k], sub, deployment)
    case Issued(_, flow, id, served, _) => Issuable(log, j, flow, id, served)
    case Redeemed(code) => exists k | 0 <= k < j :: log[k].Issued? && log[k].code == code
    case Session(host, sub, ksid, code, nonce, at) =>
      && Happened(log, j, Redeemed(code))
      && exists k | 0 <= k < j :: IssuedFor(log[k], code, sub, ksid, App(host, Digest(nonce)), at)
    case IDToken(client, sub, uri, code, verifier, at) =>
      && Happened(log, j, Redeemed(code))
      && exists k | 0 <= k < j :: IssuedToClient(log[k], code, client, sub, uri, verifier, at)
    case _ => true
  }

  predicate AllowedBy(e: Entry, sub: Subject, deployment: Deployment) {
    e.Allowed? && e.id.sub == sub && e.deployment == deployment
  }

  /** Issued for this, and less than a minute before `at`. */
  predicate IssuedFor(e: Entry, code: Token, sub: Subject, ksid: string, target: Target, at: Time) {
    && e.Issued? && e.code == code && at < e.at + CODE_TTL
    && e.id.sub == sub && e.id.keycloakSID == ksid && e.flow.target == target
  }

  predicate IssuedToClient(
    e: Entry, code: Token, client: Deployment, sub: Subject, uri: Uri, verifier: Option<Token>, at: Time) {
    && e.Issued? && e.code == code && at < e.at + CODE_TTL && e.id.sub == sub && e.flow.target.Client?
    && e.flow.target.client == client && e.flow.target.redirectURI == uri
    && ProofMatches(e.flow.target.challenge, verifier)
  }

  /** No code is issued, redeemed or cashed in twice. */
  ghost predicate Once(log: seq<Entry>, i: nat, j: nat)
    requires i < j < |log|
  {
    && (log[i].Issued? && log[j].Issued? ==> log[i].code != log[j].code)
    && (log[i].Redeemed? && log[j].Redeemed? ==> log[i].code != log[j].code)
    && (log[i].Session? && log[j].Session? ==> log[i].code != log[j].code)
    && (log[i].IDToken? && log[j].IDToken? ==> log[i].code != log[j].code)
  }

  function IssuedAs(code: Token, rec: CodeRecord): Entry {
    Issued(code, rec.flow, rec.id, rec.served, rec.expires - CODE_TTL)
  }

  /** A stored code was issued with its record, and has not been redeemed. */
  ghost predicate CodeOk(log: seq<Entry>, code: Token, rec: CodeRecord) {
    Ever(log, IssuedAs(code, rec)) && !Ever(log, Redeemed(code))
  }

  ghost predicate LogOk(log: seq<Entry>) {
    && (forall j | 0 <= j < |log| :: EntryOk(log, j))
    && (forall i, j | 0 <= i < j < |log| :: Once(log, i, j))
  }

  /** A consent page is shown only to someone authenticated, and only when the client did not forbid one. */
  ghost predicate PageOk(log: seq<Entry>, p: Pending) {
    Known(log, |log|, p.flow, p.id) && !p.flow.promptNone
  }

  ghost predicate TablesOk(w: World) {
    && (forall f | f in w.flows :: Ever(w.log, Started(f)))
    && (forall p | p in w.pendings :: PageOk(w.log, p))
    && (forall c | c in w.consents :: Ever(w.log, Consented(c.0, c.1)))
    && (forall c | c in w.appCodes :: CodeOk(w.log, c, w.appCodes[c]))
    && (forall c | c in w.oidcCodes :: CodeOk(w.log, c, w.oidcCodes[c]))
    && w.appCodes.Keys !! w.oidcCodes.Keys
  }

  ghost predicate Inv(w: World) {
    && LogOk(w.log)
    && TablesOk(w)
    && forall p | p in w.requests :: RequestOk(w.log, w.requests[p])
  }

  lemma HappenedMono(a: seq<Entry>, b: seq<Entry>, n: nat, m: nat, e: Entry)
    requires a <= b && n <= m && Happened(a, n, e)
    ensures Happened(b, m, e)
  {
    var k :| 0 <= k < n && k < |a| && a[k] == e;
    assert b[k] == e;
  }

  /** What once was so, stays so as the history grows. */
  lemma IssuableMono(a: seq<Entry>, b: seq<Entry>, n: nat, m: nat, flow: Flow, id: Identity, served: Served)
    requires a <= b && n <= m
    ensures Known(a, n, flow, id) ==> Known(b, m, flow, id)
    ensures forall d :: Happened(a, n, Allowed(flow, id, d)) ==> Happened(b, m, Allowed(flow, id, d))
    ensures Happened(a, n, Resolved(flow.target, served)) ==> Happened(b, m, Resolved(flow.target, served))
    ensures Agreed(a, n, flow, id, served) ==> Agreed(b, m, flow, id, served)
    ensures Issuable(a, n, flow, id, served) ==> Issuable(b, m, flow, id, served)
  {
    forall e | Happened(a, n, e) ensures Happened(b, m, e) { HappenedMono(a, b, n, m, e); }
  }

  lemma RequestMono(a: seq<Entry>, b: seq<Entry>, r: Request)
    requires a <= b && RequestOk(a, r)
    ensures RequestOk(b, r)
  {
    forall e | Happened(a, |a|, e) ensures Happened(b, |b|, e) { HappenedMono(a, b, |a|, |b|, e); }
  }

  lemma EntryMono(a: seq<Entry>, b: seq<Entry>, j: nat)
    requires a <= b && j < |a| && EntryOk(a, j)
    ensures EntryOk(b, j)
  {
    assert forall k | 0 <= k < |a| :: a[k] == b[k];
    forall e | Happened(a, j, e) ensures Happened(b, j, e) { HappenedMono(a, b, j, j, e); }
  }

  lemma LogGrows(log: seq<Entry>, e: Entry)
    requires LogOk(log) && EntryOk(log + [e], |log|)
    requires forall i | 0 <= i < |log| :: Once(log + [e], i, |log|)
    ensures LogOk(log + [e])
  {
    hide EntryOk;
    var b := log + [e];
    assert forall k | 0 <= k < |log| :: log[k] == b[k];
    forall j | 0 <= j < |b| ensures EntryOk(b, j) {
      if j < |log| { EntryMono(log, b, j); }
    }
    forall i, j | 0 <= i < j < |b| ensures Once(b, i, j) {
      if j < |log| { assert Once(log, i, j); }
    }
  }

  /** An entry that no code is counted by needs only its own cause. */
  lemma PlainEntry(log: seq<Entry>, e: Entry)
    requires LogOk(log) && (e.Started? || e.Authenticated? || e.Resolved? || e.Allowed? || e.Consented? || e.Admitted?)
    requires e.Authenticated? ==> Ever(log, Started(e.flow))
    requires e.Consented? ==> exists k | 0 <= k < |log| :: AllowedBy(log[k], e.sub, e.deployment)
    requires e.Allowed? ==> !e.flow.promptNone
    ensures LogOk(log + [e])
    ensures Ever(log + [e], e)
    ensures forall c | Ever(log + [e], Redeemed(c)) :: Ever(log, Redeemed(c))
  {
    var b := log + [e];
    assert b[|log|] == e;
    if e.Authenticated? { HappenedMono(log, b, |log|, |log|, Started(e.flow)); }
    if e.Consented? {
      var k :| 0 <= k < |log| && AllowedBy(log[k], e.sub, e.deployment);
      assert b[k] == log[k];
    }
    LogGrows(log, e);
    forall c | Ever(b, Redeemed(c)) ensures Ever(log, Redeemed(c)) {
      var k :| 0 <= k < |b| && b[k] == Redeemed(c);
      assert log[k] == b[k];
    }
  }

  lemma RedeemedWasIssued(log: seq<Entry>, code: Token)
    requires LogOk(log)
    ensures Ever(log, Redeemed(code)) ==> exists i | 0 <= i < |log| :: log[i].Issued? && log[i].code == code
  {
    if Ever(log, Redeemed(code)) {
      var j :| 0 <= j < |log| && log[j] == Redeemed(code);
      assert EntryOk(log, j);
      var i :| 0 <= i < j && log[i].Issued? && log[i].code == code;
    }
  }

  lemma IssuedEntry(log: seq<Entry>, code: Token, rec: CodeRecord)
    requires LogOk(log) && Issuable(log, |log|, rec.flow, rec.id, rec.served)
    requires forall i | 0 <= i < |log| :: !(log[i].Issued? && log[i].code == code)
    ensures var b := log + [IssuedAs(code, rec)];
      LogOk(b) && CodeOk(b, code, rec) && forall c | Ever(b, Redeemed(c)) :: Ever(log, Redeemed(c))
  {
    var e := IssuedAs(code, rec);
    var b := log + [e];
    assert b[|log|] == e;
    IssuableMono(log, b, |log|, |log|, rec.flow, rec.id, rec.served);
    forall i | 0 <= i < |log| ensures Once(b, i, |log|) { assert b[i] == log[i]; }
    LogGrows(log, e);
    RedeemedWasIssued(log, code);
    forall c | Ever(b, Redeemed(c)) ensures Ever(log, Redeemed(c)) {
      var k :| 0 <= k < |b| && b[k] == Redeemed(c);
      assert log[k] == b[k];
    }
  }

  lemma RedeemedEntry(log: seq<Entry>, code: Token, rec: CodeRecord)
    requires LogOk(log) && CodeOk(log, code, rec)
    ensures var b := log + [Redeemed(code)];
      LogOk(b) && Ever(b, Redeemed(code)) && Ever(b, IssuedAs(code, rec))
      && forall c | Ever(b, Redeemed(c)) :: c == code || Ever(log, Redeemed(c))
  {
    var e := Redeemed(code);
    var b := log + [e];
    var issued := IssuedAs(code, rec);
    assert b[|log|] == e;
    HappenedMono(log, b, |log|, |log|, issued);
    HappenedMono(log, b, |log|, |b|, issued);
    forall i | 0 <= i < |log| ensures Once(b, i, |log|) { assert b[i] == log[i]; }
    LogGrows(log, e);
    forall c | Ever(b, Redeemed(c)) ensures c == code || Ever(log, Redeemed(c)) {
      var k :| 0 <= k < |b| && b[k] == Redeemed(c);
      if k < |log| { assert log[k] == b[k]; }
    }
  }

  /** A session or an ID token follows its code's one redemption at once. */
  lemma CashedEntry(log: seq<Entry>, code: Token, rec: CodeRecord, e: Entry)
    requires LogOk(log) && CodeOk(log, code, rec) && (e.Session? || e.IDToken?) && e.code == code
    requires var issued := IssuedAs(code, rec);
      if e.Session? then IssuedFor(issued, code, e.sub, e.keycloakSID, App(e.host, Digest(e.nonce)), e.at)
      else IssuedToClient(issued, code, e.client, e.sub, e.redirectURI, e.verifier, e.at)
    ensures var b := log + [Redeemed(code)] + [e];
      LogOk(b) && forall c | Ever(b, Redeemed(c)) :: c == code || Ever(log, Redeemed(c))
  {
    RedeemedEntry(log, code, rec);
    var a := log + [Redeemed(code)];
    var b := a + [e];
    var issued := IssuedAs(code, rec);
    HappenedMono(a, b, |a|, |a|, Redeemed(code));
    HappenedMono(a, b, |a|, |a|, issued);
    forall i | 0 <= i < |a| ensures Once(b, i, |a|) {
      assert b[i] == a[i];
      if i < |log| && (log[i].Session? || log[i].IDToken?) && log[i].code == code {
        assert EntryOk(log, i);
        HappenedMono(log, log, i, |log|, Redeemed(code));
      }
    }
    LogGrows(a, e);
    forall c | Ever(b, Redeemed(c)) ensures c == code || Ever(log, Redeemed(c)) {
      var k :| 0 <= k < |b| && b[k] == Redeemed(c);
      assert a[k] == b[k];
    }
  }

  predicate Within(after: map<Token, CodeRecord>, before: map<Token, CodeRecord>) {
    forall c | c in after :: c in before && before[c] == after[c]
  }

  /** A table keeps its meaning when its rows are old ones or are justified by the longer history. */
  lemma TablesGrow(w: World, v: World)
    requires TablesOk(w) && w.log <= v.log
    requires forall f | f in v.flows :: f in w.flows || Ever(v.log, Started(f))
    requires forall p | p in v.pendings :: p in w.pendings || PageOk(v.log, p)
    requires forall c | c in v.consents :: c in w.consents || Ever(v.log, Consented(c.0, c.1))
    requires Within(v.appCodes, w.appCodes) && Within(v.oidcCodes, w.oidcCodes)
    requires forall c | c in v.appCodes || c in v.oidcCodes :: !Ever(v.log, Redeemed(c))
    ensures TablesOk(v)
  {
    var a, b := w.log, v.log;
    forall e | Happened(a, |a|, e) ensures Happened(b, |b|, e) { HappenedMono(a, b, |a|, |b|, e); }
    forall p | p in v.pendings ensures PageOk(b, p) {
      if p in w.pendings { assert PageOk(a, p); }
    }
    forall c | c in v.appCodes ensures CodeOk(b, c, v.appCodes[c]) { assert CodeOk(a, c, w.appCodes[c]); }
    forall c | c in v.oidcCodes ensures CodeOk(b, c, v.oidcCodes[c]) { assert CodeOk(a, c, w.oidcCodes[c]); }
  }

  lemma Stored(w: World, code: Token)
    requires TablesOk(w)
    ensures code in w.appCodes ==> CodeOk(w.log, code, w.appCodes[code]) && code !in w.oidcCodes
    ensures code in w.oidcCodes ==> CodeOk(w.log, code, w.oidcCodes[code]) && code !in w.appCodes
    ensures code in w.appCodes || code in w.oidcCodes ==> !Ever(w.log, Redeemed(code))
  {
  }

  lemma ConsentedBefore(w: World, sub: Subject, deployment: Deployment)
    requires TablesOk(w) && (sub, deployment) in w.consents
    ensures Ever(w.log, Consented(sub, deployment))
  {
  }

  lemma TablesInsert(w: World, v: World, code: Token, rec: CodeRecord)
    requires TablesOk(w) && CodeOk(w.log, code, rec) && code !in w.appCodes && code !in w.oidcCodes
    requires v == w.(appCodes := w.appCodes[code := rec]) || v == w.(oidcCodes := w.oidcCodes[code := rec])
    ensures TablesOk(v)
  {
    hide CodeOk, Ever, Known;
  }

  lemma RequestsGrow(w: World, v: World, p: Pid)
    requires Inv(w) && w.log <= v.log && p in v.requests && v.requests == w.requests[p := v.requests[p]]
    requires RequestOk(v.log, v.requests[p])
    ensures forall q | q in v.requests :: RequestOk(v.log, v.requests[q])
  {
    forall q | q in v.requests && q != p ensures RequestOk(v.log, v.requests[q]) {
      RequestMono(w.log, v.log, w.requests[q]);
    }
  }

  // ---------- Every step keeps it ----------

  lemma LoggedStep(w: World, v: World, p: Pid, e: Entry)
    requires Inv(w) && v.log == w.log + [e]
    requires e.Started? || e.Authenticated? || e.Resolved? || e.Allowed? || e.Consented? || e.Admitted?
    requires e.Authenticated? ==> Ever(w.log, Started(e.flow))
    requires e.Consented? ==> exists k | 0 <= k < |w.log| :: AllowedBy(w.log[k], e.sub, e.deployment)
    requires e.Allowed? ==> !e.flow.promptNone
    requires v.pendings == w.pendings && v.appCodes == w.appCodes && v.oidcCodes == w.oidcCodes
    requires forall f | f in v.flows :: f in w.flows || e == Started(f)
    requires forall c | c in v.consents :: c in w.consents || e == Consented(c.0, c.1)
    requires v.requests == w.requests || (p in v.requests && v.requests == w.requests[p := v.requests[p]])
    requires v.requests == w.requests || RequestOk(v.log, v.requests[p])
    ensures Inv(v)
  {
    hide LogOk, RequestOk, TablesOk;
    PlainEntry(w.log, e);
    forall c | c in v.appCodes || c in v.oidcCodes ensures !Ever(v.log, Redeemed(c)) { Stored(w, c); }
    TablesGrow(w, v);
    if v.requests == w.requests {
      forall q | q in v.requests ensures RequestOk(v.log, v.requests[q]) { RequestMono(w.log, v.log, w.requests[q]); }
    } else {
      RequestsGrow(w, v, p);
    }
  }

  lemma QuietStep(w: World, v: World, p: Pid)
    requires Inv(w) && v.log == w.log && v.flows == w.flows && v.consents <= w.consents
    requires forall q | q in v.pendings :: q in w.pendings || PageOk(w.log, q)
    requires Within(v.appCodes, w.appCodes) && Within(v.oidcCodes, w.oidcCodes)
    requires v.requests == w.requests || (p in v.requests && v.requests == w.requests[p := v.requests[p]])
    requires v.requests == w.requests || RequestOk(w.log, v.requests[p])
    ensures Inv(v)
  {
    hide LogOk, RequestOk;
    forall c | c in v.appCodes || c in v.oidcCodes ensures !Ever(v.log, Redeemed(c)) {
      assert c in v.appCodes ==> CodeOk(w.log, c, w.appCodes[c]);
      assert c in v.oidcCodes ==> CodeOk(w.log, c, w.oidcCodes[c]);
    }
    TablesGrow(w, v);
  }

  lemma ResolveStep(w: World, p: Pid)
    requires Inv(w) && Enabled(w, Resolve(p))
    ensures Inv(AfterResolve(w, p))
  {
    hide LogOk, Happened, TablesOk, Find;
    var v := AfterResolve(w, p);
    var r := w.requests[p];
    assert RequestOk(w.log, r);
    var target := if r.FormToResolve? then r.pending.flow.target else r.flow.target;
    var found := Find(w, target);
    if found.None? {
      QuietStep(w, v, p);
    } else {
      var e := Resolved(target, found.value);
      PlainEntry(w.log, e);
      if r.ToFind? {
        HappenedMono(w.log, v.log, |w.log|, |v.log|, Started(r.flow));
      } else {
        var flow, id := if r.ToResolve? then r.flow else r.pending.flow, if r.ToResolve? then r.id else r.pending.id;
        IssuableMono(w.log, v.log, |w.log|, |v.log|, flow, id, found.value);
      }
      LoggedStep(w, v, p, e);
    }
  }

  lemma BindStep(w: World, p: Pid, ok: bool)
    requires Inv(w) && Enabled(w, BindEntry(p, ok))
    ensures Inv(AfterBind(w, p, ok))
  {
    hide LogOk, Happened, TablesOk;
    var v := AfterBind(w, p, ok);
    var r := w.requests[p];
    assert RequestOk(w.log, r);
    if r.served.listed && ok {
      var e := Admitted(r.served.deployment, r.id);
      PlainEntry(w.log, e);
      IssuableMono(w.log, v.log, |w.log|, |v.log|, r.flow, r.id, r.served);
      LoggedStep(w, v, p, e);
    } else {
      QuietStep(w, v, p);
    }
  }

  lemma AllowedBefore(log: seq<Entry>, p: Pending)
    requires Given(log, |log|, p)
    ensures exists k | 0 <= k < |log| :: AllowedBy(log[k], p.id.sub, p.deployment)
  {
    var k :| 0 <= k < |log| && log[k] == Allowed(p.flow, p.id, p.deployment);
    assert AllowedBy(log[k], p.id.sub, p.deployment);
  }

  lemma FormStep(w: World, p: Pid, pending: Pending, allow: bool)
    requires Inv(w) && Enabled(w, Form(p, pending, allow))
    ensures Inv(Effect(w, Form(p, pending, allow)))
  {
    hide LogOk, Happened, TablesOk;
    var v := Effect(w, Form(p, pending, allow));
    if allow {
      PendingKnown(w, pending);
      var e := Allowed(pending.flow, pending.id, pending.deployment);
      PlainEntry(w.log, e);
      IssuableMono(w.log, v.log, |w.log|, |v.log|, pending.flow, pending.id, Served(pending.deployment, false));
      LoggedStep(w, v, p, e);
    } else {
      QuietStep(w, v, p);
    }
  }

  lemma PendingKnown(w: World, pending: Pending)
    requires TablesOk(w) && pending in w.pendings
    ensures PageOk(w.log, pending)
  {
  }

  lemma RecordStep(w: World, p: Pid)
    requires Inv(w) && Enabled(w, RecordConsent(p))
    ensures Inv(Effect(w, RecordConsent(p)))
  {
    hide LogOk, Happened, TablesOk;
    var v := Effect(w, RecordConsent(p));
    var r := w.requests[p];
    assert RequestOk(w.log, r);
    var e := Consented(r.pending.id.sub, r.served.deployment);
    AllowedBefore(w.log, r.pending);
    PlainEntry(w.log, e);
    IssuableMono(w.log, v.log, |w.log|, |v.log|, r.pending.flow, r.pending.id, r.served);
    LoggedStep(w, v, p, e);
  }

  lemma ExchangeStep(w: World, p: Pid, id: Identity)
    requires Inv(w) && Enabled(w, Exchange(p, id))
    ensures Inv(Effect(w, Exchange(p, id)))
  {
    hide LogOk, Happened, TablesOk;
    var v := Effect(w, Exchange(p, id));
    var flow := w.requests[p].flow;
    assert RequestOk(w.log, w.requests[p]);
    PlainEntry(w.log, Authenticated(flow, id));
    HappenedMono(w.log, v.log, |w.log|, |v.log|, Started(flow));
    var found := w.requests[p].found;
    if found.Some? { HappenedMono(w.log, v.log, |w.log|, |v.log|, Resolved(flow.target, found.value)); }
    LoggedStep(w, v, p, Authenticated(flow, id));
  }

  lemma LookUpStep(w: World, p: Pid)
    requires Inv(w) && Enabled(w, LookUpConsent(p))
    ensures Inv(AfterLookUp(w, p))
  {
    hide LogOk, Happened, TablesOk, Known;
    var r := w.requests[p];
    assert RequestOk(w.log, r);
    var v := AfterLookUp(w, p);
    if (r.id.sub, r.served.deployment) in w.consents {
      ConsentedBefore(w, r.id.sub, r.served.deployment);
    }
    assert RequestOk(v.log, v.requests[p]);
    assert v.pendings <= w.pendings + {Pending(r.flow, r.id, r.served.deployment)};
    QuietStep(w, v, p);
  }

  lemma InsertTables(w: World, v: World, code: Token, rec: CodeRecord)
    requires TablesOk(w) && NewCode(w, code) && w.log <= v.log && CodeOk(v.log, code, rec)
    requires forall c | Ever(v.log, Redeemed(c)) :: Ever(w.log, Redeemed(c))
    requires v.flows == w.flows && v.pendings == w.pendings && v.consents == w.consents
    requires (v.appCodes == w.appCodes[code := rec] && v.oidcCodes == w.oidcCodes)
             || (v.appCodes == w.appCodes && v.oidcCodes == w.oidcCodes[code := rec])
    ensures TablesOk(v)
  {
    hide Known, TablesOk, CodeOk, Ever;
    forall c | c in w.appCodes || c in w.oidcCodes ensures !Ever(v.log, Redeemed(c)) { Stored(w, c); }
    var u := v.(appCodes := w.appCodes, oidcCodes := w.oidcCodes);
    TablesGrow(w, u);
    TablesInsert(u, v, code, rec);
  }

  lemma InsertStep(w: World, p: Pid, code: Token)
    requires Inv(w) && Enabled(w, InsertCode(p, code))
    ensures Inv(AfterInsert(w, p, code))
  {
    hide LogOk, Happened, Known, Issuable, TablesOk, CodeOk, Ever;
    var v := AfterInsert(w, p, code);
    var r := w.requests[p];
    assert RequestOk(w.log, r);
    var rec := CodeRecord(r.flow, r.id, r.served, w.now + CODE_TTL);
    IssuedEntry(w.log, code, rec);
    InsertTables(w, v, code, rec);
    RequestsGrow(w, v, p);
  }

  /** A burnt code leaves the other codes as they were. */
  lemma BurntTables(w: World, v: World, code: Token)
    requires TablesOk(w) && w.log <= v.log
    requires v.flows == w.flows && v.pendings == w.pendings && v.consents == w.consents
    requires v.appCodes == w.appCodes - {code} && v.oidcCodes == w.oidcCodes - {code}
    requires forall c | Ever(v.log, Redeemed(c)) :: c == code || Ever(w.log, Redeemed(c))
    ensures TablesOk(v)
  {
    forall c | c in v.appCodes || c in v.oidcCodes ensures !Ever(v.log, Redeemed(c)) {
      assert c in w.appCodes ==> CodeOk(w.log, c, w.appCodes[c]);
      assert c in w.oidcCodes ==> CodeOk(w.log, c, w.oidcCodes[c]);
    }
    TablesGrow(w, v);
  }

  lemma CallbackStep(w: World, host: Host, code: Token, nonces: seq<Token>)
    requires Inv(w)
    ensures Inv(AfterCallback(w, host, code, nonces))
  {
    hide LogOk, Happened, TablesOk, RequestOk;
    if code in w.appCodes {
      Stored(w, code);
      var v := AfterCallback(w, host, code, nonces);
      var rec := w.appCodes[code];
      RedeemedEntry(w.log, code, rec);
      if |v.log| == |w.log| + 2 {
        CashedEntry(w.log, code, rec, v.log[|w.log| + 1]);
      }
      assert w.oidcCodes - {code} == w.oidcCodes;
      BurntTables(w, v, code);
      forall q | q in v.requests ensures RequestOk(v.log, v.requests[q]) { RequestMono(w.log, v.log, w.requests[q]); }
    }
  }

  lemma RedeemStep(w: World, client: Deployment, uri: Uri, code: Token, verifier: Option<Token>, admitted: bool)
    requires Inv(w)
    ensures Inv(AfterRedeem(w, client, uri, code, verifier, admitted))
  {
    hide LogOk, Happened, TablesOk, RequestOk;
    if code in w.oidcCodes {
      Stored(w, code);
      var v := AfterRedeem(w, client, uri, code, verifier, admitted);
      var rec := w.oidcCodes[code];
      RedeemedEntry(w.log, code, rec);
      if |v.log| == |w.log| + 2 {
        CashedEntry(w.log, code, rec, v.log[|w.log| + 1]);
      }
      assert w.appCodes - {code} == w.appCodes;
      BurntTables(w, v, code);
      forall q | q in v.requests ensures RequestOk(v.log, v.requests[q]) { RequestMono(w.log, v.log, w.requests[q]); }
    }
  }

  lemma InvStep(w: World, e: Event, w': World)
    requires Inv(w) && Step(w, e, w')
    ensures Inv(w')
  {
    hide RequestOk, LogOk;
    var v := Effect(w, e);
    assert Inv(v) by {
      match e
      case Start(flow) => LoggedStep(w, v, 0, Started(flow));
      case Exchange(p, id) => ExchangeStep(w, p, id);
      case Resolve(p) => ResolveStep(w, p);
      case LookUpConsent(p) => LookUpStep(w, p);
      case RecordConsent(p) => RecordStep(w, p);
      case BindEntry(p, ok) => BindStep(w, p, ok);
      case InsertCode(p, code) => InsertStep(w, p, code);
      case Callback(host, code, nonces) => CallbackStep(w, host, code, nonces);
      case Redeem(client, uri, code, verifier, admitted) => RedeemStep(w, client, uri, code, verifier, admitted);
      case CheckList(p, ok) => CheckStep(w, p, ok);
      case Form(p, pending, allow) => FormStep(w, p, pending, allow);
      case _ => OtherStep(w, e);
    }
  }

  lemma CheckStep(w: World, p: Pid, ok: bool)
    requires Inv(w) && Enabled(w, CheckList(p, ok))
    ensures Inv(AfterList(w, p, ok))
  {
    hide LogOk, Happened, TablesOk;
    assert RequestOk(w.log, w.requests[p]);
    QuietStep(w, AfterList(w, p, ok), p);
  }

  lemma OtherStep(w: World, e: Event)
    requires Inv(w) && Enabled(w, e) && (e.Return? || e.Fail? || e.PurgeCodes? || e.Change?)
    ensures Inv(Effect(w, e))
  {
    hide LogOk, Happened;
    var p := if e.Return? || e.Fail? then e.p else 0;
    QuietStep(w, Effect(w, e), p);
  }

  lemma {:induction false} Reached(ws: seq<World>, es: seq<Event>, n: nat)
    requires Run(ws, es) && n < |ws|
    ensures Inv(ws[n])
  {
    if n > 0 {
      Reached(ws, es, n - 1);
      assert Step(ws[n - 1], es[n - 1], ws[n]);
      InvStep(ws[n - 1], es[n - 1], ws[n]);
    }
  }

  // ---------- Where sessions and ID tokens come from ----------

  /** Entry `i` issued the code and entry `r` burnt it, each the only one to; all that must precede the issue did. */
  ghost predicate Backed(log: seq<Entry>, i: nat, r: nat, code: Token)
    requires i < r < |log|
  {
    && log[i].Issued? && log[i].code == code && log[r] == Redeemed(code)
    && (forall k | 0 <= k < |log| && log[k].Issued? && log[k].code == code :: k == i)
    && (forall k | 0 <= k < |log| && log[k] == Redeemed(code) :: k == r)
    && (exists a | 0 <= a < i ::
         log[a] == Authenticated(log[i].flow, log[i].id) && Happened(log, a, Started(log[i].flow)))
    && Happened(log, i, Resolved(log[i].flow.target, log[i].served))
    && Happened(log, i, Consented(log[i].id.sub, log[i].served.deployment))
    && (log[i].flow.forceConsent ==> Happened(log, i, Allowed(log[i].flow, log[i].id, log[i].served.deployment)))
    && (log[i].served.listed ==> Happened(log, i, Admitted(log[i].served.deployment, log[i].id)))
  }

  lemma OnceOnly(log: seq<Entry>, k: nat, j: nat)
    requires LogOk(log) && k < |log| && j < |log|
    ensures log[k].Issued? && log[j].Issued? && log[k].code == log[j].code ==> k == j
    ensures log[k].Redeemed? && log[j].Redeemed? && log[k].code == log[j].code ==> k == j
    ensures log[k].Session? && log[j].Session? && log[k].code == log[j].code ==> k == j
    ensures log[k].IDToken? && log[j].IDToken? && log[k].code == log[j].code ==> k == j
  {
    if k < j { assert Once(log, k, j); }
    if j < k { assert Once(log, j, k); }
  }

  lemma RedeemedIsBacked(log: seq<Entry>, i: nat, r: nat, code: Token)
    requires LogOk(log) && r < |log| && i < |log|
    requires log[i].Issued? && log[i].code == code && log[r] == Redeemed(code)
    ensures i < r && Backed(log, i, r, code)
  {
    forall k | 0 <= k < |log| && log[k].Issued? && log[k].code == code ensures k == i {
      OnceOnly(log, k, i);
    }
    forall k | 0 <= k < |log| && log[k] == Redeemed(code) ensures k == r {
      OnceOnly(log, k, r);
    }
    assert EntryOk(log, r);
    assert EntryOk(log, i);
    var a :| 0 <= a < i && log[a] == Authenticated(log[i].flow, log[i].id);
    assert EntryOk(log, a);
  }

  /** What an entry says is so at the step that logs it, and of the request that step answers. */
  ghost predicate TrueEntry(w: World, e: Event, v: World, x: Entry) {
    match x
    case Started(flow) => e == Start(flow)
    case Authenticated(flow, id) => e.Exchange? && e.id == id
    case Resolved(target, served) => Find(w, target) == Some(served)
    case Allowed(flow, id, deployment) => e.Form? && e.allow && e.pending == Pending(flow, id, deployment)
    case Consented(sub, deployment) => (sub, deployment) in v.consents && |v.log| == |w.log| + 1
    case Admitted(deployment, id) =>
      && e.BindEntry? && e.ok && e.p in w.requests && w.requests[e.p].ToBind?
      && w.requests[e.p].id == id && w.requests[e.p].served.deployment == deployment
    case Session(host, _, _, code, nonce, at) =>
      e.Callback? && e.host == host && e.code == code && nonce in e.nonces && at == w.now
    case IDToken(client, _, uri, code, verifier, at) => e == Redeem(client, uri, code, verifier, true) && at == w.now
    case Issued(code, flow, id, served, at) =>
      && e.InsertCode? && e.code == code && at == w.now
      && e.p in w.requests && w.requests[e.p] == ToInsert(flow, id, served)
    case Redeemed(code) => (e.Callback? || e.Redeem?) && e.code == code
  }

  /** The history only grew, and what was added to it is true. */
  ghost predicate TrueNews(w: World, e: Event, v: World) {
    w.log <= v.log && forall k | |w.log| <= k < |v.log| :: TrueEntry(w, e, v, v.log[k])
  }

  lemma RequestNews(w: World, e: Event)
    requires Enabled(w, e) && !e.Callback? && !e.Redeem? && !e.Start? && !e.InsertCode?
    ensures TrueNews(w, e, Effect(w, e))
  {
    hide Find, NewCode, Unexpired;
  }

  lemma InsertNews(w: World, p: Pid, code: Token)
    requires Enabled(w, InsertCode(p, code))
    ensures TrueNews(w, InsertCode(p, code), AfterInsert(w, p, code))
  {
  }

  lemma CallbackNews(w: World, host: Host, code: Token, nonces: seq<Token>)
    ensures TrueNews(w, Callback(host, code, nonces), AfterCallback(w, host, code, nonces))
  {
  }

  lemma RedeemNews(w: World, client: Deployment, uri: Uri, code: Token, verifier: Option<Token>, admitted: bool)
    ensures var e := Redeem(client, uri, code, verifier, admitted);
      TrueNews(w, e, AfterRedeem(w, client, uri, code, verifier, admitted))
  {
    hide ProofMatches;
  }

  lemma StepLogs(w: World, e: Event, w': World)
    requires Step(w, e, w')
    ensures TrueNews(w, e, w')
  {
    hide Find, NewCode, Enabled, AfterCallback, AfterRedeem, AfterResolve, AfterInsert, AfterBind, AfterLookUp;
    match e
    case Start(_) =>
    case Callback(host, code, nonces) => CallbackNews(w, host, code, nonces);
    case Redeem(client, uri, code, verifier, admitted) => RedeemNews(w, client, uri, code, verifier, admitted);
    case InsertCode(p, code) => InsertNews(w, p, code);
    case _ => RequestNews(w, e);
  }

  /** Step `m` of the run logged entry `k`, which was then true. */
  ghost predicate LoggedAt(ws: seq<World>, es: seq<Event>, m: nat, k: nat, x: Entry) {
    && m < |es| && m + 1 < |ws| && |ws[m].log| <= k < |ws[m + 1].log| && ws[m + 1].log[k] == x
    && TrueEntry(ws[m], es[m], ws[m + 1], x)
  }

  /** The history is true: every entry was logged by some step of the run, of which it says what happened. */
  lemma {:induction false} LoggedTruly(ws: seq<World>, es: seq<Event>, n: nat, k: nat)
    requires Run(ws, es) && n < |ws| && k < |ws[n].log|
    ensures exists m | 0 <= m < n :: LoggedAt(ws, es, m, k, ws[n].log[k])
  {
    hide Find, Step, TrueEntry;
    assert n > 0;
    assert Step(ws[n - 1], es[n - 1], ws[n]);
    StepLogs(ws[n - 1], es[n - 1], ws[n]);
    if k < |ws[n - 1].log| {
      LoggedTruly(ws, es, n - 1, k);
      var m :| 0 <= m < n - 1 && LoggedAt(ws, es, m, k, ws[n - 1].log[k]);
      assert LoggedAt(ws, es, m, k, ws[n].log[k]);
    } else {
      assert LoggedAt(ws, es, n - 1, k, ws[n].log[k]);
    }
  }

  /** Before entry `i` was logged, the platform's records had `served` for the target. */
  ghost predicate FoundBefore(ws: seq<World>, i: nat, target: Target, served: Served) {
    exists m | 0 <= m < |ws| && |ws[m].log| <= i :: Find(ws[m], target) == Some(served)
  }

  /** Before entry `i` was logged, the consent was on record. */
  ghost predicate RecordedBefore(ws: seq<World>, i: nat, sub: Subject, deployment: Deployment) {
    exists m | 0 <= m < |ws| && |ws[m].log| <= i :: (sub, deployment) in ws[m].consents
  }

  /** What the log says had been found and recorded before an issue had been. */
  lemma IssueWasTrue(ws: seq<World>, es: seq<Event>, n: nat, i: nat, r: nat, code: Token)
    requires Run(ws, es) && n < |ws| && i < r < |ws[n].log| && Backed(ws[n].log, i, r, code)
    ensures var x := ws[n].log[i];
      && FoundBefore(ws, i, x.flow.target, x.served)
      && RecordedBefore(ws, i, x.id.sub, x.served.deployment)
  {
    hide Find;
    var log := ws[n].log;
    var found := Resolved(log[i].flow.target, log[i].served);
    var k :| 0 <= k < i && log[k] == found;
    LoggedTruly(ws, es, n, k);
    var m :| 0 <= m < n && LoggedAt(ws, es, m, k, found);
    var recorded := Consented(log[i].id.sub, log[i].served.deployment);
    var l :| 0 <= l < i && log[l] == recorded;
    LoggedTruly(ws, es, n, l);
    var o :| 0 <= o < n && LoggedAt(ws, es, o, l, recorded);
    assert (recorded.sub, recorded.deployment) in ws[o + 1].consents && |ws[o + 1].log| <= i;
  }

  /** Before entry `i` was logged, the client was on record with this redirect URI, and a list or none. */
  ghost predicate RegisteredBefore(ws: seq<World>, i: nat, client: Deployment, uri: Uri, listed: bool) {
    exists m | 0 <= m < |ws| && |ws[m].log| <= i ::
      client in ws[m].clients && uri in ws[m].clients[client].redirects && ws[m].clients[client].listed == listed
  }

  lemma FoundIsClient(ws: seq<World>, i: nat, target: Target, served: Served)
    requires target.Client? && FoundBefore(ws, i, target, served)
    ensures served.deployment == target.client
    ensures RegisteredBefore(ws, i, target.client, target.redirectURI, served.listed)
  {
  }

  /** A client is found by the record it has now, whatever the challenge. */
  lemma ClientFoundExactly(w: World, client: Deployment, uri: Uri, challenge: Option<Digest>)
    ensures var found := Find(w, Client(client, uri, challenge));
      if client in w.clients && uri in w.clients[client].redirects then
        found.Some? && found.value.deployment == client && found.value.listed == w.clients[client].listed
      else found.None?
  {
  }

  /** Step `m` sealed session `j`, for a callback to its host that presented its code and, in a cookie, its nonce. */
  ghost predicate Presented(ws: seq<World>, es: seq<Event>, m: nat, j: nat, s: Entry)
    requires s.Session?
  {
    && m < |es| && m + 1 < |ws| && |ws[m].log| <= j < |ws[m + 1].log| && s.at == ws[m].now
    && es[m].Callback? && es[m].host == s.host && es[m].code == s.code && s.nonce in es[m].nonces
  }

  /**
   Every session comes from exactly one code. It was sealed for a callback to this host that presented the code and held
   the nonce. The code was issued, less than a minute before, for this host, account and Keycloak session, for a flow
   started with the digest of that nonce; Keycloak had authenticated the account for that flow, the host had resolved to
   a deployment, the account's consent to that deployment was on record, and a listed deployment had admitted the
   account. The code was burnt once, and gave no other session.
   */
  lemma SessionProvenance(ws: seq<World>, es: seq<Event>, n: nat, j: nat)
    requires Run(ws, es) && n < |ws| && j < |ws[n].log| && ws[n].log[j].Session?
    ensures exists m | 0 <= m < n :: Presented(ws, es, m, j, ws[n].log[j])
    ensures var log := ws[n].log; var s := log[j];
      && (forall k | 0 <= k < |log| && log[k].Session? && log[k].code == s.code :: k == j)
      && exists i, r | 0 <= i < r < j ::
           && Backed(log, i, r, s.code)
           && log[i].flow.target == App(s.host, Digest(s.nonce))
           && log[i].id.sub == s.sub && log[i].id.keycloakSID == s.keycloakSID && s.at < log[i].at + CODE_TTL
           && FoundBefore(ws, i, log[i].flow.target, log[i].served)
           && RecordedBefore(ws, i, s.sub, log[i].served.deployment)
  {
    hide Find, FoundBefore, RecordedBefore, Backed;
    Reached(ws, es, n);
    var log := ws[n].log;
    var s := log[j];
    assert EntryOk(log, j);
    forall k | 0 <= k < |log| && log[k].Session? && log[k].code == s.code ensures k == j {
      OnceOnly(log, k, j);
    }
    var i :| 0 <= i < j && IssuedFor(log[i], s.code, s.sub, s.keycloakSID, App(s.host, Digest(s.nonce)), s.at);
    var r :| 0 <= r < j && log[r] == Redeemed(s.code);
    RedeemedIsBacked(log, i, r, s.code);
    IssueWasTrue(ws, es, n, i, r, s.code);
    LoggedTruly(ws, es, n, j);
    var m :| 0 <= m < n && LoggedAt(ws, es, m, j, s);
    assert Presented(ws, es, m, j, s);
  }

  /** Step `m` gave ID token `j`, to its client presenting its code, redirect URI and verifier. */
  ghost predicate Asked(ws: seq<World>, es: seq<Event>, m: nat, j: nat, t: Entry)
    requires t.IDToken?
  {
    && m < |es| && m + 1 < |ws| && |ws[m].log| <= j < |ws[m + 1].log| && t.at == ws[m].now
    && es[m] == Redeem(t.client, t.redirectURI, t.code, t.verifier, true)
  }

  lemma TokenIsBacked(log: seq<Entry>, j: nat)
    requires LogOk(log) && j < |log| && log[j].IDToken?
    ensures var t := log[j];
      && (forall k | 0 <= k < |log| && log[k].IDToken? && log[k].code == t.code :: k == j)
      && exists i, r | 0 <= i < r < j ::
           && Backed(log, i, r, t.code)
           && IssuedToClient(log[i], t.code, t.client, t.sub, t.redirectURI, t.verifier, t.at)
  {
    hide Backed;
    var t := log[j];
    assert EntryOk(log, j);
    forall k | 0 <= k < |log| && log[k].IDToken? && log[k].code == t.code ensures k == j {
      OnceOnly(log, k, j);
    }
    var i :| 0 <= i < j && IssuedToClient(log[i], t.code, t.client, t.sub, t.redirectURI, t.verifier, t.at);
    var r :| 0 <= r < j && log[r] == Redeemed(t.code);
    RedeemedIsBacked(log, i, r, t.code);
  }

  /**
   The OIDC twin (section 4.1.3 of RFC 6749, section 4.6 of RFC 7636): every ID token comes from exactly one code, which
   its client presented with the redirect URI and a verifier. The code was issued, less than a minute before, to this
   client and account for this redirect URI, then registered, and the verifier answers the challenge the flow started
   with; a flow without a challenge is redeemed without a verifier.
   */
  lemma IDTokenProvenance(ws: seq<World>, es: seq<Event>, n: nat, j: nat)
    requires Run(ws, es) && n < |ws| && j < |ws[n].log| && ws[n].log[j].IDToken?
    ensures exists m | 0 <= m < n :: Asked(ws, es, m, j, ws[n].log[j])
    ensures var log := ws[n].log; var t := log[j];
      && (forall k | 0 <= k < |log| && log[k].IDToken? && log[k].code == t.code :: k == j)
      && exists i, r | 0 <= i < r < j ::
           && Backed(log, i, r, t.code)
           && IssuedToClient(log[i], t.code, t.client, t.sub, t.redirectURI, t.verifier, t.at)
           && RegisteredBefore(ws, i, t.client, t.redirectURI, log[i].served.listed)
           && RecordedBefore(ws, i, t.sub, t.client)
           && log[i].served.deployment == t.client
           && var challenge := log[i].flow.target.challenge;
              && (challenge.Some? ==> t.verifier.Some? && Digest(t.verifier.value) == challenge.value)
              && (challenge.None? ==> t.verifier.None?)
  {
    hide Find, FoundBefore, RegisteredBefore, RecordedBefore, Backed, LogOk;
    Reached(ws, es, n);
    var log := ws[n].log;
    var t := log[j];
    TokenIsBacked(log, j);
    var i, r :| 0 <= i < r < j && Backed(log, i, r, t.code)
                && IssuedToClient(log[i], t.code, t.client, t.sub, t.redirectURI, t.verifier, t.at);
    IssueWasTrue(ws, es, n, i, r, t.code);
    FoundIsClient(ws, i, log[i].flow.target, log[i].served);
    LoggedTruly(ws, es, n, j);
    var m :| 0 <= m < n && LoggedAt(ws, es, m, j, t);
    assert Asked(ws, es, m, j, t);
  }

  /** A client that asked for no prompt is never answered by way of a consent page. */
  lemma NoPromptMeansNone(ws: seq<World>, es: seq<Event>, n: nat, j: nat)
    requires Run(ws, es) && n < |ws| && j < |ws[n].log| && ws[n].log[j].Allowed?
    ensures !ws[n].log[j].flow.promptNone
  {
    Reached(ws, es, n);
    assert EntryOk(ws[n].log, j);
  }

  /** Consent is only ever recorded for the account that gave it, on a page about that very deployment. */
  lemma ConsentWasGiven(ws: seq<World>, es: seq<Event>, n: nat, j: nat)
    requires Run(ws, es) && n < |ws| && j < |ws[n].log| && ws[n].log[j].Consented?
    ensures exists k | 0 <= k < j :: AllowedBy(ws[n].log[k], ws[n].log[j].sub, ws[n].log[j].deployment)
  {
    Reached(ws, es, n);
    assert EntryOk(ws[n].log, j);
  }

  // ---------- A good code is good for a session ----------

  lemma CodeStays(w: World, e: Event, w': World, code: Token)
    requires Step(w, e, w') && code in w.appCodes && w.now <= w.appCodes[code].expires
    requires !(e.Callback? && e.code == code)
    ensures w.now <= w'.now && code in w'.appCodes && w'.appCodes[code] == w.appCodes[code]
  {
    hide Find, AfterResolve, AfterList, AfterLookUp, AfterBind, HasNonce, ProofMatches, Resolving;
  }

  lemma {:induction false} CodeKept(ws: seq<World>, es: seq<Event>, i: nat, n: nat, code: Token)
    requires Run(ws, es) && i <= n < |ws| && code in ws[i].appCodes && ws[n].now <= ws[i].appCodes[code].expires
    requires forall m | i <= m < n :: !(es[m].Callback? && es[m].code == code)
    ensures code in ws[n].appCodes && ws[n].appCodes[code] == ws[i].appCodes[code]
  {
    hide Step;
    if i < n {
      RunStep(ws, es, n - 1);
      CodeKept(ws, es, i, n - 1, code);
      CodeStays(ws[n - 1], es[n - 1], ws[n], code);
    }
  }

  lemma RunStep(ws: seq<World>, es: seq<Event>, n: nat)
    requires Run(ws, es) && n < |es|
    ensures Step(ws[n], es[n], ws[n + 1]) && ws[n].now <= ws[n + 1].now
  {
  }

  /**
   A stored code gives its session at the first callback to present it, whatever else happened since, if that comes
   before the code expires, at its host, from a browser that holds the nonce.
   */
  lemma FreshCodeRedeems(
    ws: seq<World>, es: seq<Event>, i: nat, n: nat, code: Token, host: Host, nonces: seq<Token>, nonce: Token)
    requires Run(ws, es) && i <= n < |es| && es[n] == Callback(host, code, nonces) && nonce in nonces
    requires code in ws[i].appCodes && ws[i].appCodes[code].flow.target == App(host, Digest(nonce))
    requires ws[n].now < ws[i].appCodes[code].expires
    requires forall m | i <= m < n :: !(es[m].Callback? && es[m].code == code)
    ensures var log, id := ws[n + 1].log, ws[i].appCodes[code].id;
      log == ws[n].log + [Redeemed(code), Session(host, id.sub, id.keycloakSID, code, nonce, ws[n].now)]
  {
    CodeKept(ws, es, i, n, code);
    RunStep(ws, es, n);
    var k :| 0 <= k < |nonces| && nonces[k] == nonce;
    assert HasNonce(nonces, Digest(nonce));
  }

  lemma OIDCCodeStays(w: World, e: Event, w': World, code: Token)
    requires Step(w, e, w') && code in w.oidcCodes && w.now <= w.oidcCodes[code].expires
    requires !(e.Redeem? && e.code == code)
    ensures w.now <= w'.now && code in w'.oidcCodes && w'.oidcCodes[code] == w.oidcCodes[code]
  {
    hide Find, AfterResolve, AfterList, AfterLookUp, AfterBind, HasNonce, ProofMatches, Resolving;
  }

  lemma {:induction false} OIDCCodeKept(ws: seq<World>, es: seq<Event>, i: nat, n: nat, code: Token)
    requires Run(ws, es) && i <= n < |ws| && code in ws[i].oidcCodes && ws[n].now <= ws[i].oidcCodes[code].expires
    requires forall m | i <= m < n :: !(es[m].Redeem? && es[m].code == code)
    ensures code in ws[n].oidcCodes && ws[n].oidcCodes[code] == ws[i].oidcCodes[code]
  {
    hide Step;
    if i < n {
      RunStep(ws, es, n - 1);
      OIDCCodeKept(ws, es, i, n - 1, code);
      OIDCCodeStays(ws[n - 1], es[n - 1], ws[n], code);
    }
  }

  /**
   And a client's code gives its ID token at the first request to present it, in time, by that client, with its redirect
   URI, for an account still admitted, and with the verifier of the challenge, or none if there was none.
   */
  lemma FreshOIDCCodeRedeems(
    ws: seq<World>, es: seq<Event>, i: nat, n: nat, code: Token, client: Deployment, uri: Uri,
    challenge: Option<Digest>, verifier: Option<Token>)
    requires Run(ws, es) && i <= n < |es| && es[n] == Redeem(client, uri, code, verifier, true)
    requires code in ws[i].oidcCodes && ws[i].oidcCodes[code].flow.target == Client(client, uri, challenge)
    requires ws[n].now < ws[i].oidcCodes[code].expires
    requires if verifier.Some? then challenge == Some(Digest(verifier.value)) else challenge == None
    requires forall m | i <= m < n :: !(es[m].Redeem? && es[m].code == code)
    ensures ws[n + 1].log == ws[n].log +
      [Redeemed(code), IDToken(client, ws[i].oidcCodes[code].id.sub, uri, code, verifier, ws[n].now)]
  {
    OIDCCodeKept(ws, es, i, n, code);
    RunStep(ws, es, n);
  }

  /** A code is stored for its own kind of target, and stays good for a minute. */
  lemma InsertStores(w: World, p: Pid, code: Token, w': World)
    requires Step(w, InsertCode(p, code), w')
    ensures var r := w.requests[p];
      var codes := if r.flow.target.App? then w'.appCodes else w'.oidcCodes;
      && code in codes && codes[code].flow == r.flow && codes[code].id == r.id
      && codes[code].expires == w.now + 60_000_000_000
  {
  }

  /** Purging leaves just the codes still good. */
  lemma PurgeLeavesTheGood(w: World, w': World, code: Token)
    requires Step(w, PurgeCodes, w')
    ensures code in w'.appCodes <==> code in w.appCodes && w.now <= w.appCodes[code].expires
    ensures code in w'.oidcCodes <==> code in w.oidcCodes && w.now <= w.oidcCodes[code].expires
  {
  }

  /** A flow that was started can be come back to, by any request. */
  lemma StartedCanReturn(w: World, flow: Flow, w': World, p: Pid)
    requires Step(w, Start(flow), w') && p !in w.requests
    ensures Enabled(w', Return(p, flow)) && w'.log == w.log + [Started(flow)]
  {
    hide Find;
  }

  // ---------- A sign-in that nothing stands in the way of ----------

  /** `w'` is what `e` makes of `w` if it can happen there at all. */
  ghost predicate Tries(w: World, e: Event, w': World) {
    Enabled(w, e) ==> Step(w, e, w')
  }

  ghost predicate Waits(w: World, p: Pid, r: Request) {
    p in w.requests && w.requests[p] == r
  }

  /** An app's flow meets Keycloak before its host is looked up. */
  lemma AuthenticatedForApp(
    w: World, p: Pid, flow: Flow, id: Identity, served: Served, w1: World, w2: World, w3: World)
    requires p !in w.requests && flow in w.flows && flow.target.App? && id.keycloakSID != ""
    requires Tries(w, Return(p, flow), w1) && Tries(w1, Exchange(p, id), w2) && Tries(w2, Resolve(p), w3)
    requires Find(w2, flow.target) == Some(served)
    ensures Waits(w3, p, ToAdmit(flow, id, served))
    ensures w3.log == w.log + [Authenticated(flow, id), Resolved(flow.target, served)]
  {
    hide Find;
  }

  /** A client's flow does so after. */
  lemma AuthenticatedForClient(
    w: World, p: Pid, flow: Flow, id: Identity, served: Served, w1: World, w2: World, w3: World)
    requires p !in w.requests && flow in w.flows && flow.target.Client? && id.keycloakSID != ""
    requires Tries(w, Return(p, flow), w1) && Tries(w1, Resolve(p), w2) && Tries(w2, Exchange(p, id), w3)
    requires Find(w1, flow.target) == Some(served)
    ensures Waits(w3, p, ToAdmit(flow, id, served))
    ensures w3.log == w.log + [Resolved(flow.target, served), Authenticated(flow, id)]
  {
    hide Find;
  }

  /** What the list says counts only where there is one. */
  lemma PassesList(w: World, p: Pid, ok: bool, w': World)
    requires p in w.requests && (w.requests[p].ToAdmit? || w.requests[p].FormToAdmit?)
    requires Tries(w, CheckList(p, ok), w') && (w.requests[p].served.listed ==> ok)
    ensures var r := w.requests[p];
      && w'.consents == w.consents && w'.log == w.log
      && Waits(w', p, if r.ToAdmit? then ToLookUpConsent(r.flow, r.id, r.served) else FormToRecord(r.pending, r.served))
  {
  }

  lemma BindsAndStores(
    w: World, p: Pid, flow: Flow, id: Identity, served: Served, ok: bool, w1: World, code: Token, w2: World)
    requires Waits(w, p, ToBind(flow, id, served)) && (served.listed ==> ok)
    requires Tries(w, BindEntry(p, ok), w1) && Tries(w1, InsertCode(p, code), w2) && NewCode(w1, code)
    ensures w2.log == w.log + (if served.listed then [Admitted(served.deployment, id)] else [])
                      + [Issued(code, flow, id, served, w1.now)]
    ensures w2.consents == w.consents && code in if flow.target.App? then w2.appCodes else w2.oidcCodes
  {
  }

  /**
   With its target found, the account authenticated, the list, if any, saying yes twice and consent on record for a flow
   that does not ask for it afresh, a sign-in that nothing interrupts takes each of its steps and ends with its code
   stored. `first` and `second` are the list's answers.
   */
  lemma SmoothSignInGetsItsCode(
    ws: seq<World>, p: Pid, flow: Flow, id: Identity, served: Served, first: bool, second: bool, code: Token)
    requires |ws| == 8 && p !in ws[0].requests && flow in ws[0].flows && id.keycloakSID != "" && NewCode(ws[6], code)
    requires var app := flow.target.App?;
      && Tries(ws[0], Return(p, flow), ws[1])
      && Tries(ws[1], if app then Exchange(p, id) else Resolve(p), ws[2])
      && Tries(ws[2], if app then Resolve(p) else Exchange(p, id), ws[3])
      && Find(ws[if app then 2 else 1], flow.target) == Some(served)
    requires Tries(ws[3], CheckList(p, first), ws[4]) && Tries(ws[4], LookUpConsent(p), ws[5])
    requires Tries(ws[5], BindEntry(p, second), ws[6]) && Tries(ws[6], InsertCode(p, code), ws[7])
    requires (id.sub, served.deployment) in ws[4].consents && !flow.forceConsent
    requires served.listed ==> first && second
    ensures ws[7].log == ws[0].log
              + (if flow.target.App? then [Authenticated(flow, id), Resolved(flow.target, served)]
                 else [Resolved(flow.target, served), Authenticated(flow, id)])
              + (if served.listed then [Admitted(served.deployment, id)] else [])
              + [Issued(code, flow, id, served, ws[6].now)]
    ensures code in if flow.target.App? then ws[7].appCodes else ws[7].oidcCodes
  {
    hide Find, Tries, NewCode;
    if flow.target.App? {
      AuthenticatedForApp(ws[0], p, flow, id, served, ws[1], ws[2], ws[3]);
    } else {
      AuthenticatedForClient(ws[0], p, flow, id, served, ws[1], ws[2], ws[3]);
    }
    PassesList(ws[3], p, first, ws[4]);
    AskedForConsent(ws[4], p, ws[5]);
    BindsAndStores(ws[5], p, flow, id, served, second, ws[6], code, ws[7]);
  }

  /** A refusal by the list, whenever it is asked, ends the request, and so does a target not found, or another's. */
  lemma RefusalsEndIt(w: World, e: Event, w': World, p: Pid)
    requires Step(w, e, w') && p in w.requests
    requires || ((e == CheckList(p, false) || e == BindEntry(p, false)) && w.requests[p].served.listed)
             || (e == Resolve(p) && w.requests[p].FormToResolve?
                 && var found := Find(w, w.requests[p].pending.flow.target);
                    found.None? || found.value.deployment != w.requests[p].pending.deployment)
             || (e == Resolve(p) && !w.requests[p].FormToResolve? && Find(w, w.requests[p].flow.target).None?)
    ensures Waits(w', p, Over) && w'.appCodes == w.appCodes && w'.oidcCodes == w.oidcCodes
    ensures w'.consents == w.consents && w'.pendings == w.pendings
  {
    hide Find;
  }

  /** Without consent on record, or for a flow that asks afresh, a page asks for it, if one may be shown. */
  lemma AskedForConsent(w: World, p: Pid, w': World)
    requires p in w.requests && w.requests[p].ToLookUpConsent? && Tries(w, LookUpConsent(p), w')
    ensures var r := w.requests[p];
      var asks := r.flow.forceConsent || (r.id.sub, r.served.deployment) !in w.consents;
      && (Pending(r.flow, r.id, r.served.deployment) in w'.pendings <==>
           (asks && !r.flow.promptNone) || Pending(r.flow, r.id, r.served.deployment) in w.pendings)
      && p in w'.requests && (w'.requests[p] == ToBind(r.flow, r.id, r.served) <==> !asks) && w'.log == w.log
      && w.pendings <= w'.pendings && w'.consents == w.consents
  {
  }

  /** Allowed there, with the same app found again, the sign-in ends with its consent recorded and its code stored. */
  lemma AllowedSignInGetsItsCode(
    ws: seq<World>, p: Pid, pending: Pending, served: Served, first: bool, second: bool, code: Token)
    requires |ws| == 7 && p !in ws[0].requests && pending in ws[0].pendings && pending.id.keycloakSID != ""
    requires Tries(ws[0], Form(p, pending, true), ws[1]) && Tries(ws[1], Resolve(p), ws[2])
    requires Tries(ws[2], CheckList(p, first), ws[3]) && Tries(ws[3], RecordConsent(p), ws[4])
    requires Tries(ws[4], BindEntry(p, second), ws[5]) && Tries(ws[5], InsertCode(p, code), ws[6])
    requires Find(ws[1], pending.flow.target) == Some(served) && served.deployment == pending.deployment
    requires NewCode(ws[5], code) && (served.listed ==> first && second)
    ensures var flow, id := pending.flow, pending.id;
      && ws[6].log == ws[0].log + [Allowed(flow, id, served.deployment), Resolved(flow.target, served),
                                   Consented(id.sub, served.deployment)]
                      + (if served.listed then [Admitted(served.deployment, id)] else [])
                      + [Issued(code, flow, id, served, ws[5].now)]
      && (id.sub, served.deployment) in ws[6].consents
      && code in if flow.target.App? then ws[6].appCodes else ws[6].oidcCodes
  {
    hide Find, Tries, NewCode;
    AllowedForm(ws[0], p, pending, served, ws[1], ws[2]);
    PassesList(ws[2], p, first, ws[3]);
    RecordsConsent(ws[3], p, ws[4]);
    BindsAndStores(ws[4], p, pending.flow, pending.id, served, second, ws[5], code, ws[6]);
  }

  lemma AllowedForm(w: World, p: Pid, pending: Pending, served: Served, w1: World, w2: World)
    requires p !in w.requests && pending in w.pendings && pending.id.keycloakSID != ""
    requires Tries(w, Form(p, pending, true), w1) && Tries(w1, Resolve(p), w2)
    requires Find(w1, pending.flow.target) == Some(served) && served.deployment == pending.deployment
    ensures Waits(w2, p, FormToAdmit(pending, served))
    ensures w2.log == w.log +
      [Allowed(pending.flow, pending.id, pending.deployment), Resolved(pending.flow.target, served)]
  {
    hide Find;
  }

  lemma RecordsConsent(w: World, p: Pid, w': World)
    requires p in w.requests && w.requests[p].FormToRecord? && Tries(w, RecordConsent(p), w')
    ensures var r := w.requests[p];
      && Waits(w', p, ToBind(r.pending.flow, r.pending.id, r.served))
      && w'.log == w.log + [Consented(r.pending.id.sub, r.served.deployment)]
      && w'.consents == w.consents + {(r.pending.id.sub, r.served.deployment)}
  {
  }

  /** A host is served by its own app, or else, as a preview of it, by that of a name under the tenant domain. */
  lemma HeaderAppExactly(w: World, host: Host, served: Served)
    ensures HeaderApp(w, host) == Some(served) <==>
      if host in w.apps then w.apps[host] == served
      else
        && w.tenantDomain != ""
        && exists name ::
             && name != "" && '.' !in name && Fold(host) == "preview-" + name + "." + Fold(w.tenantDomain)
             && name + "." + Fold(w.tenantDomain) in w.apps && w.apps[name + "." + Fold(w.tenantDomain)] == served
  {
    if host !in w.apps {
      var base := PreviewBase(host, w.tenantDomain);
      if base.Some? { PreviewsExactly(host, w.tenantDomain, base.value); }
      if name :| name != "" && '.' !in name && Fold(host) == "preview-" + name + "." + Fold(w.tenantDomain)
                 && w.tenantDomain != "" && name + "." + Fold(w.tenantDomain) in w.apps
                 && w.apps[name + "." + Fold(w.tenantDomain)] == served {
        PreviewsExactly(host, w.tenantDomain, name + "." + Fold(w.tenantDomain));
      }
    }
  }
}
