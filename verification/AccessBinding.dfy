/**
 How an entry of a listed deployment's access list comes to belong to one person.

 `AccessTable` is the table of entries with its SQL statements. Sign-ins run concurrently: `Run` interleaves the
 database statements of any number of them with each other and with whatever the platform does to deployments and
 entries.
 */
module AccessBinding {
  import opened Options
  import opened Access

  type Deployment = string

  // ---------- The table ----------

  datatype Row = Row(deployment: Deployment, email: string, subject: Option<string>)

  type Rows = map<Id, Row>

  predicate Holds(rows: Rows, d: Deployment, sub: string) {
    exists id | id in rows :: rows[id].deployment == d && rows[id].subject == Some(sub)
  }

  predicate CanBind(rows: Rows, id: Id, sub: string) {
    id in rows && rows[id].subject.None? && !Holds(rows, rows[id].deployment, sub)
  }

  function Bound(rows: Rows, id: Id, sub: string): Rows {
    if CanBind(rows, id, sub) then rows[id := rows[id].(subject := Some(sub))] else rows
  }

  ghost predicate Unique(rows: Rows) {
    && (forall i, j | i in rows && j in rows && i != j && rows[i].deployment == rows[j].deployment ::
          rows[i].subject.None? || rows[i].subject != rows[j].subject)
    && (forall i, j | i in rows && j in rows && i != j && rows[i].deployment == rows[j].deployment ::
          rows[i].email != rows[j].email)
  }

  function ReadSubject(s: Option<string>): string {
    if s.Some? then s.value else ""
  }

  /** `entries` is what selecting a deployment's rows returns, in whatever order. */
  ghost predicate Selects(rows: Rows, d: Deployment, entries: seq<Entry>) {
    && (forall i | 0 <= i < |entries| ::
          && entries[i].id in rows && rows[entries[i].id].deployment == d
          && entries[i] == Entry(entries[i].id, rows[entries[i].id].email, ReadSubject(rows[entries[i].id].subject)))
    && (forall id | id in rows && rows[id].deployment == d :: exists i | 0 <= i < |entries| :: entries[i].id == id)
  }

  class AccessTable {
    var rows: Rows

    /** One UPDATE of an unbound row; the unique index on deployment and subject turns a duplicate into no update. */
    method BindEntry(id: Id, sub: string) returns (bound: bool)
      requires Unique(rows)
      modifies this
      ensures Unique(rows)
      ensures bound == CanBind(old(rows), id, sub)
      ensures rows == Bound(old(rows), id, sub)
    {
      BoundUnique(rows, id, sub);
      if id !in rows || rows[id].subject.Some? {
        return false;
      }
      if exists other | other in rows ::
           rows[other].deployment == rows[id].deployment && rows[other].subject == Some(sub) {
        return false;
      }
      rows := rows[id := rows[id].(subject := Some(sub))];
      return true;
    }
  }

  lemma BoundUnique(rows: Rows, id: Id, sub: string)
    requires Unique(rows)
    ensures Unique(Bound(rows, id, sub))
  {
  }

  // ---------- Concurrent sign-ins ----------

  /** Where a call of `admitted` has got to. The list is read in two statements, the owner and then the entries. */
  datatype Phase =
    | ToReadOwner(again: bool)
    | ToReadEntries(owner: Owner, again: bool)
    | ToBind(id: Id)
    | Answered(ok: bool)
    | Failed

  /** `witnessed` records, for the theorem only, that the identity was admissible at some moment of the call. */
  datatype Call = Call(deployment: Deployment, sub: string, email: string, bind: bool, phase: Phase, witnessed: bool)

  type Pid = nat

  datatype World = World(owners: map<Deployment, Owner>, rows: Rows, used: set<Id>, calls: map<Pid, Call>)

  datatype Event =
    | Begin(p: Pid, c: Call)
    | ReadOwner(p: Pid)
    | ReadEntries(p: Pid, entries: seq<Entry>)
    | Bind(p: Pid)
    | Fail(p: Pid)
    | Add(id: Id, row: Row)
    | Remove(id: Id)
    | SetOwner(d: Deployment, owner: Owner)
    | Drop(d: Deployment)

  /** The owner rule admits the identity, or an entry of the deployment carries its subject. */
  predicate Admissible(owners: map<Deployment, Owner>, rows: Rows, c: Call) {
    || (c.deployment in owners && OwnerRule(owners[c.deployment], c.sub, c.email))
    || Holds(rows, c.deployment, c.sub)
  }

  function Witness(owners: map<Deployment, Owner>, rows: Rows, c: Call): Call {
    c.(witnessed := c.witnessed || Admissible(owners, rows, c))
  }

  function Witnessed(w: World): World {
    w.(calls := map p | p in w.calls :: Witness(w.owners, w.rows, w.calls[p]))
  }

  function Decided(c: Call, a: Admission, again: bool): Phase {
    if again then Answered(a.ok && a.bind.None?)
    else if !a.ok || !c.bind || a.bind.None? then Answered(a.ok)
    else ToBind(a.bind.value)
  }

  function At(w: World, p: Pid, phase: Phase): World
    requires p in w.calls
  {
    w.(calls := w.calls[p := w.calls[p].(phase := phase)])
  }

  ghost predicate Enabled(w: World, e: Event) {
    match e
    case Begin(p, c) => p !in w.calls && c.phase == ToReadOwner(false) && !c.witnessed
    case ReadOwner(p) => p in w.calls && w.calls[p].phase.ToReadOwner?
    case ReadEntries(p, entries) =>
      p in w.calls && w.calls[p].phase.ToReadEntries? && Selects(w.rows, w.calls[p].deployment, entries)
    case Bind(p) => p in w.calls && w.calls[p].phase.ToBind?
    case Fail(p) => p in w.calls && !w.calls[p].phase.Answered?
    case Add(id, row) =>
      && id !in w.used && row.subject.None?
      && forall i | i in w.rows :: !(w.rows[i].deployment == row.deployment && w.rows[i].email == row.email)
    case Remove(id) => true
    case SetOwner(_, _) => true
    case Drop(_) => true
  }

  function Without(rows: Rows, d: Deployment): Rows {
    map id | id in rows && rows[id].deployment != d :: rows[id]
  }

  function Effect(w: World, e: Event): World
    requires Enabled(w, e)
  {
    match e
    case Begin(p, c) => w.(calls := w.calls[p := c])
    case ReadOwner(p) =>
      var c := w.calls[p];
      At(w, p, if c.deployment in w.owners then ToReadEntries(w.owners[c.deployment], c.phase.again) else Failed)
    case ReadEntries(p, entries) =>
      var c := w.calls[p];
      At(w, p, Decided(c, Admit(c.phase.owner, entries, c.sub, c.email), c.phase.again))
    case Bind(p) =>
      var c := w.calls[p];
      var id := c.phase.id;
      At(w.(rows := Bound(w.rows, id, c.sub)), p,
         if CanBind(w.rows, id, c.sub) then Answered(true) else ToReadOwner(true))
    case Fail(p) => At(w, p, Failed)
    case Add(id, row) => w.(rows := w.rows[id := row], used := w.used + {id})
    case Remove(id) => w.(rows := w.rows - {id})
    case SetOwner(d, owner) => w.(owners := w.owners[d := owner])
    case Drop(d) => w.(owners := w.owners - {d}, rows := Without(w.rows, d))
  }

  ghost predicate Step(w: World, e: Event, w': World) {
    Enabled(w, e) && w' == Witnessed(Effect(w, e))
  }

  ghost predicate Run(ws: seq<World>, es: seq<Event>) {
    && |ws| == |es| + 1
    && ws[0] == World(ws[0].owners, map[], {}, map[])
    && forall i | 0 <= i < |es| :: Step(ws[i], es[i], ws[i + 1])
  }

  // ---------- What every step keeps ----------

  ghost predicate CallOk(rows: Rows, used: set<Id>, c: Call) {
    match c.phase
    case ToReadOwner(_) => true
    case ToReadEntries(owner, _) => OwnerRule(owner, c.sub, c.email) ==> c.witnessed
    case ToBind(id) => c.bind && id in used && (id in rows ==> rows[id].deployment == c.deployment)
    case Answered(ok) => ok && c.bind ==> c.witnessed
    case Failed => true
  }

  ghost predicate Inv(w: World) {
    && Unique(w.rows)
    && w.rows.Keys <= w.used
    && forall p | p in w.calls :: CallOk(w.rows, w.used, w.calls[p])
  }

  /** An entry read as bound to a subject is one; an entry read as open belongs to the deployment. */
  lemma ReadEntry(rows: Rows, d: Deployment, entries: seq<Entry>, o: Owner, sub: string, email: string)
    requires Selects(rows, d, entries)
    ensures BoundTo(entries, sub) ==> Holds(rows, d, sub)
    ensures var a := Admit(o, entries, sub, email);
      a.bind.Some? ==> a.bind.value in rows && rows[a.bind.value].deployment == d
  {
    if BoundTo(entries, sub) {
      var i :| 0 <= i < |entries| && entries[i].subject == sub;
      assert rows[entries[i].id].subject == Some(sub);
    }
  }

  lemma CallStep(w: World, e: Event, w': World, p: Pid)
    requires Inv(w) && Step(w, e, w') && p in w'.calls
    ensures CallOk(w'.rows, w'.used, w'.calls[p])
  {
    hide Unique;
    if p in w.calls {
      var c := w.calls[p];
      match e {
        case ReadEntries(q, entries) =>
          if p == q {
            ReadEntry(w.rows, c.deployment, entries, c.phase.owner, c.sub, c.email);
          }
        case Bind(q) =>
          if p == q && CanBind(w.rows, c.phase.id, c.sub) {
            assert w'.rows[c.phase.id].subject == Some(c.sub);
          }
        case _ =>
      }
    }
  }

  lemma RowsStep(w: World, e: Event, w': World)
    requires Inv(w) && Step(w, e, w')
    ensures Unique(w'.rows) && w'.rows.Keys <= w'.used
  {
    if e.Bind? {
      BoundUnique(w.rows, w.calls[e.p].phase.id, w.calls[e.p].sub);
    }
  }

  lemma InvStep(w: World, e: Event, w': World)
    requires Inv(w) && Step(w, e, w')
    ensures Inv(w')
  {
    RowsStep(w, e, w');
    forall p | p in w'.calls
      ensures CallOk(w'.rows, w'.used, w'.calls[p])
    {
      CallStep(w, e, w', p);
    }
  }

  lemma {:induction false} Reached(ws: seq<World>, es: seq<Event>, n: nat)
    requires Run(ws, es) && n < |ws|
    ensures Inv(ws[n])
  {
    if n > 0 {
      Reached(ws, es, n - 1);
      InvStep(ws[n - 1], es[n - 1], ws[n]);
    }
  }

  lemma CallKept(w: World, e: Event, w': World, p: Pid)
    requires Step(w, e, w') && p in w'.calls
    ensures p in w.calls ==>
      var c, c' := w.calls[p], w'.calls[p];
      && c'.deployment == c.deployment && c'.sub == c.sub && c'.email == c.email && c'.bind == c.bind
      && (c'.witnessed ==> c.witnessed || Admissible(w'.owners, w'.rows, c'))
    ensures p !in w.calls ==> w'.calls[p].witnessed ==> Admissible(w'.owners, w'.rows, w'.calls[p])
  {
  }

  lemma {:induction false} WitnessMoment(ws: seq<World>, es: seq<Event>, n: nat, p: Pid)
    returns (k: nat)
    requires Run(ws, es) && n < |ws| && p in ws[n].calls && ws[n].calls[p].witnessed
    ensures k <= n && p in ws[k].calls && Admissible(ws[k].owners, ws[k].rows, ws[n].calls[p])
  {
    CallKept(ws[n - 1], es[n - 1], ws[n], p);
    if Admissible(ws[n].owners, ws[n].rows, ws[n].calls[p]) {
      k := n;
    } else {
      k := WitnessMoment(ws, es, n - 1, p);
    }
  }

  /**
   A binding sign-in is admitted only if, at some moment while it ran, the owner rule admitted its identity or an
   entry carried its subject: however sign-ins race for an entry and whatever the platform does to the list.
   */
  lemma AdmittedWasAdmissible(ws: seq<World>, es: seq<Event>, n: nat, p: Pid)
    returns (k: nat)
    requires Run(ws, es) && n < |ws|
    requires p in ws[n].calls && ws[n].calls[p].bind && ws[n].calls[p].phase == Answered(true)
    ensures k <= n && p in ws[k].calls && Admissible(ws[k].owners, ws[k].rows, ws[n].calls[p])
  {
    Reached(ws, es, n);
    k := WitnessMoment(ws, es, n, p);
  }

  /** At every moment, no subject holds two entries of one deployment. */
  lemma OneEntryEach(ws: seq<World>, es: seq<Event>, n: nat, i: Id, j: Id)
    requires Run(ws, es) && n < |ws| && i in ws[n].rows && j in ws[n].rows
    requires ws[n].rows[i].deployment == ws[n].rows[j].deployment
    requires ws[n].rows[i].subject.Some? && ws[n].rows[i].subject == ws[n].rows[j].subject
    ensures i == j
  {
    Reached(ws, es, n);
  }

  lemma BoundStays(w: World, e: Event, w': World, id: Id)
    requires Inv(w) && Step(w, e, w')
    ensures id in w.used ==> id in w'.used
    ensures id in w.used && id !in w.rows ==> id !in w'.rows
    ensures id in w.rows && w.rows[id].subject.Some? && id in w'.rows ==> w'.rows[id] == w.rows[id]
  {
  }

  lemma {:induction false} BoundForGood(ws: seq<World>, es: seq<Event>, m: nat, n: nat, id: Id)
    requires Run(ws, es) && m <= n < |ws| && id in ws[m].rows && ws[m].rows[id].subject.Some?
    ensures id in ws[n].used && (id in ws[n].rows ==> ws[n].rows[id] == ws[m].rows[id])
  {
    Reached(ws, es, m);
    if m < n {
      BoundForGood(ws, es, m, n - 1, id);
      Reached(ws, es, n - 1);
      BoundStays(ws[n - 1], es[n - 1], ws[n], id);
    }
  }

  /** Over a whole run an entry carries at most one subject, so two subjects racing for it never both win by it. */
  lemma OneSubjectEver(ws: seq<World>, es: seq<Event>, m: nat, n: nat, id: Id)
    requires Run(ws, es) && m < |ws| && n < |ws| && id in ws[m].rows && id in ws[n].rows
    requires ws[m].rows[id].subject.Some? && ws[n].rows[id].subject.Some?
    ensures ws[m].rows[id].subject == ws[n].rows[id].subject
  {
    if m <= n {
      BoundForGood(ws, es, m, n, id);
    } else {
      BoundForGood(ws, es, n, m, id);
    }
  }

  ghost predicate Wins(w: World, e: Event, id: Id) {
    e.Bind? && e.p in w.calls && w.calls[e.p].phase == ToBind(id) && CanBind(w.rows, id, w.calls[e.p].sub)
  }

  /** At most one binding of an entry ever succeeds. */
  lemma OneWinner(ws: seq<World>, es: seq<Event>, i: nat, j: nat, id: Id)
    requires Run(ws, es) && i < j < |es| && Wins(ws[i], es[i], id)
    ensures !Wins(ws[j], es[j], id)
  {
    assert Step(ws[i], es[i], ws[i + 1]);
    assert ws[i + 1].rows[id].subject.Some?;
    BoundForGood(ws, es, i + 1, j, id);
  }

  // ---------- A sign-in alone ----------

  /** A row waits for this address, with nobody bound to it. */
  predicate RowWaits(rows: Rows, id: Id, d: Deployment, email: string) {
    id in rows && rows[id].deployment == d && rows[id].subject.None? && email != "" && EqualFold(rows[id].email, email)
  }

  /** The list names the account by its subject, or its owner, not yet known by one, by address. */
  predicate Recognised(w: World, c: Call)
    requires c.deployment in w.owners
  {
    var o := w.owners[c.deployment];
    || (c.sub != "" && c.sub == o.subject)
    || (o.subject == "" && c.email != "" && EqualFold(c.email, o.email))
    || Holds(w.rows, c.deployment, c.sub)
  }

  lemma SelectedNames(rows: Rows, d: Deployment, entries: seq<Entry>, sub: string, email: string)
    requires Selects(rows, d, entries) && sub != "" && forall id | id in rows :: rows[id].subject != Some("")
    ensures (exists i | 0 <= i < |entries| :: entries[i].subject == sub) <==> Holds(rows, d, sub)
    ensures (exists i | 0 <= i < |entries| :: Waits(entries[i], email)) <==> exists id :: RowWaits(rows, id, d, email)
    ensures forall i | 0 <= i < |entries| && Waits(entries[i], email) :: RowWaits(rows, entries[i].id, d, email)
  {
    if id :| id in rows && rows[id].deployment == d && rows[id].subject == Some(sub) {
      var i :| 0 <= i < |entries| && entries[i].id == id;
      assert entries[i].subject == sub;
    }
    if i :| 0 <= i < |entries| && entries[i].subject == sub {
      assert rows[entries[i].id].subject == Some(sub);
    }
    if id :| RowWaits(rows, id, d, email) {
      var i :| 0 <= i < |entries| && entries[i].id == id;
      assert Waits(entries[i], email);
    }
    if i :| 0 <= i < |entries| && Waits(entries[i], email) {
      assert RowWaits(rows, entries[i].id, d, email);
    }
  }

  /**
   A call that nothing interrupts is answered by the list as it stands: yes if the list recognises the account, else by
   whether an entry waits for its address, which a call that binds is then to be bound to. The second time round, after
   losing its entry, only being recognised will do.
   */
  lemma LoneCallIsAnswered(w: World, p: Pid, again: bool, w1: World, entries: seq<Entry>, w2: World)
    requires p in w.calls && w.calls[p].phase == ToReadOwner(again) && w.calls[p].sub != ""
    requires w.calls[p].deployment in w.owners && forall id | id in w.rows :: w.rows[id].subject != Some("")
    requires Step(w, ReadOwner(p), w1) && Selects(w.rows, w.calls[p].deployment, entries)
    requires Enabled(w1, ReadEntries(p, entries)) ==> Step(w1, ReadEntries(p, entries), w2)
    ensures p in w2.calls && w2.rows == w.rows
    ensures var c, phase := w.calls[p], w2.calls[p].phase;
      if Recognised(w, c) then phase == Answered(true)
      else if !again && exists id :: RowWaits(w.rows, id, c.deployment, c.email)
           then if c.bind then phase.ToBind? && RowWaits(w.rows, phase.id, c.deployment, c.email)
                else phase == Answered(true)
      else phase == Answered(false)
  {
    hide Admit;
    var c := w.calls[p];
    AdmitExactly(w.owners[c.deployment], entries, c.sub, c.email);
    SelectedNames(w.rows, c.deployment, entries, c.sub, c.email);
    FirstWaits(w.owners[c.deployment], entries, c.sub, c.email);
  }

  /** A deployment that is gone admits nobody. */
  lemma NoOwnerNoAnswer(w: World, p: Pid, w': World)
    requires Step(w, ReadOwner(p), w') && w.calls[p].deployment !in w.owners
    ensures p in w'.calls && w'.calls[p].phase == Failed
  {
  }

  /** One whose entry is gone or bound, or whose subject holds another by then, looks at the list once more. */
  lemma LosersLookAgain(w: World, p: Pid, w': World)
    requires Step(w, Bind(p), w')
    ensures var c, id := w.calls[p], w.calls[p].phase.id;
      && p in w'.calls
      && (w'.calls[p].phase == ToReadOwner(true) || w'.calls[p].phase == Answered(true))
      && (w'.calls[p].phase == ToReadOwner(true) <==>
            id !in w.rows || w.rows[id].subject.Some? || Holds(w.rows, w.rows[id].deployment, c.sub))
      && (w'.calls[p].phase == ToReadOwner(true) ==> w'.rows == w.rows)
  {
  }

  /** What is to be bound is an entry that waits. */
  lemma FirstWaits(o: Owner, entries: seq<Entry>, sub: string, email: string)
    ensures var bind := Admit(o, entries, sub, email).bind;
      bind.Some? ==> exists i | 0 <= i < |entries| :: entries[i].id == bind.value && Waits(entries[i], email)
  {
  }

  /** Going on alone, it gets that entry: the row carries its subject from then on, and nothing else has changed. */
  lemma LoneSignInIsBound(w: World, p: Pid, w': World)
    requires Step(w, Bind(p), w') && RowWaits(w.rows, w.calls[p].phase.id, w.calls[p].deployment, w.calls[p].email)
    requires !Holds(w.rows, w.calls[p].deployment, w.calls[p].sub)
    ensures var c, id := w.calls[p], w.calls[p].phase.id;
      && p in w'.calls && w'.calls[p].phase == Answered(true) && w'.rows.Keys == w.rows.Keys
      && w'.rows[id] == Row(c.deployment, w.rows[id].email, Some(c.sub))
      && forall other | other in w.rows && other != id :: w'.rows[other] == w.rows[other]
  {
  }
}
