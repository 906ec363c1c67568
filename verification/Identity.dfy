/**
 Who a request comes from: the record bound to its Keycloak subject, else an unbound record holding its address, which
 the subject then adopts, else a new record. Each resolution is atomic.
 */
module Identity {
  import opened Access
  import opened Numerals
  import opened Options

  type UserId = nat

  datatype User = User(email: string, subject: Option<string>, live: bool)

  datatype Table = Table(users: map<UserId, User>, next: UserId)

  predicate HasSubject(t: Table, id: UserId, subject: string) {
    id in t.users && t.users[id].live && t.users[id].subject == Some(subject)
  }

  predicate HasEmail(t: Table, id: UserId, email: string) {
    id in t.users && t.users[id].live && Fold(t.users[id].email) == email
  }

  ghost function BySubject(t: Table, subject: string): (r: Option<UserId>)
    ensures r.Some? ==> HasSubject(t, r.value, subject)
    ensures r.None? ==> forall id :: !HasSubject(t, id, subject)
  {
    if exists id :: HasSubject(t, id, subject) then (var id :| HasSubject(t, id, subject); Some(id)) else None
  }

  ghost function ByEmail(t: Table, email: string): (r: Option<UserId>)
    ensures r.Some? ==> HasEmail(t, r.value, email)
    ensures r.None? ==> forall id :: !HasEmail(t, id, email)
  {
    if exists id :: HasEmail(t, id, email) then (var id :| HasEmail(t, id, email); Some(id)) else None
  }

  /** The two partial unique indexes, over live records. */
  ghost predicate Valid(t: Table) {
    && (forall id | id in t.users :: id < t.next)
    && (forall a, b, email | HasEmail(t, a, email) && HasEmail(t, b, email) :: a == b)
    && (forall a, b, subject | HasSubject(t, a, subject) && HasSubject(t, b, subject) :: a == b)
  }

  function Added(t: Table, email: string, subject: Option<string>): Table {
    Table(t.users[t.next := User(email, subject, true)], t.next + 1)
  }

  /** None is a refusal, the address being another account's. */
  ghost function Resolve(t: Table, email: string, subject: Option<string>): (Table, Option<UserId>) {
    var own := if subject.Some? then BySubject(t, subject.value) else None;
    var holder := ByEmail(t, email);
    if own.Some? then
      var user := t.users[own.value];
      if Fold(user.email) == email then (t, own)
      else if holder.Some? then (t, None)
      else (t.(users := t.users[own.value := user.(email := email)]), own)
    else if holder.Some? then
      var user := t.users[holder.value];
      if subject.None? then (t, holder)
      else if user.subject.Some? then (t, None)
      else (t.(users := t.users[holder.value := user.(subject := subject)]), holder)
    else (Added(t, email, subject), Some(t.next))
  }

  /** The headers as the edge sends them: a blank subject is none. */
  function EmailOf(header: string): string {
    Fold(Trim(header))
  }

  function SubjectOf(header: Option<string>): Option<string> {
    if header.None? || Trim(header.value) == "" then None else Some(Trim(header.value))
  }

  datatype Answer = NotAuthenticated | AddressTaken | Caller(id: UserId)

  class UserTable {
    var users: map<UserId, User>
    var next: UserId

    ghost function View(): Table
      reads this
    {
      Table(users, next)
    }

    constructor ()
      ensures View() == Table(map[], 0) && Valid(View())
    {
      users, next := map[], 0;
    }

    method LiveBySubject(subject: string) returns (r: Option<UserId>)
      requires Valid(View())
      ensures r == BySubject(View(), subject)
    {
      var todo := users.Keys;
      r := None;
      while todo != {} && r.None?
        invariant r.None? ==> forall id | id in users.Keys - todo :: !HasSubject(View(), id, subject)
        invariant r.Some? ==> HasSubject(View(), r.value, subject)
      {
        var id :| id in todo;
        todo := todo - {id};
        if id in users && users[id].live && users[id].subject == Some(subject) {
          r := Some(id);
        }
      }
    }

    method LiveByEmail(email: string) returns (r: Option<UserId>)
      requires Valid(View())
      ensures r == ByEmail(View(), email)
    {
      var todo := users.Keys;
      r := None;
      while todo != {} && r.None?
        invariant r.None? ==> forall id | id in users.Keys - todo :: !HasEmail(View(), id, email)
        invariant r.Some? ==> HasEmail(View(), r.value, email)
      {
        var id :| id in todo;
        todo := todo - {id};
        if id in users && users[id].live && Fold(users[id].email) == email {
          r := Some(id);
        }
      }
    }

    method ResolveUser(email: string, subject: Option<string>) returns (r: Option<UserId>)
      requires Valid(View()) && Fold(email) == email
      modifies this
      ensures (View(), r) == Resolve(old(View()), email, subject)
      ensures Valid(View())
    {
      ResolveKeepsValid(View(), email, subject);
      if subject.Some? {
        var own := LiveBySubject(subject.value);
        if own.Some? {
          var user := users[own.value];
          if Fold(user.email) != email {
            var holder := LiveByEmail(email);
            if holder.Some? {
              return None;
            }
            users := users[own.value := user.(email := email)];
          }
          return own;
        }
      }
      var holder := LiveByEmail(email);
      if holder.Some? {
        var user := users[holder.value];
        if subject.None? {
          return holder;
        }
        if user.subject.Some? {
          return None;
        }
        users := users[holder.value := user.(subject := subject)];
        return holder;
      }
      r := Some(next);
      users := users[next := User(email, subject, true)];
      next := next + 1;
    }

    method GetCurrentUser(emailHeader: Option<string>, subjectHeader: Option<string>) returns (r: Answer)
      requires Valid(View())
      modifies this
      ensures Valid(View())
      ensures emailHeader.None? || emailHeader.value == "" ==> r == NotAuthenticated && View() == old(View())
      ensures emailHeader.Some? && emailHeader.value != "" ==>
                var (t, id) := Resolve(old(View()), EmailOf(emailHeader.value), SubjectOf(subjectHeader));
                View() == t && r == if id.Some? then Caller(id.value) else AddressTaken
    {
      if emailHeader.None? || emailHeader.value == "" {
        return NotAuthenticated;
      }
      FoldTwice(Trim(emailHeader.value));
      var id := ResolveUser(EmailOf(emailHeader.value), SubjectOf(subjectHeader));
      return if id.Some? then Caller(id.value) else AddressTaken;
    }
  }

  lemma FoldTwice(s: string)
    ensures Fold(Fold(s)) == Fold(s)
  {
  }

  lemma ResolveKeepsValid(t: Table, email: string, subject: Option<string>)
    requires Valid(t) && Fold(email) == email
    ensures Valid(Resolve(t, email, subject).0)
  {
    var v := Resolve(t, email, subject).0;
    forall a, b, s | HasSubject(v, a, s) && HasSubject(v, b, s) ensures a == b {
      assert HasSubject(t, a, s) || subject == Some(s);
      assert HasSubject(t, b, s) || subject == Some(s);
    }
    forall a, b, e | HasEmail(v, a, e) && HasEmail(v, b, e) ensures a == b {
      assert HasEmail(t, a, e) || e == email;
      assert HasEmail(t, b, e) || e == email;
    }
  }

  // ---------- Runs ----------

  /** `Create` is an account made for an address, which the index refuses when it is held; `Delete` is soft. */
  datatype Event = Request(email: string, subject: Option<string>) | Create(email: string) | Delete(id: UserId)

  ghost function After(t: Table, e: Event): Table {
    match e
    case Request(email, subject) => Resolve(t, Fold(email), subject).0
    case Create(email) => if ByEmail(t, Fold(email)).Some? then t else Added(t, email, None)
    case Delete(id) => if id in t.users then t.(users := t.users[id := t.users[id].(live := false)]) else t
  }

  /** Whom a request is answered with. */
  ghost function AnsweredWith(t: Table, e: Event): Option<UserId>
    requires e.Request?
  {
    Resolve(t, Fold(e.email), e.subject).1
  }

  ghost predicate Run(ts: seq<Table>, es: seq<Event>) {
    && |ts| == |es| + 1 && ts[0] == Table(map[], 0)
    && forall i | 0 <= i < |es| :: ts[i + 1] == After(ts[i], es[i])
  }

  lemma StepKeepsValid(t: Table, e: Event)
    requires Valid(t)
    ensures Valid(After(t, e))
  {
    var v := After(t, e);
    match e
    case Request(email, subject) =>
      FoldTwice(email);
      ResolveKeepsValid(t, Fold(email), subject);
    case Create(email) =>
      forall a, b, s | HasSubject(v, a, s) && HasSubject(v, b, s) ensures a == b {
        assert HasSubject(t, a, s) && HasSubject(t, b, s);
      }
      forall a, b, m | HasEmail(v, a, m) && HasEmail(v, b, m) ensures a == b {
        assert HasEmail(t, a, m) || m == Fold(email);
        assert HasEmail(t, b, m) || m == Fold(email);
      }
    case Delete(id) =>
      forall a, b, s | HasSubject(v, a, s) && HasSubject(v, b, s) ensures a == b {
        assert HasSubject(t, a, s) && HasSubject(t, b, s);
      }
      forall a, b, m | HasEmail(v, a, m) && HasEmail(v, b, m) ensures a == b {
        assert HasEmail(t, a, m) && HasEmail(t, b, m);
      }
  }

  /** Live records never share an address, in whatever case, nor a subject. */
  lemma {:induction false} AlwaysUnique(ts: seq<Table>, es: seq<Event>, n: nat)
    requires Run(ts, es) && n < |ts|
    ensures Valid(ts[n])
  {
    if n > 0 {
      AlwaysUnique(ts, es, n - 1);
      StepKeepsValid(ts[n - 1], es[n - 1]);
    }
  }

  /** A record once bound to a subject is bound to it for good, deleted or not. */
  lemma {:induction false} BoundForGood(ts: seq<Table>, es: seq<Event>, i: nat, j: nat, id: UserId)
    requires Run(ts, es) && i <= j < |ts| && id in ts[i].users && ts[i].users[id].subject.Some?
    ensures id in ts[j].users && ts[j].users[id].subject == ts[i].users[id].subject
  {
    if i < j {
      BoundForGood(ts, es, i, j - 1, id);
      AlwaysUnique(ts, es, j - 1);
      assert ts[j] == After(ts[j - 1], es[j - 1]);
    }
  }

  /**
   A request that carries a subject is answered with the one live record bound to it, at the address the request gave;
   before, that record was the subject's already, or nobody's, or was not there.
   */
  lemma OwnRecordOnly(ts: seq<Table>, es: seq<Event>, i: nat, subject: string)
    requires Run(ts, es) && i < |es| && es[i].Request? && es[i].subject == Some(subject)
    requires AnsweredWith(ts[i], es[i]).Some?
    ensures var id, after := AnsweredWith(ts[i], es[i]).value, ts[i + 1];
      && HasSubject(after, id, subject) && HasEmail(after, id, Fold(es[i].email))
      && (id in ts[i].users ==> ts[i].users[id].subject in {None, Some(subject)})
      && forall other | HasSubject(after, other, subject) :: other == id
  {
    AlwaysUnique(ts, es, i);
    AlwaysUnique(ts, es, i + 1);
    FoldTwice(es[i].email);
  }

  /** Whatever the address, every request answered for one subject gets one record, for as long as it lives. */
  lemma OneRecordPerSubject(ts: seq<Table>, es: seq<Event>, i: nat, j: nat, subject: string)
    requires Run(ts, es) && i <= j < |es| && es[i].Request? && es[j].Request?
    requires es[i].subject == es[j].subject == Some(subject)
    requires AnsweredWith(ts[i], es[i]).Some? && AnsweredWith(ts[j], es[j]).Some?
    requires forall k | i < k < j :: es[k] != Delete(AnsweredWith(ts[i], es[i]).value)
    ensures AnsweredWith(ts[i], es[i]) == AnsweredWith(ts[j], es[j])
  {
    OwnRecordOnly(ts, es, i, subject);
    OwnRecordOnly(ts, es, j, subject);
    var id := AnsweredWith(ts[i], es[i]).value;
    if i < j {
      StaysOwn(ts, es, i + 1, j, id, subject);
      AlwaysUnique(ts, es, j);
      StaysOwnStep(ts, es, j, id, subject);
    }
  }

  lemma StaysOwnStep(ts: seq<Table>, es: seq<Event>, k: nat, id: UserId, subject: string)
    requires Run(ts, es) && k < |es| && HasSubject(ts[k], id, subject) && es[k] != Delete(id)
    ensures HasSubject(ts[k + 1], id, subject)
  {
    AlwaysUnique(ts, es, k);
    assert ts[k + 1] == After(ts[k], es[k]);
  }

  lemma {:induction false} StaysOwn(ts: seq<Table>, es: seq<Event>, i: nat, j: nat, id: UserId, subject: string)
    requires Run(ts, es) && i <= j < |ts| && HasSubject(ts[i], id, subject)
    requires forall k | i <= k < j :: es[k] != Delete(id)
    ensures HasSubject(ts[j], id, subject)
    decreases j
  {
    if i < j {
      StaysOwn(ts, es, i, j - 1, id, subject);
      StaysOwnStep(ts, es, j - 1, id, subject);
    }
  }

  /**
   A request is refused exactly when it carries a subject and another account's live record holds its address, which it
   can be only if it is bound, or the subject has a record already.
   */
  lemma RefusedExactly(t: Table, email: string, subject: Option<string>)
    requires Valid(t)
    ensures Resolve(t, email, subject).1.None? <==>
      && subject.Some?
      && exists other ::
           && HasEmail(t, other, email) && t.users[other].subject != subject
           && (t.users[other].subject.Some? || exists own :: HasSubject(t, own, subject.value))
  {
    if subject.Some? {
      var own := BySubject(t, subject.value);
      var holder := ByEmail(t, email);
      if holder.Some? {
        assert HasEmail(t, holder.value, email);
        assert t.users[holder.value].subject == subject ==> HasSubject(t, holder.value, subject.value);
      }
      if own.Some? {
        assert HasEmail(t, own.value, email) <==> Fold(t.users[own.value].email) == email;
      }
    }
  }

  // ---------- What a request changes ----------

  /**
   A request changes at most the record it is answered with: that is then live and at the request's address, bound to
   the subject if the request has one; a refusal changes nothing.
   */
  lemma ChangesOnlyItsOwn(t: Table, email: string, subject: Option<string>)
    requires Valid(t) && Fold(email) == email
    ensures var (v, r) := Resolve(t, email, subject);
      && (r.None? ==> v == t)
      && (r.Some? ==>
           && HasEmail(v, r.value, email) && (subject.Some? ==> HasSubject(v, r.value, subject.value))
           && v.users.Keys == t.users.Keys + {r.value}
           && (forall other | other in t.users && other != r.value :: v.users[other] == t.users[other])
           && (r.value in t.users && subject.None? ==> v == t)
           && (r.value !in t.users ==> v.users[r.value].subject == subject && v.next == r.value + 1))
  {
  }

  /** Without a subject it is answered with the live record at its address, or a new one that nobody is bound to. */
  lemma AddressAloneFinds(t: Table, email: string)
    requires Valid(t) && Fold(email) == email
    ensures var (v, r) := Resolve(t, email, None);
      && r.Some?
      && (forall id | HasEmail(t, id, email) :: r.value == id)
      && ((forall id :: !HasEmail(t, id, email)) ==> r.value !in t.users && v.users[r.value].subject.None?)
  {
  }

  /** A record is made only when nobody has the subject and nobody the address. */
  lemma NewOnlyIfUnknown(t: Table, email: string, subject: Option<string>)
    requires Valid(t) && Fold(email) == email
    ensures var (v, r) := Resolve(t, email, subject);
      r.Some? && r.value !in t.users <==>
        && (forall id :: !HasEmail(t, id, email))
        && (subject.Some? ==> forall id :: !HasSubject(t, id, subject.value))
  {
  }

  /** The headers are taken without their surrounding blanks, the address in lower case, a blank subject as none. */
  lemma HeadersExactly(email: string, subject: string)
    ensures EmailOf(email) == Fold(Trim(email))
    ensures SubjectOf(Some(subject)).None? <==> forall k | 0 <= k < |subject| :: IsBlank(subject[k])
    ensures SubjectOf(Some(subject)).Some? ==> SubjectOf(Some(subject)).value == Trim(subject)
  {
    var i, j := TrimExactly(subject);
    if i < j { assert !IsBlank(subject[i]); }
  }
}
