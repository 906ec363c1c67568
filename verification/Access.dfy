/** Who a listed deployment admits: the decision on one copy of its access list. */
module Access {
  import opened Options

  type Id = nat

  function Lower(c: char): char {
    if 'A' <= c <= 'Z' then (c as int + 32) as char else c
  }

  function Fold(s: string): string {
    seq(|s|, i requires 0 <= i < |s| => Lower(s[i]))
  }

  predicate EqualFold(a: string, b: string) {
    Fold(a) == Fold(b)
  }

  datatype Entry = Entry(id: Id, email: string, subject: string)

  /** Subjects are "" while nothing is bound. */
  datatype Owner = Owner(email: string, subject: string)

  datatype Admission = Admission(ok: bool, bind: Option<Id>)

  predicate OwnerRule(o: Owner, sub: string, email: string) {
    if o.subject != "" then sub != "" && sub == o.subject
    else email != "" && EqualFold(email, o.email)
  }

  predicate BoundTo(entries: seq<Entry>, sub: string) {
    sub != "" && exists i | 0 <= i < |entries| :: entries[i].subject == sub
  }

  predicate Open(e: Entry, email: string) {
    e.subject == "" && email != "" && EqualFold(e.email, email)
  }

  function FirstOpen(entries: seq<Entry>, email: string): (id: Option<Id>)
    ensures id.None? ==> forall i | 0 <= i < |entries| :: !Open(entries[i], email)
    ensures id.Some? ==> exists i | 0 <= i < |entries| :: entries[i].id == id.value && Open(entries[i], email)
  {
    if entries == [] then None
    else if Open(entries[0], email) then Some(entries[0].id)
    else FirstOpen(entries[1..], email)
  }

  function Admit(o: Owner, entries: seq<Entry>, sub: string, email: string): Admission {
    if OwnerRule(o, sub, email) || BoundTo(entries, sub) then Admission(true, None)
    else
      var open := FirstOpen(entries, email);
      Admission(open.Some?, open)
  }

  method Admits(o: Owner, entries: seq<Entry>, sub: string, email: string) returns (ok: bool, bind: Option<Id>)
    ensures Admission(ok, bind) == Admit(o, entries, sub, email)
  {
    if o.subject != "" {
      if sub != "" && sub == o.subject {
        return true, None;
      }
    } else if email != "" && EqualFold(email, o.email) {
      return true, None;
    }
    for i := 0 to |entries|
      invariant sub != "" ==> forall k | 0 <= k < i :: entries[k].subject != sub
    {
      if sub != "" && entries[i].subject == sub {
        return true, None;
      }
    }
    for i := 0 to |entries|
      invariant FirstOpen(entries, email) == FirstOpen(entries[i..], email)
    {
      if Open(entries[i], email) {
        return true, Some(entries[i].id);
      }
    }
    return false, None;
  }

  /** The two differ in nothing but the case of letters. */
  lemma EqualFoldExactly(a: string, b: string)
    ensures EqualFold(a, b) <==>
      |a| == |b| && forall i | 0 <= i < |a| ::
        a[i] == b[i] || ('A' <= a[i] <= 'Z' && b[i] as int == a[i] as int + 32)
                     || ('A' <= b[i] <= 'Z' && a[i] as int == b[i] as int + 32)
  {
    if EqualFold(a, b) {
      assert |a| == |Fold(a)| == |Fold(b)| == |b|;
      forall i | 0 <= i < |a| ensures Lower(a[i]) == Lower(b[i]) { assert Fold(a)[i] == Fold(b)[i]; }
    }
  }

  /** The account is recognised by its subject, as the owner's or as an entry's. */
  predicate Named(o: Owner, entries: seq<Entry>, sub: string) {
    sub != "" && (sub == o.subject || exists i | 0 <= i < |entries| :: entries[i].subject == sub)
  }

  /** The entry waits for this address, in whatever case, with nobody bound to it. */
  predicate Waits(e: Entry, email: string) {
    email != "" && e.subject == "" && EqualFold(e.email, email)
  }

  /**
   Who is admitted: whoever's subject the owner or an entry carries; the owner by address while the owner carries no
   subject; and whoever's address an entry waits for. Only the last is to be bound, and to the first such entry.
   */
  lemma AdmitExactly(o: Owner, entries: seq<Entry>, sub: string, email: string)
    ensures var a := Admit(o, entries, sub, email);
      var recognised := Named(o, entries, sub) || (o.subject == "" && email != "" && EqualFold(email, o.email));
      && (a.ok <==> recognised || exists i | 0 <= i < |entries| :: Waits(entries[i], email))
      && (a.bind.Some? <==> a.ok && !recognised)
      && forall i | 0 <= i < |entries| && Waits(entries[i], email)
                    && (forall k | 0 <= k < i :: !Waits(entries[k], email)) ::
           !recognised ==> a.bind == Some(entries[i].id)
  {
    forall i | 0 <= i < |entries| && Waits(entries[i], email) && (forall k | 0 <= k < i :: !Waits(entries[k], email))
      ensures FirstOpen(entries, email) == Some(entries[i].id)
    {
      FirstOpenIsFirst(entries, email, i);
    }
    assert forall i | 0 <= i < |entries| :: Open(entries[i], email) <==> Waits(entries[i], email);
  }

  lemma {:induction false} FirstOpenIsFirst(entries: seq<Entry>, email: string, i: nat)
    requires i < |entries| && Waits(entries[i], email) && forall k | 0 <= k < i :: !Waits(entries[k], email)
    ensures FirstOpen(entries, email) == Some(entries[i].id)
  {
    if i > 0 {
      assert !Waits(entries[0], email);
      assert forall k | 0 <= k < i - 1 :: entries[1..][k] == entries[k + 1];
      FirstOpenIsFirst(entries[1..], email, i - 1);
    }
  }

  /**
   Nobody is admitted by somebody else's binding: a bound owner and a bound entry answer to their subject alone,
   whatever the email, so a list with no place left open admits exactly the subjects it names.
   */
  lemma BoundListAdmitsItsSubjects(o: Owner, entries: seq<Entry>, sub: string, email: string)
    requires o.subject != "" && forall i | 0 <= i < |entries| :: entries[i].subject != ""
    ensures Admit(o, entries, sub, email).ok <==>
      sub != "" && (sub == o.subject || exists i | 0 <= i < |entries| :: entries[i].subject == sub)
    ensures Admit(o, entries, sub, email).bind == None
  {
  }
}
