/**
 Sealed cookie values: purpose, expiry and key choice, with the cipher abstract.

 A sealed value is its key's secret, its purpose and its contents under a constructor nobody without the secret can
 apply, so opening one is comparing those.
 */
module Seal {
  import opened Options

  /** Nanoseconds. */
  type Time = int

  function Seconds(t: Time): int {
    t / 1_000_000_000
  }

  const MIN_SECRET: nat := 32

  datatype Key = Key(id: string, secret: seq<nat>)

  datatype Sealed<V> = Sealed(id: string, secret: seq<nat>, purpose: string, exp: int, body: V)

  /** Every key has its own id, so which key opens a value is never in doubt. */
  ghost predicate Keyring(keys: seq<Key>) {
    && keys != []
    && (forall i, j | 0 <= i < j < |keys| :: keys[i].id != keys[j].id)
    && (forall i | 0 <= i < |keys| :: keys[i].id != "" && '.' !in keys[i].id && |keys[i].secret| >= MIN_SECRET)
  }

  /** The current key seals. */
  function SealFor<V>(keys: seq<Key>, purpose: string, body: V, ttl: int, now: Time): Sealed<V>
    requires keys != []
  {
    Sealed(keys[0].id, keys[0].secret, purpose, Seconds(now + ttl), body)
  }

  function FindKey(keys: seq<Key>, id: string): (key: Option<Key>)
    ensures key.Some? ==> key.value in keys && key.value.id == id
    ensures key.None? ==> forall i | 0 <= i < |keys| :: keys[i].id != id
  {
    if keys == [] then None
    else if keys[0].id == id then Some(keys[0])
    else FindKey(keys[1..], id)
  }

  /** Tries the key that comes first under the value's id, and no other. */
  function Open<V>(keys: seq<Key>, purpose: string, s: Sealed<V>, now: Time): Option<V> {
    var key := FindKey(keys, s.id);
    if key.Some? && key.value.secret == s.secret && s.purpose == purpose && Seconds(now) < s.exp then Some(s.body)
    else None
  }

  /** One `id:base64` part of a keyring's specification, once split; `secret` is None when it does not decode. */
  datatype Part = Part(text: string, id: string, colon: bool, secret: Option<seq<nat>>)

  predicate Blank(p: Part) {
    p.text == ""
  }

  predicate Decodes(p: Part) {
    p.colon && p.id != "" && '.' !in p.id && p.secret.Some? && |p.secret.value| >= MIN_SECRET
  }

  function KeyOf(p: Part): seq<Key> {
    if Blank(p) || p.secret.None? then [] else [Key(p.id, p.secret.value)]
  }

  function KeysOf(parts: seq<Part>): seq<Key> {
    if parts == [] then [] else KeysOf(parts[..|parts| - 1]) + KeyOf(parts[|parts| - 1])
  }

  lemma {:induction false} KeysPrefix(parts: seq<Part>, i: nat)
    requires i <= |parts|
    ensures KeysOf(parts[..i]) <= KeysOf(parts)
    decreases |parts| - i
  {
    if i < |parts| {
      assert parts[..i + 1][..i] == parts[..i];
      KeysPrefix(parts, i + 1);
    } else {
      assert parts[..i] == parts;
    }
  }

  ghost predicate Accepted(parts: seq<Part>) {
    (forall i | 0 <= i < |parts| :: Blank(parts[i]) || Decodes(parts[i])) && Keyring(KeysOf(parts))
  }

  function Ids(keys: seq<Key>): set<string> {
    set k | k in keys :: k.id
  }

  lemma Repeated(parts: seq<Part>, i: nat)
    requires i < |parts| && Decodes(parts[i]) && !Blank(parts[i]) && parts[i].id in Ids(KeysOf(parts[..i]))
    ensures !Accepted(parts)
  {
    var ks := KeysOf(parts[..i]);
    assert parts[..i + 1][..i] == parts[..i];
    KeysPrefix(parts, i + 1);
    assert KeysOf(parts[..i + 1]) == ks + [Key(parts[i].id, parts[i].secret.value)];
    var k :| k in ks && k.id == parts[i].id;
    var j :| 0 <= j < |ks| && ks[j] == k;
    assert KeysOf(parts)[j].id == KeysOf(parts)[|ks|].id;
  }

  lemma OneMoreKey(keys: seq<Key>, k: Key)
    requires keys == [] || Keyring(keys)
    requires k.id !in Ids(keys) && k.id != "" && '.' !in k.id && |k.secret| >= MIN_SECRET
    ensures Keyring(keys + [k]) && Ids(keys + [k]) == Ids(keys) + {k.id}
  {
    forall i | 0 <= i < |keys|
      ensures keys[i].id != k.id
    {
      assert keys[i] in keys;
    }
  }

  /** A specification is accepted exactly when every part decodes and the keys make a keyring: theirs, in order. */
  method ParseKeyring(parts: seq<Part>) returns (keys: Option<seq<Key>>)
    ensures keys == if Accepted(parts) then Some(KeysOf(parts)) else None
  {
    hide Keyring, Ids;
    var ks: seq<Key> := [];
    var seen: set<string> := {};
    NoIds();
    for i := 0 to |parts|
      invariant ks == KeysOf(parts[..i])
      invariant seen == Ids(ks)
      invariant ks != [] ==> Keyring(ks)
      invariant forall j | 0 <= j < i :: Blank(parts[j]) || Decodes(parts[j])
    {
      var p := parts[i];
      assert parts[..i + 1][..i] == parts[..i];
      if Blank(p) {
        continue;
      }
      if !Decodes(p) {
        return None;
      }
      if p.id in seen {
        Repeated(parts, i);
        return None;
      }
      OneMoreKey(ks, Key(p.id, p.secret.value));
      seen := seen + {p.id};
      ks := ks + [Key(p.id, p.secret.value)];
    }
    assert parts[..|parts|] == parts;
    return if ks == [] then None else Some(ks);
  }

  lemma NoIds()
    ensures Ids([]) == {} && !Keyring([])
  {
  }

  // ---------- What sealing promises ----------

  lemma {:induction false} FindOwn(keys: seq<Key>, i: nat)
    requires i < |keys| && forall j, k | 0 <= j < k < |keys| :: keys[j].id != keys[k].id
    ensures FindKey(keys, keys[i].id) == Some(keys[i])
  {
    if i > 0 {
      assert forall j | 0 <= j < |keys[1..]| :: keys[1..][j] == keys[j + 1];
      FindOwn(keys[1..], i - 1);
    }
  }

  /** A sealed value opens exactly for its purpose, before its expiry, and wherever its key is still in the ring. */
  lemma OpensExactly<V>(
      keys: seq<Key>, purpose: string, body: V, ttl: int, at: Time, ring: seq<Key>, wanted: string, now: Time)
    requires Keyring(keys) && Keyring(ring)
    ensures Open(ring, wanted, SealFor(keys, purpose, body, ttl, at), now) ==
      if keys[0] in ring && wanted == purpose && Seconds(now) < Seconds(at + ttl) then Some(body) else None
  {
    if keys[0] in ring {
      var i :| 0 <= i < |ring| && ring[i] == keys[0];
      FindOwn(ring, i);
    }
  }

  /** Rotation: a key put in front changes what seals, and leaves everything sealed before it openable. */
  lemma RotationKeepsOpening<V>(keys: seq<Key>, newest: Key, purpose: string, s: Sealed<V>, now: Time)
    requires Keyring(keys) && Keyring([newest] + keys)
    ensures Open(keys, purpose, s, now).Some? ==> Open([newest] + keys, purpose, s, now) == Open(keys, purpose, s, now)
  {
    var key := FindKey(keys, s.id);
    if key.Some? {
      var i :| 0 <= i < |keys| && keys[i] == key.value;
      assert ([newest] + keys)[i + 1] == keys[i];
      FindOwn([newest] + keys, i + 1);
    }
  }

  /** The keys are those of the parts with any text, in order; `at` says where each part stands. */
  ghost predicate AreKeysOf(parts: seq<Part>, keys: seq<Key>, at: seq<nat>) {
    && |at| == |keys|
    && (forall k | 0 <= k < |at| :: at[k] < |parts| && parts[at[k]].text != "" && parts[at[k]].secret.Some?
                                     && keys[k] == Key(parts[at[k]].id, parts[at[k]].secret.value))
    && (forall k, l | 0 <= k < l < |at| :: at[k] < at[l])
    && forall i | 0 <= i < |parts| && parts[i].text != "" :: i in at
  }

  lemma {:induction false} KeysAreTheParts(parts: seq<Part>) returns (at: seq<nat>)
    requires forall i | 0 <= i < |parts| :: parts[i].text == "" || parts[i].secret.Some?
    ensures AreKeysOf(parts, KeysOf(parts), at)
  {
    if parts == [] {
      at := [];
    } else {
      var n := |parts| - 1;
      var before := KeysAreTheParts(parts[..n]);
      at := if parts[n].text != "" then before + [n] else before;
      OneMorePart(parts, KeysOf(parts[..n]), before);
    }
  }

  lemma OneMorePart(parts: seq<Part>, keys: seq<Key>, at: seq<nat>)
    requires parts != [] && AreKeysOf(parts[..|parts| - 1], keys, at)
    requires parts[|parts| - 1].text == "" || parts[|parts| - 1].secret.Some?
    ensures var n := |parts| - 1;
      if parts[n].text == "" then AreKeysOf(parts, keys, at)
      else AreKeysOf(parts, keys + [Key(parts[n].id, parts[n].secret.value)], at + [n])
  {
    var n := |parts| - 1;
    assert forall i | 0 <= i < n :: parts[..n][i] == parts[i];
    assert forall i :: i in at + [n] <==> i in at || i == n;
  }

  predicate WellFormed(p: Part) {
    p.colon && p.id != "" && '.' !in p.id && p.secret.Some? && |p.secret.value| >= 32
  }

  predicate OneId(parts: seq<Part>) {
    forall i, j | 0 <= i < j < |parts| && parts[i].text != "" && parts[j].text != "" :: parts[i].id != parts[j].id
  }

  lemma IdsAreTheParts(parts: seq<Part>, keys: seq<Key>, at: seq<nat>)
    requires AreKeysOf(parts, keys, at)
    ensures OneId(parts) <==> forall k, l | 0 <= k < l < |keys| :: keys[k].id != keys[l].id
    ensures keys != [] <==> exists i | 0 <= i < |parts| :: parts[i].text != ""
  {
    forall i, j | 0 <= i < j < |parts| && parts[i].text != "" && parts[j].text != ""
      ensures exists k, l :: 0 <= k < l < |at| && at[k] == i && at[l] == j
    {
      var k :| 0 <= k < |at| && at[k] == i;
      var l :| 0 <= l < |at| && at[l] == j;
      assert at[k] == i && at[l] == j;
    }
    if keys != [] { assert parts[at[0]].text != ""; }
  }

  /** A specification is accepted when its parts are well-formed or blank, not all blank, and no two have one id. */
  lemma AcceptedExactly(parts: seq<Part>)
    ensures Accepted(parts) <==>
      && (forall i | 0 <= i < |parts| :: parts[i].text == "" || WellFormed(parts[i]))
      && OneId(parts) && exists i | 0 <= i < |parts| :: parts[i].text != ""
  {
    hide KeysOf, AreKeysOf, OneId;
    assert forall i | 0 <= i < |parts| :: WellFormed(parts[i]) <==> Decodes(parts[i]);
    if forall i | 0 <= i < |parts| :: parts[i].text == "" || WellFormed(parts[i]) {
      var at := KeysAreTheParts(parts);
      IdsAreTheParts(parts, KeysOf(parts), at);
      KeysAreGood(parts, KeysOf(parts), at);
    }
  }

  lemma KeysAreGood(parts: seq<Part>, keys: seq<Key>, at: seq<nat>)
    requires AreKeysOf(parts, keys, at)
    requires forall i | 0 <= i < |parts| :: parts[i].text == "" || WellFormed(parts[i])
    ensures forall i | 0 <= i < |keys| :: keys[i].id != "" && '.' !in keys[i].id && |keys[i].secret| >= MIN_SECRET
  {
    forall i | 0 <= i < |keys| ensures keys[i].id != "" && '.' !in keys[i].id && |keys[i].secret| >= MIN_SECRET {
      assert WellFormed(parts[at[i]]);
    }
  }
}
