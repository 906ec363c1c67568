/** Keeping the platform's cookies from the apps, and the apps' cookies as the browser sent them. */
module Cookies {
  import opened Numerals

  const PREFIX := "__Host-freepod_"

  function Split(s: string, sep: char): (r: seq<string>)
    ensures r != [] && forall i | 0 <= i < |r| :: sep !in r[i]
  {
    if s == "" then [""]
    else if s[0] == sep then [""] + Split(s[1..], sep)
    else
      var rest := Split(s[1..], sep);
      [[s[0]] + rest[0]] + rest[1..]
  }

  function Join(parts: seq<string>): string {
    if parts == [] then ""
    else if |parts| == 1 then parts[0]
    else Join(parts[..|parts| - 1]) + "; " + parts[|parts| - 1]
  }

  /** The text before the first `sep`, all of it when there is none. */
  function NameOf(pair: string): (r: string)
    ensures |r| <= |pair| && r == pair[..|r|] && '=' !in r && (|r| < |pair| ==> pair[|r|] == '=')
  {
    if pair == "" || pair[0] == '=' then "" else [pair[0]] + NameOf(pair[1..])
  }

  predicate HasValue(pair: string) {
    '=' in pair
  }

  predicate Platform(name: string) {
    PREFIX <= Trim(name)
  }

  predicate Kept(pair: string) {
    pair != "" && !Platform(NameOf(pair))
  }

  /** Every pair of every line, in order, as it stands between the semicolons. */
  function AllPairs(lines: seq<string>): seq<string> {
    if lines == [] then [] else AllPairs(lines[..|lines| - 1]) + Split(lines[|lines| - 1], ';')
  }

  function KeptOf(pairs: seq<string>): seq<string> {
    if pairs == [] then []
    else
      var pair := Trim(pairs[|pairs| - 1]);
      KeptOf(pairs[..|pairs| - 1]) + if Kept(pair) then [pair] else []
  }

  function ValuesOf(pairs: seq<string>, name: string): seq<string> {
    if pairs == [] then []
    else
      var pair := Trim(pairs[|pairs| - 1]);
      ValuesOf(pairs[..|pairs| - 1], name) +
        if HasValue(pair) && NameOf(pair) == name then [pair[|name| + 1..]] else []
  }

  lemma KeptSnoc(pairs: seq<string>, pair: string)
    ensures KeptOf(pairs + [pair]) == if Kept(Trim(pair)) then KeptOf(pairs) + [Trim(pair)] else KeptOf(pairs)
  {
    assert (pairs + [pair])[..|pairs|] == pairs;
  }

  lemma ValuesSnoc(pairs: seq<string>, pair: string, name: string)
    ensures var p := Trim(pair);
      ValuesOf(pairs + [pair], name) ==
      if HasValue(p) && NameOf(p) == name then ValuesOf(pairs, name) + [p[|name| + 1..]] else ValuesOf(pairs, name)
  {
    assert (pairs + [pair])[..|pairs|] == pairs;
  }

  lemma PairsSnoc(lines: seq<string>, i: nat)
    requires i < |lines|
    ensures AllPairs(lines[..i + 1]) == AllPairs(lines[..i]) + Split(lines[i], ';')
  {
    assert lines[..i + 1][..i] == lines[..i];
  }

  function Filter(lines: seq<string>): string {
    Join(KeptOf(AllPairs(lines)))
  }

  function Values(lines: seq<string>, name: string): seq<string> {
    ValuesOf(AllPairs(lines), name)
  }

  method JoinAll(parts: seq<string>) returns (r: string)
    ensures r == Join(parts)
  {
    r := "";
    for i := 0 to |parts|
      invariant r == Join(parts[..i])
    {
      assert parts[..i + 1][..i] == parts[..i];
      if i > 0 {
        r := r + "; ";
      }
      r := r + parts[i];
    }
    assert parts[..|parts|] == parts;
  }

  method FilterCookies(lines: seq<string>) returns (header: string)
    ensures header == Filter(lines)
  {
    hide Split, Trim, KeptOf, AllPairs, Platform, NameOf;
    var kept := [];
    assert KeptOf(AllPairs([])) == [] by { KeptNone(); }
    for i := 0 to |lines|
      invariant kept == KeptOf(AllPairs(lines[..i]))
    {
      var pairs := Split(lines[i], ';');
      ghost var before := AllPairs(lines[..i]);
      assert before + pairs[..0] == before;
      for j := 0 to |pairs|
        invariant kept == KeptOf(before + pairs[..j])
      {
        assert before + pairs[..j + 1] == (before + pairs[..j]) + [pairs[j]];
        KeptSnoc(before + pairs[..j], pairs[j]);
        var pair := Trim(pairs[j]);
        if pair == "" {
          continue;
        }
        if Platform(NameOf(pair)) {
          continue;
        }
        kept := kept + [pair];
      }
      assert pairs[..|pairs|] == pairs;
      PairsSnoc(lines, i);
    }
    assert lines[..|lines|] == lines;
    header := JoinAll(kept);
  }

  lemma KeptNone()
    ensures KeptOf(AllPairs([])) == []
  {
  }

  /** A name sent twice has each of its values tried, in order. */
  method CookieValues(lines: seq<string>, name: string) returns (out: seq<string>)
    ensures out == Values(lines, name)
  {
    hide Split, Trim, ValuesOf, AllPairs;
    out := [];
    assert ValuesOf(AllPairs([]), name) == [] by { ValuesNone(name); }
    for i := 0 to |lines|
      invariant out == ValuesOf(AllPairs(lines[..i]), name)
    {
      var pairs := Split(lines[i], ';');
      ghost var before := AllPairs(lines[..i]);
      assert before + pairs[..0] == before;
      for j := 0 to |pairs|
        invariant out == ValuesOf(before + pairs[..j], name)
      {
        assert before + pairs[..j + 1] == (before + pairs[..j]) + [pairs[j]];
        ValuesSnoc(before + pairs[..j], pairs[j], name);
        var pair := Trim(pairs[j]);
        if HasValue(pair) && NameOf(pair) == name {
          out := out + [pair[|name| + 1..]];
        }
      }
      assert pairs[..|pairs|] == pairs;
      PairsSnoc(lines, i);
    }
    assert lines[..|lines|] == lines;
  }

  lemma ValuesNone(name: string)
    ensures ValuesOf(AllPairs([]), name) == []
  {
  }

  // ---------- Splitting what was joined ----------

  lemma {:induction false} SplitSnoc(a: string, b: string, sep: char)
    requires sep !in b
    ensures Split(a + [sep] + b, sep) == Split(a, sep) + [b]
  {
    var s := a + [sep] + b;
    if a == "" {
      assert s[1..] == b;
      SplitNone(b, sep);
    } else {
      assert s[1..] == a[1..] + [sep] + b;
      SplitSnoc(a[1..], b, sep);
    }
  }

  lemma {:induction false} SplitNone(s: string, sep: char)
    requires sep !in s
    ensures Split(s, sep) == [s]
  {
    if s != "" {
      SplitNone(s[1..], sep);
      assert [s[0]] + s[1..] == s;
    }
  }

  /** What a pair looks like once joined to the ones before it. */
  function Spaced(parts: seq<string>): seq<string> {
    seq(|parts|, i requires 0 <= i < |parts| => if i == 0 then parts[0] else " " + parts[i])
  }

  lemma {:induction false} SplitJoin(parts: seq<string>)
    requires parts != [] && forall i | 0 <= i < |parts| :: ';' !in parts[i]
    ensures Split(Join(parts), ';') == Spaced(parts)
  {
    hide Split;
    var n := |parts| - 1;
    if n == 0 {
      SplitNone(parts[0], ';');
      assert Spaced(parts) == [parts[0]];
    } else {
      var first := Join(parts[..n]);
      SplitJoin(parts[..n]);
      assert first + "; " + parts[n] == first + [';'] + (" " + parts[n]);
      SplitSnoc(first, " " + parts[n], ';');
      assert Spaced(parts) == Spaced(parts[..n]) + [" " + parts[n]];
    }
  }

  lemma {:induction false} TrimKeepsOut(s: string, c: char)
    requires c !in s
    ensures c !in Trim(s)
  {
    if s != "" && IsBlank(s[0]) {
      TrimKeepsOut(s[1..], c);
    } else if s != "" && IsBlank(s[|s| - 1]) {
      TrimKeepsOut(s[..|s| - 1], c);
    }
  }

  /** A pair the filter passes on: trimmed, whole and the app's. */
  predicate Clean(pair: string) {
    Trimmed(pair) && Kept(pair) && ';' !in pair
  }

  lemma {:induction false} KeptAreClean(pairs: seq<string>)
    requires forall i | 0 <= i < |pairs| :: ';' !in pairs[i]
    ensures forall i | 0 <= i < |KeptOf(pairs)| :: Clean(KeptOf(pairs)[i])
  {
    if pairs != [] {
      KeptAreClean(pairs[..|pairs| - 1]);
      TrimIsTrimmed(pairs[|pairs| - 1]);
      TrimKeepsOut(pairs[|pairs| - 1], ';');
    }
  }

  lemma {:induction false} PairsAreWhole(lines: seq<string>)
    ensures forall i | 0 <= i < |AllPairs(lines)| :: ';' !in AllPairs(lines)[i]
  {
    if lines != [] {
      PairsAreWhole(lines[..|lines| - 1]);
    }
  }

  lemma TrimSpace(s: string)
    requires Trimmed(s)
    ensures Trim(" " + s) == s
  {
    assert (" " + s)[1..] == s;
    TrimmedIsItself(s);
  }

  lemma SpacedSnoc(parts: seq<string>)
    requires parts != [] && Trimmed(parts[|parts| - 1])
    ensures var n := |parts| - 1;
      exists last :: Spaced(parts) == Spaced(parts[..n]) + [last] && Trim(last) == parts[n]
  {
    var n := |parts| - 1;
    TrimSpace(parts[n]);
    TrimmedIsItself(parts[n]);
    assert Spaced(parts) == Spaced(parts[..n]) + [Spaced(parts)[n]];
  }

  /** Spacing is all that joining adds, and trimming takes it away again. */
  lemma {:induction false} SpacedIsSame(parts: seq<string>, name: string)
    requires forall i | 0 <= i < |parts| :: Clean(parts[i])
    ensures KeptOf(Spaced(parts)) == parts && ValuesOf(Spaced(parts), name) == ValuesOf(parts, name)
  {
    if parts != [] {
      hide KeptOf, ValuesOf, Trim, Spaced, Platform, NameOf;
      var n := |parts| - 1;
      var init, p := parts[..n], parts[n];
      assert parts == init + [p];
      assert Clean(p);
      SpacedIsSame(init, name);
      SpacedSnoc(parts);
      var last :| Spaced(parts) == Spaced(init) + [last] && Trim(last) == p;
      TrimmedIsItself(p);
      KeptSnoc(Spaced(init), last);
      ValuesSnoc(Spaced(init), last, name);
      ValuesSnoc(init, p, name);
    }
  }

  lemma {:induction false} FilteringPairs(pairs: seq<string>, name: string)
    ensures ValuesOf(KeptOf(pairs), name) == if Platform(name) then [] else ValuesOf(pairs, name)
  {
    if pairs != [] {
      hide KeptOf, ValuesOf, Trim, Platform;
      var n := |pairs| - 1;
      FilteringPairs(pairs[..n], name);
      var pair := Trim(pairs[n]);
      TrimIsTrimmed(pairs[n]);
      TrimmedIsItself(pair);
      assert pairs == pairs[..n] + [pairs[n]];
      KeptSnoc(pairs[..n], pairs[n]);
      ValuesSnoc(pairs[..n], pairs[n], name);
      ValuesSnoc(KeptOf(pairs[..n]), pair, name);
    }
  }

  lemma OneLine(line: string)
    ensures AllPairs([line]) == Split(line, ';')
  {
    assert [line][..0] == [];
  }

  lemma NoPair(name: string)
    ensures KeptOf([""]) == [] && ValuesOf([""], name) == []
  {
    assert [""][..0] == [];
  }

  lemma Reparsed(lines: seq<string>, name: string)
    ensures KeptOf(AllPairs([Filter(lines)])) == KeptOf(AllPairs(lines))
    ensures Values([Filter(lines)], name) == ValuesOf(KeptOf(AllPairs(lines)), name)
  {
    hide Split, AllPairs, KeptOf, ValuesOf;
    var kept := KeptOf(AllPairs(lines));
    PairsAreWhole(lines);
    KeptAreClean(AllPairs(lines));
    OneLine(Filter(lines));
    if kept == [] {
      SplitNone("", ';');
      NoPair(name);
      assert ValuesOf([], name) == [] by { ValuesNone(name); EmptyPairs(); }
    } else {
      SplitJoin(kept);
      SpacedIsSame(kept, name);
    }
  }

  lemma EmptyPairs()
    ensures AllPairs([]) == []
  {
  }

  /**
   For any Cookie lines, an app that parses the filtered header finds no platform cookie, and finds for every other name
   the values the browser sent, in their order.
   */
  lemma FilterIsExact(lines: seq<string>, name: string)
    ensures Values([Filter(lines)], name) == if Platform(name) then [] else Values(lines, name)
  {
    Reparsed(lines, name);
    FilteringPairs(AllPairs(lines), name);
  }

  lemma FilterTwice(lines: seq<string>)
    ensures Filter([Filter(lines)]) == Filter(lines)
  {
    Reparsed(lines, "");
  }

  // ---------- What an app finds ----------

  /** But for blanks, one of the pairs is this one. */
  ghost predicate Occurs(pairs: seq<string>, pair: string) {
    exists k | 0 <= k < |pairs| :: Trim(pairs[k]) == pair
  }

  lemma {:induction false} ValuesOfExactly(pairs: seq<string>, name: string, v: string)
    requires '=' !in name
    ensures v in ValuesOf(pairs, name) <==> Occurs(pairs, name + "=" + v)
  {
    if pairs != [] {
      var n := |pairs| - 1;
      var front, pair := pairs[..n], Trim(pairs[n]);
      ValuesOfExactly(front, name, v);
      assert forall i | 0 <= i < n :: front[i] == pairs[i];
      PairIsNameAndValue(pair, name, v);
    }
  }

  lemma PairIsNameAndValue(pair: string, name: string, v: string)
    requires '=' !in name
    ensures HasValue(pair) && NameOf(pair) == name && pair[|name| + 1..] == v <==> pair == name + "=" + v
  {
    if pair == name + "=" + v {
      NameEndsAtEquals(name, v);
      assert pair[|name|] == '=' && pair[|name| + 1..] == v;
    }
    if HasValue(pair) && NameOf(pair) == name && pair[|name| + 1..] == v {
      assert pair[..|name|] == name && (|name| == |pair| ==> pair == name);
      assert pair == pair[..|name|] + [pair[|name|]] + pair[|name| + 1..];
    }
  }

  lemma {:induction false} NameEndsAtEquals(name: string, v: string)
    requires '=' !in name
    ensures NameOf(name + "=" + v) == name
  {
    if name != "" {
      assert (name + "=" + v)[1..] == name[1..] + "=" + v;
      NameEndsAtEquals(name[1..], v);
    }
  }

  /** Between two semicolons, and but for blanks, line `i` has the pair. */
  ghost predicate HasPair(lines: seq<string>, i: nat, pair: string) {
    i < |lines| && Occurs(Split(lines[i], ';'), pair)
  }

  /** A value is found under a name exactly when some line has that name, an equals sign and the value. */
  lemma FoundExactly(lines: seq<string>, name: string, v: string)
    requires '=' !in name
    ensures v in Values(lines, name) <==> exists i: nat :: HasPair(lines, i, name + "=" + v)
  {
    hide Occurs, HasPair, ValuesOf, AllPairs;
    ValuesOfExactly(AllPairs(lines), name, v);
    PairsExactly(lines, name + "=" + v);
  }

  lemma {:induction false} PairsExactly(lines: seq<string>, pair: string)
    ensures Occurs(AllPairs(lines), pair) <==> exists i: nat :: HasPair(lines, i, pair)
  {
    if lines != [] {
      hide Trim, Split;
      var n := |lines| - 1;
      var front := lines[..n];
      var before, last := AllPairs(front), Split(lines[n], ';');
      PairsExactly(front, pair);
      forall i: nat
        ensures HasPair(lines, i, pair) <==> HasPair(front, i, pair) || (i == n && HasPair(lines, n, pair))
      {
        assert i < n ==> front[i] == lines[i];
      }
      var all := before + last;
      assert AllPairs(lines) == all;
      if k :| 0 <= k < |all| && Trim(all[k]) == pair {
        if k >= |before| {
          assert Trim(last[k - |before|]) == pair && HasPair(lines, n, pair);
        } else {
          assert Trim(before[k]) == pair;
          var i: nat :| HasPair(front, i, pair);
          assert HasPair(lines, i, pair);
        }
      }
      if i: nat :| HasPair(lines, i, pair) {
        if i == n {
          var j :| 0 <= j < |last| && Trim(last[j]) == pair;
          assert all[|before| + j] == last[j];
        } else {
          assert HasPair(front, i, pair);
          var k :| 0 <= k < |before| && Trim(before[k]) == pair;
          assert all[k] == before[k];
        }
      }
    }
  }

  lemma JoinSnoc(parts: seq<string>, last: string)
    requires parts != []
    ensures Join(parts + [last]) == Join(parts) + "; " + last
  {
    assert (parts + [last])[..|parts|] == parts;
  }

  /** Between any two parts stand a semicolon and a space, and nothing else is added. */
  lemma {:induction false} JoinsExactly(front: seq<string>, back: seq<string>)
    requires front != [] && back != []
    ensures Join(front + back) == Join(front) + "; " + Join(back)
  {
    var n := |back| - 1;
    var init, last := back[..n], back[n];
    assert front + back == (front + init) + [last] && back == init + [last];
    JoinSnoc(front + init, last);
    if n == 0 {
      assert front + init == front;
    } else {
      hide Join;
      JoinsExactly(front, init);
      JoinSnoc(init, last);
      var a, b := Join(front), Join(init);
      assert (a + "; " + b) + "; " + last == a + "; " + (b + "; " + last);
    }
  }

  /** The cookies kept from apps are those whose names, less blanks, start as the platform's do. */
  lemma PlatformExactly(name: string)
    ensures Platform(name) <==> "__Host-freepod_" <= Trim(name)
    ensures Platform("__Host-freepod_session") && Platform("__Host-freepod_login") && !Platform("session")
  {
    TrimmedIsItself("__Host-freepod_session");
    TrimmedIsItself("__Host-freepod_login");
    TrimmedIsItself("session");
  }
}
