/**
 The stored log of a build: a mirror of its Job's output, cut at a cap, whose byte offsets polling clients rely on.
 Bytes are the characters of their codes.
 */
module BuildLog {
  import opened Numerals
  import opened Options

  type Bytes = string

  function Marker(cap: nat): Bytes {
    "\n[log truncated: build produced more than " + Decimal(cap) + " bytes]\n"
  }

  /** How many bytes of the output survive being cut at `cap`. */
  function Keep(cap: nat): nat {
    if cap < |Marker(cap)| then 0 else cap - |Marker(cap)|
  }

  function TruncateLog(data: Bytes, cap: nat): (r: Bytes)
    ensures |r| <= cap
    ensures |data| <= cap ==> r == data
    ensures |data| > cap ==> |r| == cap
  {
    if |data| <= cap then data else data[..Keep(cap)] + Marker(cap)[..cap - Keep(cap)]
  }

  /** The stored log never gets shorter by a read. */
  function MergeLog(stored: Bytes, read: Option<Bytes>, cap: nat): (r: Bytes)
    ensures |r| >= |stored|
    ensures |stored| <= cap ==> |r| <= cap
  {
    if read.None? || read.value == "" then stored
    else
      var candidate := TruncateLog(read.value, cap);
      if |candidate| < |stored| then stored else candidate
  }

  /** The platform's own last line starts a line of its own. */
  function AppendLine(stored: Bytes, line: Bytes): Bytes {
    stored + (if stored != "" && stored[|stored| - 1] != '\n' then "\n" else "") + line
  }

  // ---------- Serving it ----------

  const RANGE_UNIT := "bytes="

  datatype Range = Range(start: nat, end: Option<nat>)

  /** Where the run of digits that `s` starts with ends. */
  function DigitsEnd(s: string): (n: nat)
    ensures n <= |s| && AllDigits(s[..n]) && (n < |s| ==> !IsDigit(s[n]))
  {
    if s == "" || !IsDigit(s[0]) then 0
    else
      var n := 1 + DigitsEnd(s[1..]);
      assert forall i | 0 < i < n :: s[i] == s[1..][i - 1];
      n
  }

  /** `N-` or `N-M`. */
  function ParseSpan(span: string): Option<Range> {
    var n := DigitsEnd(span);
    if n == 0 || n == |span| || span[n] != '-' || !AllDigits(span[n + 1..]) then None
    else
      var start, last := Value(span[..n]), span[n + 1..];
      if last == "" then Some(Range(start, None))
      else if Value(last) < start then None
      else Some(Range(start, Some(Value(last))))
  }

  /** `bytes=N-` and `bytes=N-M`; anything else is served in full. */
  function ParseRange(value: Option<string>): Option<Range> {
    if value.None? then None
    else
      var s := Trim(value.value);
      if RANGE_UNIT <= s then ParseSpan(s[|RANGE_UNIT|..]) else None
  }

  function Span(range: Range): string {
    Decimal(range.start) + "-" + if range.end.None? then "" else Decimal(range.end.value)
  }

  function Header(range: Range): string {
    RANGE_UNIT + Span(range)
  }

  lemma {:induction false} DigitsThenDash(ds: string, tail: string)
    requires AllDigits(ds)
    ensures DigitsEnd(ds + "-" + tail) == |ds|
  {
    var s := ds + "-" + tail;
    if ds == "" {
      assert s[0] == '-';
    } else {
      assert s[1..] == ds[1..] + "-" + tail;
      assert forall i | 0 <= i < |ds| - 1 :: ds[1..][i] == ds[i + 1];
      DigitsThenDash(ds[1..], tail);
    }
  }

  lemma SpanRoundTrip(range: Range)
    ensures ParseSpan(Span(range)) ==
            if range.end.Some? && range.end.value < range.start then None else Some(range)
    ensures Span(range) != "" && !IsBlank(Span(range)[|Span(range)| - 1])
  {
    hide Decimal, Value, DigitsEnd;
    var ds := Decimal(range.start);
    var last := if range.end.None? then "" else Decimal(range.end.value);
    var span := ds + "-" + last;
    DigitsThenDash(ds, last);
    assert span[..|ds|] == ds && span[|ds| + 1..] == last;
  }

  /** A client gets the range it asks for, unless that range ends before it starts. */
  lemma RangeRoundTrip(range: Range)
    ensures ParseRange(Some(Header(range))) ==
            if range.end.Some? && range.end.value < range.start then None else Some(range)
  {
    hide Span, ParseSpan;
    SpanRoundTrip(range);
    var s := Header(range);
    assert s[0] == 'b' && s[|s| - 1] == Span(range)[|Span(range)| - 1];
    TrimmedIsItself(s);
    assert s[|RANGE_UNIT|..] == Span(range);
  }

  /** The header's digits, and the range they give. */
  ghost predicate IsRange(s: string, first: string, last: string, range: Range) {
    && s == "bytes=" + first + "-" + last
    && first != "" && AllDigits(first) && AllDigits(last) && range.start == Value(first)
    && range.end == if last == "" then None else Some(Value(last))
  }

  lemma SpanParts(span: string) returns (first: string, last: string)
    requires ParseSpan(span).Some?
    ensures span == first + "-" + last && first != "" && AllDigits(first) && AllDigits(last)
  {
    hide Value;
    var n := DigitsEnd(span);
    first, last := span[..n], span[n + 1..];
  }

  lemma ParsesSpan(first: string, last: string)
    requires first != "" && AllDigits(first) && AllDigits(last)
    ensures ParseSpan(first + "-" + last) ==
            if last == "" then Some(Range(Value(first), None))
            else if Value(last) < Value(first) then None
            else Some(Range(Value(first), Some(Value(last))))
  {
    hide Value, DigitsEnd;
    var span := first + "-" + last;
    DigitsThenDash(first, last);
    assert span[..|first|] == first && span[|first| + 1..] == last;
  }

  lemma FormIsRead(s: string, first: string, last: string, range: Range)
    requires IsRange(s, first, last, range)
    ensures RANGE_UNIT <= s
    ensures ParseSpan(s[|RANGE_UNIT|..]) ==
            if range.end.Some? && range.end.value < range.start then None else Some(range)
  {
    hide Value, ParseSpan;
    assert s == RANGE_UNIT + (first + "-" + last);
    assert s[|RANGE_UNIT|..] == first + "-" + last;
    ParsesSpan(first, last);
  }

  /** A range is read from a header of that form, blanks around it aside, that does not end before it starts. */
  lemma ParsesExactly(value: Option<string>, range: Range)
    ensures ParseRange(value) == Some(range) <==>
      && value.Some? && (exists first, last :: IsRange(Trim(value.value), first, last, range))
      && (range.end.Some? ==> range.start <= range.end.value)
  {
    hide Value, Trim, ParseSpan;
    if ParseRange(value) == Some(range) {
      var s := Trim(value.value);
      var first, last := SpanParts(s[|RANGE_UNIT|..]);
      assert s == RANGE_UNIT + s[|RANGE_UNIT|..];
      ParsesSpan(first, last);
      assert IsRange(Trim(value.value), first, last, range);
      assert range.end.Some? ==> range.start <= range.end.value;
    } else if value.Some? {
      forall first, last | IsRange(Trim(value.value), first, last, range)
        ensures range.end.Some? && range.end.value < range.start
      {
        FormIsRead(Trim(value.value), first, last, range);
      }
    }
  }

  datatype Slice = Slice(data: Bytes, start: nat, partial: bool)

  /** A start past the end of the log is moved back to it. */
  function SliceOf(log: Bytes, range: Option<Range>): (r: Slice)
    ensures r.start <= |log| && r.start + |r.data| <= |log| && r.data == log[r.start..r.start + |r.data|]
  {
    if range.None? then Slice(log, 0, false)
    else
      var start := if range.value.start < |log| then range.value.start else |log|;
      var end := if range.value.end.None? || range.value.end.value >= |log| then |log| else range.value.end.value + 1;
      Slice(if end < start then "" else log[start..end], start, true)
  }

  /** A stored offset is served exactly when the range asks for it, and its byte is the log's. */
  lemma ServedExactly(log: Bytes, range: Range, k: nat)
    requires k < |log| && (range.end.Some? ==> range.start <= range.end.value)
    ensures var r := SliceOf(log, Some(range));
      && (r.start <= k < r.start + |r.data| <==> range.start <= k && (range.end.Some? ==> k <= range.end.value))
      && (r.start <= k < r.start + |r.data| ==> r.data[k - r.start] == log[k])
      && (range.start <= |log| ==> r.start == range.start)
  {
  }

  datatype Response = Response(status: nat, headers: map<string, string>, body: Bytes)

  /** What the endpoint says of the bytes it returns is true of the log, at the offsets it names. */
  method GetBuildLog(log: Bytes, status: string, header: Option<string>) returns (r: Response)
    ensures r.headers.Keys - {"Content-Range"} == {"X-Build-Status", "Accept-Ranges", "Cache-Control"}
    ensures r.headers["X-Build-Status"] == status
    ensures ParseRange(header).None? ==> r.status == 200 && r.body == log && "Content-Range" !in r.headers
    ensures ParseRange(header).Some? ==> r.status == 206 && r.body == SliceOf(log, ParseRange(header)).data
    ensures "Content-Range" in r.headers <==> r.status == 206 && r.body != ""
    ensures "Content-Range" in r.headers ==> exists start: nat ::
              && start + |r.body| <= |log| && log[start..start + |r.body|] == r.body
              && r.headers["Content-Range"] == "bytes " + Decimal(start) + "-" + Decimal(start + |r.body| - 1) + "/*"
  {
    var slice := SliceOf(log, ParseRange(header));
    var headers := map["X-Build-Status" := status, "Accept-Ranges" := "bytes", "Cache-Control" := "no-store"];
    if !slice.partial {
      return Response(200, headers, slice.data);
    }
    if slice.data != "" {
      var last := slice.start + |slice.data| - 1;
      headers := headers["Content-Range" := "bytes " + Decimal(slice.start) + "-" + Decimal(last) + "/*"];
    }
    r := Response(206, headers, slice.data);
  }

  // ---------- The mirror and a polling client, run together ----------

  /** The worker reads the Job's output; a client asks for what it has not got; the platform adds its last line. */
  datatype Event = Read(bytes: Option<Bytes>) | Poll | Close(line: Bytes)

  /** `got` is all the client has received, put together. */
  datatype Mirror = Mirror(log: Bytes, got: Bytes, closed: bool)

  const START := Mirror("", "", false)

  function Next(m: Mirror, e: Event, cap: nat): Mirror {
    match e
    case Read(bytes) => if m.closed then m else m.(log := MergeLog(m.log, bytes, cap))
    case Poll => m.(got := m.got + SliceOf(m.log, Some(Range(|m.got|, None))).data)
    case Close(line) => if m.closed then m else m.(log := AppendLine(m.log, line), closed := true)
  }

  function After(es: seq<Event>, cap: nat): Mirror {
    if es == [] then START else Next(After(es[..|es| - 1], cap), es[|es| - 1], cap)
  }

  /** A read long enough to be accepted is the output so far, none of it rotated away. */
  predicate FaithfulRead(m: Mirror, e: Event, out: Bytes, cap: nat) {
    e.Read? && e.bytes.Some? && |TruncateLog(e.bytes.value, cap)| >= |m.log| ==> e.bytes.value <= out
  }

  ghost predicate Faithful(es: seq<Event>, out: Bytes, cap: nat) {
    forall i | 0 <= i < |es| :: FaithfulRead(After(es[..i], cap), es[i], out, cap)
  }

  /** Offsets no later read can change: all of them if the output fits, else those clear of the marker. */
  predicate Settled(k: int, out: Bytes, cap: nat) {
    |out| <= cap || k < Keep(cap) || k >= cap
  }

  /** The log is a cut prefix of the output, and then the last line; the client has nothing else. */
  ghost predicate Consistent(m: Mirror, out: Bytes, cap: nat) {
    && |m.got| <= |m.log|
    && (exists n :: 0 <= n <= |out| && TruncateLog(out[..n], cap) <= m.log
                    && (m.closed || m.log == TruncateLog(out[..n], cap)))
    && forall k | 0 <= k < |m.got| && Settled(k, out, cap) :: m.got[k] == m.log[k]
  }

  /** Two cuts of one output agree on every settled offset. */
  lemma CutsAgree(out: Bytes, n: nat, n': nat, cap: nat, k: nat)
    requires n <= |out| && n' <= |out| && Settled(k, out, cap)
    requires k < |TruncateLog(out[..n], cap)| && k < |TruncateLog(out[..n'], cap)|
    ensures TruncateLog(out[..n], cap)[k] == TruncateLog(out[..n'], cap)[k] == out[k]
  {
  }

  lemma PollTakesTheRest(m: Mirror, cap: nat)
    requires |m.got| <= |m.log|
    ensures Next(m, Poll, cap) == m.(got := m.got + m.log[|m.got|..])
  {
  }

  lemma ConsistentStep(m: Mirror, e: Event, out: Bytes, cap: nat)
    requires Consistent(m, out, cap) && FaithfulRead(m, e, out, cap)
    ensures Consistent(Next(m, e, cap), out, cap)
    ensures forall k | 0 <= k < |m.log| && Settled(k, out, cap) ::
              k < |Next(m, e, cap).log| && Next(m, e, cap).log[k] == m.log[k]
  {
    hide Marker, Keep, TruncateLog;
    var v := Next(m, e, cap);
    var n :| 0 <= n <= |out| && TruncateLog(out[..n], cap) <= m.log
             && (m.closed || m.log == TruncateLog(out[..n], cap));
    if e.Read? && v.log != m.log {
      var n' := |e.bytes.value|;
      assert out[..n'] == e.bytes.value;
      forall k | 0 <= k < |m.log| && Settled(k, out, cap) ensures v.log[k] == m.log[k] {
        CutsAgree(out, n, n', cap, k);
      }
    } else if e.Poll? {
      PollTakesTheRest(m, cap);
    }
  }

  lemma FaithfulBefore(es: seq<Event>, out: Bytes, cap: nat)
    requires es != [] && Faithful(es, out, cap)
    ensures Faithful(es[..|es| - 1], out, cap)
    ensures FaithfulRead(After(es[..|es| - 1], cap), es[|es| - 1], out, cap)
  {
    var before := es[..|es| - 1];
    forall i | 0 <= i < |before| ensures FaithfulRead(After(before[..i], cap), before[i], out, cap) {
      assert before[..i] == es[..i];
    }
  }

  lemma {:induction false} AllConsistent(es: seq<Event>, out: Bytes, cap: nat)
    requires Faithful(es, out, cap)
    ensures Consistent(After(es, cap), out, cap)
  {
    if es == [] {
      assert out[..0] == "";
    } else {
      FaithfulBefore(es, out, cap);
      AllConsistent(es[..|es| - 1], out, cap);
      ConsistentStep(After(es[..|es| - 1], cap), es[|es| - 1], out, cap);
    }
  }

  /** Once a settled offset is stored, its byte never changes: not by a later read, not by the last line. */
  lemma {:induction false} StoredBytesStay(es: seq<Event>, i: nat, out: Bytes, cap: nat, k: nat)
    requires Faithful(es, out, cap) && i <= |es| && Settled(k, out, cap)
    requires k < |After(es[..i], cap).log|
    ensures k < |After(es, cap).log| && After(es, cap).log[k] == After(es[..i], cap).log[k]
    decreases |es|
  {
    if i == |es| {
      assert es[..i] == es;
    } else {
      var before := es[..|es| - 1];
      FaithfulBefore(es, out, cap);
      assert before[..i] == es[..i];
      StoredBytesStay(before, i, out, cap, k);
      AllConsistent(before, out, cap);
      ConsistentStep(After(before, cap), es[|es| - 1], out, cap);
    }
  }

  /**
   A client that asks each time from where it left off, and puts the answers together, has the log that is stored now at
   every settled offset; having just asked, it has all of its length.
   */
  lemma PollsMakeTheLog(es: seq<Event>, out: Bytes, cap: nat)
    requires Faithful(es, out, cap)
    ensures var m := After(es, cap);
      && |m.got| <= |m.log|
      && (es != [] && es[|es| - 1] == Poll ==> |m.got| == |m.log|)
      && (|out| <= cap ==> m.got <= m.log)
      && forall k | 0 <= k < |m.got| && Settled(k, out, cap) :: m.got[k] == m.log[k]
  {
    hide Keep, TruncateLog;
    AllConsistent(es, out, cap);
    if es != [] && es[|es| - 1] == Poll {
      FaithfulBefore(es, out, cap);
      AllConsistent(es[..|es| - 1], out, cap);
    }
  }

  /**
   Every other offset does change under a client, for some output: one read fills the log to the cap, the client takes
   it, and the next read puts the marker over its end.
   */
  lemma OtherOffsetsChange(cap: nat, k: nat) returns (es: seq<Event>, out: Bytes)
    requires Keep(cap) <= k < cap
    ensures Faithful(es, out, cap) && !Settled(k, out, cap)
    ensures var m := After(es, cap); k < |m.got| == |m.log| && m.got[k] != m.log[k]
  {
    hide Marker, After;
    var b := if Marker(cap)[k - Keep(cap)] == 'x' then 'y' else 'x';
    out := seq(cap + 1, _ => b);
    es := [Read(Some(out[..cap])), Poll, Read(Some(out))];
    FilledThenMarked(out, cap, es);
  }

  lemma FilledThenMarked(out: Bytes, cap: nat, es: seq<Event>)
    requires |out| == cap + 1 && cap > 0 && es == [Read(Some(out[..cap])), Poll, Read(Some(out))]
    ensures After(es[..0], cap) == START && After(es[..1], cap) == Mirror(out[..cap], "", false)
    ensures After(es[..2], cap) == Mirror(out[..cap], out[..cap], false)
    ensures After(es, cap) == Mirror(TruncateLog(out, cap), out[..cap], false)
  {
    hide TruncateLog;
    var filled := Mirror(out[..cap], "", false);
    assert es[..1][..0] == es[..0] && es[..2][..1] == es[..1];
    PollTakesTheRest(filled, cap);
  }

  // ---------- What is stored ----------

  /** Cut output is its own beginning and then the marker, which says so; of a marker over the cap, what fits. */
  lemma CutSaysSo(data: Bytes, cap: nat)
    requires |data| > cap
    ensures var marker := "\n[log truncated: build produced more than " + Decimal(cap) + " bytes]\n";
      TruncateLog(data, cap) == if cap < |marker| then marker[..cap] else data[..cap - |marker|] + marker
  {
    var marker := Marker(cap);
    assert marker[..|marker|] == marker;
  }

  /** A read that fits and says as much as what is stored is what is stored afterwards; a shorter one is not. */
  lemma MergesExactly(stored: Bytes, read: Bytes, cap: nat)
    ensures |stored| <= |read| <= cap ==> MergeLog(stored, Some(read), cap) == read
    ensures |read| < |stored| ==> MergeLog(stored, Some(read), cap) == stored
    ensures |read| > cap && |stored| <= cap ==> MergeLog(stored, Some(read), cap) == TruncateLog(read, cap)
    ensures MergeLog(stored, None, cap) == stored
  {
  }

  /** What a read brought, cut; empty if it brought nothing. */
  function Brought(e: Event, cap: nat): Bytes {
    if e.Read? && e.bytes.Some? then TruncateLog(e.bytes.value, cap) else ""
  }

  /** No read has brought more, nor as much later. */
  predicate LongestRead(es: seq<Event>, cap: nat, i: nat) {
    && i < |es| && Brought(es[i], cap) != ""
    && forall k | 0 <= k < |es| ::
         |Brought(es[k], cap)| <= |Brought(es[i], cap)| && (k > i ==> |Brought(es[k], cap)| < |Brought(es[i], cap)|)
  }

  lemma MergeBrought(m: Mirror, e: Event, cap: nat)
    requires cap > 0 && !e.Close? && !m.closed
    ensures var v := Next(m, e, cap);
      !v.closed && v.log == if Brought(e, cap) == "" || |Brought(e, cap)| < |m.log| then m.log else Brought(e, cap)
  {
  }

  /** The log is what the latest of the longest reads brought, or none has brought anything. */
  ghost predicate IsLongestRead(log: Bytes, es: seq<Event>, cap: nat) {
    if log == "" then forall k | 0 <= k < |es| :: Brought(es[k], cap) == ""
    else exists i: nat | i < |es| :: LongestRead(es, cap, i) && log == Brought(es[i], cap)
  }

  lemma LongestStep(log: Bytes, es: seq<Event>, cap: nat)
    requires es != [] && IsLongestRead(log, es[..|es| - 1], cap)
    ensures var brought := Brought(es[|es| - 1], cap);
      IsLongestRead(if brought == "" || |brought| < |log| then log else brought, es, cap)
  {
    hide Brought, LongestRead;
    var n := |es| - 1;
    var front := es[..n];
    if log != "" {
      var i: nat :| i < n && LongestRead(front, cap, i) && log == Brought(front[i], cap);
      LongestAfter(es, cap, i);
      assert front[i] == es[i];
    } else {
      assert forall k | 0 <= k < n :: Brought(es[k], cap) == Brought(front[k], cap);
      if Brought(es[n], cap) != "" { FirstIsLongest(es, cap); }
    }
  }

  /** So it is, until its last line is added. */
  lemma {:induction false} LogIsLongestRead(es: seq<Event>, cap: nat)
    requires cap > 0 && forall k | 0 <= k < |es| :: !es[k].Close?
    ensures !After(es, cap).closed && IsLongestRead(After(es, cap).log, es, cap)
  {
    hide Brought, IsLongestRead, Next;
    if es == [] {
      assert IsLongestRead("", es, cap) by { NothingRead(cap); }
    } else {
      var n := |es| - 1;
      LogIsLongestRead(es[..n], cap);
      MergeBrought(After(es[..n], cap), es[n], cap);
      LongestStep(After(es[..n], cap).log, es, cap);
    }
  }

  lemma NothingRead(cap: nat)
    ensures IsLongestRead("", [], cap)
  {
  }

  lemma FirstIsLongest(es: seq<Event>, cap: nat)
    requires es != [] && Brought(es[|es| - 1], cap) != ""
    requires forall k | 0 <= k < |es| - 1 :: Brought(es[k], cap) == ""
    ensures LongestRead(es, cap, |es| - 1)
  {
  }

  lemma LongestAfter(es: seq<Event>, cap: nat, i: nat)
    requires es != [] && LongestRead(es[..|es| - 1], cap, i)
    ensures var n := |es| - 1;
      && i < n && es[..n][i] == es[i] && Brought(es[i], cap) != ""
      && if |Brought(es[n], cap)| < |Brought(es[i], cap)| then LongestRead(es, cap, i) else LongestRead(es, cap, n)
  {
    hide Brought;
    var front := es[..|es| - 1];
    assert forall k | 0 <= k < |front| :: front[k] == es[k];
  }

  /** The line is added once, however often the build is closed. */
  lemma ClosesOnce(es: seq<Event>, line: Bytes, cap: nat)
    ensures var m, n := After(es, cap), After(es + [Close(line)], cap);
      && n.closed && n.got == m.got
      && n.log == if exists i | 0 <= i < |es| :: es[i].Close? then m.log else AppendLine(m.log, line)
  {
    assert (es + [Close(line)])[..|es|] == es;
    ClosedExactly(es, cap);
  }

  lemma {:induction false} ClosedExactly(es: seq<Event>, cap: nat)
    ensures After(es, cap).closed <==> exists i | 0 <= i < |es| :: es[i].Close?
  {
    if es != [] {
      var n := |es| - 1;
      ClosedExactly(es[..n], cap);
      assert forall i | 0 <= i < n :: es[..n][i] == es[i];
    }
  }

  /** The platform's line comes last, at the start of a line, after all that was stored. */
  lemma LineComesLast(stored: Bytes, line: Bytes)
    ensures var r := AppendLine(stored, line);
      var at := |r| - |line|;
      && at >= |stored| && r[..|stored|] == stored && r[at..] == line
      && (at == 0 || r[at - 1] == '\n') && at - |stored| <= 1
      && (at > |stored| ==> stored != "" && stored[|stored| - 1] != '\n')
  {
  }
}
