/**
 The exporter's activity signal: a cursor that reads Garage's request log window by window, and a cross-check of
 those windows against Garage's own write counter.

 `Log` is the state as a value; `Activity` is the exporter's object, whose methods are proved to compute the functions
 on it. What Loki and Garage answer are parameters.
 */
module ActivityLog {
  /** Nanoseconds. */
  type Time = int

  const SECOND: int := 1_000_000_000
  const MAX_RANGE: int := 3_600_000_000_000
  const WINDOWS: nat := 4
  const READINGS: nat := 3

  function Truncate(t: Time): (s: Time)
    ensures s <= t < s + SECOND
  {
    t / 1_000_000_000 * 1_000_000_000
  }

  predicate Whole(t: Time) {
    Truncate(t) == t
  }

  datatype Window = Window(from: Time, to: Time, lines: nat)

  datatype Reading = Reading(at: Time, value: nat)

  datatype Sample = Sample(bucket: string, lines: nat)

  /** What Loki says to a query, when it is asked one. */
  datatype Answer = Unreachable | Samples(samples: seq<Sample>)

  datatype Log = Log(lag: int, cursor: Time, windows: seq<Window>, readings: seq<Reading>, broken: bool)

  function KeepLast<T>(s: seq<T>, n: nat): (r: seq<T>)
    ensures |r| <= n && |r| <= |s| && r == s[|s| - |r|..]
    ensures |s| <= n ==> r == s
  {
    if |s| > n then s[|s| - n..] else s
  }

  lemma KeepsAsMany<T>(s: seq<T>, n: nat)
    ensures |KeepLast(s, n)| == if |s| > n then n else |s|
  {
  }

  function Total(samples: seq<Sample>): nat {
    if samples == [] then 0 else Total(samples[..|samples| - 1]) + samples[|samples| - 1].lines
  }

  function Buckets(samples: seq<Sample>): seq<string> {
    seq(|samples|, i requires 0 <= i < |samples| => samples[i].bucket)
  }

  /** Where the next range ends: the last whole second before the lag, but at most an hour on. */
  function RangeEnd(a: Log, now: Time): Time {
    var to := Truncate(now - a.lag);
    if to - a.cursor > MAX_RANGE then a.cursor + MAX_RANGE else to
  }

  predicate Due(a: Log, now: Time) {
    a.cursor + SECOND <= RangeEnd(a, now)
  }

  function Consumed(a: Log, now: Time, answer: Answer): Log {
    if Due(a, now) && answer.Samples? then
      var to := RangeEnd(a, now);
      a.(cursor := to, windows := KeepLast(a.windows + [Window(a.cursor, to, Total(answer.samples))], WINDOWS))
    else a
  }

  function CountedAt(a: Log, at: Time, value: nat): Log {
    a.(readings := KeepLast(a.readings + [Reading(at, value)], READINGS))
  }

  /** The latest interval between two readings ending by `readTo`, as its second reading's place; 0 when none does. */
  function Judged(readings: seq<Reading>, readTo: Time): (i: nat)
    ensures i < |readings| || i == 0
    ensures i > 0 ==> readings[i].at <= readTo
    ensures forall j | i < j < |readings| :: j == 0 || readings[j].at > readTo
  {
    if |readings| < 2 then 0
    else if readings[|readings| - 1].at <= readTo then |readings| - 1
    else Judged(readings[..|readings| - 1], readTo)
  }

  predicate Overlaps(w: Window, from: Time, to: Time) {
    from < w.to && w.from < to
  }

  function LinesOver(windows: seq<Window>, from: Time, to: Time): nat {
    if windows == [] then 0
    else
      var last := windows[|windows| - 1];
      LinesOver(windows[..|windows| - 1], from, to) + if Overlaps(last, from, to) then last.lines else 0
  }

  function Verdict(a: Log): bool {
    if a.windows == [] then a.broken
    else
      var i := Judged(a.readings, a.windows[|a.windows| - 1].to);
      if i == 0 || a.readings[i].value <= a.readings[i - 1].value || a.windows[0].from > a.readings[i - 1].at then
        a.broken
      else
        LinesOver(a.windows, a.readings[i - 1].at, a.readings[i].at) == 0
  }

  function Fresh(lag: int, now: Time): Log {
    Log(lag, Truncate(now - lag), [], [], false)
  }

  // ---------- The object ----------

  method SumOver(windows: seq<Window>, from: Time, to: Time) returns (lines: nat)
    ensures lines == LinesOver(windows, from, to)
  {
    lines := 0;
    for k := 0 to |windows|
      invariant lines == LinesOver(windows[..k], from, to)
    {
      assert windows[..k + 1][..k] == windows[..k];
      if windows[k].to > from && windows[k].from < to {
        lines := lines + windows[k].lines;
      }
    }
    assert windows[..|windows|] == windows;
  }

  class Activity {
    const lag: int
    var cursor: Time
    var windows: seq<Window>
    var readings: seq<Reading>
    var broken: bool

    ghost function Abs(): Log
      reads this
    {
      Log(lag, cursor, windows, readings, broken)
    }

    constructor (lag: int, now: Time)
      ensures Abs() == Fresh(lag, now)
    {
      this.lag := lag;
      cursor := Truncate(now - lag);
      windows, readings, broken := [], [], false;
    }

    /** `ok` is false when the log was asked and did not answer. */
    method Writes(now: Time, answer: Answer) returns (names: seq<string>, to: Time, ok: bool)
      modifies this`cursor, this`windows
      ensures Abs() == Consumed(old(Abs()), now, answer)
      ensures ok == !(Due(old(Abs()), now) && answer.Unreachable?)
      ensures names == if Due(old(Abs()), now) && answer.Samples? then Buckets(answer.samples) else []
      ensures Due(old(Abs()), now) && answer.Samples? ==>
                |names| == |answer.samples| && forall i | 0 <= i < |names| :: names[i] == answer.samples[i].bucket
      ensures to == cursor
    {
      var from := cursor;
      to := Truncate(now - lag);
      if to - from > MAX_RANGE {
        to := from + MAX_RANGE;
      }
      if to - from < SECOND {
        return [], from, true;
      }
      if answer.Unreachable? {
        return [], from, false;
      }
      var lines := 0;
      names := [];
      for i := 0 to |answer.samples|
        invariant unchanged(this)
        invariant lines == Total(answer.samples[..i])
        invariant names == Buckets(answer.samples[..i])
      {
        assert answer.samples[..i + 1][..i] == answer.samples[..i];
        names := names + [answer.samples[i].bucket];
        lines := lines + answer.samples[i].lines;
      }
      assert answer.samples[..|answer.samples|] == answer.samples;
      cursor := to;
      windows := KeepLast(windows + [Window(from, to, lines)], WINDOWS);
      ok := true;
    }

    method Counted(at: Time, value: nat)
      modifies this`readings
      ensures Abs() == CountedAt(old(Abs()), at, value)
    {
      readings := KeepLast(readings + [Reading(at, value)], READINGS);
    }

    method Broken() returns (verdict: bool)
      modifies this`broken
      ensures verdict == Verdict(old(Abs()))
      ensures Abs() == old(Abs()).(broken := verdict)
    {
      hide Judged, LinesOver;
      if |windows| == 0 {
        return broken;
      }
      var rs, ws := readings, windows;
      var readTo := ws[|ws| - 1].to;
      var i := |rs| - 1;
      while i > 0 && rs[i].at > readTo
        invariant -1 <= i < |rs| && (i == -1 ==> rs == [])
        invariant forall j | i < j < |rs| :: rs[j].at > readTo
      {
        i := i - 1;
      }
      JudgedIs(rs, readTo, i);
      if i > 0 {
        var before, after := rs[i - 1], rs[i];
        if after.value <= before.value {
        } else if ws[0].from > before.at {
        } else {
          var lines := SumOver(ws, before.at, after.at);
          broken := lines == 0;
        }
      }
      return broken;
    }
  }

  /** What `Judged` promises leaves it one value. */
  lemma JudgedIs(readings: seq<Reading>, readTo: Time, i: int)
    requires -1 <= i < |readings| && (i > 0 ==> readings[i].at <= readTo)
    requires forall j | i < j < |readings| :: readings[j].at > readTo
    ensures Judged(readings, readTo) == if i > 0 then i else 0
  {
    hide Judged;
  }

  // ---------- The world the signal is about ----------

  datatype Line = Line(bucket: string, at: Time)

  /** When Garage served writes, when it restarted, and the write lines it logged. */
  datatype World = World(writes: seq<Time>, restarts: seq<Time>, lines: seq<Line>)

  /** When the lines of some buckets were logged. */
  function TimesOf(lines: seq<Line>, buckets: set<string>): seq<Time> {
    if lines == [] then []
    else (if lines[0].bucket in buckets then [lines[0].at] else []) + TimesOf(lines[1..], buckets)
  }

  /** When any line was logged. */
  function Times(lines: seq<Line>): seq<Time> {
    seq(|lines|, i requires 0 <= i < |lines| => lines[i].at)
  }

  /** How many of `times` fall after `from` and by `to`. */
  function CountIn(times: seq<Time>, from: Time, to: Time): nat {
    if times == [] then 0
    else CountIn(times[1..], from, to) + if from < times[0] <= to then 1 else 0
  }

  predicate SinceRestart(w: World, write: Time, at: Time) {
    write <= at && forall r | r in w.restarts :: !(write <= r <= at)
  }

  function CountSince(w: World, writes: seq<Time>, at: Time): nat {
    if writes == [] then 0
    else CountSince(w, writes[1..], at) + if SinceRestart(w, writes[0], at) then 1 else 0
  }

  /** Garage's write counter: the writes served since it last started. */
  function Counter(w: World, at: Time): nat {
    CountSince(w, w.writes, at)
  }

  ghost predicate EveryWriteLogged(w: World) {
    forall t | t in w.writes :: t in Times(w.lines)
  }

  lemma {:induction false} CountSplit(times: seq<Time>, from: Time, mid: Time, to: Time)
    requires from <= mid <= to
    ensures CountIn(times, from, to) == CountIn(times, from, mid) + CountIn(times, mid, to)
  {
    if times != [] {
      CountSplit(times[1..], from, mid, to);
    }
  }

  lemma {:induction false} CountWitness(times: seq<Time>, from: Time, to: Time)
    ensures CountIn(times, from, to) > 0 <==> exists t | t in times :: from < t <= to
  {
    if times != [] {
      CountWitness(times[1..], from, to);
      if t :| t in times && from < t <= to && t != times[0] {
        assert t in times[1..];
      }
      if t :| t in times[1..] && from < t <= to {
        assert t in times;
      }
      if from < times[0] <= to {
        assert times[0] in times;
      }
    }
  }

  lemma {:induction false} NoWriteNoRise(w: World, writes: seq<Time>, from: Time, to: Time)
    requires from <= to && forall t | t in writes :: !(from < t <= to)
    ensures CountSince(w, writes, to) <= CountSince(w, writes, from)
  {
    if writes != [] {
      assert writes[0] in writes && forall t | t in writes[1..] :: t in writes;
      assert SinceRestart(w, writes[0], to) ==> SinceRestart(w, writes[0], from);
      NoWriteNoRise(w, writes[1..], from, to);
    }
  }

  /** The counter rises over an interval only by a write in it, restarts or not; if every write is logged, a line is. */
  lemma RiseIsLogged(w: World, from: Time, to: Time)
    requires from <= to && EveryWriteLogged(w) && Counter(w, to) > Counter(w, from)
    ensures CountIn(Times(w.lines), from, to) > 0
  {
    if forall t | t in w.writes :: !(from < t <= to) {
      NoWriteNoRise(w, w.writes, from, to);
    }
    CountWitness(Times(w.lines), from, to);
  }

  // ---------- Every reachable state ----------

  datatype Call = Count(at: Time, value: nat) | Ask(now: Time, answer: Answer) | Judge

  function Do(a: Log, c: Call): Log {
    match c
    case Count(at, value) => CountedAt(a, at, value)
    case Ask(now, answer) => Consumed(a, now, answer)
    case Judge => a.(broken := Verdict(a))
  }

  ghost predicate Tile(w: Window) {
    Whole(w.from) && Whole(w.to) && w.from < w.to <= w.from + MAX_RANGE
  }

  /** The retained windows are whole seconds, one after the other without gap or overlap, up to the cursor. */
  ghost predicate Tiled(a: Log) {
    && Whole(a.cursor)
    && (forall i | 0 <= i < |a.windows| :: Tile(a.windows[i]))
    && (forall i | 0 <= i < |a.windows| - 1 :: a.windows[i].to == a.windows[i + 1].from)
    && (a.windows != [] ==> a.windows[|a.windows| - 1].to == a.cursor)
  }

  lemma WholeSteps(from: Time, to: Time)
    requires Whole(from) && Whole(to) && from < to
    ensures from + SECOND <= to
  {
  }

  lemma {:induction false} NoneOver(windows: seq<Window>, from: Time, to: Time)
    ensures LinesOver(windows, from, to) == 0 <==>
      forall k | 0 <= k < |windows| && from < windows[k].to && windows[k].from < to :: windows[k].lines == 0
  {
    if windows != [] {
      NoneOver(windows[..|windows| - 1], from, to);
      assert forall k | 0 <= k < |windows| - 1 :: windows[..|windows| - 1][k] == windows[k];
    }
  }

  /**
   Reading `i` is the latest that the log has been read past. The counter having risen since the reading before it, the
   verdict is that no window overlapping that interval has a line; with no rise, no reading before it, or windows that
   begin later, the last verdict stands.
   */
  lemma VerdictExactly(a: Log, i: nat)
    requires a.windows != [] && i < |a.readings| && a.readings[i].at <= a.windows[|a.windows| - 1].to
    requires forall k | i < k < |a.readings| :: a.readings[k].at > a.windows[|a.windows| - 1].to
    ensures Verdict(a) ==
      if i == 0 || a.readings[i].value <= a.readings[i - 1].value || a.windows[0].from > a.readings[i - 1].at
      then a.broken
      else forall k | 0 <= k < |a.windows| && a.readings[i - 1].at < a.windows[k].to
                      && a.windows[k].from < a.readings[i].at :: a.windows[k].lines == 0
  {
    if i > 0 { NoneOver(a.windows, a.readings[i - 1].at, a.readings[i].at); }
  }

  /** Four windows and three readings are held, the latest. */
  lemma HoldsTheLatest(a: Log, now: Time, samples: seq<Sample>, value: nat)
    ensures var b := Consumed(a, now, Samples(samples));
      Due(a, now) ==> |b.windows| == (if |a.windows| < 4 then |a.windows| + 1 else 4)
                      && b.windows[|b.windows| - 1] == Window(a.cursor, b.cursor, Total(samples))
    ensures var c := CountedAt(a, now, value);
      |c.readings| == (if |a.readings| < 3 then |a.readings| + 1 else 3)
      && c.readings[|c.readings| - 1] == Reading(now, value)
  {
    hide RangeEnd, Due, Total;
    KeepsAsMany(a.windows + [Window(a.cursor, RangeEnd(a, now), Total(samples))], WINDOWS);
    KeepsAsMany(a.readings + [Reading(now, value)], READINGS);
  }

  lemma WholeBelow(t: Time, now: Time)
    requires Whole(t) && t <= now
    ensures t <= Truncate(now)
  {
  }

  lemma WholeHourOn(t: Time)
    requires Whole(t)
    ensures Whole(t + MAX_RANGE)
  {
  }

  /** A range ends at the last whole second that is a lag ago and within the hour. */
  lemma RangeEndIsLatest(a: Log, now: Time, t: Time)
    requires Whole(a.cursor)
    ensures var to := RangeEnd(a, now); Whole(to) && to <= now - a.lag && to <= a.cursor + MAX_RANGE
    ensures Whole(t) && t <= now - a.lag && t <= a.cursor + MAX_RANGE ==> t <= RangeEnd(a, now)
  {
    hide Truncate, Whole;
    TruncateWhole(now - a.lag);
    WholeHourOn(a.cursor);
    if Whole(t) && t <= now - a.lag { WholeBelow(t, now - a.lag); }
  }

  /** However often a query fails, is clamped to an hour or has nothing to ask, and whatever the clock does. */
  lemma TiledStays(a: Log, c: Call)
    requires Tiled(a)
    ensures Tiled(Do(a, c))
  {
    if c.Ask? && Due(a, c.now) && c.answer.Samples? {
      hide RangeEnd, Truncate, Whole, Total, Tile, KeepLast;
      RangeEndIsLatest(a, c.now, a.cursor);
      TileAhead(a, c.now, Total(c.answer.samples));
      TilesOn(a, Window(a.cursor, RangeEnd(a, c.now), Total(c.answer.samples)));
    }
  }

  lemma TileAhead(a: Log, now: Time, lines: nat)
    requires Whole(a.cursor) && Due(a, now)
    ensures Tile(Window(a.cursor, RangeEnd(a, now), lines))
  {
    hide RangeEnd, Whole;
    RangeEndIsLatest(a, now, a.cursor);
  }

  /** Another window from the cursor on leaves the retained ones tiled. */
  lemma TilesOn(a: Log, w: Window)
    requires Tiled(a) && Tile(w) && w.from == a.cursor && Whole(w.to)
    ensures Tiled(a.(cursor := w.to, windows := KeepLast(a.windows + [w], WINDOWS)))
  {
    hide Whole, Tile, KeepLast;
    var more := a.windows + [w];
    var kept := KeepLast(more, WINDOWS);
    var k := |more| - |kept|;
    assert forall i | 0 <= i < |more| :: Tile(more[i]);
    assert forall i | 0 <= i < |more| - 1 :: more[i].to == more[i + 1].from;
    assert forall i | 0 <= i < |kept| :: kept[i] == more[k + i];
    KeepsAsMany(more, WINDOWS);
  }

  /**
   Loki's answer for a range is true: no bucket is reported twice, each is reported with the lines it has in the range,
   and none that has any is left out.
   */
  ghost predicate TrueAnswer(w: World, from: Time, to: Time, samples: seq<Sample>) {
    && (forall i, j | 0 <= i < j < |samples| :: samples[i].bucket != samples[j].bucket)
    && (forall i | 0 <= i < |samples| ::
         samples[i].lines == CountIn(TimesOf(w.lines, {samples[i].bucket}), from, to))
    && forall k | 0 <= k < |w.lines| && from < w.lines[k].at <= to :: Reported(samples, w.lines[k].bucket)
  }

  predicate Reported(samples: seq<Sample>, bucket: string) {
    exists i | 0 <= i < |samples| :: samples[i].bucket == bucket
  }

  /** The buckets of the first `n` samples. */
  function Named(samples: seq<Sample>, n: nat): set<string>
    requires n <= |samples|
  {
    set i | 0 <= i < n :: samples[i].bucket
  }

  lemma {:induction false} OneMoreBucket(lines: seq<Line>, buckets: set<string>, b: string, from: Time, to: Time)
    requires b !in buckets
    ensures CountIn(TimesOf(lines, buckets + {b}), from, to) ==
            CountIn(TimesOf(lines, buckets), from, to) + CountIn(TimesOf(lines, {b}), from, to)
  {
    if lines != [] {
      OneMoreBucket(lines[1..], buckets, b, from, to);
      FirstTime(lines, buckets + {b}, from, to);
      FirstTime(lines, buckets, from, to);
      FirstTime(lines, {b}, from, to);
    }
  }

  lemma FirstTime(lines: seq<Line>, buckets: set<string>, from: Time, to: Time)
    requires lines != []
    ensures CountIn(TimesOf(lines, buckets), from, to) ==
            CountIn(TimesOf(lines[1..], buckets), from, to)
            + if lines[0].bucket in buckets && from < lines[0].at <= to then 1 else 0
  {
    if lines[0].bucket in buckets {
      assert TimesOf(lines, buckets)[1..] == TimesOf(lines[1..], buckets);
    } else {
      assert TimesOf(lines, buckets) == TimesOf(lines[1..], buckets);
    }
  }

  lemma {:induction false} EveryBucket(lines: seq<Line>, buckets: set<string>, from: Time, to: Time)
    requires forall k | 0 <= k < |lines| && from < lines[k].at <= to :: lines[k].bucket in buckets
    ensures CountIn(TimesOf(lines, buckets), from, to) == CountIn(Times(lines), from, to)
  {
    if lines != [] {
      assert Times(lines)[1..] == Times(lines[1..]);
      EveryBucket(lines[1..], buckets, from, to);
      FirstTime(lines, buckets, from, to);
    }
  }

  lemma {:induction false} NoBucket(lines: seq<Line>, from: Time, to: Time)
    ensures TimesOf(lines, {}) == []
  {
    if lines != [] { NoBucket(lines[1..], from, to); }
  }

  lemma {:induction false} TotalOfNamed(w: World, from: Time, to: Time, samples: seq<Sample>)
    requires forall i, j | 0 <= i < j < |samples| :: samples[i].bucket != samples[j].bucket
    requires forall i | 0 <= i < |samples| ::
      samples[i].lines == CountIn(TimesOf(w.lines, {samples[i].bucket}), from, to)
    ensures Total(samples) == CountIn(TimesOf(w.lines, Named(samples, |samples|)), from, to)
  {
    if samples == [] {
      NoBucket(w.lines, from, to);
      assert Named(samples, 0) == {};
    } else {
      var n := |samples| - 1;
      TotalOfNamed(w, from, to, samples[..n]);
      OneMoreBucket(w.lines, Named(samples[..n], n), samples[n].bucket, from, to);
      assert Named(samples, |samples|) == Named(samples[..n], n) + {samples[n].bucket};
    }
  }

  /** What a refresh makes of a true answer's samples is the number of lines the world has in the range. */
  lemma TotalIsCount(w: World, from: Time, to: Time, samples: seq<Sample>)
    requires TrueAnswer(w, from, to, samples)
    ensures Total(samples) == CountIn(Times(w.lines), from, to)
  {
    TotalOfNamed(w, from, to, samples);
    forall k | 0 <= k < |w.lines| && from < w.lines[k].at <= to
      ensures w.lines[k].bucket in Named(samples, |samples|)
    {
      assert Reported(samples, w.lines[k].bucket);
    }
    EveryBucket(w.lines, Named(samples, |samples|), from, to);
  }

  /** No sample has any line. */
  predicate NoLines(samples: seq<Sample>) {
    forall i | 0 <= i < |samples| :: samples[i].lines == 0
  }

  /** That is none exactly when every sample is empty, true or not. */
  lemma {:induction false} TotalIsNone(samples: seq<Sample>)
    ensures Total(samples) == 0 <==> NoLines(samples)
  {
    if samples != [] {
      var n := |samples| - 1;
      TotalIsNone(samples[..n]);
      assert forall i | 0 <= i < n :: samples[..n][i] == samples[i];
    }
  }

  ghost predicate LineNamed(w: World, from: Time, to: Time, b: string) {
    exists k | 0 <= k < |w.lines| :: w.lines[k].bucket == b && from < w.lines[k].at <= to
  }

  /** And the names it hands on are those of the buckets with lines in the range, if no sample is empty. */
  lemma NamesAreWritten(w: World, from: Time, to: Time, samples: seq<Sample>, b: string)
    requires TrueAnswer(w, from, to, samples) && forall i | 0 <= i < |samples| :: samples[i].lines > 0
    ensures b in Buckets(samples) <==> LineNamed(w, from, to, b)
  {
    if b in Buckets(samples) {
      var i :| 0 <= i < |samples| && Buckets(samples)[i] == b;
      LineOfBucket(w.lines, b, from, to);
    }
    if k :| 0 <= k < |w.lines| && w.lines[k].bucket == b && from < w.lines[k].at <= to {
      assert Reported(samples, w.lines[k].bucket);
      var i :| 0 <= i < |samples| && samples[i].bucket == b;
      assert Buckets(samples)[i] == b;
    }
  }

  lemma {:induction false} LineOfBucket(lines: seq<Line>, b: string, from: Time, to: Time)
    requires CountIn(TimesOf(lines, {b}), from, to) > 0
    ensures exists k | 0 <= k < |lines| :: lines[k].bucket == b && from < lines[k].at <= to
  {
    FirstTime(lines, {b}, from, to);
    if !(lines[0].bucket == b && from < lines[0].at <= to) {
      LineOfBucket(lines[1..], b, from, to);
      var k :| 0 <= k < |lines[1..]| && lines[1..][k].bucket == b && from < lines[1..][k].at <= to;
      assert lines[k + 1].bucket == b;
    }
  }

  /** Loki and Garage answer truly for the world. */
  ghost predicate Honest(w: World, a: Log, c: Call) {
    match c
    case Count(at, value) => value == Counter(w, at)
    case Ask(now, answer) =>
      Due(a, now) && answer.Samples? ==> TrueAnswer(w, a.cursor, RangeEnd(a, now), answer.samples)
    case Judge => true
  }

  function At(c: Call, clock: Time): Time {
    match c
    case Count(at, _) => at
    case Ask(now, _) => now
    case Judge => clock
  }

  ghost predicate LinesTrue(w: World, a: Log) {
    forall i | 0 <= i < |a.windows| :: a.windows[i].lines == CountIn(Times(w.lines), a.windows[i].from, a.windows[i].to)
  }

  ghost predicate ReadingsTrue(w: World, a: Log, clock: Time) {
    && (forall i | 0 <= i < |a.readings| :: a.readings[i].value == Counter(w, a.readings[i].at))
    && (forall i, j | 0 <= i < j < |a.readings| :: a.readings[i].at <= a.readings[j].at)
    && (forall i | 0 <= i < |a.readings| :: a.readings[i].at <= clock)
  }

  ghost predicate Faithful(w: World, a: Log, clock: Time) {
    Tiled(a) && LinesTrue(w, a) && ReadingsTrue(w, a, clock)
  }

  lemma ReadingsTrueStay(w: World, a: Log, at: Time, clock: Time)
    requires ReadingsTrue(w, a, clock) && clock <= at
    ensures ReadingsTrue(w, CountedAt(a, at, Counter(w, at)), at)
  {
    var more := a.readings + [Reading(at, Counter(w, at))];
    assert forall i | 0 <= i < |more| :: more[i].value == Counter(w, more[i].at) && more[i].at <= at;
    assert forall i, j | 0 <= i < j < |more| :: more[i].at <= more[j].at;
  }

  /** A true answer's window is true, and so are those still held. */
  lemma LinesStayTrue(w: World, a: Log, now: Time, samples: seq<Sample>)
    requires LinesTrue(w, a) && Due(a, now) && TrueAnswer(w, a.cursor, RangeEnd(a, now), samples)
    ensures LinesTrue(w, Consumed(a, now, Samples(samples)))
  {
    hide RangeEnd, Due, Total, TrueAnswer, KeepLast, CountIn;
    TotalIsCount(w, a.cursor, RangeEnd(a, now), samples);
    var more := a.windows + [Window(a.cursor, RangeEnd(a, now), Total(samples))];
    var kept := KeepLast(more, WINDOWS);
    assert forall i | 0 <= i < |more| :: more[i].lines == CountIn(Times(w.lines), more[i].from, more[i].to);
    assert forall i | 0 <= i < |kept| :: kept[i] == more[|more| - |kept| + i];
  }

  lemma FaithfulStays(w: World, a: Log, c: Call, clock: Time)
    requires Faithful(w, a, clock) && Honest(w, a, c) && clock <= At(c, clock)
    ensures Faithful(w, Do(a, c), At(c, clock))
  {
    hide Tiled, LinesTrue, ReadingsTrue, RangeEnd, Due, TrueAnswer, KeepLast, Total, Verdict;
    TiledStays(a, c);
    match c {
      case Count(at, value) =>
        ReadingsTrueStay(w, a, at, clock);
        OnlyReadings(w, a, CountedAt(a, at, value));
      case Ask(now, answer) =>
        if Due(a, now) && answer.Samples? { LinesStayTrue(w, a, now, answer.samples); }
        OnlyWindows(w, a, Do(a, c), clock, now);
      case Judge =>
        OnlyReadings(w, a, Do(a, c));
        OnlyWindows(w, a, Do(a, c), clock, clock);
    }
  }

  lemma OnlyReadings(w: World, a: Log, b: Log)
    requires LinesTrue(w, a) && b.windows == a.windows
    ensures LinesTrue(w, b)
  {
    hide CountIn;
  }

  lemma OnlyWindows(w: World, a: Log, b: Log, clock: Time, later: Time)
    requires ReadingsTrue(w, a, clock) && b.readings == a.readings && clock <= later
    ensures ReadingsTrue(w, b, later)
  {
    hide Counter;
  }

  lemma FaithfulLater(w: World, a: Log, clock: Time, later: Time)
    requires Faithful(w, a, clock) && clock <= later
    ensures Faithful(w, a, later)
  {
  }

  /** Windows that tile up to `to` hold, over an interval they cover, every line of it. */
  lemma {:induction false} CoveredLines(w: World, windows: seq<Window>, from: Time, to: Time, line: Time)
    requires windows != [] && windows[0].from <= from < line <= to
    requires line <= windows[|windows| - 1].to
    requires forall i | 0 <= i < |windows| ::
      Tile(windows[i]) && windows[i].lines == CountIn(Times(w.lines), windows[i].from, windows[i].to)
    requires forall i | 0 <= i < |windows| - 1 :: windows[i].to == windows[i + 1].from
    requires line in Times(w.lines)
    ensures LinesOver(windows, from, to) > 0
  {
    var n := |windows| - 1;
    var last := windows[n];
    if last.from < line {
      CountWitness(Times(w.lines), last.from, last.to);
    } else {
      assert n > 0 && windows[n - 1].to == last.from;
      CoveredLines(w, windows[..n], from, to, line);
    }
  }

  /** The verdict is never `broken` unless it was, while every write Garage counts is logged at its time. */
  lemma VerdictSound(w: World, a: Log, clock: Time)
    requires Faithful(w, a, clock) && EveryWriteLogged(w) && Verdict(a)
    ensures a.broken
  {
    if a.windows != [] {
      var readTo := a.windows[|a.windows| - 1].to;
      var i := Judged(a.readings, readTo);
      if i > 0 {
        var before, after := a.readings[i - 1], a.readings[i];
        if after.value > before.value && a.windows[0].from <= before.at {
          RiseIsLogged(w, before.at, after.at);
          CountWitness(Times(w.lines), before.at, after.at);
          var line :| line in Times(w.lines) && before.at < line <= after.at;
          CoveredLines(w, a.windows, before.at, after.at, line);
        }
      }
    }
  }

  ghost predicate HonestRun(w: World, a: Log, cs: seq<Call>, clock: Time)
    decreases |cs|
  {
    cs == []
    || (Honest(w, a, cs[0]) && clock <= At(cs[0], clock) && HonestRun(w, Do(a, cs[0]), cs[1..], At(cs[0], clock)))
  }

  function After(a: Log, cs: seq<Call>): Log
    decreases |cs|
  {
    if cs == [] then a else After(Do(a, cs[0]), cs[1..])
  }

  lemma {:induction false} NoAlarmFrom(w: World, a: Log, cs: seq<Call>, clock: Time)
    requires EveryWriteLogged(w) && HonestRun(w, a, cs, clock)
    requires Faithful(w, a, clock) && !a.broken
    ensures Tiled(After(a, cs)) && !After(a, cs).broken && !Verdict(After(a, cs))
    decreases |cs|
  {
    if Verdict(a) {
      VerdictSound(w, a, clock);
    }
    if cs != [] {
      FaithfulStays(w, a, cs[0], clock);
      NoAlarmFrom(w, Do(a, cs[0]), cs[1..], At(cs[0], clock));
    }
  }

  /**
   No false alarm: if every write is logged at its time, the cross-check accuses the log in no reachable state,
   whatever queries fail, however long the outage a clamped range catches up on, whichever windows have been dropped,
   and however often Garage's counter starts again.
   */
  lemma NoFalseAlarm(w: World, lag: int, start: Time, cs: seq<Call>)
    requires EveryWriteLogged(w) && HonestRun(w, Fresh(lag, start), cs, start)
    ensures var a := After(Fresh(lag, start), cs); Tiled(a) && !a.broken && !Verdict(a)
  {
    NoAlarmFrom(w, Fresh(lag, start), cs, start);
  }

  /** The write lines a run has been shown, in all. */
  function Shown(a: Log, cs: seq<Call>): nat
    decreases |cs|
  {
    if cs == [] then 0
    else
      Shown(Do(a, cs[0]), cs[1..]) +
      if cs[0].Ask? && Due(a, cs[0].now) && cs[0].answer.Samples? then Total(cs[0].answer.samples) else 0
  }

  /** Conservation: a run has been shown each line between its first and last cursor exactly once. */
  lemma {:induction false} EachLineOnce(w: World, a: Log, cs: seq<Call>, clock: Time)
    requires HonestRun(w, a, cs, clock)
    ensures a.cursor <= After(a, cs).cursor
    ensures Shown(a, cs) == CountIn(Times(w.lines), a.cursor, After(a, cs).cursor)
    decreases |cs|
  {
    if cs == [] {
      CountWitness(Times(w.lines), a.cursor, a.cursor);
    } else {
      var b := Do(a, cs[0]);
      if b.cursor != a.cursor { TotalIsCount(w, a.cursor, RangeEnd(a, cs[0].now), cs[0].answer.samples); }
      EachLineOnce(w, b, cs[1..], At(cs[0], clock));
      CountSplit(Times(w.lines), a.cursor, b.cursor, After(b, cs[1..]).cursor);
      CountWitness(Times(w.lines), a.cursor, a.cursor);
    }
  }

  // ---------- Detection ----------

  /** The reads of one refresh, all of which succeed. */
  function ReadAll(a: Log, now: Time, value: nat, samples: seq<Sample>): Log {
    Consumed(CountedAt(a, now, value), now, Samples(samples))
  }

  function Refreshed(a: Log, now: Time, value: nat, samples: seq<Sample>): Log {
    var b := ReadAll(a, now, value, samples);
    b.(broken := Verdict(b))
  }

  /** Far enough apart for the log to be read past the last reading, and near enough not to be clamped. */
  predicate Regular(lag: int, before: Time, now: Time) {
    lag + SECOND <= now - before <= MAX_RANGE - SECOND
  }

  function Edge(a: Log, t: Time): Time {
    Truncate(t - a.lag)
  }

  predicate EndsWith(readings: seq<Reading>, p: Reading, q: Reading) {
    |readings| >= 2 && readings[|readings| - 2] == p && readings[|readings| - 1] == q
  }

  /** As two refreshes, at `p` and `q`, leave it: both readings held, and a window from the one to the other. */
  ghost predicate Steady(a: Log, p: Reading, q: Reading) {
    && Tiled(a)
    && EndsWith(a.readings, p, q)
    && a.windows != [] && a.windows[|a.windows| - 1].from == Edge(a, p.at) && a.cursor == Edge(a, q.at)
  }

  lemma RegularRange(a: Log, p: Time, q: Time)
    requires a.lag > 0 && a.cursor == Edge(a, p) && Regular(a.lag, p, q)
    ensures RangeEnd(a, q) == Edge(a, q) && Due(a, q) && p <= Edge(a, q) < q && Edge(a, p) < p
  {
    hide Truncate, Whole;
    TruncateWhole(p - a.lag);
    TruncateWhole(q - a.lag);
    WholeSteps(Edge(a, p), Edge(a, q));
  }

  lemma TruncateWhole(t: Time)
    ensures Whole(Truncate(t)) && Truncate(t) == t - t % SECOND
  {
  }

  /** A reading of the counter leaves the range to ask for as it was. */
  lemma CountedRange(a: Log, at: Time, value: nat)
    ensures RangeEnd(CountedAt(a, at, value), at) == RangeEnd(a, at)
    ensures Due(CountedAt(a, at, value), at) == Due(a, at)
  {
    hide Truncate, KeepLast;
  }

  /** What a refresh reads when a range is due: one more reading, and one more window. */
  lemma ReadsTo(a: Log, q: Reading, samples: seq<Sample>)
    requires Tiled(a) && Due(a, q.at)
    ensures var b := ReadAll(a, q.at, q.value, samples);
      && b.lag == a.lag && b.broken == a.broken
      && b.readings == KeepLast(a.readings + [q], READINGS)
      && b.windows == KeepLast(a.windows + [Window(a.cursor, RangeEnd(a, q.at), Total(samples))], WINDOWS)
      && b.cursor == RangeEnd(a, q.at)
      && Tiled(b)
  {
    hide Truncate, Whole, RangeEnd, Due, Total, Tiled, KeepLast;
    ReadsToFields(a, q, samples);
    ReadsToTiles(a, q, samples);
  }

  lemma ReadsToFields(a: Log, q: Reading, samples: seq<Sample>)
    requires Due(a, q.at)
    ensures var b := ReadAll(a, q.at, q.value, samples);
      && b.lag == a.lag && b.broken == a.broken
      && b.readings == KeepLast(a.readings + [q], READINGS)
      && b.windows == KeepLast(a.windows + [Window(a.cursor, RangeEnd(a, q.at), Total(samples))], WINDOWS)
      && b.cursor == RangeEnd(a, q.at)
  {
    hide Truncate, RangeEnd, Due, Total, KeepLast;
    CountedRange(a, q.at, q.value);
  }

  lemma ReadsToTiles(a: Log, q: Reading, samples: seq<Sample>)
    requires Tiled(a)
    ensures Tiled(ReadAll(a, q.at, q.value, samples))
  {
    hide Tiled, Consumed, CountedAt;
    TiledStays(a, Count(q.at, q.value));
    TiledStays(CountedAt(a, q.at, q.value), Ask(q.at, Samples(samples)));
  }

  lemma ReadsWindow(a: Log, p: Reading, q: Reading, samples: seq<Sample>)
    requires a.lag > 0 && Tiled(a) && a.cursor == Edge(a, p.at) && Regular(a.lag, p.at, q.at)
    ensures var b := ReadAll(a, q.at, q.value, samples);
      && b.lag == a.lag && b.broken == a.broken
      && b.readings == KeepLast(a.readings + [q], READINGS)
      && b.windows == KeepLast(a.windows + [Window(Edge(a, p.at), Edge(a, q.at), Total(samples))], WINDOWS)
      && b.cursor == Edge(a, q.at)
      && Tiled(b)
  {
    hide Edge, RangeEnd, Due, ReadAll, Tiled, Regular;
    RegularRange(a, p.at, q.at);
    ReadsTo(a, q, samples);
  }

  lemma LeavesSteady(a: Log, p: Reading, q: Reading, samples: seq<Sample>)
    requires a.lag > 0 && Tiled(a) && a.cursor == Edge(a, p.at) && Regular(a.lag, p.at, q.at)
    requires a.readings != [] && a.readings[|a.readings| - 1] == p
    ensures Steady(ReadAll(a, q.at, q.value, samples), p, q)
  {
    hide Truncate, Whole, ReadAll, Tiled, Total;
    ReadsWindow(a, p, q, samples);
  }

  lemma {:induction false} OlderWindows(windows: seq<Window>, from: Time, to: Time)
    requires forall i | 0 <= i < |windows| :: windows[i].to <= from
    ensures LinesOver(windows, from, to) == 0
  {
    if windows != [] {
      OlderWindows(windows[..|windows| - 1], from, to);
    }
  }

  ghost predicate Tiling(windows: seq<Window>) {
    && (forall k | 0 <= k < |windows| :: Tile(windows[k]))
    && (forall k | 0 <= k < |windows| - 1 :: windows[k].to == windows[k + 1].from)
  }

  lemma {:induction false} TilesInOrder(windows: seq<Window>, i: nat)
    requires Tiling(windows) && i < |windows| - 1
    ensures windows[0].from <= windows[i].from
    ensures windows[i].to <= windows[|windows| - 1].from
    decreases |windows|
  {
    var n := |windows| - 1;
    if i < n - 1 {
      TilesInOrder(windows[..n], i);
    } else if i > 0 {
      TilesInOrder(windows[..n], i - 1);
    }
  }

  /** Of windows that tile, just the last two lie over an interval between readings that ends within them. */
  lemma LastTwo(windows: seq<Window>, from: Time, to: Time)
    requires |windows| >= 2 && Tiling(windows)
    requires windows[|windows| - 2].from <= from < windows[|windows| - 2].to
    requires windows[|windows| - 1].from < to
    ensures windows[0].from <= from
    ensures LinesOver(windows, from, to) == windows[|windows| - 2].lines + windows[|windows| - 1].lines
  {
    var n := |windows|;
    var older, newer := windows[..n - 2], windows[..n - 1];
    assert newer[..n - 2] == older;
    TilesInOrder(windows, n - 2);
    forall i | 0 <= i < |older|
      ensures older[i].to <= from
    {
      TilesInOrder(newer, i);
    }
    OlderWindows(older, from, to);
  }

  lemma KeepsThree(readings: seq<Reading>, p: Reading, q: Reading, r: Reading)
    requires EndsWith(readings, p, q)
    ensures KeepLast(readings + [r], READINGS) == [p, q, r]
  {
  }

  lemma JudgedOfThree(p: Reading, q: Reading, r: Reading, readTo: Time)
    requires readTo < r.at
    ensures Judged([p, q, r], readTo) == if q.at <= readTo then 1 else 0
  {
    assert [p, q, r][..2] == [p, q] && [p, q][..1] == [p];
    assert Judged([p], readTo) == 0;
    assert Judged([p, q], readTo) == if q.at <= readTo then 1 else 0;
  }

  lemma VerdictOfThree(b: Log, p: Reading, q: Reading, r: Reading)
    requires b.readings == [p, q, r] && Tiling(b.windows) && |b.windows| >= 2
    requires q.at <= b.windows[|b.windows| - 1].to < r.at
    requires b.windows[|b.windows| - 2].from <= p.at < b.windows[|b.windows| - 2].to
    requires b.windows[|b.windows| - 1].from < q.at
    ensures Verdict(b) ==
      if q.value > p.value then b.windows[|b.windows| - 2].lines + b.windows[|b.windows| - 1].lines == 0
      else b.broken
  {
    JudgedOfThree(p, q, r, b.windows[|b.windows| - 1].to);
    LastTwo(b.windows, p.at, q.at);
  }

  /**
   A third refresh always judges the interval between the two before it when the counter rose over it, and accuses the
   log exactly when it showed no line from the first of the three to the last; otherwise the verdict stands. Three
   readings and four windows are therefore enough.
   */
  lemma Decides(a: Log, p: Reading, q: Reading, r: Reading, samples: seq<Sample>)
    requires a.lag > 0 && Steady(a, p, q) && Regular(a.lag, p.at, q.at) && Regular(a.lag, q.at, r.at)
    ensures Refreshed(a, r.at, r.value, samples).broken ==
      if q.value > p.value then a.windows[|a.windows| - 1].lines == 0 && NoLines(samples) else a.broken
  {
    TotalIsNone(samples);
    var b := ReadAll(a, r.at, r.value, samples);
    ReadsWindow(a, q, r, samples);
    LeavesSteady(a, q, r, samples);
    KeepsThree(a.readings, p, q, r);
    assert p.at <= Edge(a, q.at) && q.at <= Edge(a, r.at) < r.at && Edge(a, q.at) < q.at && Edge(a, p.at) < p.at;
    assert p.at < Edge(a, q.at) by {
      WholeSteps(Edge(a, p.at), Edge(a, q.at));
    }
    VerdictOfThree(b, p, q, r);
  }

  ghost predicate RegularTimes(lag: int, rs: seq<Reading>) {
    forall i | 0 <= i < |rs| - 1 :: Regular(lag, rs[i].at, rs[i + 1].at)
  }

  /** The exporter started at its first refresh, and refreshed at each of `rs`. */
  function Refreshes(lag: int, rs: seq<Reading>, shown: seq<seq<Sample>>): Log
    requires rs != [] && |rs| == |shown|
  {
    var n := |rs| - 1;
    Refreshed(
      if n == 0 then Fresh(lag, rs[0].at) else Refreshes(lag, rs[..n], shown[..n]), rs[n].at, rs[n].value, shown[n])
  }

  lemma FirstRefresh(lag: int, r: Reading, samples: seq<Sample>)
    ensures Refreshed(Fresh(lag, r.at), r.at, r.value, samples) == Log(lag, Truncate(r.at - lag), [], [r], false)
  {
    var a := Fresh(lag, r.at);
    var b := CountedAt(a, r.at, r.value);
    assert b == a.(readings := [r]);
    assert RangeEnd(b, r.at) == b.cursor;
    assert ReadAll(a, r.at, r.value, samples) == b;
  }

  ghost predicate Started(a: Log, lag: int, r: Reading) {
    a.lag == lag && Tiled(a) && a.cursor == Edge(a, r.at) && a.readings != [] && a.readings[|a.readings| - 1] == r
  }

  lemma RefreshAfter(a: Log, p: Reading, q: Reading, samples: seq<Sample>)
    requires a.lag > 0 && Started(a, a.lag, p) && Regular(a.lag, p.at, q.at)
    ensures SteadyWith(Refreshed(a, q.at, q.value, samples), a.lag, p, q, Total(samples))
  {
    hide Truncate, Whole, ReadAll, Tiled, Total, Verdict;
    ReadsWindow(a, p, q, samples);
    LeavesSteady(a, p, q, samples);
    var b := ReadAll(a, q.at, q.value, samples);
    TiledEither(b, Verdict(b));
  }

  /** The verdict is not part of what the windows say. */
  lemma TiledEither(a: Log, verdict: bool)
    requires Tiled(a)
    ensures Tiled(a.(broken := verdict))
  {
    hide Truncate;
  }

  ghost predicate SteadyWith(a: Log, lag: int, p: Reading, q: Reading, lines: nat) {
    Started(a, lag, q) && Steady(a, p, q) && a.windows[|a.windows| - 1].lines == lines
  }

  lemma {:induction false} SteadyAfter(lag: int, rs: seq<Reading>, shown: seq<seq<Sample>>)
    requires lag > 0 && 1 <= |rs| == |shown| && RegularTimes(lag, rs)
    ensures Started(Refreshes(lag, rs, shown), lag, rs[|rs| - 1])
    ensures |rs| > 1 ==>
      SteadyWith(Refreshes(lag, rs, shown), lag, rs[|rs| - 2], rs[|rs| - 1], Total(shown[|rs| - 1]))
  {
    var n := |rs| - 1;
    if n == 0 {
      FirstRefresh(lag, rs[0], shown[0]);
    } else {
      SteadyAfter(lag, rs[..n], shown[..n]);
      assert rs[..n][n - 1] == rs[n - 1];
      RefreshAfter(Refreshes(lag, rs[..n], shown[..n]), rs[n - 1], rs[n], shown[n]);
    }
  }

  /** Detection is live: from the third of any regular refreshes on, each decides the interval just before it. */
  lemma AlwaysDecides(lag: int, rs: seq<Reading>, shown: seq<seq<Sample>>)
    requires lag > 0 && 3 <= |rs| == |shown| && RegularTimes(lag, rs)
    requires rs[|rs| - 2].value > rs[|rs| - 3].value
    ensures Refreshes(lag, rs, shown).broken <==> NoLines(shown[|rs| - 2]) && NoLines(shown[|rs| - 1])
  {
    hide Truncate, Whole, Total, Refreshed, Tiled, Edge, NoLines;
    TotalIsNone(shown[|rs| - 2]);
    var n := |rs| - 1;
    SteadyAfter(lag, rs[..n], shown[..n]);
    assert rs[..n][n - 1] == rs[n - 1] && rs[..n][n - 2] == rs[n - 2];
    Decides(Refreshes(lag, rs[..n], shown[..n]), rs[n - 2], rs[n - 1], rs[n], shown[n]);
  }

  /** In terms of the world: the log is accused exactly when it has no line over the three refreshes' windows. */
  lemma AccusedExactlyWhenSilent(w: World, lag: int, rs: seq<Reading>, shown: seq<seq<Sample>>)
    requires lag > 0 && 3 <= |rs| == |shown| && RegularTimes(lag, rs)
    requires forall i | 0 < i < |rs| ::
      TrueAnswer(w, Truncate(rs[i - 1].at - lag), Truncate(rs[i].at - lag), shown[i])
    requires forall i | 0 <= i < |rs| :: rs[i].value == Counter(w, rs[i].at)
    requires var n := |rs| - 1; Counter(w, rs[n - 1].at) > Counter(w, rs[n - 2].at)
    ensures var n := |rs| - 1;
      Refreshes(lag, rs, shown).broken <==>
      CountIn(Times(w.lines), Truncate(rs[n - 2].at - lag), Truncate(rs[n].at - lag)) == 0
  {
    hide Refreshes, Counter, Total, NoLines, TrueAnswer;
    var n := |rs| - 1;
    AlwaysDecides(lag, rs, shown);
    forall i | n - 1 <= i <= n
      ensures NoLines(shown[i]) <==>
        CountIn(Times(w.lines), Truncate(rs[i - 1].at - lag), Truncate(rs[i].at - lag)) == 0
    {
      TotalIsNone(shown[i]);
      TotalIsCount(w, Truncate(rs[i - 1].at - lag), Truncate(rs[i].at - lag), shown[i]);
    }
    assert Regular(lag, rs[n - 2].at, rs[n - 1].at) && Regular(lag, rs[n - 1].at, rs[n].at);
    CountSplit(Times(w.lines), Truncate(rs[n - 2].at - lag), Truncate(rs[n - 1].at - lag), Truncate(rs[n].at - lag));
  }

  // ---------- Which refreshes decide ----------

  /** The gap is at least the lag and the fraction of a second that truncating loses. */
  predicate Reaches(lag: int, before: Time, now: Time) {
    now - before >= lag + (now - lag) % SECOND
  }

  /** Refreshes in order, and near enough for no range to be clamped. */
  ghost predicate Paced(rs: seq<Reading>) {
    forall i | 0 <= i < |rs| - 1 :: rs[i].at < rs[i + 1].at <= rs[i].at + MAX_RANGE - SECOND
  }

  /** As a refresh at `q`, after any paced ones, leaves it. */
  ghost predicate Caught(a: Log, lag: int, q: Reading) {
    && a.lag == lag && Tiled(a) && a.cursor == Edge(a, q.at)
    && a.readings != [] && a.readings[|a.readings| - 1] == q
  }

  /** And one at `p` before it: the latest window, if any, starts no later than the log was read to then. */
  ghost predicate CaughtTwice(a: Log, lag: int, p: Reading, q: Reading) {
    && Caught(a, lag, q) && EndsWith(a.readings, p, q)
    && (if a.windows == [] then a.cursor else a.windows[|a.windows| - 1].from) <= Edge(a, p.at)
  }

  lemma PacedRange(a: Log, p: Time, q: Time)
    requires a.lag > 0 && a.cursor == Edge(a, p) && p < q <= p + MAX_RANGE - SECOND
    ensures RangeEnd(a, q) == Edge(a, q) < q && (Due(a, q) <==> Edge(a, p) < Edge(a, q))
    ensures Edge(a, p) <= Edge(a, q) && (!Due(a, q) ==> Edge(a, p) == Edge(a, q))
    ensures Reaches(a.lag, p, q) <==> p <= Edge(a, q)
    ensures Reaches(a.lag, p, q) ==> Due(a, q)
  {
    hide Truncate, Whole;
    TruncateWhole(p - a.lag);
    TruncateWhole(q - a.lag);
    TruncateMonotone(p - a.lag, q - a.lag);
    if Edge(a, p) < Edge(a, q) {
      WholeSteps(Edge(a, p), Edge(a, q));
    }
  }

  /** What a refresh reads when no range is due. */
  lemma ReadsNothing(a: Log, q: Reading, samples: seq<Sample>)
    requires !Due(a, q.at)
    ensures ReadAll(a, q.at, q.value, samples) == CountedAt(a, q.at, q.value)
  {
    CountedRange(a, q.at, q.value);
  }

  lemma KeepsTheLatest(readings: seq<Reading>, p: Reading, q: Reading)
    requires readings != [] && readings[|readings| - 1] == p
    ensures EndsWith(KeepLast(readings + [q], READINGS), p, q)
  {
  }

  lemma CatchesUp(a: Log, p: Reading, q: Reading, samples: seq<Sample>)
    requires a.lag > 0 && Caught(a, a.lag, p) && p.at < q.at <= p.at + MAX_RANGE - SECOND
    ensures var b := ReadAll(a, q.at, q.value, samples); CaughtTwice(b, a.lag, p, q) && b.broken == a.broken
  {
    hide Truncate, Whole, RangeEnd, Due, ReadAll, Total, Reaches, Tiled;
    PacedRange(a, p.at, q.at);
    KeepsTheLatest(a.readings, p, q);
    if Due(a, q.at) {
      CatchesUpTo(a, p, q, samples);
    } else {
      ReadsNothing(a, q, samples);
      TiledStays(a, Count(q.at, q.value));
      if a.windows != [] {
        LatestStartsBefore(a);
      }
    }
  }

  lemma LatestStartsBefore(a: Log)
    requires Tiled(a) && a.windows != []
    ensures a.windows[|a.windows| - 1].from < a.cursor
  {
    assert Tile(a.windows[|a.windows| - 1]);
  }

  lemma CatchesUpTo(a: Log, p: Reading, q: Reading, samples: seq<Sample>)
    requires Caught(a, a.lag, p) && Due(a, q.at) && RangeEnd(a, q.at) == Edge(a, q.at)
    ensures var b := ReadAll(a, q.at, q.value, samples); CaughtTwice(b, a.lag, p, q) && b.broken == a.broken
  {
    hide Truncate, Whole, RangeEnd, Due, ReadAll, Total, Tiled, EndsWith;
    KeepsTheLatest(a.readings, p, q);
    ReadsTo(a, q, samples);
  }

  /**
   A refresh judges the interval before its own exactly when it reaches back past that interval's end, and never
   another.
   */
  lemma DecidesExactlyWhen(a: Log, p: Reading, q: Reading, r: Reading, samples: seq<Sample>)
    requires a.lag > 0 && Caught(a, a.lag, q) && EndsWith(a.readings, p, q)
    requires q.at < r.at <= q.at + MAX_RANGE - SECOND
    ensures var b := ReadAll(a, r.at, r.value, samples);
      && b.readings == [p, q, r] && b.cursor == Edge(a, r.at)
      && Judged(b.readings, b.cursor) == if Reaches(a.lag, q.at, r.at) then 1 else 0
  {
    hide Truncate, Whole, RangeEnd, Due, ReadAll, Total, Reaches, Tiled;
    PacedRange(a, q.at, r.at);
    KeepsThree(a.readings, p, q, r);
    JudgedOfThree(p, q, r, Edge(a, r.at));
    if Due(a, r.at) {
      ReadsTo(a, r, samples);
    } else {
      ReadsNothing(a, r, samples);
    }
  }

  /** The windows still held then cover that interval. */
  lemma StillCovered(a: Log, p: Reading, q: Reading, r: Reading, samples: seq<Sample>)
    requires a.lag > 0 && CaughtTwice(a, a.lag, p, q) && q.at < r.at <= q.at + MAX_RANGE - SECOND
    requires Due(a, r.at)
    ensures var b := ReadAll(a, r.at, r.value, samples);
      b.windows != [] && b.windows[|b.windows| - 1].to == b.cursor && b.windows[0].from <= p.at
  {
    hide Truncate, Whole, RangeEnd, Due, ReadAll, Total, Tiled, Edge;
    ReadsTo(a, r, samples);
    EdgeIsBefore(a, p.at);
    TiledWindows(a);
    TiledWindows(ReadAll(a, r.at, r.value, samples));
    FirstOfMore(a.windows, Window(a.cursor, RangeEnd(a, r.at), Total(samples)));
  }

  lemma TiledWindows(a: Log)
    requires Tiled(a)
    ensures Tiling(a.windows) && (a.windows != [] ==> a.windows[|a.windows| - 1].to == a.cursor)
  {
    hide Truncate;
  }

  /** With one more window there is still the one before it, and all those held are no later. */
  lemma FirstOfMore(windows: seq<Window>, last: Window)
    requires var more := KeepLast(windows + [last], WINDOWS); Tiling(more)
    ensures var more := KeepLast(windows + [last], WINDOWS);
      more != [] && more[|more| - 1] == last &&
      more[0].from <= if windows == [] then last.from else windows[|windows| - 1].from
  {
    hide Tile;
    var more := KeepLast(windows + [last], WINDOWS);
    if windows != [] {
      assert more[|more| - 2] == windows[|windows| - 1];
      TilesInOrder(more, |more| - 2);
    }
  }

  lemma EdgeIsBefore(a: Log, t: Time)
    requires a.lag > 0
    ensures Edge(a, t) < t
  {
  }

  /** So it settles the verdict by the lines shown over that interval if it reaches it, and else lets it stand. */
  lemma RefreshDecides(a: Log, p: Reading, q: Reading, r: Reading, samples: seq<Sample>)
    requires a.lag > 0 && CaughtTwice(a, a.lag, p, q) && q.at < r.at <= q.at + MAX_RANGE - SECOND
    ensures var b := ReadAll(a, r.at, r.value, samples);
      Verdict(b) ==
      if Reaches(a.lag, q.at, r.at) && q.value > p.value then LinesOver(b.windows, p.at, q.at) == 0 else a.broken
  {
    hide Truncate, Whole, RangeEnd, Due, ReadAll, Total, Reaches, Judged, LinesOver;
    var b := ReadAll(a, r.at, r.value, samples);
    DecidesExactlyWhen(a, p, q, r, samples);
    PacedRange(a, q.at, r.at);
    CatchesUp(a, q, r, samples);
    if Due(a, r.at) {
      StillCovered(a, p, q, r, samples);
    }
  }

  lemma {:induction false} CaughtAfter(lag: int, rs: seq<Reading>, shown: seq<seq<Sample>>)
    requires lag > 0 && 1 <= |rs| == |shown| && Paced(rs)
    ensures Caught(Refreshes(lag, rs, shown), lag, rs[|rs| - 1])
    ensures |rs| > 1 ==> CaughtTwice(Refreshes(lag, rs, shown), lag, rs[|rs| - 2], rs[|rs| - 1])
  {
    hide Truncate, Whole, ReadAll, Total, Verdict;
    var n := |rs| - 1;
    if n == 0 {
      FirstRefresh(lag, rs[0], shown[0]);
      FirstIsTiled(lag, rs[0]);
    } else {
      CaughtAfter(lag, rs[..n], shown[..n]);
      assert rs[..n][n - 1] == rs[n - 1];
      var a := Refreshes(lag, rs[..n], shown[..n]);
      CatchesUp(a, rs[n - 1], rs[n], shown[n]);
      var b := ReadAll(a, rs[n].at, rs[n].value, shown[n]);
      TiledEither(b, Verdict(b));
    }
  }

  lemma FirstIsTiled(lag: int, r: Reading)
    ensures Tiled(Log(lag, Truncate(r.at - lag), [], [r], false))
  {
  }

  /**
   Exactly which refreshes decide: of any paced ones, from the third on, each settles by the lines shown it whether
   the counter's rise over the interval before its own was logged if it reaches back to the end of that interval, and
   lets the verdict stand if it does not.
   */
  lemma DecidesExactly(lag: int, rs: seq<Reading>, shown: seq<seq<Sample>>)
    requires lag > 0 && 3 <= |rs| == |shown| && Paced(rs)
    ensures var n := |rs| - 1;
      var p, q, r := rs[n - 2], rs[n - 1], rs[n];
      Refreshes(lag, rs, shown).broken ==
      if Reaches(lag, q.at, r.at) && q.value > p.value
      then LinesOver(Refreshes(lag, rs, shown).windows, p.at, q.at) == 0
      else Refreshes(lag, rs[..n], shown[..n]).broken
  {
    hide ReadAll, Verdict, Reaches, LinesOver;
    var n := |rs| - 1;
    CaughtAfter(lag, rs[..n], shown[..n]);
    assert rs[..n][n - 1] == rs[n - 1] && rs[..n][n - 2] == rs[n - 2];
    RefreshDecides(Refreshes(lag, rs[..n], shown[..n]), rs[n - 2], rs[n - 1], rs[n], shown[n]);
  }

  /**
   In terms of the refresh interval: every refresh decides, whatever times it falls on, exactly when the interval is
   the lag and all but a nanosecond of a second or more; some can exactly when it is the lag or more; and one lag
   apart, just those that fall on whole seconds do.
   */
  lemma IntervalsThatDecide(lag: int, gap: int)
    ensures (forall t, u | u == t + gap :: Reaches(lag, t, u)) <==> gap >= lag + SECOND - 1
    ensures (exists t, u | u == t + gap :: Reaches(lag, t, u)) <==> gap >= lag
    ensures forall t, u | u == t + lag :: Reaches(lag, t, u) <==> Whole(t)
  {
    var worst, best := lag - gap + SECOND - 1, lag - gap;
    assert Reaches(lag, worst, worst + gap) <==> gap >= lag + SECOND - 1;
    assert Reaches(lag, best, best + gap) <==> gap >= lag;
  }

  /** What refreshes one lag apart, at times that are not whole seconds, leave. */
  ghost predicate Undecided(a: Log, lag: int, rs: seq<Reading>)
    requires rs != []
  {
    var n := |rs| - 1;
    && !a.broken && a.lag == lag
    && a.cursor <= Edge(a, rs[n].at)
    && (a.windows != [] ==> a.windows[|a.windows| - 1].to == a.cursor)
    && (if n == 0 then a.readings == [rs[0]] else EndsWith(a.readings, rs[n - 1], rs[n]))
  }

  /**
   Refreshes exactly one lag apart, which the configuration accepts, may never decide anything: with times that are
   not whole seconds the log is always read to just before the reading it would have to reach.
   */
  lemma {:induction false} OneLagApartNeverDecides(lag: int, rs: seq<Reading>, shown: seq<seq<Sample>>)
    requires lag > 0 && |rs| == |shown| && rs != []
    requires forall i | 0 <= i < |rs| - 1 :: rs[i + 1].at == rs[i].at + lag
    requires forall i | 0 <= i < |rs| :: !Whole(rs[i].at)
    ensures Undecided(Refreshes(lag, rs, shown), lag, rs)
  {
    var n := |rs| - 1;
    if n == 0 {
      FirstRefresh(lag, rs[0], shown[0]);
    } else {
      var a := Refreshes(lag, rs[..n], shown[..n]);
      OneLagApartNeverDecides(lag, rs[..n], shown[..n]);
      assert rs[..n][n - 1] == rs[n - 1];
      if n > 1 {
        assert rs[..n][n - 2] == rs[n - 2];
      }
      StillUndecided(a, lag, rs, shown[n]);
    }
  }

  /** Read one lag after a time that is not a whole second, the log is not read as far as that time. */
  lemma ReadsShort(a: Log, p: Time, r: Reading, samples: seq<Sample>)
    requires a.lag > 0 && r.at == p + a.lag && !Whole(p) && a.cursor <= Edge(a, p)
    requires a.windows != [] ==> a.windows[|a.windows| - 1].to == a.cursor
    ensures var b := ReadAll(a, r.at, r.value, samples);
      && b.cursor <= Edge(a, r.at) && b.cursor < p
      && (b.windows != [] ==> b.windows[|b.windows| - 1].to == b.cursor)
  {
    hide ReadAll, Truncate, Whole;
    TruncateShort(p);
    TruncateMonotone(p - a.lag, p);
    ReadsNoFurther(a, r, samples);
    assert r.at - a.lag == p;
  }

  lemma ReadsNoFurther(a: Log, r: Reading, samples: seq<Sample>)
    requires a.windows != [] ==> a.windows[|a.windows| - 1].to == a.cursor
    ensures var b := ReadAll(a, r.at, r.value, samples);
      && (b.cursor == a.cursor || b.cursor <= Truncate(r.at - a.lag))
      && (b.windows != [] ==> b.windows[|b.windows| - 1].to == b.cursor)
  {
    hide Total, Truncate;
  }

  lemma TruncateShort(t: Time)
    requires !Whole(t)
    ensures Truncate(t) < t
  {
  }

  lemma TruncateMonotone(s: Time, t: Time)
    requires s <= t
    ensures Truncate(s) <= Truncate(t)
  {
  }

  lemma VerdictStands(b: Log, p: Reading, r: Reading)
    requires b.readings == [p, r] || (|b.readings| == 3 && EndsWith(b.readings, p, r))
    requires b.windows != [] ==> b.windows[|b.windows| - 1].to < p.at < r.at
    ensures Verdict(b) == b.broken
  {
    hide LinesOver;
  }

  lemma ReadsCounter(a: Log, r: Reading, samples: seq<Sample>)
    ensures var b := ReadAll(a, r.at, r.value, samples);
      b.readings == KeepLast(a.readings + [r], READINGS) && b.lag == a.lag && b.broken == a.broken
  {
    hide Truncate, RangeEnd, Total, KeepLast;
  }

  lemma StillUndecided(a: Log, lag: int, rs: seq<Reading>, samples: seq<Sample>)
    requires lag > 0 && |rs| >= 2 && Undecided(a, lag, rs[..|rs| - 1])
    requires var n := |rs| - 1; rs[n].at == rs[n - 1].at + lag && !Whole(rs[n - 1].at)
    ensures var n := |rs| - 1; Undecided(Refreshed(a, rs[n].at, rs[n].value, samples), lag, rs)
  {
    hide Verdict, Truncate, RangeEnd, Total, Whole, ReadAll, KeepLast;
    var n := |rs| - 1;
    var p, r := rs[n - 1], rs[n];
    var b := ReadAll(a, r.at, r.value, samples);
    ReadsShort(a, p.at, r, samples);
    ReadsCounter(a, r, samples);
    if n > 1 {
      KeepsThree(a.readings, rs[n - 2], p, r);
    } else {
      assert b.readings == [p, r];
    }
    VerdictStands(b, p, r);
  }
}
