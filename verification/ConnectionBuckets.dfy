/**
 Counting flows per destination and five-minute window (src/connection-buckets.js):
 router-seen flows once, just after a window closes; agent-seen flows at any
 time, newest windows again and again, the past backwards.
 */
module ConnectionBuckets {
  import opened Common
  import opened Decimals
  import opened AgentIngest

  const BUCKET_MS := 300_000
  const RETENTION_MS := 1_209_600_000
  const MAX_FOLD_LAG_BUCKETS := 2
  const AGENT_REFOLD_WINDOWS := 12
  const AGENT_WINDOWS_PER_TICK := 1
  const LONG_OBSERVATION_MS := 3_600_000

  datatype Source = Router | Agent
  datatype BucketKey = BucketKey(bucketStart: int, dst: string, source: Source)
  datatype Connection = Connection(src: string, dst: string, dport: int, proto: string)

  type Buckets = map<BucketKey, nat>
  type Observations = map<ObsKey, Row>

  function BucketStartFor(at: int): int {
    WindowStart(at, BUCKET_MS)
  }

  // ------------------------------------------------------ which windows fold

  /** The windows from `start` up to but not including `end`. */
  function Windows(start: int, end: int): (ws: seq<int>)
    decreases end - start
  {
    if start >= end then [] else [start] + Windows(start + BUCKET_MS, end)
  }

  /** What one pass of `foldRouter` does to the pointer, and the windows it folds. */
  datatype Pass = Pass(windows: seq<int>, skipped: int, last: Option<int>)

  function OldestFoldable(now: int, maxLag: nat): int {
    BucketStartFor(now) - BUCKET_MS * maxLag
  }

  /** The first window after the pointer, or the oldest that may still be folded. */
  function FirstWindow(foldedThrough: Option<int>, now: int, maxLag: nat): int {
    if foldedThrough.None? then OldestFoldable(now, maxLag)
    else Max(foldedThrough.value + BUCKET_MS, OldestFoldable(now, maxLag))
  }

  function PassOf(foldedThrough: Option<int>, now: int, maxLag: nat): Pass {
    var windows := Windows(FirstWindow(foldedThrough, now, maxLag), BucketStartFor(now));
    Pass(windows,
         if foldedThrough.None? then 0
         else (FirstWindow(foldedThrough, now, maxLag) - (foldedThrough.value + BUCKET_MS)) / BUCKET_MS,
         if windows == [] then foldedThrough else Some(windows[|windows| - 1]))
  }

  lemma {:induction false} WindowsAre(start: int, end: int)
    requires start % BUCKET_MS == 0 && end % BUCKET_MS == 0
    ensures var ws := Windows(start, end);
            && |ws| == (if start >= end then 0 else (end - start) / BUCKET_MS)
            && (forall i :: 0 <= i < |ws| ==> ws[i] == start + i * BUCKET_MS)
            && (ws != [] ==> ws[|ws| - 1] == end - BUCKET_MS)
    decreases end - start
  {
    if start < end {
      WindowsAre(start + BUCKET_MS, end);
    }
  }

  predicate OnBoundary(last: Option<int>) {
    last.Some? ==> last.value % BUCKET_MS == 0
  }

  lemma FirstWindowArithmetic(last: Option<int>, now: int, maxLag: nat)
    requires OnBoundary(last)
    ensures var first, current := FirstWindow(last, now, maxLag), BucketStartFor(now);
            && first % BUCKET_MS == 0 && current % BUCKET_MS == 0 && current <= now < current + BUCKET_MS
            && first >= OldestFoldable(now, maxLag)
            && (last.Some? ==> first > last.value
                               && first == last.value + BUCKET_MS + PassOf(last, now, maxLag).skipped * BUCKET_MS)
            && PassOf(last, now, maxLag).skipped >= 0
  {
    WindowStartHolds(now, BUCKET_MS);
  }

  /** One pass: the windows it folds are closed, no older than allowed, newer than
      all folded before, and consecutive; and with those skipped they are all
      the windows that closed since, whatever the clock reads. */
  lemma PassIsSound(last: Option<int>, now: int, maxLag: nat)
    requires OnBoundary(last)
    ensures var pass := PassOf(last, now, maxLag);
            && OnBoundary(pass.last)
            && pass.skipped >= 0
            && (forall i :: 0 <= i < |pass.windows| ==>
                  && pass.windows[i] + BUCKET_MS <= now
                  && BucketStartFor(now) - pass.windows[i] <= BUCKET_MS * maxLag
                  && (last.Some? ==> pass.windows[i] > last.value))
            && (forall i :: 0 < i < |pass.windows| ==> pass.windows[i] == pass.windows[i - 1] + BUCKET_MS)
            && (pass.windows != [] ==> pass.last == Some(BucketStartFor(now) - BUCKET_MS))
    ensures PassAddsUp(last, now, maxLag)
  {
    FirstWindowArithmetic(last, now, maxLag);
    WindowsAre(FirstWindow(last, now, maxLag), BucketStartFor(now));
    WindowsAddUp(last, now, maxLag);
  }

  /** Folded and skipped are the windows that closed since the last one folded;
      a first pass folds what the lag allows and skips nothing. */
  ghost predicate PassAddsUp(last: Option<int>, now: int, maxLag: nat) {
    var pass, current := PassOf(last, now, maxLag), BucketStartFor(now);
    && (last.Some? && last.value + BUCKET_MS <= current ==>
          (|pass.windows| + pass.skipped) * BUCKET_MS == current - BUCKET_MS - last.value)
    && (last.Some? && last.value + BUCKET_MS > current ==> pass.windows == [] && pass.skipped == 0)
    && (last.None? ==> |pass.windows| == maxLag && pass.skipped == 0)
  }

  lemma WindowsAddUp(last: Option<int>, now: int, maxLag: nat)
    requires OnBoundary(last)
    ensures PassAddsUp(last, now, maxLag)
  {
    FirstWindowArithmetic(last, now, maxLag);
    WindowsAre(FirstWindow(last, now, maxLag), BucketStartFor(now));
  }

  // --------------------------------------------------------------- whole runs

  /** A router pass, `wrote` being the windows that got rows; retention; a restart. */
  datatype Event = FoldPass(now: int, wrote: set<int>) | Prune(now: int) | Restart

  datatype Entry = Entry(window: int, wrote: bool)

  /** `last` is the pointer in memory, `rows` the windows with router rows in the
      table, `log` every window folded so far, `floor` the furthest retention went. */
  datatype RouterState = RouterState(last: Option<int>, rows: set<int>, log: seq<Entry>, floor: Option<int>)

  /** The pointer, or else SELECT MAX(bucketStart) of the router's rows. */
  ghost function FoldedThrough(s: RouterState): Option<int> {
    if s.last.Some? then s.last else MaxOf(s.rows)
  }

  function Logged(windows: seq<int>, wrote: set<int>): seq<Entry> {
    seq(|windows|, i requires 0 <= i < |windows| => Entry(windows[i], windows[i] in wrote))
  }

  ghost function Step(s: RouterState, e: Event): RouterState {
    match e
    case FoldPass(now, wrote) =>
      var pass := PassOf(FoldedThrough(s), now, MAX_FOLD_LAG_BUCKETS);
      s.(last := pass.last, rows := s.rows + (set w <- pass.windows | w in wrote), log := s.log + Logged(pass.windows, wrote))
    case Prune(now) =>
      var before := now - RETENTION_MS;
      s.(rows := (set w <- s.rows | w >= before),
         floor := if s.floor.Some? && s.floor.value > before then s.floor else Some(before))
    case Restart => s.(last := None)
  }

  ghost function Run(s: RouterState, events: seq<Event>): RouterState {
    if events == [] then s else Step(Run(s, events[..|events| - 1]), events[|events| - 1])
  }

  const START := RouterState(None, {}, [], None)

  /** Nothing is folded again at or below the pointer, nor at or below a window
      with rows; and a window that got rows has them still unless retention took them. */
  predicate RouterInv(s: RouterState) {
    && (forall i :: 0 <= i < |s.log| ==> s.log[i].window % BUCKET_MS == 0)
    && OnBoundary(s.last) && (forall w <- s.rows :: w % BUCKET_MS == 0)
    && (s.last.Some? ==> forall i :: 0 <= i < |s.log| && s.log[i].wrote ==> s.log[i].window <= s.last.value)
    && (forall i :: 0 <= i < |s.log| && s.log[i].wrote ==> StillThere(s.rows, s.floor, s.log[i].window))
    && WrittenBeforeRest(s.log)
  }

  predicate StillThere(rows: set<int>, floor: Option<int>, window: int) {
    window in rows || (floor.Some? && window < floor.value)
  }

  predicate WrittenBeforeRest(log: seq<Entry>) {
    forall i, j :: 0 <= i < j < |log| && log[i].wrote ==> log[i].window < log[j].window
  }

  predicate WrittenBelow(log: seq<Entry>, windows: seq<int>) {
    forall i, j :: 0 <= i < |log| && log[i].wrote && 0 <= j < |windows| ==> log[i].window < windows[j]
  }

  /** No pass may still fold what retention has removed: its clock is not further
      back than retention reaches, less the lag. */
  predicate ClockHolds(s: RouterState, now: int) {
    s.floor.Some? ==> s.floor.value <= OldestFoldable(now, MAX_FOLD_LAG_BUCKETS)
  }

  lemma AppendKeepsOrder(log: seq<Entry>, windows: seq<int>, wrote: set<int>)
    requires WrittenBeforeRest(log) && WrittenBelow(log, windows) && Ascending(windows)
    ensures WrittenBeforeRest(log + Logged(windows, wrote))
  {
    var more := log + Logged(windows, wrote);
    forall i, j | 0 <= i < j < |more| && more[i].wrote ensures more[i].window < more[j].window {
      if j >= |log| {
        assert more[j].window == windows[j - |log|];
      }
    }
  }

  lemma NewWindowsAreBeyond(s: RouterState, now: int)
    requires RouterInv(s) && ClockHolds(s, now)
    ensures WrittenBelow(s.log, PassOf(FoldedThrough(s), now, MAX_FOLD_LAG_BUCKETS).windows)
  {
    var through := FoldedThrough(s);
    var windows := PassOf(through, now, MAX_FOLD_LAG_BUCKETS).windows;
    PassIsSound(through, now, MAX_FOLD_LAG_BUCKETS);
    forall i, j | 0 <= i < |s.log| && s.log[i].wrote && 0 <= j < |windows| ensures s.log[i].window < windows[j] {
      assert StillThere(s.rows, s.floor, s.log[i].window);
      assert windows[j] >= OldestFoldable(now, MAX_FOLD_LAG_BUCKETS);
    }
  }

  lemma PassKeepsInv(s: RouterState, now: int, wrote: set<int>)
    requires RouterInv(s) && ClockHolds(s, now)
    ensures RouterInv(Step(s, FoldPass(now, wrote)))
  {
    var through := FoldedThrough(s);
    var pass, t := PassOf(through, now, MAX_FOLD_LAG_BUCKETS), Step(s, FoldPass(now, wrote));
    PassIsSound(through, now, MAX_FOLD_LAG_BUCKETS);
    PassWindowsAscend(through, now);
    NewWindowsAreBeyond(s, now);
    AppendKeepsOrder(s.log, pass.windows, wrote);
    forall i | 0 <= i < |t.log|
      ensures t.log[i].window % BUCKET_MS == 0
      ensures t.log[i].wrote ==> StillThere(t.rows, t.floor, t.log[i].window)
      ensures t.log[i].wrote && t.last.Some? ==> t.log[i].window <= t.last.value
    {
      if i < |s.log| {
        assert t.log[i] == s.log[i] && (s.log[i].wrote ==> StillThere(s.rows, s.floor, s.log[i].window));
      } else {
        assert t.log[i] == Entry(pass.windows[i - |s.log|], pass.windows[i - |s.log|] in wrote);
      }
    }
  }

  lemma PruneKeepsInv(s: RouterState, now: int)
    requires RouterInv(s)
    ensures RouterInv(Step(s, Prune(now)))
  {
    var t := Step(s, Prune(now));
    forall i | 0 <= i < |t.log| && t.log[i].wrote ensures StillThere(t.rows, t.floor, t.log[i].window) {
      assert StillThere(s.rows, s.floor, s.log[i].window);
    }
  }

  lemma OneWindowApart(start: int, end: int)
    requires start % BUCKET_MS == 0 && end % BUCKET_MS == 0 && start < end
    ensures start + BUCKET_MS <= end && (start + BUCKET_MS) % BUCKET_MS == 0
  {
  }

  predicate Descending(s: seq<int>) {
    forall i, j :: 0 <= i < j < |s| ==> s[i] > s[j]
  }

  lemma OrderedInFront(x: int, rest: seq<int>)
    ensures forall i :: 0 <= i < |[x] + rest| ==> ([x] + rest)[i] == x || ([x] + rest)[i] in rest
    ensures Ascending(rest) && (forall y <- rest :: x < y) ==> Ascending([x] + rest)
    ensures Descending(rest) && (forall y <- rest :: x > y) ==> Descending([x] + rest)
  {
    OneInFront(x, rest);
    assert forall i :: 1 <= i < |[x] + rest| ==> ([x] + rest)[i] in rest;
  }

  predicate WindowsWithin(ws: seq<int>, start: int, end: int) {
    forall w <- ws :: w % BUCKET_MS == 0 && start <= w <= end - BUCKET_MS
  }

  lemma {:induction false} WindowsAscend(start: int, end: int)
    requires start % BUCKET_MS == 0 && end % BUCKET_MS == 0
    ensures WindowsWithin(Windows(start, end), start, end) && Ascending(Windows(start, end))
    decreases end - start
  {
    if start < end {
      OneWindowApart(start, end);
      WindowsAscend(start + BUCKET_MS, end);
      OrderedInFront(start, Windows(start + BUCKET_MS, end));
    }
  }

  lemma PassWindowsAscend(last: Option<int>, now: int)
    requires OnBoundary(last)
    ensures var pass := PassOf(last, now, MAX_FOLD_LAG_BUCKETS);
            && Ascending(pass.windows)
            && (forall i :: 0 <= i < |pass.windows| ==>
                  pass.windows[i] % BUCKET_MS == 0 && pass.windows[i] <= BucketStartFor(now) - BUCKET_MS)
  {
    FirstWindowArithmetic(last, now, MAX_FOLD_LAG_BUCKETS);
    var windows := Windows(FirstWindow(last, now, MAX_FOLD_LAG_BUCKETS), BucketStartFor(now));
    WindowsAscend(FirstWindow(last, now, MAX_FOLD_LAG_BUCKETS), BucketStartFor(now));
    assert forall i :: 0 <= i < |windows| ==> windows[i] in windows;
  }

  /** Every pass of the run finds its clock within retention. */
  ghost predicate ClockHoldsThroughout(events: seq<Event>) {
    events == []
    || (var before, e := events[..|events| - 1], events[|events| - 1];
        ClockHoldsThroughout(before) && (e.FoldPass? ==> ClockHolds(Run(START, before), e.now)))
  }

  lemma {:induction false} RunKeepsInv(events: seq<Event>)
    requires ClockHoldsThroughout(events)
    ensures RouterInv(Run(START, events))
  {
    if events != [] {
      var before, e := events[..|events| - 1], events[|events| - 1];
      RunKeepsInv(before);
      match e
      case FoldPass(now, wrote) => PassKeepsInv(Run(START, before), now, wrote);
      case Prune(now) => PruneKeepsInv(Run(START, before), now);
      case Restart =>
    }
  }

  /** Over every run, retention, restarts and clock steps included, a window that
      got rows is never folded again, nor is any window before it; as long as no
      pass finds its clock two weeks behind an earlier retention, less the lag. */
  lemma WrittenWindowsFoldOnce(events: seq<Event>, i: nat, j: nat)
    requires ClockHoldsThroughout(events)
    requires i < j < |Run(START, events).log| && Run(START, events).log[i].wrote
    ensures Run(START, events).log[i].window < Run(START, events).log[j].window
  {
    RunKeepsInv(events);
  }

  /** Without that a window can fold twice: its rows gone, the next process has nothing to go by. */
  lemma ClockFarBackFoldsAgain(now: int, windows: seq<int>)
    requires windows == Windows(OldestFoldable(now, MAX_FOLD_LAG_BUCKETS), BucketStartFor(now))
    ensures var all := set w <- windows;
            var events := [FoldPass(now, all), Prune(now + 2 * RETENTION_MS), Restart, FoldPass(now, all)];
            Run(START, events).log == Logged(windows, all) + Logged(windows, all) && windows != []
  {
    var all := set w <- windows;
    var pass := FoldPass(now, all);
    var events := [pass, Prune(now + 2 * RETENTION_MS), Restart, pass];
    WindowStartHolds(now, BUCKET_MS);
    WindowsAre(OldestFoldable(now, MAX_FOLD_LAG_BUCKETS), BucketStartFor(now));
    var late := Prune(now + 2 * RETENTION_MS);
    assert events[..3] == [pass, late, Restart] && events[..3][..2] == [pass, late];
    assert [pass, late][..1] == [pass] && [pass][..0] == [];
    forall w <- windows ensures w < now + RETENTION_MS {
      var i :| 0 <= i < |windows| && windows[i] == w;
    }
    var first := Step(START, pass);
    assert Run(START, []) == START && Run(START, [pass]) == first;
    assert first.log == [] + Logged(windows, all) && first.rows == {} + all;
    var second := Step(first, late);
    assert Run(START, [pass, late]) == second && second.rows == {} && second.log == first.log;
    var third := Step(second, Restart);
    assert Run(START, events[..3]) == third && third.rows == {} && third.last == None;
    assert FoldedThrough(third) == None;
  }

  /** The process goes on: passes and retention, a pass first. */
  predicate NoRestart(events: seq<Event>) {
    (events != [] ==> events[0].FoldPass?) && forall e <- events :: e != Restart
  }

  /** Windows passed over so far. */
  ghost function Skipped(s: RouterState, events: seq<Event>): int {
    if events == [] then 0
    else
      var before, e := events[..|events| - 1], events[|events| - 1];
      Skipped(s, before) + if e.FoldPass? then PassOf(FoldedThrough(Run(s, before)), e.now, MAX_FOLD_LAG_BUCKETS).skipped
                           else 0
  }

  /** The last window not folded by these passes: the pointer, or when there is
      none the window before the oldest the first pass may fold. */
  ghost function Base(s: RouterState, events: seq<Event>): int
    requires events != [] && NoRestart(events)
  {
    match FoldedThrough(s)
    case Some(window) => window
    case None => OldestFoldable(events[0].now, MAX_FOLD_LAG_BUCKETS) - BUCKET_MS
  }

  /** From `base` on, in strictly increasing order up to the pointer. */
  predicate InOrder(log: seq<Entry>, base: int, last: Option<int>) {
    && last.Some? && OnBoundary(last) && base <= last.value
    && (forall i :: 0 <= i < |log| ==> base < log[i].window <= last.value)
    && (forall i, j :: 0 <= i < j < |log| ==> log[i].window < log[j].window)
  }

  /** Between two restarts windows fold in strictly increasing order, whatever the
      clock does, and with the windows skipped they add up to exactly the windows
      from the one the process started after to the newest folded. */
  lemma WindowsFoldInOrderAndAddUp(s: RouterState, events: seq<Event>)
    requires RouterInv(s) && events != [] && NoRestart(events)
    ensures var after, base := Run(s, events), Base(s, events);
            && s.log <= after.log && InOrder(after.log[|s.log|..], base, after.last)
            && (|after.log| - |s.log| + Skipped(s, events)) * BUCKET_MS == after.last.value - base
  {
    var anew := Anew(s);
    OldLogStands(s, events);
    FreshLogAddsUp(anew, events);
    assert (s.log + Run(anew, events).log)[|s.log|..] == Run(anew, events).log;
  }

  ghost function Anew(s: RouterState): RouterState {
    RouterState(FoldedThrough(s), {}, [], None)
  }

  /** Passes depend on the log before them only through the pointer they start from. */
  lemma {:induction false} OldLogStands(s: RouterState, events: seq<Event>)
    requires NoRestart(events)
    ensures var anew := Anew(s);
            && FoldedThrough(Run(s, events)) == FoldedThrough(Run(anew, events))
            && Run(s, events).log == s.log + Run(anew, events).log
            && Skipped(s, events) == Skipped(anew, events)
            && (events != [] ==> Run(s, events).last == Run(anew, events).last && Run(s, events).last.Some?)
  {
    if events != [] {
      var before, e := events[..|events| - 1], events[|events| - 1];
      assert e in events && forall x <- before :: x in events;
      OldLogStands(s, before);
      if e.FoldPass? {
        var through := FoldedThrough(Run(s, before));
        FirstPassSetsThePointer(through, e.now);
        var windows := PassOf(through, e.now, MAX_FOLD_LAG_BUCKETS).windows;
        AppendsAssociate(s.log, Run(Anew(s), before).log, Logged(windows, e.wrote));
      } else {
        assert before != [] by { assert events[0] in events; }
      }
    }
  }

  lemma AppendsAssociate(a: seq<Entry>, b: seq<Entry>, c: seq<Entry>)
    ensures (a + b) + c == a + (b + c)
  {
  }

  lemma FirstPassSetsThePointer(through: Option<int>, now: int)
    ensures PassOf(through, now, MAX_FOLD_LAG_BUCKETS).last.Some?
  {
    if through.None? {
      var start, end := OldestFoldable(now, MAX_FOLD_LAG_BUCKETS), BucketStartFor(now);
      assert Windows(start, end) == [start] + Windows(start + BUCKET_MS, end);
    }
  }

  lemma {:induction false} FreshLogAddsUp(s: RouterState, events: seq<Event>)
    requires OnBoundary(s.last) && s.log == [] && s.rows == {} && events != [] && NoRestart(events)
    ensures var after, base := Run(s, events), Base(s, events);
            InOrder(after.log, base, after.last)
            && (|after.log| + Skipped(s, events)) * BUCKET_MS == after.last.value - base
  {
    var before, e := events[..|events| - 1], events[|events| - 1];
    assert e in events && forall x <- before :: x in events;
    if before == [] {
      assert events == [e];
      FirstPass(s, e.now, e.wrote);
    } else {
      FreshLogAddsUp(s, before);
      var mid := Run(s, before);
      if e.FoldPass? {
        OnePassMore(mid, e.now, e.wrote);
        LogStaysInOrder(Base(s, events), mid, e.now, e.wrote);
      }
    }
  }

  lemma FirstPass(s: RouterState, now: int, wrote: set<int>)
    requires OnBoundary(s.last) && s.log == [] && s.rows == {}
    ensures var events := [FoldPass(now, wrote)]; var after, base := Run(s, events), Base(s, events);
            InOrder(after.log, base, after.last)
            && (|after.log| + Skipped(s, events)) * BUCKET_MS == after.last.value - base
  {
    var events := [FoldPass(now, wrote)];
    assert events[..0] == [];
    if s.last.Some? {
      OnePassMore(s, now, wrote);
      LogStaysInOrder(s.last.value, s, now, wrote);
    } else {
      PassIsSound(None, now, MAX_FOLD_LAG_BUCKETS);
      PassWindowsAscend(None, now);
      FirstPassSetsThePointer(None, now);
      var windows, start := PassOf(None, now, MAX_FOLD_LAG_BUCKETS).windows, OldestFoldable(now, MAX_FOLD_LAG_BUCKETS);
      WindowStartHolds(now, BUCKET_MS);
      WindowsAscend(start, BucketStartFor(now));
      assert forall i :: 0 <= i < |windows| ==> windows[i] in windows;
    }
  }

  lemma LogStaysInOrder(low: int, mid: RouterState, now: int, wrote: set<int>)
    requires InOrder(mid.log, low, mid.last)
    ensures var after := Step(mid, FoldPass(now, wrote)); InOrder(after.log, low, after.last)
  {
    PassIsSound(mid.last, now, MAX_FOLD_LAG_BUCKETS);
    PassWindowsAscend(mid.last, now);
    OnePassMore(mid, now, wrote);
    var pass, after := PassOf(mid.last, now, MAX_FOLD_LAG_BUCKETS), Step(mid, FoldPass(now, wrote));
    forall i | 0 <= i < |after.log| ensures low < after.log[i].window <= after.last.value {
      if i >= |mid.log| {
        assert after.log[i].window == pass.windows[i - |mid.log|];
      }
    }
    forall i, j | 0 <= i < j < |after.log| ensures after.log[i].window < after.log[j].window {
      if j >= |mid.log| {
        assert after.log[j].window == pass.windows[j - |mid.log|];
      }
    }
  }

  lemma OnePassMore(mid: RouterState, now: int, wrote: set<int>)
    requires OnBoundary(mid.last) && mid.last.Some?
    ensures var pass := PassOf(mid.last, now, MAX_FOLD_LAG_BUCKETS);
            var after := Step(mid, FoldPass(now, wrote));
            && after.last.Some? && OnBoundary(after.last) && mid.last.value <= after.last.value
            && |after.log| == |mid.log| + |pass.windows|
            && (|pass.windows| + pass.skipped) * BUCKET_MS == after.last.value - mid.last.value
  {
    PassIsSound(mid.last, now, MAX_FOLD_LAG_BUCKETS);
    FirstWindowArithmetic(mid.last, now, MAX_FOLD_LAG_BUCKETS);
    WindowsAre(FirstWindow(mid.last, now, MAX_FOLD_LAG_BUCKETS), BucketStartFor(now));
  }

  // ---------------------------------------------------------- the agent half

  /** What the schema lets a row be (its CHECK constraints). */
  predicate StoredRow(row: Row) {
    && 1 <= row.remotePort <= 65535
    && (row.networkProtocol == "tcp" || row.networkProtocol == "udp")
  }

  predicate StoredRows(observations: Observations) {
    forall k <- observations :: StoredRow(observations[k])
  }

  /** A flow of one destination. */
  datatype FlowId = FlowId(localAddress: string, remotePort: int, networkProtocol: string)

  function FlowIdOf(row: Row): FlowId {
    FlowId(row.localAddress, row.remotePort, row.networkProtocol)
  }

  predicate Overlaps(row: Row, bucketStart: int) {
    row.firstObservedAt < bucketStart + BUCKET_MS && row.lastObservedAt >= bucketStart
  }

  /** The flows to `dst` that were going on during the window. */
  function FlowsDuring(observations: Observations, bucketStart: int, dst: string): set<FlowId> {
    set k <- observations | Overlaps(observations[k], bucketStart) && observations[k].remoteAddress == dst ::
      FlowIdOf(observations[k])
  }

  predicate InWindow(at: int, bucketStart: int) {
    bucketStart <= at < bucketStart + 300_000
  }

  /** Some instant of the row lies in the window. */
  ghost predicate SeenDuring(row: Row, bucketStart: int) {
    exists at :: InWindow(at, bucketStart) && row.firstObservedAt <= at <= row.lastObservedAt
  }

  /** Counted are the distinct local addresses, ports and protocols of the rows to the
      destination that some instant of the window lies in. */
  lemma FlowsDuringAre(observations: Observations, bucketStart: int, dst: string, flow: FlowId)
    requires forall k <- observations :: observations[k].firstObservedAt <= observations[k].lastObservedAt
    ensures flow in FlowsDuring(observations, bucketStart, dst) <==>
            exists k <- observations ::
              && SeenDuring(observations[k], bucketStart) && observations[k].remoteAddress == dst
              && observations[k].localAddress == flow.localAddress && observations[k].remotePort == flow.remotePort
              && observations[k].networkProtocol == flow.networkProtocol
  {
    forall k <- observations ensures Overlaps(observations[k], bucketStart) <==> SeenDuring(observations[k], bucketStart) {
      OverlapsIff(observations[k], bucketStart);
    }
  }

  lemma OverlapsIff(row: Row, bucketStart: int)
    requires row.firstObservedAt <= row.lastObservedAt
    ensures Overlaps(row, bucketStart) <==> SeenDuring(row, bucketStart)
  {
    var at := Max(row.firstObservedAt, bucketStart);
    assert Overlaps(row, bucketStart) ==> InWindow(at, bucketStart);
  }

  /** `localAddress || '|' || remotePort || '|' || networkProtocol`. */
  function FlowText(row: Row): string
    requires StoredRow(row)
  {
    TextOf(FlowIdOf(row))
  }

  function TextOf(flow: FlowId): string
  {
    flow.localAddress + "|" + (if flow.remotePort < 0 then "-" + Decimal(-flow.remotePort) else Decimal(flow.remotePort))
    + "|" + flow.networkProtocol
  }

  /** The rows found by when they started, within an hour of the window. */
  function ShortBranch(observations: Observations, bucketStart: int): set<ObsKey> {
    set k <- observations |
      && bucketStart - LONG_OBSERVATION_MS <= observations[k].firstObservedAt
      && observations[k].firstObservedAt < bucketStart + BUCKET_MS
      && observations[k].lastObservedAt >= bucketStart
  }

  /** The rows found because they ran for an hour or more. */
  function LongBranch(observations: Observations, bucketStart: int): set<ObsKey> {
    set k <- observations |
      && observations[k].lastObservedAt - observations[k].firstObservedAt >= LONG_OBSERVATION_MS
      && observations[k].firstObservedAt < bucketStart + BUCKET_MS
      && observations[k].lastObservedAt >= bucketStart
  }

  function TextsTo(observations: Observations, keys: set<ObsKey>, dst: string): set<string>
    requires StoredRows(observations)
  {
    set k <- keys | k in observations && observations[k].remoteAddress == dst :: FlowText(observations[k])
  }

  function Destinations(observations: Observations, keys: set<ObsKey>): set<string> {
    set k <- keys | k in observations :: observations[k].remoteAddress
  }

  /** The tables after a window's agent rows are cleared and counted anew. */
  function AgentFolded(buckets: Buckets, observations: Observations, bucketStart: int): Buckets
    requires StoredRows(observations)
  {
    var keys := ShortBranch(observations, bucketStart) + LongBranch(observations, bucketStart);
    (map b <- buckets | !(b.bucketStart == bucketStart && b.source == Agent) :: buckets[b])
    + (map b: BucketKey | b in (set dst <- Destinations(observations, keys) :: BucketKey(bucketStart, dst, Agent)) ::
         |TextsTo(observations, keys, b.dst)|)
  }

  predicate NoBar(s: string) {
    forall i :: 0 <= i < |s| ==> s[i] != '|'
  }

  /** What follows the last bar of a text, and what is before it, are determined. */
  lemma LastBarIsDetermined(a: string, b: string, u: string, v: string)
    requires a + "|" + u == b + "|" + v && NoBar(u) && NoBar(v)
    ensures a == b && u == v
  {
    var whole := a + "|" + u;
    assert whole[|a|] == '|' && whole[|b|] == '|';
    AfterLastBar(a, u);
    AfterLastBar(b, v);
    assert a == whole[..|a|] && b == whole[..|b|];
    assert u == whole[|a| + 1..] && v == whole[|b| + 1..];
  }

  lemma AfterLastBar(a: string, u: string)
    requires NoBar(u)
    ensures var whole := a + "|" + u; forall i :: |a| < i < |whole| ==> whole[i] != '|'
  {
  }

  /** The concatenated text names exactly one flow, whatever the address holds. */
  lemma TextNamesTheFlow(x: FlowId, y: FlowId)
    requires 0 <= x.remotePort && 0 <= y.remotePort && NoBar(x.networkProtocol) && NoBar(y.networkProtocol)
    requires TextOf(x) == TextOf(y)
    ensures x == y
  {
    var px, py := Decimal(x.remotePort), Decimal(y.remotePort);
    LastBarIsDetermined(x.localAddress + "|" + px, y.localAddress + "|" + py, x.networkProtocol, y.networkProtocol);
    LastBarIsDetermined(x.localAddress, y.localAddress, px, py);
    ValueOfDecimal(x.remotePort);
    ValueOfDecimal(y.remotePort);
  }

  /** The two index scans together find exactly the rows that overlap the window. */
  lemma TwoBranchesAreTheOverlap(observations: Observations, bucketStart: int)
    ensures ShortBranch(observations, bucketStart) + LongBranch(observations, bucketStart)
            == set k <- observations | Overlaps(observations[k], bucketStart)
  {
    forall k <- observations | Overlaps(observations[k], bucketStart)
      ensures k in ShortBranch(observations, bucketStart) || k in LongBranch(observations, bucketStart)
    {
      var row := observations[k];
      assert row.firstObservedAt < bucketStart - LONG_OBSERVATION_MS ==>
               row.lastObservedAt - row.firstObservedAt >= LONG_OBSERVATION_MS;
    }
  }

  /** After folding, the window has a row for each destination with a flow going
      on, holding the number of those flows, and no other row changed. */
  lemma AgentFoldCountsOverlaps(buckets: Buckets, observations: Observations, bucketStart: int, b: BucketKey)
    requires StoredRows(observations)
    ensures var after := AgentFolded(buckets, observations, bucketStart);
            if b.bucketStart == bucketStart && b.source == Agent then
              var flows := FlowsDuring(observations, bucketStart, b.dst);
              (b in after <==> flows != {}) && (b in after ==> after[b] == |flows|)
            else (b in after <==> b in buckets) && (b in after ==> after[b] == buckets[b])
  {
    TwoBranchesAreTheOverlap(observations, bucketStart);
    var keys := ShortBranch(observations, bucketStart) + LongBranch(observations, bucketStart);
    if b.bucketStart == bucketStart && b.source == Agent {
      TextsCountFlows(observations, bucketStart, keys, b.dst);
      var after := AgentFolded(buckets, observations, bucketStart);
      assert b in after <==> b.dst in Destinations(observations, keys);
    }
  }

  lemma TextsCountFlows(observations: Observations, bucketStart: int, keys: set<ObsKey>, dst: string)
    requires StoredRows(observations)
    requires keys == set k <- observations | Overlaps(observations[k], bucketStart)
    ensures |TextsTo(observations, keys, dst)| == |FlowsDuring(observations, bucketStart, dst)|
    ensures dst in Destinations(observations, keys) <==> FlowsDuring(observations, bucketStart, dst) != {}
  {
    var flows, texts := FlowsDuring(observations, bucketStart, dst), TextsTo(observations, keys, dst);
    forall x, y | x in flows && y in flows && TextOf(x) == TextOf(y) ensures x == y {
      TextNamesTheFlow(x, y);
    }
    assert texts == set f <- flows :: TextOf(f) by {
      forall t ensures t in texts <==> t in (set f <- flows :: TextOf(f)) {
        TextsAreOfFlows(observations, bucketStart, keys, dst, t);
      }
    }
    SameSize(flows, texts, TextOf);
    if dst in Destinations(observations, keys) {
      var k :| k in keys && k in observations && observations[k].remoteAddress == dst;
      assert FlowIdOf(observations[k]) in flows;
    }
  }

  lemma TextsAreOfFlows(observations: Observations, bucketStart: int, keys: set<ObsKey>, dst: string, t: string)
    requires StoredRows(observations)
    requires keys == set k <- observations | Overlaps(observations[k], bucketStart)
    ensures t in TextsTo(observations, keys, dst)
            <==> t in (set f <- FlowsDuring(observations, bucketStart, dst) :: TextOf(f))
  {
    var flows := FlowsDuring(observations, bucketStart, dst);
    if t in TextsTo(observations, keys, dst) {
      var k :| k in keys && k in observations && observations[k].remoteAddress == dst && t == FlowText(observations[k]);
      assert FlowIdOf(observations[k]) in flows;
    }
    if t in (set f <- flows :: TextOf(f)) {
      var f :| f in flows && t == TextOf(f);
      var k :| k in observations && Overlaps(observations[k], bucketStart) && observations[k].remoteAddress == dst
               && f == FlowIdOf(observations[k]);
      assert k in keys;
    }
  }

  /** Counting a window again changes nothing until the observations change. */
  lemma RefoldIsIdempotent(buckets: Buckets, observations: Observations, bucketStart: int)
    requires StoredRows(observations)
    ensures AgentFolded(AgentFolded(buckets, observations, bucketStart), observations, bucketStart)
            == AgentFolded(buckets, observations, bucketStart)
  {
    var once := AgentFolded(buckets, observations, bucketStart);
    var twice := AgentFolded(once, observations, bucketStart);
    forall b: BucketKey ensures (b in once <==> b in twice) && (b in once ==> once[b] == twice[b]) {
      AgentFoldCountsOverlaps(buckets, observations, bucketStart, b);
      AgentFoldCountsOverlaps(once, observations, bucketStart, b);
    }
  }

  function AgentFoldedAll(buckets: Buckets, observations: Observations, windows: seq<int>): Buckets
    requires StoredRows(observations)
  {
    if windows == [] then buckets
    else AgentFolded(AgentFoldedAll(buckets, observations, windows[..|windows| - 1]), observations,
                     windows[|windows| - 1])
  }

  // ------------------------------------------------- walking into the past

  /** The windows a walk back from `from` queues until it meets the floor. */
  function PastWalk(from: int, floor: int): seq<int>
    decreases from - floor
  {
    if from <= floor then [] else [from - BUCKET_MS] + PastWalk(from - BUCKET_MS, floor)
  }

  /** Each window from the floor up to where the walk began, once, newest first. */
  lemma {:induction false} PastWalkCoversThePast(from: int, floor: int)
    requires from % BUCKET_MS == 0 && floor % BUCKET_MS == 0
    ensures var walk := PastWalk(from, floor);
            && |walk| == (if from <= floor then 0 else (from - floor) / BUCKET_MS)
            && (forall i :: 0 <= i < |walk| ==> walk[i] == from - (i + 1) * BUCKET_MS)
            && (walk != [] ==> walk[|walk| - 1] == floor)
    decreases from - floor
  {
    if from > floor {
      OneWindowApart(floor, from);
      PastWalkCoversThePast(from - BUCKET_MS, floor);
      var walk, rest := PastWalk(from, floor), PastWalk(from - BUCKET_MS, floor);
      assert forall i :: 1 <= i < |walk| ==> walk[i] == rest[i - 1];
    }
  }

  /** The windows queued by calls that find these floors, the clock and the
      retention moving the floor between them. */
  function QueuedWith(from: int, floors: seq<int>): seq<int>
    decreases |floors|
  {
    if floors == [] then []
    else if from <= floors[0] then QueuedWith(from, floors[1..])
    else [from - BUCKET_MS] + QueuedWith(from - BUCKET_MS, floors[1..])
  }

  /** Where the walk stands after those calls. */
  function StandsAfter(from: int, floors: seq<int>): int {
    var queued := QueuedWith(from, floors);
    if queued == [] then from else queued[|queued| - 1]
  }

  /** One more call queues at most the next window, from where the calls before it stand. */
  lemma {:induction false} OneCallMore(from: int, floors: seq<int>, floor: int)
    ensures var at := StandsAfter(from, floors);
            && QueuedWith(from, floors + [floor]) == QueuedWith(from, floors) + (if at <= floor then [] else [at - BUCKET_MS])
            && StandsAfter(from, floors + [floor]) == if at <= floor then at else at - BUCKET_MS
    decreases |floors|
  {
    var more := floors + [floor];
    if floors == [] {
      assert more[1..] == [];
      assert QueuedWith(from, []) == [] && QueuedWith(from - BUCKET_MS, []) == [];
    } else {
      assert more[1..] == floors[1..] + [floor];
      OneCallMore(if from <= floors[0] then from else from - BUCKET_MS, floors[1..], floor);
    }
  }

  lemma {:induction false} EachPastWindowOnce(from: int, floors: seq<int>)
    ensures var queued := QueuedWith(from, floors);
            (forall w <- queued :: w < from) && Descending(queued)
    decreases |floors|
  {
    if floors != [] {
      var next := if from <= floors[0] then from else from - BUCKET_MS;
      EachPastWindowOnce(next, floors[1..]);
      OrderedInFront(next, QueuedWith(next, floors[1..]));
    }
  }

  lemma {:induction false} FixedFloorIsTheWalk(from: int, floor: int, floors: seq<int>)
    requires forall i :: 0 <= i < |floors| ==> floors[i] == floor
    requires |floors| >= |PastWalk(from, floor)|
    ensures QueuedWith(from, floors) == PastWalk(from, floor)
    decreases |floors|
  {
    if floors != [] {
      FixedFloorIsTheWalk(if from <= floor then from else from - BUCKET_MS, floor, floors[1..]);
    }
  }

  // --------------------------------------------------------- the router half

  /** Flows to `dst` last seen inside the window, those an agent saw left out. */
  function RouterFlows(connections: map<Connection, int>, linked: set<Connection>, bucketStart: int, dst: string)
    : set<Connection>
  {
    set c <- connections |
      bucketStart <= connections[c] < bucketStart + BUCKET_MS && c !in linked && c.dst == dst
  }

  lemma RouterFlowsAre(connections: map<Connection, int>, linked: set<Connection>, bucketStart: int, dst: string, c: Connection)
    ensures c in RouterFlows(connections, linked, bucketStart, dst) <==>
            && c in connections && c.dst == dst && InWindow(connections[c], bucketStart) && !(c in linked)
  {
  }

  /** INSERT ... ON CONFLICT DO UPDATE of the window's router rows. */
  function RouterFolded(buckets: Buckets, connections: map<Connection, int>, linked: set<Connection>, bucketStart: int)
    : Buckets
  {
    var seen := set c <- connections |
      bucketStart <= connections[c] < bucketStart + BUCKET_MS && c !in linked :: BucketKey(bucketStart, c.dst, Router);
    buckets + map b: BucketKey | b in seen :: |RouterFlows(connections, linked, bucketStart, b.dst)|
  }

  function RouterFoldedAll(buckets: Buckets, connections: map<Connection, int>, linked: set<Connection>,
                           windows: seq<int>): Buckets
  {
    if windows == [] then buckets
    else RouterFolded(RouterFoldedAll(buckets, connections, linked, windows[..|windows| - 1]), connections, linked,
                      windows[|windows| - 1])
  }

  /** A router row of a folded window holds the number of its flows; a row of
      another window, or of the agents, is as it was. */
  lemma {:induction false} RouterFoldCounts(buckets: Buckets, connections: map<Connection, int>,
                                            linked: set<Connection>, windows: seq<int>, b: BucketKey)
    ensures var after := RouterFoldedAll(buckets, connections, linked, windows);
            var flows := RouterFlows(connections, linked, b.bucketStart, b.dst);
            if b.source == Router && b.bucketStart in windows && flows != {} then
              b in after && after[b] == |flows|
            else (b in after <==> b in buckets) && (b in after ==> after[b] == buckets[b])
  {
    if windows != [] {
      var before, w := windows[..|windows| - 1], windows[|windows| - 1];
      RouterFoldCounts(buckets, connections, linked, before, b);
      assert windows == before + [w];
      RouterFoldCountsOne(RouterFoldedAll(buckets, connections, linked, before), connections, linked, w, b);
    }
  }

  lemma RouterFoldCountsOne(buckets: Buckets, connections: map<Connection, int>, linked: set<Connection>, w: int,
                            b: BucketKey)
    ensures var after := RouterFolded(buckets, connections, linked, w);
            var flows := RouterFlows(connections, linked, w, b.dst);
            if b.source == Router && b.bucketStart == w && flows != {} then
              b in after && after[b] == |flows|
            else (b in after <==> b in buckets) && (b in after ==> after[b] == buckets[b])
  {
    var seen := set c <- connections |
      w <= connections[c] < w + BUCKET_MS && c !in linked :: BucketKey(w, c.dst, Router);
    var flows := RouterFlows(connections, linked, w, b.dst);
    if b in seen {
      var c :| c in connections && w <= connections[c] < w + BUCKET_MS && c !in linked && b == BucketKey(w, c.dst, Router);
      assert c in flows;
    }
    if b.source == Router && b.bucketStart == w && flows != {} {
      var c :| c in flows;
      assert BucketKey(w, c.dst, Router) in seen && b == BucketKey(w, c.dst, Router);
    }
  }

  /** `folded` of the windows are folded, the next being `start`. */
  ghost predicate FoldedSoFar(before: Buckets, buckets: Buckets, connections: map<Connection, int>,
                              linked: set<Connection>, windows: seq<int>, folded: nat, start: int, end: int)
  {
    && folded <= |windows| && windows[folded..] == Windows(start, end)
    && buckets == RouterFoldedAll(before, connections, linked, windows[..folded])
  }

  lemma NextWindowFolded(before: Buckets, buckets: Buckets, connections: map<Connection, int>,
                         linked: set<Connection>, windows: seq<int>, folded: nat, start: int, end: int)
    requires FoldedSoFar(before, buckets, connections, linked, windows, folded, start, end) && start < end
    ensures folded < |windows| && windows[folded] == start
    ensures FoldedSoFar(before, RouterFolded(buckets, connections, linked, start), connections, linked, windows,
                        folded + 1, start + BUCKET_MS, end)
  {
    assert windows[folded] == windows[folded..][0] == start;
    assert windows[..folded + 1][..folded] == windows[..folded];
    assert windows[folded + 1..] == windows[folded..][1..];
  }

  // --------------------------------------------------------------- the object

  /** What `foldedThrough` reads: the pointer in memory, else the newest router row. */
  ghost predicate IsFoldedThrough(last: Option<int>, buckets: Buckets, through: Option<int>) {
    if last.Some? then through == last
    else if through.None? then forall b <- buckets :: b.source == Agent
    else (exists b <- buckets :: b.source == Router && b.bucketStart == through.value)
         && forall b <- buckets :: b.source == Router ==> b.bucketStart <= through.value
  }

  /** The floor of the walk into the past: where the agents' records begin, or retention ends. */
  ghost predicate IsFloor(observations: Observations, now: int, floor: int) {
    exists k <- observations ::
      && (forall l <- observations :: observations[k].firstObservedAt <= observations[l].firstObservedAt)
      && floor == Max(BucketStartFor(observations[k].firstObservedAt), BucketStartFor(now - RETENTION_MS))
  }

  /** Where the walk stands: in memory, else at the oldest agent row, else now. */
  ghost predicate StandsAt(backfilledFrom: Option<int>, buckets: Buckets, now: int, from: int) {
    if backfilledFrom.Some? then from == backfilledFrom.value
    else if forall b <- buckets :: b.source == Router then from == BucketStartFor(now)
    else (exists b <- buckets :: b.source == Agent && b.bucketStart == from)
         && forall b <- buckets :: b.source == Agent ==> from <= b.bucketStart
  }

  class ConnectionBuckets {
    /** When each flow was last seen, and the flows an agent also saw. */
    var connections: map<Connection, int>
    var linked: set<Connection>
    var observations: Observations
    var buckets: Buckets
    var lastFoldedThrough: Option<int>
    var agentBackfilledFrom: Option<int>
    /** The agent windows asked for and not counted yet, in the order of asking. */
    var agentQueue: seq<int>

    constructor (connections: map<Connection, int>, linked: set<Connection>, observations: Observations,
                 buckets: Buckets)
      ensures this.connections == connections && this.linked == linked
      ensures this.observations == observations && this.buckets == buckets
      ensures lastFoldedThrough == None && agentBackfilledFrom == None && agentQueue == []
    {
      this.connections, this.linked := connections, linked;
      this.observations, this.buckets := observations, buckets;
      lastFoldedThrough, agentBackfilledFrom, agentQueue := None, None, [];
    }

    /** The newest router window folded: from memory, else from the table. */
    method FoldedThrough() returns (through: Option<int>)
      modifies this`lastFoldedThrough
      ensures IsFoldedThrough(old(lastFoldedThrough), buckets, through) && lastFoldedThrough == through
    {
      if lastFoldedThrough.Some? {
        return lastFoldedThrough;
      }
      var starts := set b <- buckets | b.source == Router :: b.bucketStart;
      if starts == {} {
        assert forall b <- buckets :: b.source == Router ==> b.bucketStart in starts;
        return None;
      }
      var newest := GreatestOf(starts);
      lastFoldedThrough := Some(newest);
      assert forall b <- buckets :: b.source == Router ==> b.bucketStart in starts;
      return lastFoldedThrough;
    }

    /** Counts the router half of every window closed since the last fold. */
    method FoldRouter(now: int, maxLag: nat) returns (folded: nat, skipped: int, ghost through: Option<int>)
      modifies this`buckets, this`lastFoldedThrough
      ensures IsFoldedThrough(old(lastFoldedThrough), old(buckets), through)
      ensures OnBoundary(through) ==>
                var pass := PassOf(through, now, maxLag);
                && folded == |pass.windows| && skipped == pass.skipped && lastFoldedThrough == pass.last
                && buckets == RouterFoldedAll(old(buckets), connections, linked, pass.windows)
    {
      var currentStart := BucketStartFor(now);
      var oldestFoldable := currentStart - BUCKET_MS * maxLag;
      var known := FoldedThrough();
      through := known;
      var from := if known.None? then oldestFoldable - BUCKET_MS else known.value;
      skipped := 0;
      if from + BUCKET_MS < oldestFoldable {
        skipped := (oldestFoldable - (from + BUCKET_MS)) / BUCKET_MS;
        from := oldestFoldable - BUCKET_MS;
      }
      ghost var windows := Windows(from + BUCKET_MS, currentStart);
      folded := 0;
      var start := from + BUCKET_MS;
      while start < currentStart
        invariant FoldedSoFar(old(buckets), buckets, connections, linked, windows, folded, start, currentStart)
        invariant lastFoldedThrough == if folded == 0 then through else Some(windows[folded - 1])
        decreases currentStart - start
      {
        NextWindowFolded(old(buckets), buckets, connections, linked, windows, folded, start, currentStart);
        buckets := RouterFolded(buckets, connections, linked, start);
        folded := folded + 1;
        lastFoldedThrough := Some(start);
        start := start + BUCKET_MS;
      }
      assert windows[folded..] == [];
      assert windows[..folded] == windows;
    }

    /** Puts a fresh count of the flows that overlap a window in place of the agent rows it had. */
    method FoldAgentWindow(bucketStart: int) returns (rows: nat)
      requires StoredRows(observations)
      modifies this`buckets
      ensures buckets == AgentFolded(old(buckets), observations, bucketStart)
      ensures rows == |set dst <- Destinations(observations, observations.Keys)
                           | FlowsDuring(observations, bucketStart, dst) != {}|
    {
      var keys := ShortBranch(observations, bucketStart) + LongBranch(observations, bucketStart);
      buckets := AgentFolded(buckets, observations, bucketStart);
      rows := |Destinations(observations, keys)|;
      TwoBranchesAreTheOverlap(observations, bucketStart);
      assert Destinations(observations, keys) == set dst <- Destinations(observations, observations.Keys)
                                                     | FlowsDuring(observations, bucketStart, dst) != {} by {
        forall dst ensures dst in Destinations(observations, keys)
                           <==> dst in Destinations(observations, observations.Keys)
                                && FlowsDuring(observations, bucketStart, dst) != {} {
          TextsCountFlows(observations, bucketStart, keys, dst);
          assert keys <= observations.Keys;
        }
      }
    }

    /** Queues the recent windows again, those already waiting left in place. */
    method QueueRecentAgentWindows(now: int) returns (queued: nat)
      modifies this`agentQueue
      ensures |agentQueue| == |old(agentQueue)| + queued && old(agentQueue) <= agentQueue
      ensures forall i :: 1 <= i <= AGENT_REFOLD_WINDOWS ==> BucketStartFor(now) - BUCKET_MS * i in agentQueue
      ensures forall k :: |old(agentQueue)| <= k < |agentQueue| ==>
                BucketStartFor(now) - BUCKET_MS * AGENT_REFOLD_WINDOWS <= agentQueue[k] < BucketStartFor(now)
      ensures NoRepeats(old(agentQueue)) ==> NoRepeats(agentQueue)
    {
      var currentStart := BucketStartFor(now);
      queued := 0;
      var i := AGENT_REFOLD_WINDOWS;
      while i >= 1
        invariant 0 <= i <= AGENT_REFOLD_WINDOWS
        invariant |agentQueue| == |old(agentQueue)| + queued && old(agentQueue) <= agentQueue
        invariant forall j :: i < j <= AGENT_REFOLD_WINDOWS ==> currentStart - BUCKET_MS * j in agentQueue
        invariant forall k :: |old(agentQueue)| <= k < |agentQueue| ==>
                    currentStart - BUCKET_MS * AGENT_REFOLD_WINDOWS <= agentQueue[k] < currentStart
        invariant NoRepeats(old(agentQueue)) ==> NoRepeats(agentQueue)
      {
        var start := currentStart - BUCKET_MS * i;
        if start !in agentQueue {
          agentQueue := agentQueue + [start];
          queued := queued + 1;
        }
        i := i - 1;
      }
    }

    method FindFloor(now: int) returns (floor: int)
      requires observations != map[]
      ensures IsFloor(observations, now, floor)
    {
      var firsts := set k <- observations :: observations[k].firstObservedAt;
      var some := AnyOf(observations.Keys);
      assert observations[some].firstObservedAt in firsts;
      var oldestAgentAt := LeastOf(firsts);
      assert forall l <- observations :: observations[l].firstObservedAt in firsts;
      floor := Max(BucketStartFor(oldestAgentAt), BucketStartFor(now - RETENTION_MS));
    }

    method FindStart(now: int) returns (from: int)
      ensures StandsAt(agentBackfilledFrom, buckets, now, from)
    {
      if agentBackfilledFrom.Some? {
        return agentBackfilledFrom.value;
      }
      var starts := set b <- buckets | b.source == Agent :: b.bucketStart;
      assert forall b <- buckets :: b.source == Agent ==> b.bucketStart in starts;
      if starts == {} {
        return BucketStartFor(now);
      }
      from := LeastOf(starts);
    }

    /** Queues the next window of the past; None when the walk has met its floor. */
    method QueueNextPastAgentWindow(now: int) returns (next: Option<int>, ghost from: int, ghost floor: int)
      modifies this`agentBackfilledFrom, this`agentQueue
      ensures observations == map[] ==>
                next == None && agentQueue == old(agentQueue) && agentBackfilledFrom == old(agentBackfilledFrom)
      ensures observations != map[] ==> IsFloor(observations, now, floor)
      ensures observations != map[] ==> StandsAt(old(agentBackfilledFrom), buckets, now, from)
      ensures observations != map[] ==>
                && next == (if from <= floor then None else Some(from - BUCKET_MS))
                && agentBackfilledFrom == Some(if next.Some? then next.value else from)
                && agentQueue == old(agentQueue) + (if next.Some? then [next.value] else [])
      ensures observations != map[] ==>
                forall first, floors :: StandsAfter(first, floors) == from ==>
                  && QueuedWith(first, floors + [floor])
                     == QueuedWith(first, floors) + (if next.Some? then [next.value] else [])
                  && agentBackfilledFrom == Some(StandsAfter(first, floors + [floor]))
    {
      if observations == map[] {
        from, floor := 0, 0;
        return None, from, floor;
      }
      var lowest := FindFloor(now);
      var start := FindStart(now);
      from, floor := start, lowest;
      next := StepBack(start, lowest);
    }

    /** One window further back, unless the walk is at its floor. */
    method StepBack(from: int, floor: int) returns (next: Option<int>)
      modifies this`agentBackfilledFrom, this`agentQueue
      ensures next == if from <= floor then None else Some(from - BUCKET_MS)
      ensures agentBackfilledFrom == Some(if next.Some? then next.value else from)
      ensures agentQueue == old(agentQueue) + if next.Some? then [next.value] else []
      ensures forall first, floors :: StandsAfter(first, floors) == from ==>
                && QueuedWith(first, floors + [floor])
                   == QueuedWith(first, floors) + (if next.Some? then [next.value] else [])
                && agentBackfilledFrom == Some(StandsAfter(first, floors + [floor]))
    {
      forall first, floors | StandsAfter(first, floors) == from
        ensures QueuedWith(first, floors + [floor])
                == QueuedWith(first, floors) + (if from <= floor then [] else [from - BUCKET_MS])
        ensures StandsAfter(first, floors + [floor]) == if from <= floor then from else from - BUCKET_MS
      {
        OneCallMore(first, floors, floor);
      }
      agentBackfilledFrom := Some(from);
      if from <= floor {
        return None;
      }
      agentBackfilledFrom := Some(from - BUCKET_MS);
      agentQueue := agentQueue + [from - BUCKET_MS];
      next := agentBackfilledFrom;
    }

    /** Counts the windows at the head of the queue, one per tick. */
    method DrainAgentQueue() returns (folded: nat, pending: nat)
      requires StoredRows(observations)
      modifies this`agentQueue, this`buckets
      ensures folded == Min(|old(agentQueue)|, AGENT_WINDOWS_PER_TICK) && pending == |agentQueue|
      ensures agentQueue == old(agentQueue)[folded..]
      ensures buckets == AgentFoldedAll(old(buckets), observations, old(agentQueue)[..folded])
    {
      folded := 0;
      while folded < AGENT_WINDOWS_PER_TICK && agentQueue != []
        invariant folded <= |old(agentQueue)| && folded <= AGENT_WINDOWS_PER_TICK
        invariant agentQueue == old(agentQueue)[folded..]
        invariant buckets == AgentFoldedAll(old(buckets), observations, old(agentQueue)[..folded])
      {
        var next := agentQueue[0];
        agentQueue := agentQueue[1..];
        var rows := FoldAgentWindow(next);
        assert old(agentQueue)[..folded + 1] == old(agentQueue)[..folded] + [next];
        folded := folded + 1;
      }
      pending := |agentQueue|;
    }
  }
}
