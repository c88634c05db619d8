/**
 Rolling the hourly app rows up by day (src/agent-app-daily.js): past days are
 rebuilt whole, today is folded an hour at a time.
 */
module AgentAppDaily {
  import opened Common
  import opened AgentIngest

  const DAY_MS := 86_400_000
  const DAYS_PER_TICK := 1
  const HOURS_PER_TICK := 2

  /** What the daily rows are grouped by, apart from the day. */
  datatype Flow = Flow(agentId: AgentId, appIdentity: string, localAddress: string, remoteAddress: string,
                       remotePort: int, networkProtocol: string)
  datatype DayKey = DayKey(dayStart: int, flow: Flow)

  type Hourly = map<HourKey, HourRow>
  type Daily = map<DayKey, Span>

  function DayStartFor(at: int): int {
    WindowStart(at, DAY_MS)
  }

  function FlowOf(k: HourKey): Flow {
    Flow(k.agentId, k.appIdentity, k.localAddress, k.remoteAddress, k.remotePort, Upper(k.networkProtocol))
  }

  function SpanOf(row: HourRow): Span {
    Span(row.firstObservedAt, row.lastObservedAt)
  }

  predicate Within(a: Span, b: Span) {
    b.first <= a.first && a.last <= b.last
  }

  /** Hour rows start on the hour, as every upload writes them. */
  predicate OnTheHour(hourly: Hourly) {
    forall k <- hourly :: k.hourStart % HOUR_MS == 0
  }

  predicate InDay(k: HourKey, day: int) {
    day <= k.hourStart < day + DAY_MS
  }

  // ---------------------------------------------------------- a day's totals

  /** Every row of the day's hours from `from` to `upTo` inclusive has a daily
      row that spans it. */
  ghost predicate Covers(daily: Daily, hourly: Hourly, day: int, from: int, upTo: int) {
    forall k <- hourly :: InDay(k, day) && from <= k.hourStart <= upTo ==> SpannedIn(daily, hourly, day, k)
  }

  predicate SpannedIn(daily: Daily, hourly: Hourly, day: int, k: HourKey)
    requires k in hourly
  {
    DayKey(day, FlowOf(k)) in daily && Within(SpanOf(hourly[k]), daily[DayKey(day, FlowOf(k))])
  }

  /** The day's rows claim no flow, and no time, that no hourly row of the day vouches for. */
  ghost predicate Vouched(daily: Daily, hourly: Hourly, day: int) {
    forall d <- daily :: d.dayStart == day ==> VouchedRow(hourly, d, daily[d])
  }

  ghost predicate VouchedRow(hourly: Hourly, d: DayKey, span: Span) {
    && (exists k <- hourly :: InDay(k, d.dayStart) && FlowOf(k) == d.flow && hourly[k].firstObservedAt <= span.first)
    && (exists k <- hourly :: InDay(k, d.dayStart) && FlowOf(k) == d.flow && hourly[k].lastObservedAt >= span.last)
  }

  /** The day's rows are what rebuilding the day from scratch gives. */
  ghost predicate Exact(daily: Daily, hourly: Hourly, day: int) {
    Covers(daily, hourly, day, day, day + DAY_MS - 1) && Vouched(daily, hourly, day)
  }

  /** There is only one way to be exact: same flows, same first and last times. */
  lemma ExactIsUnique(a: Daily, b: Daily, hourly: Hourly, day: int, flow: Flow)
    requires Exact(a, hourly, day) && Exact(b, hourly, day)
    ensures DayKey(day, flow) in a <==> DayKey(day, flow) in b
    ensures DayKey(day, flow) in a ==> a[DayKey(day, flow)] == b[DayKey(day, flow)]
  {
    if DayKey(day, flow) in a { ExactReaches(a, b, hourly, day, flow); }
    if DayKey(day, flow) in b { ExactReaches(b, a, hourly, day, flow); }
  }

  lemma ExactReaches(a: Daily, b: Daily, hourly: Hourly, day: int, flow: Flow)
    requires Vouched(a, hourly, day) && Covers(b, hourly, day, day, day + DAY_MS - 1)
    requires DayKey(day, flow) in a
    ensures DayKey(day, flow) in b && Within(a[DayKey(day, flow)], b[DayKey(day, flow)])
  {
    var d := DayKey(day, flow);
    assert VouchedRow(hourly, d, a[d]);
    var k1 :| k1 in hourly && InDay(k1, day) && FlowOf(k1) == flow && hourly[k1].firstObservedAt <= a[d].first;
    var k2 :| k2 in hourly && InDay(k2, day) && FlowOf(k2) == flow && hourly[k2].lastObservedAt >= a[d].last;
    assert SpannedIn(b, hourly, day, k1) && SpannedIn(b, hourly, day, k2);
  }

  /** The hourly row belongs to the flow: same agent, app, addresses and port, and
      the same protocol whatever the case of its letters. */
  predicate IsOfFlow(k: HourKey, flow: Flow) {
    && k.agentId == flow.agentId && k.appIdentity == flow.appIdentity
    && k.localAddress == flow.localAddress && k.remoteAddress == flow.remoteAddress && k.remotePort == flow.remotePort
    && |k.networkProtocol| == |flow.networkProtocol|
    && forall i :: 0 <= i < |k.networkProtocol| ==> flow.networkProtocol[i] == Capital(k.networkProtocol[i])
  }

  /** Only the ASCII letters have capitals here. */
  function Capital(c: char): char {
    if 'a' <= c <= 'z' then (c as int - 'a' as int + 'A' as int) as char else c
  }

  lemma OfFlowIff(k: HourKey, flow: Flow)
    ensures FlowOf(k) == flow <==> IsOfFlow(k, flow)
  {
    SameCapitals(k.networkProtocol, flow.networkProtocol);
  }

  lemma SameCapitals(p: string, q: string)
    ensures Upper(p) == q <==> |p| == |q| && forall i :: 0 <= i < |p| ==> q[i] == Capital(p[i])
  {
  }

  /** An exact day read off the hourly rows: there is a row for a flow exactly if an
      hourly row of the day belongs to it, from the earliest of their times to the latest. */
  lemma ExactDayReadsAs(daily: Daily, hourly: Hourly, day: int, flow: Flow)
    requires Exact(daily, hourly, day)
    ensures DayKey(day, flow) in daily <==> exists k <- hourly :: InDay(k, day) && IsOfFlow(k, flow)
    ensures DayKey(day, flow) in daily ==>
              var span := daily[DayKey(day, flow)];
              && (forall k <- hourly :: InDay(k, day) && IsOfFlow(k, flow) ==>
                    span.first <= hourly[k].firstObservedAt && hourly[k].lastObservedAt <= span.last)
              && (exists k <- hourly :: InDay(k, day) && IsOfFlow(k, flow) && hourly[k].firstObservedAt == span.first)
              && (exists k <- hourly :: InDay(k, day) && IsOfFlow(k, flow) && hourly[k].lastObservedAt == span.last)
  {
    forall k: HourKey ensures FlowOf(k) == flow <==> IsOfFlow(k, flow) { OfFlowIff(k, flow); }
    var d := DayKey(day, flow);
    forall k <- hourly | InDay(k, day) && IsOfFlow(k, flow) ensures d in daily && Within(SpanOf(hourly[k]), daily[d]) {
      assert SpannedIn(daily, hourly, day, k);
    }
    if d in daily {
      assert VouchedRow(hourly, d, daily[d]);
      var k1 :| k1 in hourly && InDay(k1, day) && FlowOf(k1) == flow && hourly[k1].firstObservedAt <= daily[d].first;
      var k2 :| k2 in hourly && InDay(k2, day) && FlowOf(k2) == flow && hourly[k2].lastObservedAt >= daily[d].last;
      assert Within(SpanOf(hourly[k1]), daily[d]) && Within(SpanOf(hourly[k2]), daily[d]);
    }
  }

  // ------------------------------------------------- grouping some hours' rows

  /** GROUP BY flow of the rows in `keys`: first and last times by MIN and MAX. */
  ghost predicate Grouping(groups: map<Flow, Span>, hourly: Hourly, keys: set<HourKey>) {
    && (forall k <- keys :: k in hourly && FlowOf(k) in groups && Within(SpanOf(hourly[k]), groups[FlowOf(k)]))
    && (forall f <- groups :: Reached(hourly, keys, f, groups[f]))
  }

  ghost predicate Reached(hourly: Hourly, keys: set<HourKey>, flow: Flow, span: Span) {
    && (exists k <- keys :: k in hourly && FlowOf(k) == flow && hourly[k].firstObservedAt == span.first)
    && (exists k <- keys :: k in hourly && FlowOf(k) == flow && hourly[k].lastObservedAt == span.last)
  }

  function AddTo(groups: map<Flow, Span>, flow: Flow, span: Span): map<Flow, Span> {
    groups[flow := if flow in groups then Hull(groups[flow], span) else span]
  }

  lemma GroupingGrows(groups: map<Flow, Span>, hourly: Hourly, keys: set<HourKey>, k: HourKey)
    requires Grouping(groups, hourly, keys) && k in hourly
    ensures Grouping(AddTo(groups, FlowOf(k), SpanOf(hourly[k])), hourly, keys + {k})
  {
    var flow, span := FlowOf(k), SpanOf(hourly[k]);
    var more := AddTo(groups, flow, span);
    forall f <- more ensures Reached(hourly, keys + {k}, f, more[f]) {
      if f in groups {
        assert Reached(hourly, keys, f, groups[f]);
        var k1 :| k1 in keys && k1 in hourly && FlowOf(k1) == f && hourly[k1].firstObservedAt == groups[f].first;
        var k2 :| k2 in keys && k2 in hourly && FlowOf(k2) == f && hourly[k2].lastObservedAt == groups[f].last;
        assert k1 in keys + {k} && k2 in keys + {k};
      }
      assert k in keys + {k};
    }
  }

  method GroupByFlow(hourly: Hourly, keys: set<HourKey>) returns (groups: map<Flow, Span>)
    requires keys <= hourly.Keys
    ensures Grouping(groups, hourly, keys)
  {
    groups := map[];
    var rest := keys;
    while rest != {}
      invariant rest <= keys && Grouping(groups, hourly, keys - rest)
      decreases |rest|
    {
      var k := AnyOf(rest);
      GroupingGrows(groups, hourly, keys - rest, k);
      assert keys - (rest - {k}) == keys - rest + {k};
      groups := AddTo(groups, FlowOf(k), SpanOf(hourly[k]));
      rest := rest - {k};
    }
    assert keys - rest == keys;
  }

  function KeysOfDay(hourly: Hourly, day: int): set<HourKey> {
    set k <- hourly | InDay(k, day)
  }

  function KeysOfHour(hourly: Hourly, hourStart: int): set<HourKey> {
    set k <- hourly | k.hourStart == hourStart
  }

  function WithoutDay(daily: Daily, day: int): Daily {
    map d <- daily | d.dayStart != day :: daily[d]
  }

  /** INSERT of the groups as rows of the day. */
  function Inserted(daily: Daily, day: int, groups: map<Flow, Span>): Daily {
    daily + map d: DayKey | d in (set f <- groups :: DayKey(day, f)) :: groups[d.flow]
  }

  /** INSERT ... ON CONFLICT DO UPDATE of the groups as rows of the day. */
  function Upserted(daily: Daily, day: int, groups: map<Flow, Span>): Daily {
    daily + map d: DayKey | d in (set f <- groups :: DayKey(day, f)) ::
      if d in daily then Hull(daily[d], groups[d.flow]) else groups[d.flow]
  }

  ghost predicate SameRow(a: Daily, b: Daily, d: DayKey) {
    (d in a <==> d in b) && (d in a ==> a[d] == b[d])
  }

  ghost predicate SameElsewhere(a: Daily, b: Daily, day: int) {
    forall d: DayKey :: d.dayStart != day ==> SameRow(a, b, d)
  }

  lemma SameElsewhereChain(a: Daily, b: Daily, c: Daily, day: int)
    requires SameElsewhere(a, b, day) && SameElsewhere(b, c, day)
    ensures SameElsewhere(a, c, day)
  {
    forall d: DayKey | d.dayStart != day ensures SameRow(a, c, d) {
      assert SameRow(a, b, d) && SameRow(b, c, d);
    }
  }

  lemma InsertedIsExact(daily: Daily, hourly: Hourly, day: int, groups: map<Flow, Span>)
    requires Grouping(groups, hourly, KeysOfDay(hourly, day))
    ensures var after := Inserted(WithoutDay(daily, day), day, groups);
            Exact(after, hourly, day) && SameElsewhere(daily, after, day)
  {
    InsertedCovers(WithoutDay(daily, day), hourly, day, groups);
    InsertedElsewhere(daily, day, groups);
    var after := Inserted(WithoutDay(daily, day), day, groups);
    forall d <- after | d.dayStart == day ensures VouchedRow(hourly, d, after[d]) {
      assert d.flow in groups && after[d] == groups[d.flow];
      GroupIsVouched(hourly, KeysOfDay(hourly, day), groups, d);
    }
  }

  lemma RowsInserted(daily: Daily, day: int, groups: map<Flow, Span>)
    ensures |set d <- Inserted(WithoutDay(daily, day), day, groups) | d.dayStart == day| == |groups|
  {
    var rows := set d <- Inserted(WithoutDay(daily, day), day, groups) | d.dayStart == day;
    assert rows == set f <- groups.Keys :: DayKey(day, f);
    SameSize(groups.Keys, rows, f => DayKey(day, f));
  }

  lemma InsertedElsewhere(daily: Daily, day: int, groups: map<Flow, Span>)
    ensures SameElsewhere(daily, Inserted(WithoutDay(daily, day), day, groups), day)
  {
  }

  lemma InsertedCovers(daily: Daily, hourly: Hourly, day: int, groups: map<Flow, Span>)
    requires Grouping(groups, hourly, KeysOfDay(hourly, day))
    ensures Covers(Inserted(daily, day, groups), hourly, day, day, day + DAY_MS - 1)
  {
    forall k <- hourly | InDay(k, day) ensures SpannedIn(Inserted(daily, day, groups), hourly, day, k) {
      assert k in KeysOfDay(hourly, day);
    }
  }

  lemma GroupIsVouched(hourly: Hourly, keys: set<HourKey>, groups: map<Flow, Span>, d: DayKey)
    requires Grouping(groups, hourly, keys) && d.flow in groups && forall k <- keys :: InDay(k, d.dayStart)
    ensures VouchedRow(hourly, d, groups[d.flow])
  {
    assert Reached(hourly, keys, d.flow, groups[d.flow]);
    var k1 :| k1 in keys && k1 in hourly && FlowOf(k1) == d.flow
              && hourly[k1].firstObservedAt == groups[d.flow].first;
    var k2 :| k2 in keys && k2 in hourly && FlowOf(k2) == d.flow
              && hourly[k2].lastObservedAt == groups[d.flow].last;
    assert InDay(k1, d.dayStart) && InDay(k2, d.dayStart);
  }

  lemma HullIsVouched(hourly: Hourly, d: DayKey, a: Span, b: Span)
    requires VouchedRow(hourly, d, a) && VouchedRow(hourly, d, b)
    ensures VouchedRow(hourly, d, Hull(a, b))
  {
  }

  /** Folding one more hour covers it and stays vouched for. */
  lemma UpsertedCovers(daily: Daily, hourly: Hourly, day: int, hour: int, groups: map<Flow, Span>)
    requires Grouping(groups, hourly, KeysOfHour(hourly, hour)) && day <= hour < day + DAY_MS
    requires Vouched(daily, hourly, day)
    ensures var after := Upserted(daily, day, groups);
            Vouched(after, hourly, day) && Covers(after, hourly, day, hour, hour)
  {
    var after := Upserted(daily, day, groups);
    forall k <- hourly | k.hourStart == hour ensures SpannedIn(after, hourly, day, k) {
      assert k in KeysOfHour(hourly, hour);
    }
    forall d <- after | d.dayStart == day ensures VouchedRow(hourly, d, after[d]) {
      UpsertedIsVouched(daily, hourly, day, hour, groups, d);
    }
  }

  /** And keeps what was covered. */
  lemma UpsertedKeepsCover(daily: Daily, hourly: Hourly, day: int, groups: map<Flow, Span>, lo: int, hi: int)
    requires Covers(daily, hourly, day, lo, hi)
    ensures Covers(Upserted(daily, day, groups), hourly, day, lo, hi)
  {
    var after := Upserted(daily, day, groups);
    forall k <- hourly | InDay(k, day) && lo <= k.hourStart <= hi ensures SpannedIn(after, hourly, day, k) {
      assert SpannedIn(daily, hourly, day, k);
    }
  }

  lemma UpsertedIsVouched(daily: Daily, hourly: Hourly, day: int, hour: int, groups: map<Flow, Span>, d: DayKey)
    requires Grouping(groups, hourly, KeysOfHour(hourly, hour)) && day <= hour < day + DAY_MS
    requires Vouched(daily, hourly, day) && d.dayStart == day && d in Upserted(daily, day, groups)
    ensures VouchedRow(hourly, d, Upserted(daily, day, groups)[d])
  {
    if d in daily {
      assert VouchedRow(hourly, d, daily[d]);
    }
    if d.flow in groups {
      GroupIsVouched(hourly, KeysOfHour(hourly, hour), groups, d);
    }
    if d in daily && d.flow in groups {
      HullIsVouched(hourly, d, daily[d], groups[d.flow]);
    }
  }

  // -------------------------------------------- any order, any repeats, a day

  /** `foldHour` on tables, for an hour whose rows group to `groups`. */
  ghost predicate HourFolded(before: Daily, after: Daily, hourly: Hourly, hour: int) {
    exists groups :: FoldedBy(before, after, hourly, hour, groups)
  }

  ghost predicate FoldedBy(before: Daily, after: Daily, hourly: Hourly, hour: int, groups: map<Flow, Span>) {
    Grouping(groups, hourly, KeysOfHour(hourly, hour)) && after == Upserted(before, DayStartFor(hour), groups)
  }

  /** What folding an hour does to the day it belongs to, and to no other. */
  lemma HourFoldedCovers(before: Daily, after: Daily, hourly: Hourly, day: int, hour: int)
    requires HourFolded(before, after, hourly, hour) && day % DAY_MS == 0 && day <= hour < day + DAY_MS
    ensures SameElsewhere(before, after, day)
    ensures Vouched(before, hourly, day) ==> Vouched(after, hourly, day) && Covers(after, hourly, day, hour, hour)
  {
    DayStartIs(hour, day);
    var groups :| FoldedBy(before, after, hourly, hour, groups);
    UpsertedElsewhere(before, day, groups);
    if Vouched(before, hourly, day) {
      UpsertedCovers(before, hourly, day, hour, groups);
    }
  }

  lemma HourFoldedKeepsCover(before: Daily, after: Daily, hourly: Hourly, day: int, hour: int, lo: int, hi: int)
    requires HourFolded(before, after, hourly, hour) && day % DAY_MS == 0 && day <= hour < day + DAY_MS
    requires Covers(before, hourly, day, lo, hi)
    ensures Covers(after, hourly, day, lo, hi)
  {
    DayStartIs(hour, day);
    var groups :| FoldedBy(before, after, hourly, hour, groups);
    UpsertedKeepsCover(before, hourly, day, groups, lo, hi);
  }

  lemma UpsertedElsewhere(daily: Daily, day: int, groups: map<Flow, Span>)
    ensures SameElsewhere(daily, Upserted(daily, day, groups), day)
  {
  }

  /** `tables[i + 1]` comes from `tables[i]` by folding `hours[i]`. */
  ghost predicate HoursFolded(tables: seq<Daily>, hourly: Hourly, hours: seq<int>) {
    && |tables| == |hours| + 1
    && (forall i :: 0 <= i < |hours| ==> HourFolded(tables[i], tables[i + 1], hourly, hours[i]))
  }

  lemma DayStartIs(at: int, day: int)
    requires day % DAY_MS == 0 && day <= at < day + DAY_MS
    ensures DayStartFor(at) == day
  {
  }

  lemma {:induction false} HoursFoldedCover(tables: seq<Daily>, hourly: Hourly, day: int, hours: seq<int>)
    requires HoursFolded(tables, hourly, hours) && Vouched(tables[0], hourly, day) && day % DAY_MS == 0
    requires forall i :: 0 <= i < |hours| ==> day <= hours[i] < day + DAY_MS
    ensures Vouched(tables[|hours|], hourly, day) && SameElsewhere(tables[0], tables[|hours|], day)
    ensures forall i :: 0 <= i < |hours| ==> Covers(tables[|hours|], hourly, day, hours[i], hours[i])
    decreases |hours|
  {
    if hours != [] {
      var last := |hours| - 1;
      HoursFoldedCover(tables[..last + 1], hourly, day, hours[..last]);
      assert HourFolded(tables[last], tables[last + 1], hourly, hours[last]);
      HourFoldedCovers(tables[last], tables[last + 1], hourly, day, hours[last]);
      forall i | 0 <= i <= last ensures Covers(tables[last + 1], hourly, day, hours[i], hours[i]) {
        if i < last {
          assert hours[..last][i] == hours[i];
          HourFoldedKeepsCover(tables[last], tables[last + 1], hourly, day, hours[last], hours[i], hours[i]);
        }
      }
    }
  }

  /** Folding hour by hour, in any order and with repeats, over every hour of a
      day that has rows, gives the day exactly, whatever of it was there before. */
  lemma HoursInAnyOrderGiveTheDay(tables: seq<Daily>, hourly: Hourly, day: int, hours: seq<int>)
    requires HoursFolded(tables, hourly, hours) && Vouched(tables[0], hourly, day) && day % DAY_MS == 0
    requires forall i :: 0 <= i < |hours| ==> day <= hours[i] < day + DAY_MS
    requires forall k <- hourly :: InDay(k, day) ==> k.hourStart in hours
    ensures Exact(tables[|hours|], hourly, day) && SameElsewhere(tables[0], tables[|hours|], day)
  {
    HoursFoldedCover(tables, hourly, day, hours);
    forall k <- hourly | InDay(k, day) ensures SpannedIn(tables[|hours|], hourly, day, k) {
      var i :| 0 <= i < |hours| && hours[i] == k.hourStart;
      assert Covers(tables[|hours|], hourly, day, hours[i], hours[i]);
    }
  }

  // ------------------------------------------------------- between two ticks

  /** Rows only grow, and those of the hours up to `upTo` stay as they are. */
  ghost predicate LaterRowsOnly(was: Hourly, now: Hourly, upTo: int) {
    && (forall k <- was :: k in now && Within(SpanOf(was[k]), SpanOf(now[k])))
    && (forall k <- now :: k.hourStart <= upTo ==> k in was && SpanOf(was[k]) == SpanOf(now[k]))
  }

  /** The hours up to which today is folded, in memory or from the start of the day. */
  function PassedHours(lastHourFolded: Option<int>, today: int): int {
    if lastHourFolded.Some? && lastHourFolded.value >= today then lastHourFolded.value else today - HOUR_MS
  }

  /** Today's rows are right up to the pointer. */
  ghost predicate UpToPointer(daily: Daily, hourly: Hourly, today: int, passed: int) {
    && Covers(daily, hourly, today, today, passed)
    && Vouched(daily, hourly, today)
    && passed % HOUR_MS == 0 && OnTheHour(hourly)
  }

  lemma OneMoreHour(daily: Daily, hourly: Hourly, today: int, passed: int)
    requires Covers(daily, hourly, today, today, passed) && passed % HOUR_MS == 0 && OnTheHour(hourly)
    requires Covers(daily, hourly, today, passed + HOUR_MS, passed + HOUR_MS)
    ensures Covers(daily, hourly, today, today, passed + HOUR_MS)
  {
    forall k <- hourly | InDay(k, today) && today <= k.hourStart <= passed + HOUR_MS
      ensures SpannedIn(daily, hourly, today, k)
    {
      assert k.hourStart % HOUR_MS == 0;
      assert k.hourStart <= passed || k.hourStart == passed + HOUR_MS;
    }
  }

  /** Folding the hour after the pointer moves what is folded up by that hour. */
  lemma NextHourFolded(was: Daily, daily: Daily, hourly: Hourly, today: int, passed: int)
    requires UpToPointer(was, hourly, today, passed) && HourFolded(was, daily, hourly, passed + HOUR_MS)
    requires today % DAY_MS == 0 && today <= passed + HOUR_MS < today + DAY_MS
    ensures UpToPointer(daily, hourly, today, passed + HOUR_MS)
  {
    HourFoldedCovers(was, daily, hourly, today, passed + HOUR_MS);
    HourFoldedKeepsCover(was, daily, hourly, today, passed + HOUR_MS, today, passed);
    OneMoreHour(daily, hourly, today, passed);
  }

  lemma UpToEarlier(daily: Daily, hourly: Hourly, today: int, passed: int, earlier: int)
    requires UpToPointer(daily, hourly, today, passed) && earlier <= passed && earlier % HOUR_MS == 0
    ensures UpToPointer(daily, hourly, today, earlier)
  {
  }

  lemma UpToNow(daily: Daily, hourly: Hourly, today: int, passed: int, currentHour: int)
    requires UpToPointer(daily, hourly, today, passed) && currentHour < passed + HOUR_MS
    ensures Covers(daily, hourly, today, today, currentHour)
  {
    forall k <- hourly | InDay(k, today) && today <= k.hourStart <= currentHour
      ensures SpannedIn(daily, hourly, today, k)
    {
      assert k.hourStart % HOUR_MS == 0;
      assert k.hourStart <= passed;
    }
  }

  /** A tick that leaves nothing pending has today exactly, unless some agent
      is ahead of the Hub's clock. */
  lemma CaughtUpIsExact(daily: Daily, hourly: Hourly, today: int, currentHour: int)
    requires Covers(daily, hourly, today, today, currentHour) && Vouched(daily, hourly, today)
    requires forall k <- hourly :: InDay(k, today) ==> k.hourStart <= currentHour
    ensures Exact(daily, hourly, today)
  {
  }

  /** The first tick of a day starts from nothing. */
  lemma NewDayStartsFresh(daily: Daily, hourly: Hourly, today: int, lastHourFolded: Option<int>)
    requires today !in DoneDays(daily) && OnTheHour(hourly) && today % DAY_MS == 0
    requires lastHourFolded.Some? ==> lastHourFolded.value < today
    ensures UpToPointer(daily, hourly, today, PassedHours(lastHourFolded, today))
  {
    assert forall d <- daily :: d.dayStart in DoneDays(daily);
  }

  lemma LaterRowsKeepWhatIsFolded(daily: Daily, was: Hourly, now: Hourly, today: int, passed: int)
    requires UpToPointer(daily, was, today, passed) && LaterRowsOnly(was, now, passed) && OnTheHour(now)
    ensures UpToPointer(daily, now, today, passed)
  {
    forall k <- now | InDay(k, today) && today <= k.hourStart <= passed ensures SpannedIn(daily, now, today, k) {
      assert SpannedIn(daily, was, today, k);
    }
    forall d <- daily | d.dayStart == today ensures VouchedRow(now, d, daily[d]) {
      assert VouchedRow(was, d, daily[d]);
    }
  }

  /** An upload last seen after the folded hours is such a change. */
  lemma UploadsChangeLaterHours(t: Tables, w: Write, upTo: int)
    requires upTo % HOUR_MS == 0
    requires KeyOf(w) in Apply(t, w).observations ==>
               Apply(t, w).observations[KeyOf(w)].lastObservedAt >= upTo + HOUR_MS
    ensures LaterRowsOnly(t.hourly, Apply(t, w).hourly, upTo)
    ensures OnTheHour(t.hourly) ==> OnTheHour(Apply(t, w).hourly)
  {
    match VerdictOf(t, w)
    case Accepted => PutRowChangesItsHour(t, KeyOf(w), NewRow(w), upTo);
    case Completed => PutRowChangesItsHour(t, KeyOf(w), CompletedRow(t.observations[KeyOf(w)], w.report), upTo);
    case _ =>
  }

  lemma PutRowChangesItsHour(t: Tables, key: ObsKey, row: Row, upTo: int)
    requires upTo % HOUR_MS == 0 && row.lastObservedAt >= upTo + HOUR_MS
    ensures LaterRowsOnly(t.hourly, PutRow(t, key, row).hourly, upTo)
    ensures OnTheHour(t.hourly) ==> OnTheHour(PutRow(t, key, row).hourly)
  {
    assert HourKeyOf(key.agentId, row).hourStart >= upTo + HOUR_MS;
  }

  /** A restart forgets the pointer and keeps the rows: nothing is lost but work. */
  lemma RestartKeepsWhatIsFolded(daily: Daily, hourly: Hourly, today: int, passed: int)
    requires UpToPointer(daily, hourly, today, passed) && today % DAY_MS == 0
    ensures UpToPointer(daily, hourly, today, PassedHours(None, today))
  {
  }

  // ---------------------------------------------------------- days still open

  function DoneDays(daily: Daily): set<int> {
    set d <- daily :: d.dayStart
  }

  predicate HasRows(hourly: Hourly, day: int) {
    exists k <- hourly :: InDay(k, day)
  }

  function OutstandingDays(from: int, today: int, done: set<int>): (days: seq<int>)
    ensures forall day <- days :: from <= day < today && day !in done
    decreases today - from
  {
    if from >= today then []
    else (if from in done then [] else [from]) + OutstandingDays(from + DAY_MS, today, done)
  }

  lemma {:induction false} FirstDayDone(from: int, today: int, done: set<int>, more: set<int>)
    requires var days := OutstandingDays(from, today, done);
             days != [] && more == done + {days[0]}
    ensures OutstandingDays(from, today, more) == OutstandingDays(from, today, done)[1..]
    decreases today - from
  {
    var first := OutstandingDays(from, today, done)[0];
    if from in done {
      FirstDayDone(from + DAY_MS, today, done, more);
    } else {
      SameBacklog(from + DAY_MS, today, done, more);
    }
  }

  lemma {:induction false} SameBacklog(from: int, today: int, done: set<int>, more: set<int>)
    requires forall day :: from <= day < today ==> (day in done <==> day in more)
    ensures OutstandingDays(from, today, more) == OutstandingDays(from, today, done)
    decreases today - from
  {
    if from < today {
      SameBacklog(from + DAY_MS, today, done, more);
    }
  }

  ghost predicate IsOldest(hourly: Hourly, oldest: int) {
    (exists k <- hourly :: k.hourStart == oldest) && (forall k <- hourly :: oldest <= k.hourStart)
  }

  /** SELECT MIN(hourStart). */
  ghost function Oldest(hourly: Hourly): (oldest: int)
    requires hourly != map[]
    ensures IsOldest(hourly, oldest)
  {
    OldestExists(hourly);
    var o :| IsOldest(hourly, o);
    o
  }

  lemma OldestExists(hourly: Hourly)
    requires hourly != map[]
    ensures exists o :: IsOldest(hourly, o)
  {
    var k := FirstKey(hourly.Keys);
    assert IsOldest(hourly, k.hourStart);
  }

  lemma {:induction false} FirstKey(keys: set<HourKey>) returns (first: HourKey)
    requires keys != {}
    ensures first in keys && forall k <- keys :: first.hourStart <= k.hourStart
    decreases |keys|
  {
    first := SomeMember(keys);
    var rest := keys - {first};
    assert forall k <- keys :: k == first || k in rest;
    if rest != {} {
      var other := FirstKey(rest);
      if other.hourStart < first.hourStart {
        first := other;
      }
    }
  }

  lemma OldestIsUnique(hourly: Hourly, oldest: int)
    requires hourly != map[] && IsOldest(hourly, oldest)
    ensures oldest == Oldest(hourly)
  {
  }

  /** The past days a tick would have to fold, oldest first. */
  ghost function Backlog(hourly: Hourly, daily: Daily, today: int): seq<int> {
    if hourly == map[] then [] else OutstandingDays(DayStartFor(Oldest(hourly)), today, DoneDays(daily))
  }

  /** What one tick does to the backlog: a day without rows stays in it. */
  ghost function Advance(days: seq<int>, hourly: Hourly): seq<int> {
    if days != [] && HasRows(hourly, days[0]) then days[1..] else days
  }

  /** How far a tick got with today; the hour in progress is left to the next one. */
  ghost predicate CaughtUp(daily: Daily, hourly: Hourly, today: int, currentHour: int, passed: int, pending: nat) {
    && UpToPointer(daily, hourly, today, passed)
    && (pending == 0 ==> Covers(daily, hourly, today, today, currentHour))
  }

  /** A tick rebuilds the oldest outstanding day and touches no other past day. */
  ghost predicate PastDaysAfter(was: Daily, daily: Daily, hourly: Hourly, today: int) {
    var before := Backlog(hourly, was, today);
    && Backlog(hourly, daily, today) == Advance(before, hourly)
    && (before != [] ==> Exact(daily, hourly, before[0]))
    && (forall d: DayKey :: d.dayStart != today && (before == [] || d.dayStart != before[0]) ==> SameRow(was, daily, d))
  }

  /** A tick leaves today alone while other past days wait, and else moves it on. */
  ghost predicate TodayAfter(was: Daily, daily: Daily, hourly: Hourly, now: int,
                             pointerWas: Option<int>, pointer: Option<int>, pending: nat)
  {
    var today, currentHour := DayStartFor(now), WindowStart(now, HOUR_MS);
    var before := |Backlog(hourly, was, today)|;
    var passedWas, passed := PassedHours(pointerWas, today), PassedHours(pointer, today);
    && (before > DAYS_PER_TICK ==> pending == before - DAYS_PER_TICK && pointer == pointerWas)
    && (before > DAYS_PER_TICK ==> forall d: DayKey :: d.dayStart == today ==> SameRow(was, daily, d))
    && (before <= DAYS_PER_TICK && pending > 0 ==>
          passed == passedWas + HOURS_PER_TICK * HOUR_MS && passed + HOUR_MS <= currentHour)
    && (before <= DAYS_PER_TICK && UpToPointer(was, hourly, today, passedWas) ==>
          CaughtUp(daily, hourly, today, currentHour, passed, pending))
  }

  lemma HoursOfToday(now: int)
    ensures DayStartFor(now) <= WindowStart(now, HOUR_MS) < DayStartFor(now) + DAY_MS
    ensures DayStartFor(now) % DAY_MS == 0 && WindowStart(now, HOUR_MS) % HOUR_MS == 0
  {
    WindowStartHolds(now, DAY_MS);
    WindowStartHolds(now, HOUR_MS);
  }

  /** Rebuilding one day leaves another as far as it was. */
  lemma OtherDaysAreKept(was: Daily, daily: Daily, hourly: Hourly, day: int, today: int, passed: int)
    requires SameElsewhere(was, daily, day) && day != today
    ensures UpToPointer(was, hourly, today, passed) ==> UpToPointer(daily, hourly, today, passed)
  {
    if UpToPointer(was, hourly, today, passed) {
      forall k <- hourly | InDay(k, today) && today <= k.hourStart <= passed ensures SpannedIn(daily, hourly, today, k) {
        assert SpannedIn(was, hourly, today, k);
      }
      forall d <- daily | d.dayStart == today ensures VouchedRow(hourly, d, daily[d]) {
        assert d in was && VouchedRow(hourly, d, was[d]);
      }
    }
  }

  lemma ExactIsKept(was: Daily, daily: Daily, hourly: Hourly, day: int, today: int)
    requires SameElsewhere(was, daily, today) && day != today && Exact(was, hourly, day)
    ensures Exact(daily, hourly, day)
  {
    forall k <- hourly | InDay(k, day) ensures SpannedIn(daily, hourly, day, k) {
      assert SpannedIn(was, hourly, day, k);
    }
    forall d <- daily | d.dayStart == day ensures VouchedRow(hourly, d, daily[d]) {
      assert d in was && VouchedRow(hourly, d, was[d]);
    }
  }

  lemma TodayIsNoBacklog(was: Daily, daily: Daily, hourly: Hourly, today: int, before: seq<int>)
    requires SameElsewhere(was, daily, today) && (forall day <- before :: day < today)
    requires before != [] ==> Exact(was, hourly, before[0])
    ensures Backlog(hourly, daily, today) == Backlog(hourly, was, today)
    ensures before != [] ==> Exact(daily, hourly, before[0])
  {
    DoneElsewhere(was, daily, today);
    forall day | day < today ensures day in DoneDays(was) <==> day in DoneDays(daily) {
      assert day in DoneDays(was) <==> day in DoneDays(was) - {today};
      assert day in DoneDays(daily) <==> day in DoneDays(daily) - {today};
    }
    if hourly != map[] {
      SameBacklog(DayStartFor(Oldest(hourly)), today, DoneDays(was), DoneDays(daily));
    }
    if before != [] {
      assert before[0] in before;
      ExactIsKept(was, daily, hourly, before[0], today);
    }
  }

  lemma PassIsOver(daily: Daily, hourly: Hourly, today: int, currentHour: int, passed: int, pointer: int, pending: nat)
    requires UpToPointer(daily, hourly, today, passed) && currentHour % HOUR_MS == 0
    requires pointer == passed || (pointer == currentHour - HOUR_MS && currentHour == passed)
    requires pending == 0 ==> currentHour < passed + HOUR_MS
    ensures CaughtUp(daily, hourly, today, currentHour, pointer, pending)
  {
    UpToEarlier(daily, hourly, today, passed, pointer);
    if pending == 0 {
      UpToNow(daily, hourly, today, passed, currentHour);
    }
  }

  // ------------------------------------------------------------- whole days

  /** The two tables and the pointer in memory. */
  datatype FoldState = FoldState(hourly: Hourly, daily: Daily, pointer: Option<int>)

  /** What one tick of `fold` does, `pending` being what it reports. */
  ghost predicate TickDid(s: FoldState, t: FoldState, now: int, pending: nat) {
    && t.hourly == s.hourly
    && (s.hourly == map[] ==> t == s && pending == 0)
    && (s.hourly != map[] ==>
          PastDaysAfter(s.daily, t.daily, s.hourly, DayStartFor(now))
          && TodayAfter(s.daily, t.daily, s.hourly, now, s.pointer, t.pointer, pending))
  }

  /** What may happen between now and midnight. */
  datatype Happening = TickOf(now: int, pending: nat) | RowsArrive | Restart

  /** A tick within the day; rows arriving in hours not folded yet; a restart. */
  ghost predicate Happened(s: FoldState, e: Happening, t: FoldState, today: int) {
    match e
    case TickOf(now, pending) => DayStartFor(now) == today && TickDid(s, t, now, pending)
    case RowsArrive =>
      && t == s.(hourly := t.hourly) && OnTheHour(t.hourly)
      && LaterRowsOnly(s.hourly, t.hourly, PassedHours(s.pointer, today))
    case Restart => t == s.(pointer := None)
  }

  ghost predicate IsDay(states: seq<FoldState>, events: seq<Happening>, today: int) {
    && |states| == |events| + 1
    && forall i :: 0 <= i < |events| ==> Happened(states[i], events[i], states[i + 1], today)
  }

  /** Today is right up to the pointer, as at the first tick of a day. */
  ghost predicate Fit(s: FoldState, today: int) {
    today % DAY_MS == 0 && OnTheHour(s.hourly) && UpToPointer(s.daily, s.hourly, today, PassedHours(s.pointer, today))
  }

  ghost function BacklogOf(s: FoldState, today: int): seq<int> {
    Backlog(s.hourly, s.daily, today)
  }

  /** A day starts fit once the pointer is behind it and nothing was folded for it. */
  lemma NewDayIsFit(s: FoldState, today: int)
    requires today % DAY_MS == 0 && OnTheHour(s.hourly) && today !in DoneDays(s.daily)
    requires s.pointer.Some? ==> s.pointer.value < today
    ensures Fit(s, today)
  {
    NewDayStartsFresh(s.daily, s.hourly, today, s.pointer);
  }

  // ------------------------------------------------- which days are outstanding

  /** A past day that has hours at or after the oldest row and is not folded. */
  ghost predicate Outstanding(hourly: Hourly, daily: Daily, today: int, day: int) {
    && hourly != map[] && day % DAY_MS == 0
    && DayStartFor(Oldest(hourly)) <= day < today
    && day !in DoneDays(daily)
  }

  /** Every outstanding day that another outstanding day follows has hourly rows. */
  ghost predicate NoGap(hourly: Hourly, daily: Daily, today: int) {
    forall day, later :: Outstanding(hourly, daily, today, day) && Outstanding(hourly, daily, today, later) && day < later
                         ==> HasRows(hourly, day)
  }

  ghost predicate Unblocked(days: seq<int>, hourly: Hourly) {
    forall i :: 0 <= i < |days| - 1 ==> HasRows(hourly, days[i])
  }

  lemma {:induction false} OutstandingDaysAre(from: int, today: int, done: set<int>)
    requires from % DAY_MS == 0
    ensures var days := OutstandingDays(from, today, done);
            && Ascending(days)
            && forall day :: day in days <==> day % DAY_MS == 0 && from <= day < today && day !in done
    decreases today - from
  {
    if from < today {
      OutstandingDaysAre(from + DAY_MS, today, done);
      var rest := OutstandingDays(from + DAY_MS, today, done);
      var days := OutstandingDays(from, today, done);
      forall day ensures day in days <==> day % DAY_MS == 0 && from <= day < today && day !in done {
        NextDayStart(from, day);
        assert day in days <==> (day == from && from !in done) || day in rest;
      }
      forall i, j | 0 <= i < j < |days| ensures days[i] < days[j] {
        if from !in done {
          assert days[j] == rest[j - 1] && rest[j - 1] in rest;
          assert i > 0 ==> days[i] == rest[i - 1];
        }
      }
    }
  }

  lemma NextDayStart(from: int, day: int)
    requires from % DAY_MS == 0
    ensures day % DAY_MS == 0 && from < day ==> from + DAY_MS <= day
  {
  }

  lemma BacklogIsOutstanding(hourly: Hourly, daily: Daily, today: int)
    ensures var days := Backlog(hourly, daily, today);
            Ascending(days) && forall day :: day in days <==> Outstanding(hourly, daily, today, day)
  {
    if hourly != map[] {
      WindowStartHolds(Oldest(hourly), DAY_MS);
      OutstandingDaysAre(DayStartFor(Oldest(hourly)), today, DoneDays(daily));
    }
  }

  /** The condition on the tables is the condition on the list the tick works through. */
  lemma NoGapIsUnblocked(hourly: Hourly, daily: Daily, today: int)
    ensures NoGap(hourly, daily, today) <==> Unblocked(Backlog(hourly, daily, today), hourly)
  {
    var days := Backlog(hourly, daily, today);
    BacklogIsOutstanding(hourly, daily, today);
    if NoGap(hourly, daily, today) {
      forall i | 0 <= i < |days| - 1 ensures HasRows(hourly, days[i]) {
        assert days[i] in days && days[|days| - 1] in days;
      }
    }
    if Unblocked(days, hourly) {
      forall day, later | Outstanding(hourly, daily, today, day) && Outstanding(hourly, daily, today, later) && day < later
        ensures HasRows(hourly, day)
      {
        assert day in days && later in days;
      }
    }
  }

  // ------------------------------------------------------------- single steps

  lemma RowsOfTodayKeepPointer(was: Daily, daily: Daily, hourly: Hourly, today: int, passed: int)
    requires forall d: DayKey :: d.dayStart == today ==> SameRow(was, daily, d)
    requires UpToPointer(was, hourly, today, passed)
    ensures UpToPointer(daily, hourly, today, passed)
  {
    forall k <- hourly | InDay(k, today) && today <= k.hourStart <= passed ensures SpannedIn(daily, hourly, today, k) {
      assert SpannedIn(was, hourly, today, k) && SameRow(was, daily, DayKey(today, FlowOf(k)));
    }
    forall d <- daily | d.dayStart == today ensures VouchedRow(hourly, d, daily[d]) {
      assert SameRow(was, daily, d) && VouchedRow(hourly, d, was[d]);
    }
  }

  lemma TickStaysFit(s: FoldState, t: FoldState, now: int, pending: nat)
    requires Fit(s, DayStartFor(now)) && TickDid(s, t, now, pending)
    ensures Fit(t, DayStartFor(now))
  {
    if s.hourly != map[] && |BacklogOf(s, DayStartFor(now))| > DAYS_PER_TICK {
      RowsOfTodayKeepPointer(s.daily, t.daily, s.hourly, DayStartFor(now), PassedHours(s.pointer, DayStartFor(now)));
    }
  }

  lemma StaysFit(s: FoldState, e: Happening, t: FoldState, today: int)
    requires Fit(s, today) && Happened(s, e, t, today)
    ensures Fit(t, today)
  {
    match e
    case TickOf(now, pending) => TickStaysFit(s, t, now, pending);
    case RowsArrive => LaterRowsKeepWhatIsFolded(s.daily, s.hourly, t.hourly, today, PassedHours(s.pointer, today));
    case Restart => RestartKeepsWhatIsFolded(s.daily, s.hourly, today, PassedHours(s.pointer, today));
  }

  /** Rows arriving today say nothing about past days. */
  lemma LaterRowsKeepPastDays(was: Hourly, now: Hourly, today: int, passed: int, day: int)
    requires LaterRowsOnly(was, now, passed) && OnTheHour(was) && OnTheHour(now) && today % DAY_MS == 0
    requires passed >= today - HOUR_MS && day % DAY_MS == 0 && day < today
    ensures HasRows(was, day) <==> HasRows(now, day)
  {
    NextDayStart(day, today);
    forall k <- now | InDay(k, day) ensures k in was {
      PastHourIsPassed(k.hourStart, today, passed);
    }
    if HasRows(was, day) {
      var k :| k in was && InDay(k, day);
      assert k in now;
    }
  }

  lemma PastHourIsPassed(hour: int, today: int, passed: int)
    requires hour % HOUR_MS == 0 && today % DAY_MS == 0 && hour < today && passed >= today - HOUR_MS
    ensures hour <= passed
  {
    assert today % HOUR_MS == 0;
  }

  lemma LaterRowsKeepBacklog(was: Hourly, now: Hourly, daily: Daily, today: int, passed: int)
    requires LaterRowsOnly(was, now, passed) && OnTheHour(was) && OnTheHour(now) && today % DAY_MS == 0
    requires passed >= today - HOUR_MS
    ensures Backlog(now, daily, today) == Backlog(was, daily, today)
  {
    if now == map[] {
      assert was.Keys <= now.Keys == {};
      assert was == map[];
    } else if was != map[] && Oldest(was) < today {
      OldestStays(was, now, today, passed);
    } else {
      NoPastRows(was, now, today, passed);
      if was != map[] { EmptyBacklog(Oldest(was), today, DoneDays(daily)); }
      EmptyBacklog(Oldest(now), today, DoneDays(daily));
    }
  }

  lemma OldestStays(was: Hourly, now: Hourly, today: int, passed: int)
    requires LaterRowsOnly(was, now, passed) && OnTheHour(was) && OnTheHour(now) && today % DAY_MS == 0
    requires passed >= today - HOUR_MS && was != map[] && now != map[] && Oldest(was) < today
    ensures Oldest(now) == Oldest(was)
  {
    var k :| k in was && k.hourStart == Oldest(was);
    assert k in now;
    var l :| l in now && l.hourStart == Oldest(now);
    assert Oldest(now) <= k.hourStart;
    PastHourIsPassed(l.hourStart, today, passed);
    assert l in was;
  }

  lemma NoPastRows(was: Hourly, now: Hourly, today: int, passed: int)
    requires LaterRowsOnly(was, now, passed) && OnTheHour(now) && today % DAY_MS == 0 && passed >= today - HOUR_MS
    requires now != map[] && (was != map[] ==> Oldest(was) >= today)
    ensures Oldest(now) >= today
  {
    var l :| l in now && l.hourStart == Oldest(now);
    if l.hourStart < today {
      PastHourIsPassed(l.hourStart, today, passed);
    }
  }

  lemma EmptyBacklog(oldest: int, today: int, done: set<int>)
    requires oldest >= today && today % DAY_MS == 0
    ensures OutstandingDays(DayStartFor(oldest), today, done) == []
  {
    assert DayStartFor(oldest) >= today;
  }

  /** A step leaves the backlog as it is, but for the day a tick takes off it,
      and changes nothing about which past days have rows. */
  lemma BacklogAfterStep(s: FoldState, e: Happening, t: FoldState, today: int)
    requires Fit(s, today) && Happened(s, e, t, today)
    ensures BacklogOf(t, today) == if e.TickOf? then Advance(BacklogOf(s, today), s.hourly) else BacklogOf(s, today)
    ensures forall day <- BacklogOf(s, today) :: HasRows(s.hourly, day) <==> HasRows(t.hourly, day)
  {
    BacklogIsOutstanding(s.hourly, s.daily, today);
    if e.RowsArrive? {
      var passed := PassedHours(s.pointer, today);
      LaterRowsKeepBacklog(s.hourly, t.hourly, s.daily, today, passed);
      forall day <- BacklogOf(s, today) ensures HasRows(s.hourly, day) <==> HasRows(t.hourly, day) {
        LaterRowsKeepPastDays(s.hourly, t.hourly, today, passed, day);
      }
    }
  }

  lemma StaysUnblockedOrNot(s: FoldState, e: Happening, t: FoldState, today: int)
    requires Fit(s, today) && Happened(s, e, t, today)
    ensures Unblocked(BacklogOf(s, today), s.hourly) ==> Unblocked(BacklogOf(t, today), t.hourly)
    ensures !Unblocked(BacklogOf(s, today), s.hourly) ==> !Unblocked(BacklogOf(t, today), t.hourly)
    ensures |BacklogOf(t, today)| <= |BacklogOf(s, today)|
  {
    BacklogAfterStep(s, e, t, today);
    BlockStays(BacklogOf(s, today), BacklogOf(t, today), s.hourly, t.hourly);
  }

  lemma BlockStays(before: seq<int>, after: seq<int>, was: Hourly, now: Hourly)
    requires after == before || after == Advance(before, was)
    requires forall day <- before :: HasRows(was, day) <==> HasRows(now, day)
    ensures Unblocked(before, was) <==> Unblocked(after, now)
    ensures |after| <= |before|
  {
    assert forall i :: 0 <= i < |before| ==> before[i] in before;
    if !Unblocked(before, was) {
      var i :| 0 <= i < |before| - 1 && !HasRows(was, before[i]);
      assert after != before ==> i > 0 && after[i - 1] == before[i];
    }
  }

  // ------------------------------------------------------------ the whole day

  predicate CaughtUpTick(e: Happening) {
    e.TickOf? && e.pending == 0
  }

  /** How many ticks may still leave something pending. */
  ghost function TicksLeft(s: FoldState, today: int): nat {
    LeftAfter(|BacklogOf(s, today)|, PassedHours(s.pointer, today), today)
  }

  function Ticks(events: seq<Happening>): nat {
    if events == [] then 0 else (if events[0].TickOf? then 1 else 0) + Ticks(events[1..])
  }

  /** Ticks left, in numbers. */
  function LeftAfter(backlog: nat, passed: int, today: int): nat {
    Max(0, backlog - DAYS_PER_TICK) + Max(0, (today + 22 * HOUR_MS - passed) / (HOURS_PER_TICK * HOUR_MS))
  }

  lemma LastHourOfDay(day: int, hour: int)
    requires day % DAY_MS == 0 && hour % HOUR_MS == 0 && hour < day + DAY_MS
    ensures hour <= day + 23 * HOUR_MS
  {
    var d, h := day / DAY_MS, hour / HOUR_MS;
    assert day == 24 * d * HOUR_MS && hour == h * HOUR_MS;
    assert h < 24 * d + 24;
  }

  lemma OneDayLess(backlog: nat, passed: int, today: int)
    requires backlog > DAYS_PER_TICK
    ensures LeftAfter(backlog - 1, passed, today) < LeftAfter(backlog, passed, today)
  {
  }

  lemma TwoHoursLess(backlog: nat, more: nat, passedWas: int, passed: int, today: int)
    requires passed == passedWas + HOURS_PER_TICK * HOUR_MS && passed <= today + 22 * HOUR_MS && more <= backlog
    ensures LeftAfter(more, passed, today) < LeftAfter(backlog, passedWas, today)
  {
    var width := HOURS_PER_TICK * HOUR_MS;
    assert (today + 22 * HOUR_MS - passedWas) / width == (today + 22 * HOUR_MS - passed) / width + 1;
    assert (today + 22 * HOUR_MS - passed) / width >= 0;
  }

  lemma PendingTickIsProgress(s: FoldState, t: FoldState, now: int, pending: nat)
    requires Fit(s, DayStartFor(now)) && TickDid(s, t, now, pending) && pending > 0
    requires Unblocked(BacklogOf(s, DayStartFor(now)), s.hourly)
    ensures TicksLeft(t, DayStartFor(now)) < TicksLeft(s, DayStartFor(now))
  {
    var today, hour := DayStartFor(now), WindowStart(now, HOUR_MS);
    var before, after := BacklogOf(s, today), BacklogOf(t, today);
    BacklogAfterStep(s, TickOf(now, pending), t, today);
    if |before| > DAYS_PER_TICK {
      assert HasRows(s.hourly, before[0]);
      OneDayLess(|before|, PassedHours(s.pointer, today), today);
    } else {
      HoursOfToday(now);
      LastHourOfDay(today, hour);
      TwoHoursLess(|before|, |after|, PassedHours(s.pointer, today), PassedHours(t.pointer, today), today);
    }
  }

  /** One step of a day that is not caught up yet. */
  lemma OneStepNearer(s: FoldState, e: Happening, t: FoldState, today: int)
    requires Fit(s, today) && Happened(s, e, t, today) && Unblocked(BacklogOf(s, today), s.hourly)
    requires e != Restart && !CaughtUpTick(e)
    ensures Fit(t, today) && Unblocked(BacklogOf(t, today), t.hourly)
    ensures TicksLeft(t, today) + (if e.TickOf? then 1 else 0) <= TicksLeft(s, today)
  {
    StaysFit(s, e, t, today);
    StaysUnblockedOrNot(s, e, t, today);
    BacklogAfterStep(s, e, t, today);
    if e.TickOf? {
      PendingTickIsProgress(s, t, e.now, e.pending);
    }
  }

  /** Without restarts, and with no gap in the backlog, ticks catch up in time. */
  lemma {:induction false} TicksCatchUp(states: seq<FoldState>, events: seq<Happening>, today: int) returns (i: nat)
    requires IsDay(states, events, today) && Fit(states[0], today)
    requires Unblocked(BacklogOf(states[0], today), states[0].hourly)
    requires Restart !in events && Ticks(events) > TicksLeft(states[0], today)
    ensures i < |events| && CaughtUpTick(events[i])
    decreases |events|
  {
    var s, e, t := states[0], events[0], states[1];
    assert Happened(s, e, t, today);
    if CaughtUpTick(e) {
      i := 0;
    } else {
      assert e in events;
      OneStepNearer(s, e, t, today);
      DayTail(states, events, today);
      assert forall x <- events[1..] :: x in events;
      i := TicksCatchUp(states[1..], events[1..], today);
      i := i + 1;
    }
  }

  lemma DayTail(states: seq<FoldState>, events: seq<Happening>, today: int)
    requires IsDay(states, events, today) && events != []
    ensures IsDay(states[1..], events[1..], today)
  {
    forall i | 0 <= i < |events| - 1 ensures Happened(states[1..][i], events[1..][i], states[1..][i + 1], today) {
      assert Happened(states[i + 1], events[i + 1], states[i + 2], today);
    }
  }

  /** What every state of a day keeps. */
  lemma {:induction false} DayKeeps(states: seq<FoldState>, events: seq<Happening>, today: int, n: nat)
    requires IsDay(states, events, today) && Fit(states[0], today) && n <= |events|
    ensures Fit(states[n], today) && |BacklogOf(states[n], today)| <= |BacklogOf(states[0], today)|
    ensures Unblocked(BacklogOf(states[0], today), states[0].hourly)
            <==> Unblocked(BacklogOf(states[n], today), states[n].hourly)
  {
    if n > 0 {
      DayKeeps(states, events, today, n - 1);
      assert Happened(states[n - 1], events[n - 1], states[n], today);
      StaysFit(states[n - 1], events[n - 1], states[n], today);
      StaysUnblockedOrNot(states[n - 1], events[n - 1], states[n], today);
    }
  }

  /** A tick that reports nothing pending leaves today as a rebuild would, unless
      some agent is ahead of the Hub's clock. */
  ghost predicate TodayIsExact(s: FoldState, now: int) {
    && Covers(s.daily, s.hourly, DayStartFor(now), DayStartFor(now), WindowStart(now, HOUR_MS))
    && Vouched(s.daily, s.hourly, DayStartFor(now))
    && ((forall k <- s.hourly :: InDay(k, DayStartFor(now)) ==> k.hourStart <= WindowStart(now, HOUR_MS))
        ==> Exact(s.daily, s.hourly, DayStartFor(now)))
  }

  lemma CaughtUpTickIsExact(s: FoldState, t: FoldState, now: int)
    requires Fit(s, DayStartFor(now)) && TickDid(s, t, now, 0)
    ensures TodayIsExact(t, now) && |BacklogOf(s, DayStartFor(now))| <= DAYS_PER_TICK
  {
    var today, currentHour := DayStartFor(now), WindowStart(now, HOUR_MS);
    TickStaysFit(s, t, now, 0);
    if forall k <- t.hourly :: InDay(k, today) ==> k.hourStart <= currentHour {
      CaughtUpIsExact(t.daily, t.hourly, today, currentHour);
    }
  }

  /** With a gap in the backlog no tick of the day ever gets to the end of it. */
  lemma GapBlocksTheDay(states: seq<FoldState>, events: seq<Happening>, today: int)
    requires IsDay(states, events, today) && Fit(states[0], today)
    requires !NoGap(states[0].hourly, states[0].daily, today)
    ensures forall i :: 0 <= i < |events| ==> !CaughtUpTick(events[i])
  {
    NoGapIsUnblocked(states[0].hourly, states[0].daily, today);
    forall i | 0 <= i < |events| ensures !CaughtUpTick(events[i]) {
      DayKeeps(states, events, today, i);
      assert Happened(states[i], events[i], states[i + 1], today);
      if CaughtUpTick(events[i]) {
        CaughtUpTickIsExact(states[i], states[i + 1], events[i].now);
        assert false;
      }
    }
  }

  /**
   Over any course of a day (ticks at any times, rows arriving in hours not yet
   folded, restarts) whose last stretch without a restart holds enough ticks:
   some tick reports nothing pending if and only if no outstanding day without
   rows has another outstanding day after it. Enough is one for each further
   outstanding day, and twelve for today. Every such tick leaves today exact.
   */
  lemma DayIsCaughtUpIff(states: seq<FoldState>, events: seq<Happening>, today: int, lastRestart: nat)
    requires IsDay(states, events, today) && Fit(states[0], today)
    requires lastRestart <= |events| && Restart !in events[lastRestart..]
    requires Ticks(events[lastRestart..]) >= Max(0, |BacklogOf(states[0], today)| - DAYS_PER_TICK) + 12
    ensures NoGap(states[0].hourly, states[0].daily, today)
            <==> exists i :: 0 <= i < |events| && CaughtUpTick(events[i])
    ensures forall i :: 0 <= i < |events| && CaughtUpTick(events[i]) ==> TodayIsExact(states[i + 1], events[i].now)
  {
    var s := states[0];
    NoGapIsUnblocked(s.hourly, s.daily, today);
    forall i | 0 <= i < |events| && CaughtUpTick(events[i]) ensures TodayIsExact(states[i + 1], events[i].now) {
      DayKeeps(states, events, today, i);
      assert Happened(states[i], events[i], states[i + 1], today);
      CaughtUpTickIsExact(states[i], states[i + 1], events[i].now);
    }
    if !NoGap(s.hourly, s.daily, today) {
      GapBlocksTheDay(states, events, today);
    } else {
      DayKeeps(states, events, today, lastRestart);
      LastStretch(states, events, today, lastRestart);
      var i := TicksCatchUp(states[lastRestart..], events[lastRestart..], today);
      assert CaughtUpTick(events[lastRestart + i]);
    }
  }

  lemma LastStretch(states: seq<FoldState>, events: seq<Happening>, today: int, from: nat)
    requires IsDay(states, events, today) && from <= |events|
    ensures IsDay(states[from..], events[from..], today)
    ensures TicksLeft(states[from], today) <= Max(0, |BacklogOf(states[from], today)| - DAYS_PER_TICK) + 11
  {
    forall i | 0 <= i < |events| - from
      ensures Happened(states[from..][i], events[from..][i], states[from..][i + 1], today)
    {
      assert Happened(states[from + i], events[from + i], states[from + i + 1], today);
    }
    assert PassedHours(states[from].pointer, today) >= today - HOUR_MS;
  }

  // ---------------------------------------------------------- over many days

  /** Ticks on days from `first` on, restarts, and rows arriving in hours after `upTo`. */
  ghost predicate Went(s: FoldState, e: Happening, t: FoldState, first: int, upTo: int) {
    match e
    case TickOf(now, pending) => DayStartFor(now) >= first && TickDid(s, t, now, pending)
    case RowsArrive =>
      t == s.(hourly := t.hourly) && OnTheHour(t.hourly) && LaterRowsOnly(s.hourly, t.hourly, upTo)
    case Restart => t == s.(pointer := None)
  }

  ghost predicate IsCourse(states: seq<FoldState>, events: seq<Happening>, first: int, upTo: int) {
    && |states| == |events| + 1
    && forall i :: 0 <= i < |events| ==> Went(states[i], events[i], states[i + 1], first, upTo)
  }

  /** A day that was folded stays as it is from then on: no later tick touches it. */
  lemma {:induction false} FoldedDayIsLeft(states: seq<FoldState>, events: seq<Happening>, day: int, upTo: int, n: nat, d: DayKey)
    requires IsCourse(states, events, day + DAY_MS, upTo) && n <= |events| && day % DAY_MS == 0
    requires day in DoneDays(states[0].daily) && d.dayStart == day
    ensures SameRow(states[0].daily, states[n].daily, d) && day in DoneDays(states[n].daily)
  {
    if n > 0 {
      var s, e, t := states[n - 1], events[n - 1], states[n];
      FoldedDayIsLeft(states, events, day, upTo, n - 1, d);
      assert Went(s, e, t, day + DAY_MS, upTo);
      DoneIsLeft(s, e, t, day, upTo, d);
    }
  }

  lemma DoneIsLeft(s: FoldState, e: Happening, t: FoldState, day: int, upTo: int, d: DayKey)
    requires Went(s, e, t, day + DAY_MS, upTo) && day % DAY_MS == 0 && day in DoneDays(s.daily) && d.dayStart == day
    ensures SameRow(s.daily, t.daily, d) && day in DoneDays(t.daily)
  {
    if e.TickOf? && s.hourly != map[] {
      var today := DayStartFor(e.now);
      var before := Backlog(s.hourly, s.daily, today);
      assert before != [] ==> before[0] in before;
      var x :| x in s.daily && x.dayStart == day;
      assert SameRow(s.daily, t.daily, x) && SameRow(s.daily, t.daily, d);
    }
  }

  lemma {:induction false} RowsOnlyArrive(states: seq<FoldState>, events: seq<Happening>, first: int, upTo: int, n: nat)
    requires IsCourse(states, events, first, upTo) && n <= |events| && OnTheHour(states[0].hourly)
    ensures LaterRowsOnly(states[0].hourly, states[n].hourly, upTo) && OnTheHour(states[n].hourly)
  {
    if n > 0 {
      RowsOnlyArrive(states, events, first, upTo, n - 1);
      assert Went(states[n - 1], events[n - 1], states[n], first, upTo);
    }
  }

  /** Once a day is over it is never rebuilt if anything was folded for it. Over any
      later course, with rows still arriving in the hours not folded by then, it is
      exact if and only if every row of those hours lies in what was folded. */
  lemma DayOverIsExactIff(states: seq<FoldState>, events: seq<Happening>, day: int, passed: int, n: nat)
    requires IsCourse(states, events, day + DAY_MS, passed) && n <= |events| && day % DAY_MS == 0
    requires UpToPointer(states[0].daily, states[0].hourly, day, passed) && day in DoneDays(states[0].daily)
    ensures var now := states[n];
            Exact(now.daily, now.hourly, day) <==>
            forall k <- now.hourly :: InDay(k, day) && k.hourStart > passed
                                      ==> SpannedIn(states[0].daily, now.hourly, day, k)
  {
    var was, now := states[0], states[n];
    RowsOnlyArrive(states, events, day + DAY_MS, passed, n);
    LaterRowsKeepWhatIsFolded(was.daily, was.hourly, now.hourly, day, passed);
    forall d: DayKey | d.dayStart == day ensures SameRow(was.daily, now.daily, d) {
      FoldedDayIsLeft(states, events, day, passed, n, d);
    }
    RowsOfTodayKeepPointer(was.daily, now.daily, now.hourly, day, passed);
    forall k <- now.hourly | InDay(k, day)
      ensures SpannedIn(was.daily, now.hourly, day, k) <==> SpannedIn(now.daily, now.hourly, day, k)
      ensures k.hourStart <= passed ==> SpannedIn(now.daily, now.hourly, day, k)
    {
      assert SameRow(was.daily, now.daily, DayKey(day, FlowOf(k)));
    }
  }

  /** The gap: two days outstanding, the earlier without rows. */
  ghost predicate Gapped(s: FoldState, first: int, day: int, later: int) {
    && Outstanding(s.hourly, s.daily, first, day) && Outstanding(s.hourly, s.daily, first, later)
    && day < later && !HasRows(s.hourly, day)
  }

  lemma GapAtATick(s: FoldState, t: FoldState, first: int, now: int, pending: nat, day: int, later: int)
    requires Gapped(s, first, day, later) && DayStartFor(now) >= first && TickDid(s, t, now, pending)
    ensures Gapped(t, first, day, later) && pending > 0
  {
    var today := DayStartFor(now);
    var before := Backlog(s.hourly, s.daily, today);
    BacklogIsOutstanding(s.hourly, s.daily, today);
    BacklogIsOutstanding(t.hourly, t.daily, today);
    assert day in before && later in before;
    TwoInBacklog(before, day, later);
    if HasRows(s.hourly, before[0]) {
      assert forall x <- before :: x != before[0] ==> x in before[1..];
    }
  }

  lemma TwoInBacklog(days: seq<int>, day: int, later: int)
    requires Ascending(days) && day in days && later in days && day < later
    ensures |days| >= 2 && later != days[0]
  {
    var i :| 0 <= i < |days| && days[i] == day;
    var j :| 0 <= j < |days| && days[j] == later;
  }

  lemma GapWhenRowsArrive(s: FoldState, t: FoldState, first: int, day: int, later: int)
    requires Gapped(s, first, day, later) && first % DAY_MS == 0 && OnTheHour(s.hourly) && OnTheHour(t.hourly)
    requires t == s.(hourly := t.hourly) && LaterRowsOnly(s.hourly, t.hourly, first - HOUR_MS)
    ensures Gapped(t, first, day, later)
  {
    LaterRowsKeepPastDays(s.hourly, t.hourly, first, first - HOUR_MS, day);
    var k :| k in s.hourly;
    assert k in t.hourly;
    OldestStays(s.hourly, t.hourly, first, first - HOUR_MS);
  }

  /** As long as the rows before a gap are kept, no tick of that day or of any
      later one ever reports nothing pending, whatever arrives. */
  lemma {:induction false} GapBlocksEveryDay(states: seq<FoldState>, events: seq<Happening>, first: int, day: int, later: int, n: nat)
    requires first % DAY_MS == 0 && IsCourse(states, events, first, first - HOUR_MS) && OnTheHour(states[0].hourly)
    requires Gapped(states[0], first, day, later) && n <= |events|
    ensures Gapped(states[n], first, day, later) && (n > 0 ==> !CaughtUpTick(events[n - 1]))
  {
    if n > 0 {
      var s, e, t := states[n - 1], events[n - 1], states[n];
      GapBlocksEveryDay(states, events, first, day, later, n - 1);
      RowsOnlyArrive(states, events, first, first - HOUR_MS, n - 1);
      assert Went(s, e, t, first, first - HOUR_MS);
      match e
      case TickOf(now, pending) => GapAtATick(s, t, first, now, pending, day, later);
      case RowsArrive => GapWhenRowsArrive(s, t, first, day, later);
      case Restart =>
    }
  }

  function RowsOn(days: set<int>): Hourly {
    map k: HourKey | k in (set day <- days :: KeyOn(day)) :: HourRow("app", k.hourStart, k.hourStart)
  }

  function KeyOn(day: int): HourKey {
    HourKey(day, 1, "app", "10.0.0.1", "203.0.113.1", 443, "tcp")
  }

  /** One day without rows is enough to stop the fold while the rows before it are
      kept: rows on the first and the third day, the first folded, the fourth under way. */
  lemma OneEmptyDayStallsTheFold()
    ensures var hourly, today := RowsOn({0, 2 * DAY_MS}), 3 * DAY_MS;
            var daily: Daily := map[DayKey(0, FlowOf(KeyOn(0))) := Span(0, 0)];
            && IsOldest(hourly, 0) && Exact(daily, hourly, 0)
            && Backlog(hourly, daily, today) == [DAY_MS, 2 * DAY_MS]
            && !NoGap(hourly, daily, today) && Gapped(FoldState(hourly, daily, None), today, DAY_MS, 2 * DAY_MS)
            && Fit(FoldState(hourly, daily, None), today)
  {
    var hourly, today := RowsOn({0, 2 * DAY_MS}), 3 * DAY_MS;
    var flow := FlowOf(KeyOn(0));
    var daily: Daily := map[DayKey(0, flow) := Span(0, 0)];
    assert KeyOn(0) in hourly && KeyOn(2 * DAY_MS) in hourly;
    assert forall k <- hourly :: k == KeyOn(0) || k == KeyOn(2 * DAY_MS);
    assert IsOldest(hourly, 0);
    assert Oldest(hourly) == 0;
    assert DoneDays(daily) == {0} by {
      assert DayKey(0, flow) in daily;
    }
    assert OutstandingDays(3 * DAY_MS, today, {0}) == [];
    assert OutstandingDays(2 * DAY_MS, today, {0}) == [2 * DAY_MS];
    assert OutstandingDays(DAY_MS, today, {0}) == [DAY_MS] + [2 * DAY_MS];
    assert Outstanding(hourly, daily, today, DAY_MS) && Outstanding(hourly, daily, today, 2 * DAY_MS);
    assert VouchedRow(hourly, DayKey(0, flow), Span(0, 0));
    NewDayIsFit(FoldState(hourly, daily, None), today);
  }

  // ---------------------------------------------------------------- the object

  datatype Tick = Tick(folded: nat, rows: nat, pending: nat)

  class AgentAppDaily {
    /** Written by the uploads. */
    var hourly: Hourly
    var daily: Daily
    var lastHourFolded: Option<int>

    constructor (hourly: Hourly, daily: Daily)
      ensures this.hourly == hourly && this.daily == daily && lastHourFolded == None
    {
      this.hourly, this.daily, lastHourFolded := hourly, daily, None;
    }

    ghost function State(): FoldState
      reads this
    {
      FoldState(hourly, daily, lastHourFolded)
    }

    method FoldDay(dayStart: int) returns (rows: nat)
      modifies this`daily
      ensures Exact(daily, hourly, dayStart) && SameElsewhere(old(daily), daily, dayStart)
      ensures dayStart in DoneDays(daily) <==> HasRows(hourly, dayStart)
      ensures DoneDays(daily) - {dayStart} == DoneDays(old(daily)) - {dayStart}
      ensures rows == |set d <- daily | d.dayStart == dayStart|
    {
      var groups := GroupByFlow(hourly, KeysOfDay(hourly, dayStart));
      InsertedIsExact(daily, hourly, dayStart, groups);
      daily := Inserted(WithoutDay(daily, dayStart), dayStart, groups);
      rows := |groups|;
      RowsInserted(old(daily), dayStart, groups);
      DoneElsewhere(old(daily), daily, dayStart);
      ExactIsDone(daily, hourly, dayStart);
    }

    method FoldHour(hourStart: int) returns (rows: nat)
      modifies this`daily
      ensures HourFolded(old(daily), daily, hourly, hourStart)
    {
      var groups := GroupByFlow(hourly, KeysOfHour(hourly, hourStart));
      assert FoldedBy(daily, Upserted(daily, DayStartFor(hourStart), groups), hourly, hourStart, groups);
      daily := Upserted(daily, DayStartFor(hourStart), groups);
      rows := |groups|;
    }

    /** `foldHour` for the hour after the pointer; `start` is today's table when the tick began. */
    method FoldNextHour(hourStart: int, ghost today: int, ghost start: Daily, ghost ready: bool) returns (rows: nat)
      requires today % DAY_MS == 0 && today <= hourStart < today + DAY_MS
      requires SameElsewhere(start, daily, today)
      requires ready ==> UpToPointer(daily, hourly, today, hourStart - HOUR_MS)
      modifies this`daily
      ensures SameElsewhere(start, daily, today)
      ensures ready ==> UpToPointer(daily, hourly, today, hourStart)
    {
      ghost var was := daily;
      rows := FoldHour(hourStart);
      HourFoldedCovers(was, daily, hourly, today, hourStart);
      SameElsewhereChain(start, was, daily, today);
      if ready {
        NextHourFolded(was, daily, hourly, today, hourStart - HOUR_MS);
      }
    }

    method OldestHour() returns (oldest: int)
      requires hourly != map[]
      ensures IsOldest(hourly, oldest)
    {
      var first := AnyOf(hourly.Keys);
      oldest := first.hourStart;
      var rest := hourly.Keys - {first};
      while rest != {}
        invariant rest <= hourly.Keys
        invariant exists k <- hourly :: k.hourStart == oldest
        invariant forall k <- hourly :: k in rest || oldest <= k.hourStart
        decreases |rest|
      {
        var k := AnyOf(rest);
        oldest := Min(oldest, k.hourStart);
        rest := rest - {k};
      }
    }

    /** The past days of a tick: one of them, and how many wait. */
    method FoldPastDays(today: int, oldest: int) returns (folded: nat, rows: nat, pendingDays: nat)
      requires hourly != map[] && oldest == Oldest(hourly)
      modifies this`daily
      ensures var before := old(Backlog(hourly, daily, today));
              && Backlog(hourly, daily, today) == Advance(before, hourly)
              && folded == Min(|before|, DAYS_PER_TICK) && pendingDays == |before| - folded
              && (before == [] ==> daily == old(daily))
              && (before != [] ==> Exact(daily, hourly, before[0]) && SameElsewhere(old(daily), daily, before[0]))
    {
      var outstanding := FindOutstanding(DayStartFor(oldest), today);
      folded, rows := 0, 0;
      for i := 0 to Min(|outstanding|, DAYS_PER_TICK)
        invariant folded == i
        invariant i == 0 ==> daily == old(daily)
        invariant i == 1 ==> Exact(daily, hourly, outstanding[0]) && SameElsewhere(old(daily), daily, outstanding[0])
        invariant i == 1 ==> Backlog(hourly, daily, today) == Advance(outstanding, hourly)
      {
        ghost var done := DoneDays(daily);
        var more := FoldDay(outstanding[i]);
        BacklogAfter(DayStartFor(oldest), today, done, DoneDays(daily), hourly);
        rows, folded := rows + more, folded + 1;
      }
      pendingDays := Max(0, |outstanding| - folded);
    }

    /** Today's hours after the pointer, as many as a tick takes. */
    method FoldHours(today: int, currentHour: int, ghost ready: bool)
      returns (folded: nat, rows: nat, outstandingHours: nat)
      requires today % DAY_MS == 0 && today <= currentHour < today + DAY_MS
      requires ready ==> UpToPointer(daily, hourly, today, PassedHours(lastHourFolded, today))
      modifies this`daily, this`lastHourFolded
      ensures SameElsewhere(old(daily), daily, today)
      ensures ready ==> UpToPointer(daily, hourly, today, PassedHours(lastHourFolded, today))
      ensures PassedHours(lastHourFolded, today)
              == old(PassedHours(lastHourFolded, today)) + Min(outstandingHours, HOURS_PER_TICK) * HOUR_MS
      ensures folded == Min(outstandingHours, HOURS_PER_TICK)
      ensures outstandingHours > HOURS_PER_TICK <==> PassedHours(lastHourFolded, today) + HOUR_MS <= currentHour
    {
      folded, rows, outstandingHours := 0, 0, 0;
      var seen := PassedHours(lastHourFolded, today);
      var hourStart := seen + HOUR_MS;
      while hourStart <= currentHour
        invariant folded == outstandingHours <= HOURS_PER_TICK && hourStart == seen + (outstandingHours + 1) * HOUR_MS
        invariant PassedHours(lastHourFolded, today) == hourStart - HOUR_MS
        invariant ready ==> UpToPointer(daily, hourly, today, hourStart - HOUR_MS)
        invariant SameElsewhere(old(daily), daily, today)
        decreases currentHour - hourStart
      {
        outstandingHours := outstandingHours + 1;
        if outstandingHours > HOURS_PER_TICK {
          break;
        }
        var more := FoldNextHour(hourStart, today, old(daily), ready);
        rows, folded, lastHourFolded := rows + more, folded + 1, Some(hourStart);
        hourStart := hourStart + HOUR_MS;
      }
    }

    /** The rest of a tick: the hours after the pointer, two of them at most. The
        pointer stays behind the current hour, which is still filling. */
    method FoldToday(today: int, currentHour: int, ghost ready: bool) returns (folded: nat, rows: nat, pending: nat)
      requires today % DAY_MS == 0 && today <= currentHour < today + DAY_MS && currentHour % HOUR_MS == 0
      requires ready ==> UpToPointer(daily, hourly, today, PassedHours(lastHourFolded, today))
      modifies this`daily, this`lastHourFolded
      ensures SameElsewhere(old(daily), daily, today)
      ensures ready ==> CaughtUp(daily, hourly, today, currentHour, PassedHours(lastHourFolded, today), pending)
      ensures pending > 0 ==>
                && PassedHours(lastHourFolded, today)
                   == old(PassedHours(lastHourFolded, today)) + HOURS_PER_TICK * HOUR_MS
                && PassedHours(lastHourFolded, today) + HOUR_MS <= currentHour
    {
      var outstandingHours;
      folded, rows, outstandingHours := FoldHours(today, currentHour, ready);
      ghost var passed := PassedHours(lastHourFolded, today);
      if lastHourFolded == Some(currentHour) {
        lastHourFolded := Some(currentHour - HOUR_MS);
      }
      pending := Max(0, outstandingHours - HOURS_PER_TICK);
      if ready {
        PassIsOver(daily, hourly, today, currentHour, passed, PassedHours(lastHourFolded, today), pending);
      }
    }

    /** One tick: a past day, and today once no other past day waits. */
    method Fold(now: int) returns (tick: Tick)
      modifies this`daily, this`lastHourFolded
      ensures TickDid(old(State()), State(), now, tick.pending)
      ensures hourly == map[] ==> tick == Tick(0, 0, 0)
    {
      var today := DayStartFor(now);
      if hourly == map[] {
        return Tick(0, 0, 0);
      }
      var first := OldestHour();
      OldestIsUnique(hourly, first);
      ghost var before := Backlog(hourly, daily, today);
      var folded, rows, pendingDays := FoldPastDays(today, first);
      if before != [] {
        assert before[0] in before;
        OtherDaysAreKept(old(daily), daily, hourly, before[0], today, PassedHours(lastHourFolded, today));
      }
      if pendingDays > 0 {
        return Tick(folded, rows, pendingDays);
      }
      ghost var mid := daily;
      HoursOfToday(now);
      ghost var ready := UpToPointer(daily, hourly, today, PassedHours(lastHourFolded, today));
      var moreFolded, moreRows, pending := FoldToday(today, WindowStart(now, HOUR_MS), ready);
      tick := Tick(folded + moreFolded, rows + moreRows, pending);
      TodayIsNoBacklog(mid, daily, hourly, today, before);
    }

    method FindOutstanding(from: int, today: int) returns (days: seq<int>)
      ensures days == OutstandingDays(from, today, DoneDays(daily))
    {
      var done := DoneDays(daily);
      days := [];
      var day := from;
      while day < today
        invariant days + OutstandingDays(day, today, done) == OutstandingDays(from, today, done)
      {
        if day !in done {
          days := days + [day];
        }
        day := day + DAY_MS;
      }
    }
  }

  lemma BacklogAfter(from: int, today: int, was: set<int>, done: set<int>, hourly: Hourly)
    requires var days := OutstandingDays(from, today, was);
             && days != [] && done - {days[0]} == was - {days[0]}
             && (days[0] in done <==> HasRows(hourly, days[0]))
    ensures OutstandingDays(from, today, done) == Advance(OutstandingDays(from, today, was), hourly)
  {
    var days := OutstandingDays(from, today, was);
    assert days[0] in days;
    if HasRows(hourly, days[0]) {
      assert done == was + {days[0]};
      FirstDayDone(from, today, was, done);
    } else {
      assert done == was by {
        forall day ensures day in done <==> day in was {
          assert day in done - {days[0]} <==> day in was - {days[0]};
        }
      }
    }
  }

  lemma DoneElsewhere(was: Daily, now: Daily, day: int)
    requires SameElsewhere(was, now, day)
    ensures DoneDays(now) - {day} == DoneDays(was) - {day}
  {
    forall other | other != day ensures other in DoneDays(now) <==> other in DoneDays(was) {
      if other in DoneDays(now) {
        var d :| d in now && d.dayStart == other;
        assert d in was;
      }
      if other in DoneDays(was) {
        var d :| d in was && d.dayStart == other;
        assert d in now;
      }
    }
  }

  lemma ExactIsDone(daily: Daily, hourly: Hourly, day: int)
    requires Exact(daily, hourly, day)
    ensures day in DoneDays(daily) <==> HasRows(hourly, day)
  {
    if day in DoneDays(daily) {
      var d :| d in daily && d.dayStart == day;
      assert VouchedRow(hourly, d, daily[d]);
    }
    if HasRows(hourly, day) {
      var k :| k in hourly && InDay(k, day);
      assert SpannedIn(daily, hourly, day, k);
      assert DayKey(day, FlowOf(k)) in daily;
    }
  }
}
