/**
 Storing agent uploads (src/agent-ingest-store.js): what one reported
 observation does to the observation table and to the hourly roll-up, and what
 that means for uploads that die halfway and are sent again.

 A table is a map from primary key to row. `receivedAt` is not part of a row.
 */
module AgentIngest {
  import opened Common
  import opened Decimals
  import opened Retries

  const HOUR_MS := 3_600_000

  // Agent ids are compared for equality and by order only; 0 stands for the
  // empty string, which no agent has.
  type AgentId = n: int | n > 0 witness 1

  /** One observation as an agent reports it. */
  datatype Report = Report(
    observationId: string, networkProtocol: string,
    localAddress: string, localPort: int, remoteAddress: string, remotePort: int,
    processID: int, processName: string, bundleID: Option<string>,
    firstObservedAt: int, lastObservedAt: int,
    bytesIn: Option<string>, bytesOut: Option<string>,
    collector: string, confidence: string, remoteHostname: Option<string>)

  /** A row of `agent_observations`. */
  datatype Row = Row(
    batchId: string, networkProtocol: string,
    localAddress: string, localPort: int, remoteAddress: string, remotePort: int,
    processId: int, processName: string, bundleId: Option<string>,
    firstObservedAt: int, lastObservedAt: int,
    bytesIn: Option<string>, bytesOut: Option<string>,
    collector: string, confidence: string, remoteHostname: Option<string>)

  datatype ObsKey = ObsKey(agentId: AgentId, observationId: string)

  /** The primary key of `agent_app_hourly`, and the rest of its row. */
  datatype HourKey = HourKey(
    hourStart: int, agentId: AgentId, appIdentity: string,
    localAddress: string, remoteAddress: string, remotePort: int, networkProtocol: string)
  datatype HourRow = HourRow(processName: string, firstObservedAt: int, lastObservedAt: int)

  datatype Tables = Tables(observations: map<ObsKey, Row>, hourly: map<HourKey, HourRow>)

  /** One report on its way into the tables. */
  datatype Write = Write(agentId: AgentId, batchId: string, report: Report)

  /** `Thrown`: a completion that breaks a column check. Its error is not caught,
      so the chunk it is in is rolled back and the upload fails. */
  datatype Verdict = Accepted | Duplicate | Completed | Rejected | Thrown

  // ---------------------------------------------------------------- decisions

  predicate HasLocalEndpoint(address: string, port: int) {
    port != 0 && !Unspecified(address)
  }

  predicate BringsEndpoint(stored: Row, r: Report) {
    !HasLocalEndpoint(stored.localAddress, stored.localPort) && HasLocalEndpoint(r.localAddress, r.localPort)
  }

  predicate ClosesWithoutCounts(stored: Row, r: Report) {
    r.lastObservedAt > stored.lastObservedAt || BringsEndpoint(stored, r)
  }

  predicate CompletesStored(stored: Row, r: Report) {
    if stored.bytesIn.Some? || stored.bytesOut.Some? then false
    else if r.bytesIn.None? && r.bytesOut.None? && !ClosesWithoutCounts(stored, r) then false
    else
      && stored.networkProtocol == r.networkProtocol
      && stored.remoteAddress == r.remoteAddress
      && stored.remotePort == r.remotePort
      && stored.processId == r.processID
      && (stored.localPort == 0 || stored.localPort == r.localPort)
  }

  /** Text comparison, character by character. */
  predicate TextAtMost(a: string, b: string) {
    a == [] || (b != [] && (a[0] < b[0] || (a[0] == b[0] && TextAtMost(a[1..], b[1..]))))
  }

  /** The decimal text of an unsigned 64-bit number, without leading zeros. */
  predicate IsByteCount(text: string) {
    && 1 <= |text| <= 20
    && (forall c <- text :: '0' <= c <= '9')
    && (text == "0" || '1' <= text[0])
    && (|text| == 20 ==> TextAtMost(text, "18446744073709551615"))
  }

  predicate LengthWithin(text: Option<string>, limit: nat) {
    text.Some? ==> 1 <= |text.value| <= limit
  }

  predicate IsEndpointStorable(row: Row) {
    && (row.networkProtocol == "tcp" || row.networkProtocol == "udp")
    && 2 <= |row.localAddress| <= 45 && 0 <= row.localPort <= 65535
    && 2 <= |row.remoteAddress| <= 45 && 1 <= row.remotePort <= 65535
  }

  predicate IsSourceStorable(row: Row) {
    && 0 <= row.processId <= 2147483647 && 1 <= |row.processName| <= 256 && LengthWithin(row.bundleId, 255)
    && (row.collector == "network-extension" || row.collector == "libproc" || row.collector == "etw")
    && (row.confidence == "exact" || row.confidence == "sampled")
    && LengthWithin(row.remoteHostname, 253)
  }

  predicate AreCountsStorable(bytesIn: Option<string>, bytesOut: Option<string>) {
    && (bytesIn.Some? ==> IsByteCount(bytesIn.value))
    && (bytesOut.Some? ==> IsByteCount(bytesOut.value))
  }

  /** The column constraints of `agent_observations`. */
  predicate IsStorable(row: Row) {
    && IsEndpointStorable(row) && IsSourceStorable(row) && AreCountsStorable(row.bytesIn, row.bytesOut)
    && row.firstObservedAt <= row.lastObservedAt
  }

  /** A report that may open a row; any other is refused. */
  predicate PassesChecks(w: Write) {
    IsStorable(NewRow(w))
  }

  // ------------------------------------------------------------------- writes

  function NewRow(w: Write): Row {
    var r := w.report;
    Row(w.batchId, r.networkProtocol, r.localAddress, r.localPort, r.remoteAddress, r.remotePort,
        r.processID, r.processName, r.bundleID, r.firstObservedAt, r.lastObservedAt,
        r.bytesIn, r.bytesOut, r.collector, r.confidence, r.remoteHostname)
  }

  /** The stored row after its closing report; the local address and port move together. */
  function CompletedRow(stored: Row, r: Report): Row {
    var brings := BringsEndpoint(stored, r);
    stored.(bytesIn := r.bytesIn, bytesOut := r.bytesOut,
            lastObservedAt := Max(stored.lastObservedAt, r.lastObservedAt),
            localAddress := if brings then r.localAddress else stored.localAddress,
            localPort := if brings then r.localPort else stored.localPort,
            remoteHostname := if stored.remoteHostname.Some? then stored.remoteHostname else r.remoteHostname)
  }

  function AppIdentity(row: Row): string {
    if row.bundleId.Some? && row.bundleId.value != "" then row.bundleId.value else row.processName
  }

  function HourKeyOf(agentId: AgentId, row: Row): HourKey {
    HourKey(WindowStart(row.lastObservedAt, HOUR_MS), agentId, AppIdentity(row), row.localAddress,
            row.remoteAddress, row.remotePort, row.networkProtocol)
  }

  function Upsert(hourly: map<HourKey, HourRow>, key: HourKey, row: HourRow): map<HourKey, HourRow> {
    if key in hourly then
      hourly[key := HourRow(row.processName,
                            Min(hourly[key].firstObservedAt, row.firstObservedAt),
                            Max(hourly[key].lastObservedAt, row.lastObservedAt))]
    else hourly[key := row]
  }

  /** Puts `row` under `key` and feeds the hour of its last sighting. */
  function PutRow(t: Tables, key: ObsKey, row: Row): Tables {
    Tables(t.observations[key := row],
           Upsert(t.hourly, HourKeyOf(key.agentId, row),
                  HourRow(row.processName, row.firstObservedAt, row.lastObservedAt)))
  }

  function KeyOf(w: Write): ObsKey {
    ObsKey(w.agentId, w.report.observationId)
  }

  function VerdictOf(t: Tables, w: Write): Verdict {
    var key := KeyOf(w);
    if key in t.observations then
      if !CompletesStored(t.observations[key], w.report) then Duplicate
      else if IsStorable(CompletedRow(t.observations[key], w.report)) then Completed
      else Thrown
    else if PassesChecks(w) then Accepted
    else Rejected
  }

  function Apply(t: Tables, w: Write): Tables {
    match VerdictOf(t, w)
    case Accepted => PutRow(t, KeyOf(w), NewRow(w))
    case Completed => PutRow(t, KeyOf(w), CompletedRow(t.observations[KeyOf(w)], w.report))
    case _ => t
  }

  function ApplyAll(t: Tables, ws: seq<Write>): Tables {
    if ws == [] then t else Apply(ApplyAll(t, ws[..|ws| - 1]), ws[|ws| - 1])
  }

  lemma ApplyAllLast(t: Tables, ws: seq<Write>, w: Write)
    ensures ApplyAll(t, ws + [w]) == Apply(ApplyAll(t, ws), w)
  {
    assert (ws + [w])[..|ws|] == ws;
  }

  lemma {:induction false} ApplyAllConcat(t: Tables, a: seq<Write>, b: seq<Write>)
    ensures ApplyAll(t, a + b) == ApplyAll(ApplyAll(t, a), b)
    decreases |b|
  {
    if b == [] {
      assert a + b == a;
    } else {
      var b', w := b[..|b| - 1], b[|b| - 1];
      assert b == b' + [w] && a + b == a + b' + [w];
      ApplyAllConcat(t, a, b');
      ApplyAllLast(t, a + b', w);
      ApplyAllLast(ApplyAll(t, a), b', w);
    }
  }

  // ------------------------------------------------- rows only ever fill up

  /** How a stored row may change: its identity stays, its end only moves
      later, and counts, local endpoint and host name are written once. */
  predicate Grows(a: Row, b: Row) {
    && b.batchId == a.batchId
    && b.networkProtocol == a.networkProtocol
    && b.remoteAddress == a.remoteAddress && b.remotePort == a.remotePort
    && b.processId == a.processId && b.processName == a.processName && b.bundleId == a.bundleId
    && b.firstObservedAt == a.firstObservedAt && b.collector == a.collector && b.confidence == a.confidence
    && a.lastObservedAt <= b.lastObservedAt
    && (a.bytesIn.Some? || a.bytesOut.Some? ==> b.bytesIn == a.bytesIn && b.bytesOut == a.bytesOut)
    && (HasLocalEndpoint(a.localAddress, a.localPort)
        ==> b.localAddress == a.localAddress && b.localPort == a.localPort)
    && (a.localPort != 0 ==> b.localPort == a.localPort)
    && (a.remoteHostname.Some? ==> b.remoteHostname == a.remoteHostname)
  }

  predicate RowsGrow(t: Tables, u: Tables) {
    forall k <- t.observations :: k in u.observations && Grows(t.observations[k], u.observations[k])
  }

  lemma CompletingGrows(stored: Row, r: Report)
    requires CompletesStored(stored, r)
    ensures Grows(stored, CompletedRow(stored, r))
    ensures CompletedRow(stored, r) != stored
    ensures !CompletesStored(CompletedRow(stored, r), r)
  {
  }

  lemma ApplyGrows(t: Tables, w: Write)
    ensures RowsGrow(t, Apply(t, w))
    ensures VerdictOf(t, w) != Rejected ==> KeyOf(w) in Apply(t, w).observations
  {
    if VerdictOf(t, w) == Completed {
      CompletingGrows(t.observations[KeyOf(w)], w.report);
    }
  }

  lemma KeysAfter(t: Tables, w: Write)
    ensures VerdictOf(t, w) == Accepted ==>
              KeyOf(w) !in t.observations && Apply(t, w).observations.Keys == t.observations.Keys + {KeyOf(w)}
    ensures VerdictOf(t, w) != Accepted ==> Apply(t, w).observations.Keys == t.observations.Keys
  {
  }

  /** Write-once rows, over every run of uploads: no report, from any batch,
      takes a stored row away or rewrites what it already says. */
  lemma {:induction false} RowsOnlyFillUp(t: Tables, ws: seq<Write>)
    ensures RowsGrow(t, ApplyAll(t, ws))
  {
    if ws != [] {
      var last := |ws| - 1;
      RowsOnlyFillUp(t, ws[..last]);
      var u := ApplyAll(t, ws[..last]);
      ApplyGrows(u, ws[last]);
    }
  }

  /** Whatever is stored keeps to the column constraints. */
  predicate RowsStorable(t: Tables) {
    forall k <- t.observations :: IsStorable(t.observations[k])
  }

  lemma {:induction false} RowsStayStorable(t: Tables, ws: seq<Write>)
    requires RowsStorable(t)
    ensures RowsStorable(ApplyAll(t, ws))
  {
    if ws != [] {
      RowsStayStorable(t, ws[..|ws| - 1]);
    }
  }

  // ------------------------------------------------------ what a row says

  /** Every column of a row an upload opens is the field of that name of its report. */
  lemma AcceptedRowSaysItsReport(t: Tables, agentId: AgentId, batchId: string, r: Report)
    requires VerdictOf(t, Write(agentId, batchId, r)) == Accepted
    ensures var key, u := ObsKey(agentId, r.observationId), Apply(t, Write(agentId, batchId, r));
            && u.observations.Keys == t.observations.Keys + {key}
            && (forall k <- t.observations :: u.observations[k] == t.observations[k])
            && var row := u.observations[key];
               && row.batchId == batchId
               && row.networkProtocol == r.networkProtocol
               && row.localAddress == r.localAddress && row.localPort == r.localPort
               && row.remoteAddress == r.remoteAddress && row.remotePort == r.remotePort
               && row.processId == r.processID && row.processName == r.processName && row.bundleId == r.bundleID
               && row.firstObservedAt == r.firstObservedAt && row.lastObservedAt == r.lastObservedAt
               && row.bytesIn == r.bytesIn && row.bytesOut == r.bytesOut
               && row.collector == r.collector && row.confidence == r.confidence
               && row.remoteHostname == r.remoteHostname
  {
  }

  /** A stored endpoint that says nothing, and a reported one that does. */
  predicate EndpointIsNew(stored: Row, r: Report) {
    && (stored.localPort == 0 || stored.localAddress in {"0.0.0.0", "::", ""})
    && r.localPort != 0 && r.localAddress !in {"0.0.0.0", "::", ""}
  }

  /** What a closing report leaves in its row, and that it touches no other. */
  lemma CompletedRowSaysItsReport(t: Tables, agentId: AgentId, batchId: string, r: Report)
    requires VerdictOf(t, Write(agentId, batchId, r)) == Completed
    ensures var key, u := ObsKey(agentId, r.observationId), Apply(t, Write(agentId, batchId, r));
            && key in t.observations && u.observations.Keys == t.observations.Keys
            && (forall k <- t.observations :: k != key ==> u.observations[k] == t.observations[k])
            && var stored, row := t.observations[key], u.observations[key];
               && row.bytesIn == r.bytesIn && row.bytesOut == r.bytesOut
               && row.lastObservedAt == (if r.lastObservedAt > stored.lastObservedAt then r.lastObservedAt
                                         else stored.lastObservedAt)
               && (if EndpointIsNew(stored, r)
                   then row.localAddress == r.localAddress && row.localPort == r.localPort
                   else row.localAddress == stored.localAddress && row.localPort == stored.localPort)
               && row.remoteHostname == (if stored.remoteHostname.None? then r.remoteHostname else stored.remoteHostname)
               && row.batchId == stored.batchId && row.networkProtocol == stored.networkProtocol
               && row.remoteAddress == stored.remoteAddress && row.remotePort == stored.remotePort
               && row.processId == stored.processId && row.processName == stored.processName
               && row.bundleId == stored.bundleId && row.firstObservedAt == stored.firstObservedAt
               && row.collector == stored.collector && row.confidence == stored.confidence
  {
  }

  /** Of texts of digits of one length the smaller comes first. */
  lemma {:induction false} TextOrderIsNumberOrder(a: string, b: string)
    requires |a| == |b| && AreDigits(a) && AreDigits(b)
    ensures TextAtMost(a, b) <==> Value(a) <= Value(b)
    decreases |a|
  {
    if a != [] {
      FirstDigit(a);
      FirstDigit(b);
      ValueInRange(a[1..]);
      ValueInRange(b[1..]);
      TextOrderIsNumberOrder(a[1..], b[1..]);
      LeadingDigitDecides(DigitValue(a[0]), DigitValue(b[0]), Power10(|a| - 1), Value(a[1..]), Value(b[1..]));
    }
  }

  lemma LeadingDigitDecides(d: int, e: int, p: nat, x: nat, y: nat)
    requires x < p && y < p
    ensures d < e ==> d * p + x < e * p + y
    ensures d > e ==> d * p + x > e * p + y
  {
    if d < e {
      AtLeastOnce(e - d, p);
      assert (e - d) * p == e * p - d * p;
    } else if d > e {
      AtLeastOnce(d - e, p);
      assert (d - e) * p == d * p - e * p;
    }
  }

  /** What the column check lets through as a byte count are the numbers of 64 bits. */
  lemma ByteCountIff(text: string)
    ensures IsByteCount(text) <==> IsNumberOf64Bits(text)
  {
    NumeralIff(text);
    if IsNumeral(text) {
      NumeralIsDecimal(text);
      FitsIff(text);
    }
    forall n: nat | text == Decimal(n) ensures IsNumeral(text) && Value(text) == n {
      DecimalIsNumeral(n);
      ValueOfDecimal(n);
    }
  }

  lemma NumeralIff(text: string)
    ensures IsNumeral(text) <==> |text| >= 1 && (forall c <- text :: '0' <= c <= '9') && (text == "0" || '1' <= text[0])
  {
    if |text| == 1 { assert text == [text[0]]; }
    if forall c <- text :: '0' <= c <= '9' {
      forall i | 0 <= i < |text| ensures IsDigit(text[i]) {
        assert text[i] in text;
      }
    }
  }

  lemma FitsIff(text: string)
    requires IsNumeral(text)
    ensures Value(text) <= 18446744073709551615 <==>
            |text| <= 20 && (|text| == 20 ==> TextAtMost(text, "18446744073709551615"))
  {
    PowerValues();
    NumeralSize(text);
    if |text| <= 19 {
      PowersGrow(|text|, 19);
    } else if |text| >= 21 {
      PowersGrow(20, |text| - 1);
    } else {
      LargestByteCount();
      TextOrderIsNumberOrder(text, "18446744073709551615");
    }
  }

  lemma PowerValues()
    ensures Power10(19) == 10_000_000_000_000_000_000 && Power10(20) == 100_000_000_000_000_000_000
  {
    assert Power10(5) == 100_000;
    assert Power10(10) == 10_000_000_000;
    assert Power10(15) == 1_000_000_000_000_000;
  }

  lemma LargestByteCount()
    ensures AreDigits("18446744073709551615") && |"18446744073709551615"| == 20
    ensures Value("18446744073709551615") == 18446744073709551615
  {
    var a, b := "1844674407", "3709551615";
    TenDigits();
    ValueOfJoined(a, b);
    assert Power10(10) == 10_000_000_000;
    assert a + b == "18446744073709551615";
  }

  lemma TenDigits()
    ensures Value("1844674407") == 1844674407 && Value("3709551615") == 3709551615
  {
    ValueOfJoined("18446", "74407");
    ValueOfJoined("37095", "51615");
    assert Power10(5) == 100_000;
    assert "18446" + "74407" == "1844674407" && "37095" + "51615" == "3709551615";
    FiveDigits("18446", 1, 8, 4, 4, 6);
    FiveDigits("74407", 7, 4, 4, 0, 7);
    FiveDigits("37095", 3, 7, 0, 9, 5);
    FiveDigits("51615", 5, 1, 6, 1, 5);
  }

  lemma FiveDigits(s: string, a: int, b: int, c: int, d: int, e: int)
    requires |s| == 5 && DigitValue(s[0]) == a && DigitValue(s[1]) == b && DigitValue(s[2]) == c
    requires DigitValue(s[3]) == d && DigitValue(s[4]) == e
    ensures Value(s) == 10000 * a + 1000 * b + 100 * c + 10 * d + e
  {
    assert s[..1][..0] == [] && Value(s[..1]) == a;
    assert s[..2][..1] == s[..1] && Value(s[..2]) == 10 * a + b;
    assert s[..3][..2] == s[..2] && Value(s[..3]) == 100 * a + 10 * b + c;
    assert s[..4][..3] == s[..3] && Value(s[..4]) == 1000 * a + 100 * b + 10 * c + d;
  }

  ghost predicate IsNumberOf64Bits(text: string) {
    exists n: nat :: n <= 0xFFFF_FFFF_FFFF_FFFF && text == Decimal(n)
  }

  ghost predicate IsCount(count: Option<string>) {
    count.Some? ==> IsNumberOf64Bits(count.value)
  }

  predicate IsText(text: Option<string>, longest: nat) {
    text.None? || 1 <= |text.value| <= longest
  }

  /** A report of an unknown id opens a row exactly when each of its fields is one the
      schema takes; otherwise it is refused. */
  lemma AcceptedIff(t: Tables, agentId: AgentId, batchId: string, r: Report)
    requires ObsKey(agentId, r.observationId) !in t.observations
    ensures VerdictOf(t, Write(agentId, batchId, r)) in {Accepted, Rejected}
    ensures VerdictOf(t, Write(agentId, batchId, r)) == Accepted <==>
            && r.networkProtocol in {"tcp", "udp"}
            && 2 <= |r.localAddress| <= 45 && 0 <= r.localPort < 65536
            && 2 <= |r.remoteAddress| <= 45 && 0 < r.remotePort < 65536
            && 0 <= r.processID < 0x8000_0000 && 1 <= |r.processName| <= 256 && IsText(r.bundleID, 255)
            && r.firstObservedAt <= r.lastObservedAt
            && IsCount(r.bytesIn) && IsCount(r.bytesOut)
            && r.collector in {"network-extension", "libproc", "etw"} && r.confidence in {"exact", "sampled"}
            && IsText(r.remoteHostname, 253)
  {
    CountIff(r.bytesIn);
    CountIff(r.bytesOut);
  }

  lemma CountIff(count: Option<string>)
    ensures IsCount(count) <==> (count.Some? ==> IsByteCount(count.value))
  {
    if count.Some? { ByteCountIff(count.value); }
  }

  /** A report of a known id closes the row, or throws trying, exactly when it is
      about the same connection, the row has no counts yet, and it brings counts,
      a later end or an endpoint that was missing. */
  lemma ClosesIff(t: Tables, agentId: AgentId, batchId: string, r: Report)
    requires ObsKey(agentId, r.observationId) in t.observations
    ensures var stored := t.observations[ObsKey(agentId, r.observationId)];
            VerdictOf(t, Write(agentId, batchId, r)) in {Completed, Thrown} <==>
            && r.networkProtocol == stored.networkProtocol && r.processID == stored.processId
            && r.remoteAddress == stored.remoteAddress && r.remotePort == stored.remotePort
            && (stored.localPort != 0 ==> r.localPort == stored.localPort)
            && stored.bytesIn.None? && stored.bytesOut.None?
            && (r.bytesIn.Some? || r.bytesOut.Some? || r.lastObservedAt > stored.lastObservedAt || EndpointIsNew(stored, r))
  {
  }

  /** A report that writes a row feeds one hourly row: that of the row's endpoints and
      app in the hour it was last seen. Its times widen to the row's, it takes the
      row's process name, and no other hourly row changes. */
  lemma WritingFeedsItsHour(t: Tables, agentId: AgentId, batchId: string, r: Report)
    requires VerdictOf(t, Write(agentId, batchId, r)) in {Accepted, Completed}
    ensures var u := Apply(t, Write(agentId, batchId, r));
            var row := u.observations[ObsKey(agentId, r.observationId)];
            var app := if row.bundleId in {None, Some("")} then row.processName else row.bundleId.value;
            exists hour: HourKey ::
              && hour.hourStart % HOUR_MS == 0 && hour.hourStart <= row.lastObservedAt < hour.hourStart + HOUR_MS
              && hour.agentId == agentId && hour.appIdentity == app && hour.localAddress == row.localAddress
              && hour.remoteAddress == row.remoteAddress && hour.remotePort == row.remotePort
              && hour.networkProtocol == row.networkProtocol
              && u.hourly.Keys == t.hourly.Keys + {hour}
              && (forall h <- t.hourly :: h != hour ==> u.hourly[h] == t.hourly[h])
              && u.hourly[hour].processName == row.processName
              && (if hour in t.hourly then
                    Hull(Span(t.hourly[hour].firstObservedAt, t.hourly[hour].lastObservedAt),
                         Span(row.firstObservedAt, row.lastObservedAt))
                    == Span(u.hourly[hour].firstObservedAt, u.hourly[hour].lastObservedAt)
                  else u.hourly[hour].firstObservedAt == row.firstObservedAt && u.hourly[hour].lastObservedAt == row.lastObservedAt)
  {
    var u := Apply(t, Write(agentId, batchId, r));
    var row := u.observations[ObsKey(agentId, r.observationId)];
    WindowStartHolds(row.lastObservedAt, HOUR_MS);
    var hour := HourKeyOf(agentId, row);
    assert u.hourly.Keys == t.hourly.Keys + {hour};
  }

  /** What a row opened by this report says for ever, whatever closes it later. */
  predicate Says(row: Row, batchId: string, r: Report) {
    && row.batchId == batchId && row.networkProtocol == r.networkProtocol
    && row.remoteAddress == r.remoteAddress && row.remotePort == r.remotePort
    && row.processId == r.processID && row.processName == r.processName && row.bundleId == r.bundleID
    && row.firstObservedAt == r.firstObservedAt && row.lastObservedAt >= r.lastObservedAt
    && row.collector == r.collector && row.confidence == r.confidence
    && (r.bytesIn.Some? || r.bytesOut.Some? ==> row.bytesIn == r.bytesIn && row.bytesOut == r.bytesOut)
    && (r.localPort != 0 ==> row.localPort == r.localPort)
    && (r.localPort != 0 && r.localAddress !in {"0.0.0.0", "::", ""} ==> row.localAddress == r.localAddress)
    && (r.remoteHostname.Some? ==> row.remoteHostname == r.remoteHostname)
  }

  lemma SaysStays(a: Row, b: Row, batchId: string, r: Report)
    requires Says(a, batchId, r) && Grows(a, b)
    ensures Says(b, batchId, r)
  {
  }

  // ----------------------------------------------------- retries are harmless

  /** The branches of the chunk loop that write nothing and throw nothing. */
  predicate Settled(t: Tables, w: Write) {
    if KeyOf(w) in t.observations then !CompletesStored(t.observations[KeyOf(w)], w.report)
    else !PassesChecks(w)
  }

  /** Neither refused nor thrown: the row is there and says what the report says. */
  predicate Handled(t: Tables, w: Write) {
    VerdictOf(t, w) != Rejected && VerdictOf(t, w) != Thrown
  }

  /** Handled against a stored row: no later report reopens the question. */
  lemma SettledStays(t: Tables, u: Tables, w: Write)
    requires RowsGrow(t, u)
    requires KeyOf(w) in t.observations && Settled(t, w)
    ensures KeyOf(w) in u.observations && Settled(u, w)
  {
    var a, b := t.observations[KeyOf(w)], u.observations[KeyOf(w)];
    assert Grows(a, b);
  }

  lemma HandledIsSettled(t: Tables, w: Write)
    requires Handled(t, w)
    ensures KeyOf(w) in Apply(t, w).observations && Settled(Apply(t, w), w)
  {
    if VerdictOf(t, w) == Completed {
      CompletingGrows(t.observations[KeyOf(w)], w.report);
    }
  }

  /** A report handled once is a no-op ever after, in whatever batch it comes
      back and whatever other reports came between. */
  lemma {:induction false} HandledOnceIsNoOpEverAfter(t: Tables, w: Write, between: seq<Write>, again: Write)
    requires Handled(t, w)
    requires again.agentId == w.agentId && again.report == w.report
    ensures var later := ApplyAll(Apply(t, w), between);
            Apply(later, again) == later && VerdictOf(later, again) == Duplicate
  {
    HandledIsSettled(t, w);
    RowsOnlyFillUp(Apply(t, w), between);
    SettledStays(Apply(t, w), ApplyAll(Apply(t, w), between), w);
  }

  lemma {:induction false} AllSettledChangesNothing(t: Tables, ws: seq<Write>)
    requires forall i :: 0 <= i < |ws| ==> Settled(t, ws[i])
    ensures ApplyAll(t, ws) == t && !Throws(t, ws)
  {
    if ws != [] {
      AllSettledChangesNothing(t, ws[..|ws| - 1]);
      assert Settled(t, ws[|ws| - 1]);
    }
  }

  /** Some report of the list throws when its turn comes. */
  predicate Throws(t: Tables, ws: seq<Write>) {
    if ws == [] then false
    else
      var before := ws[..|ws| - 1];
      Throws(t, before) || VerdictOf(ApplyAll(t, before), ws[|ws| - 1]) == Thrown
  }

  lemma {:induction false} ThrowsConcat(t: Tables, a: seq<Write>, b: seq<Write>)
    ensures Throws(t, a + b) <==> Throws(t, a) || Throws(ApplyAll(t, a), b)
    decreases |b|
  {
    if b == [] {
      assert a + b == a;
    } else {
      var b' := b[..|b| - 1];
      assert (a + b)[..|a + b| - 1] == a + b';
      ThrowsConcat(t, a, b');
      ApplyAllConcat(t, a, b');
    }
  }

  /** Sending a list of reports that throws nothing changes nothing if and only if
      every one of them falls in a branch that writes nothing. Rows only fill up,
      so a change made by one report is never undone by a later one. */
  lemma {:induction false} ResendChangesNothingIff(t: Tables, ws: seq<Write>)
    requires !Throws(t, ws)
    ensures ApplyAll(t, ws) == t <==> forall i :: 0 <= i < |ws| ==> Settled(t, ws[i])
  {
    if forall i :: 0 <= i < |ws| ==> Settled(t, ws[i]) {
      AllSettledChangesNothing(t, ws);
    } else {
      var i := FirstUnsettled(t, ws);
      UnsettledNeverReturns(t, ws, i);
    }
  }

  lemma UnsettledNeverReturns(t: Tables, ws: seq<Write>, i: nat)
    requires i < |ws| && !Settled(t, ws[i]) && !Throws(t, ws)
    requires forall n :: 0 <= n < i ==> Settled(t, ws[n])
    ensures ApplyAll(t, ws) != t
  {
    var w, k := ws[i], KeyOf(ws[i]);
    var after, end := Apply(t, w), ApplyAll(Apply(t, w), ws[i + 1..]);
    FromTheFirstOn(t, ws, i);
    RowsOnlyFillUp(after, ws[i + 1..]);
    assert k in after.observations && Grows(after.observations[k], end.observations[k]);
    if k in t.observations {
      GrowingNeverReturns(t.observations[k], after.observations[k], end.observations[k], w.report);
    }
  }

  /** Behind reports that write nothing the list starts with the next one. */
  lemma FromTheFirstOn(t: Tables, ws: seq<Write>, i: nat)
    requires i < |ws| && !Throws(t, ws) && forall n :: 0 <= n < i ==> Settled(t, ws[n])
    ensures ApplyAll(t, ws) == ApplyAll(Apply(t, ws[i]), ws[i + 1..])
    ensures VerdictOf(t, ws[i]) != Thrown
  {
    AllSettledChangesNothing(t, ws[..i]);
    AtItsTurn(t, ws, i);
  }

  lemma {:induction false} FirstUnsettled(t: Tables, ws: seq<Write>) returns (i: nat)
    requires exists n :: 0 <= n < |ws| && !Settled(t, ws[n])
    ensures i < |ws| && !Settled(t, ws[i])
    ensures forall n :: 0 <= n < i ==> Settled(t, ws[n])
  {
    i := 0;
    while Settled(t, ws[i])
      invariant i < |ws|
      invariant forall n :: 0 <= n < i ==> Settled(t, ws[n])
      decreases |ws| - i
    {
      var n :| 0 <= n < |ws| && !Settled(t, ws[n]);
      i := i + 1;
    }
  }

  lemma GrowingNeverReturns(a: Row, b: Row, c: Row, r: Report)
    requires CompletesStored(a, r) && b == CompletedRow(a, r) && Grows(b, c)
    ensures c != a
  {
  }

  // ------------------------------------------------- what the resend may meet

  function Lookup(t: Tables, k: ObsKey): Option<Row> {
    if k in t.observations then Some(t.observations[k]) else None
  }

  /** What a list of reports makes of one row; the reports under other ids play no part. */
  function RowAfter(row: Option<Row>, ws: seq<Write>, k: ObsKey): Option<Row> {
    if ws == [] then row
    else
      var before, w := RowAfter(row, ws[..|ws| - 1], k), ws[|ws| - 1];
      if KeyOf(w) != k then before
      else
        match before
        case None => if PassesChecks(w) then Some(NewRow(w)) else None
        case Some(stored) =>
          if CompletesStored(stored, w.report) && IsStorable(CompletedRow(stored, w.report))
          then Some(CompletedRow(stored, w.report))
          else before
  }

  lemma {:induction false} RowsAreSeparate(t: Tables, ws: seq<Write>, k: ObsKey)
    ensures Lookup(ApplyAll(t, ws), k) == RowAfter(Lookup(t, k), ws, k)
  {
    if ws != [] {
      RowsAreSeparate(t, ws[..|ws| - 1], k);
    }
  }

  /** Report `i` was refused, and would close the row that the first `n` reports
      leave under its id. Only the reports of that id decide this. */
  predicate ClosesOnceRefused(t: Tables, batch: seq<Write>, n: nat, i: nat)
    requires i < n <= |batch|
  {
    var k := KeyOf(batch[i]);
    var row := RowAfter(Lookup(t, k), batch[..n], k);
    && RowAfter(Lookup(t, k), batch[..i], k).None? && !PassesChecks(batch[i])
    && row.Some? && CompletesStored(row.value, batch[i].report)
  }

  /** Sent again, a report is settled unless it was refused and would now close the row. */
  lemma SettledIff(t: Tables, batch: seq<Write>, n: nat, i: nat)
    requires i < n <= |batch| && !Throws(t, batch[..n])
    ensures Settled(ApplyAll(t, batch[..n]), batch[i]) <==> !ClosesOnceRefused(t, batch, n, i)
  {
    var ws, k := batch[..n], KeyOf(batch[i]);
    assert ws[..i] == batch[..i] && ws[i] == batch[i];
    RowsAreSeparate(t, ws[..i], k);
    RowsAreSeparate(t, ws, k);
    if VerdictOf(ApplyAll(t, ws[..i]), ws[i]) != Rejected {
      HandledStaysSettled(t, ws, i);
    }
  }

  /** A list split at one of its reports. */
  lemma AtItsTurn(t: Tables, ws: seq<Write>, i: nat)
    requires i < |ws|
    ensures ApplyAll(t, ws[..i + 1]) == Apply(ApplyAll(t, ws[..i]), ws[i])
    ensures ApplyAll(t, ws) == ApplyAll(ApplyAll(t, ws[..i + 1]), ws[i + 1..])
    ensures VerdictOf(ApplyAll(t, ws[..i]), ws[i]) == Thrown ==> Throws(t, ws)
  {
    assert ws[..i + 1][..i] == ws[..i];
    assert ws == ws[..i + 1] + ws[i + 1..];
    ApplyAllConcat(t, ws[..i + 1], ws[i + 1..]);
    ThrowsConcat(t, ws[..i + 1], ws[i + 1..]);
  }

  lemma HandledStaysSettled(t: Tables, ws: seq<Write>, i: nat)
    requires i < |ws| && !Throws(t, ws) && VerdictOf(ApplyAll(t, ws[..i]), ws[i]) != Rejected
    ensures Settled(ApplyAll(t, ws), ws[i])
  {
    var before, after := ApplyAll(t, ws[..i]), ApplyAll(t, ws[..i + 1]);
    AtItsTurn(t, ws, i);
    HandledIsSettled(before, ws[i]);
    RowsOnlyFillUp(after, ws[i + 1..]);
    SettledStays(after, ApplyAll(t, ws), ws[i]);
  }

  // ------------------------------------------------------- attempts in chunks

  const OBSERVATIONS_PER_CHUNK := 50

  /** Where chunk `n` of so many reports starts. */
  function Start(chunk: nat, length: nat): (r: nat)
    ensures r <= length
  {
    Min(chunk * OBSERVATIONS_PER_CHUNK, length)
  }

  function Chunks(length: nat): (n: nat)
    ensures (n - 1) * OBSERVATIONS_PER_CHUNK < length <= n * OBSERVATIONS_PER_CHUNK || n == length == 0
  {
    (length + OBSERVATIONS_PER_CHUNK - 1) / OBSERVATIONS_PER_CHUNK
  }

  function ChunkOf(ws: seq<Write>, n: nat): seq<Write> {
    assert Start(n, |ws|) <= Start(n + 1, |ws|);
    ws[Start(n, |ws|)..Start(n + 1, |ws|)]
  }

  function UpTo(ws: seq<Write>, chunks: nat): seq<Write> {
    ws[..Start(chunks, |ws|)]
  }

  lemma OneChunkMore(ws: seq<Write>, n: nat)
    ensures UpTo(ws, n + 1) == UpTo(ws, n) + ChunkOf(ws, n)
  {
  }

  /** One chunk, one transaction: a report that throws rolls it back. */
  function Sent(t: Tables, chunk: seq<Write>): Option<Tables> {
    if Throws(t, chunk) then None else Some(ApplyAll(t, chunk))
  }

  function Chunked(batch: seq<Write>): Sending<Tables> {
    (t: Tables, n: nat) => Sent(t, ChunkOf(batch, n))
  }

  /** An attempt fails if and only if a report of its chunks throws; otherwise it
      has written them all. */
  lemma UnfailedIff(t: Tables, batch: seq<Write>, n: nat)
    ensures After(Chunked(batch), t, n).failed <==> Throws(t, UpTo(batch, n))
    ensures !Throws(t, UpTo(batch, n)) ==> After(Chunked(batch), t, n).state == ApplyAll(t, UpTo(batch, n))
  {
    NothingSent(t, batch);
    forall k: nat
      ensures Throws(t, UpTo(batch, k + 1))
              <==> Throws(t, UpTo(batch, k)) || Sent(ApplyAll(t, UpTo(batch, k)), ChunkOf(batch, k)).None?
      ensures !Throws(t, UpTo(batch, k + 1)) ==>
                Sent(ApplyAll(t, UpTo(batch, k)), ChunkOf(batch, k)) == Some(ApplyAll(t, UpTo(batch, k + 1)))
    {
      PrefixSent(t, batch, k);
    }
    AfterIs(Chunked(batch), (k: nat) => ApplyAll(t, UpTo(batch, k)), (k: nat) => Throws(t, UpTo(batch, k)), n);
  }

  lemma NothingSent(t: Tables, batch: seq<Write>)
    ensures !Throws(t, UpTo(batch, 0)) && ApplyAll(t, UpTo(batch, 0)) == t
  {
    assert UpTo(batch, 0) == [];
  }

  lemma PrefixSent(t: Tables, batch: seq<Write>, n: nat)
    ensures Throws(t, UpTo(batch, n + 1))
            <==> Throws(t, UpTo(batch, n)) || Sent(ApplyAll(t, UpTo(batch, n)), ChunkOf(batch, n)).None?
    ensures !Throws(t, UpTo(batch, n + 1)) ==>
              Sent(ApplyAll(t, UpTo(batch, n)), ChunkOf(batch, n)) == Some(ApplyAll(t, UpTo(batch, n + 1)))
  {
    OneChunkMore(batch, n);
    ThrowsConcat(t, UpTo(batch, n), ChunkOf(batch, n));
    ApplyAllConcat(t, UpTo(batch, n), ChunkOf(batch, n));
  }

  /** No report of chunk `c`, refused in its turn, would close the row its id has after chunk `n`. */
  predicate NoneCloses(t: Tables, batch: seq<Write>, n: nat, c: nat) {
    !Throws(t, UpTo(batch, n)) ==>
      forall i :: Start(c, |batch|) <= i < Start(c + 1, |batch|) && i < Start(n, |batch|) ==>
        !ClosesOnceRefused(t, batch, Start(n, |batch|), i)
  }

  /** At the end of no chunk that an attempt can reach would a report refused
      before close the row its id has by then. */
  predicate NoneClosesOnceRefused(t: Tables, batch: seq<Write>) {
    forall n, c :: 0 <= c < n <= Chunks(|batch|) ==> NoneCloses(t, batch, n, c)
  }

  /** A chunk sent again changes nothing and throws nothing exactly when all its reports are settled. */
  lemma SentChangesNothingIff(t: Tables, chunk: seq<Write>)
    ensures Sent(t, chunk) == Some(t) <==> AllSettled(t, chunk)
  {
    if AllSettled(t, chunk) {
      AllSettledChangesNothing(t, chunk);
    } else if !Throws(t, chunk) {
      ResendChangesNothingIff(t, chunk);
    }
  }

  lemma AgainIsNoOpIff(t: Tables, batch: seq<Write>, n: nat, c: nat)
    requires c < n
    ensures AgainIsNoOp(Chunked(batch), t, n, c) <==> NoneCloses(t, batch, n, c)
  {
    UnfailedIff(t, batch, n);
    if !Throws(t, UpTo(batch, n)) {
      SettledChunkIff(t, batch, n, c);
      SentChangesNothingIff(ApplyAll(t, UpTo(batch, n)), ChunkOf(batch, c));
    }
  }

  predicate AllSettled(t: Tables, ws: seq<Write>) {
    forall i :: 0 <= i < |ws| ==> Settled(t, ws[i])
  }

  lemma SettledChunkIff(t: Tables, batch: seq<Write>, n: nat, c: nat)
    requires c < n && !Throws(t, UpTo(batch, n))
    ensures AllSettled(ApplyAll(t, UpTo(batch, n)), ChunkOf(batch, c)) <==> NoneCloses(t, batch, n, c)
  {
    if AllSettled(ApplyAll(t, UpTo(batch, n)), ChunkOf(batch, c)) {
      SettledMeansNoneCloses(t, batch, n, c);
    }
    if NoneCloses(t, batch, n, c) {
      NoneClosesMeansSettled(t, batch, n, c);
    }
  }

  lemma SettledMeansNoneCloses(t: Tables, batch: seq<Write>, n: nat, c: nat)
    requires c < n && !Throws(t, UpTo(batch, n)) && AllSettled(ApplyAll(t, UpTo(batch, n)), ChunkOf(batch, c))
    ensures NoneCloses(t, batch, n, c)
  {
    var from, to := Start(c, |batch|), Start(n, |batch|);
    forall i | from <= i < Start(c + 1, |batch|) && i < to ensures !ClosesOnceRefused(t, batch, to, i) {
      InItsChunk(batch, c, i - from);
      SettledIff(t, batch, to, i);
    }
  }

  lemma NoneClosesMeansSettled(t: Tables, batch: seq<Write>, n: nat, c: nat)
    requires c < n && !Throws(t, UpTo(batch, n)) && NoneCloses(t, batch, n, c)
    ensures AllSettled(ApplyAll(t, UpTo(batch, n)), ChunkOf(batch, c))
  {
    forall i | 0 <= i < |ChunkOf(batch, c)| ensures Settled(ApplyAll(t, UpTo(batch, n)), ChunkOf(batch, c)[i]) {
      SettledWhereNoneCloses(t, batch, n, c, i);
    }
  }

  lemma SettledWhereNoneCloses(t: Tables, batch: seq<Write>, n: nat, c: nat, i: nat)
    requires c < n && !Throws(t, UpTo(batch, n)) && NoneCloses(t, batch, n, c) && i < |ChunkOf(batch, c)|
    ensures Settled(ApplyAll(t, UpTo(batch, n)), ChunkOf(batch, c)[i])
  {
    var at, to := Start(c, |batch|) + i, Start(n, |batch|);
    InItsChunk(batch, c, i);
    assert at < Start(c + 1, |batch|) <= to;
    SettledIff(t, batch, to, at);
  }

  lemma InItsChunk(batch: seq<Write>, c: nat, i: nat)
    requires i < |ChunkOf(batch, c)|
    ensures ChunkOf(batch, c)[i] == batch[Start(c, |batch|) + i] && Start(c, |batch|) + i < Start(c + 1, |batch|)
  {
  }

  /** Past the last chunk there is nothing left to close anything. */
  lemma NoneClosesAnywhere(t: Tables, batch: seq<Write>, n: nat, c: nat)
    requires NoneClosesOnceRefused(t, batch) && c < n
    ensures NoneCloses(t, batch, n, c)
  {
    var m := Min(n, Chunks(|batch|));
    assert Start(m, |batch|) == Start(n, |batch|) && UpTo(batch, m) == UpTo(batch, n);
    if c < m {
      assert NoneCloses(t, batch, m, c);
    }
  }

  /** Retry convergence: however often an upload dies, and after whichever chunks,
      its tables are those of one uninterrupted attempt as far as the furthest
      got, and it fails only where that one would; if and only if at no chunk end
      a report refused before would close the row its id has by then. That can be
      read off the batch and the rows stored under its ids. */
  lemma RetriesConvergeIff(t: Tables, batch: seq<Write>)
    ensures NoneClosesOnceRefused(t, batch) <==> forall died: seq<nat> :: Converges(Chunked(batch), t, died)
  {
    AttemptsConvergeIff(Chunked(batch), t);
    if NoneClosesOnceRefused(t, batch) {
      forall n: nat, c: nat ensures AgainIsNoOp(Chunked(batch), t, n, c) {
        if c < n {
          NoneClosesAnywhere(t, batch, n, c);
          AgainIsNoOpIff(t, batch, n, c);
        }
      }
    }
    if forall n: nat, c: nat :: AgainIsNoOp(Chunked(batch), t, n, c) {
      forall n, c | 0 <= c < n <= Chunks(|batch|) ensures NoneCloses(t, batch, n, c) {
        assert AgainIsNoOp(Chunked(batch), t, n, c);
        AgainIsNoOpIff(t, batch, n, c);
      }
    }
  }

  /** A batch with a refused report gets no receipt, so the agent sends all of it
      again. Exactly when that changes a table or fails: some refused report is
      now the closing report of the row stored under its id. */
  lemma FullResendConvergesIff(t: Tables, batch: seq<Write>)
    requires !Throws(t, batch)
    ensures var end, n := ApplyAll(t, batch), Chunks(|batch|);
            After(Chunked(batch), end, n) == Reach(end, false) <==>
            forall i :: 0 <= i < |batch| ==> !ClosesOnceRefused(t, batch, |batch|, i)
  {
    var end, n := ApplyAll(t, batch), Chunks(|batch|);
    assert UpTo(batch, n) == batch && batch[..|batch|] == batch;
    UnfailedIff(end, batch, n);
    SentChangesNothingIff(end, batch);
    forall i | 0 <= i < |batch| ensures Settled(end, batch[i]) <==> !ClosesOnceRefused(t, batch, |batch|, i) {
      SettledIff(t, batch, |batch|, i);
    }
  }

  /** With only acceptable reports, as the upload route lets through, retries
      always converge, no attempt fails and no report is ever refused. */
  lemma AcceptableUploadsConverge(t: Tables, batch: seq<Write>, died: seq<nat>)
    requires RowsStorable(t) && forall i :: 0 <= i < |batch| ==> PassesChecks(batch[i])
    ensures Converges(Chunked(batch), t, died) && !Attempts(Chunked(batch), t, died).failed
    ensures forall i :: 0 <= i < |batch| ==> Handled(ApplyAll(t, batch[..i]), batch[i])
  {
    assert NoneClosesOnceRefused(t, batch);
    RetriesConvergeIff(t, batch);
    assert Converges(Chunked(batch), t, died);
    forall i | 0 <= i < |batch| ensures Handled(ApplyAll(t, batch[..i]), batch[i]) {
      RowsStayStorable(t, batch[..i]);
      AcceptableIsHandled(ApplyAll(t, batch[..i]), batch[i]);
    }
    if died != [] {
      UnfailedIff(t, batch, died[|died| - 1]);
      AcceptableNeverThrows(t, UpTo(batch, died[|died| - 1]));
    }
  }

  lemma AcceptableIsHandled(t: Tables, w: Write)
    requires RowsStorable(t) && PassesChecks(w)
    ensures Handled(t, w)
  {
    if KeyOf(w) in t.observations {
      assert IsStorable(t.observations[KeyOf(w)]);
    }
  }

  lemma {:induction false} AcceptableNeverThrows(t: Tables, ws: seq<Write>)
    requires RowsStorable(t) && forall i :: 0 <= i < |ws| ==> PassesChecks(ws[i])
    ensures !Throws(t, ws)
  {
    if ws != [] {
      var last := |ws| - 1;
      AcceptableNeverThrows(t, ws[..last]);
      RowsStayStorable(t, ws[..last]);
      AcceptableIsHandled(ApplyAll(t, ws[..last]), ws[last]);
    }
  }

  // ---------------------------------------------------------------- witnesses

  const OPENING := Report("a", "tcp", "10.0.0.1", 4000, "192.0.2.1", 443, 7, "app", None,
                          1000, 2000, None, None, "etw", "exact", None)

  const NOTHING_STORED := Tables(map[], map[])

  /** For a caller that skips the envelope schema: a report from an unknown
      collector that carries counts, then a storable opening report of that id.
      Sent again, it writes the counts the first run refused. */
  const DIVERGENT := [Write(1, "b", OPENING.(collector := "future", bytesIn := Some("1"))), Write(1, "b", OPENING)]

  /** A report from a port that does not exist, then an opening report of that id
      without an endpoint. Sent again, it fails, and will each time. */
  const FAILING := [Write(1, "b", OPENING.(localPort := 70000)),
                    Write(1, "b", OPENING.(localPort := 0, localAddress := "0.0.0.0"))]

  lemma PairIsOneChunk(t: Tables, a: Write, b: Write)
    ensures var batch := [a, b]; var once := Apply(t, a);
            && ChunkOf(batch, 0) == batch && UpTo(batch, 1) == batch && Chunks(|batch|) == 1 && Start(1, |batch|) == 2
            && ApplyAll(t, batch) == Apply(once, b)
            && (Throws(t, batch) <==> VerdictOf(t, a) == Thrown || VerdictOf(once, b) == Thrown)
  {
    var batch := [a, b];
    assert batch[..1] == [a] && [a][..0] == [];
    assert ApplyAll(t, []) == t && ApplyAll(t, [a]) == Apply(t, a);
    assert !Throws(t, []);
  }

  lemma FirstSend(batch: seq<Write>)
    requires batch == DIVERGENT || batch == FAILING
    ensures !Throws(NOTHING_STORED, batch)
    ensures ApplyAll(NOTHING_STORED, batch).observations == map[ObsKey(1, "a") := NewRow(batch[1])]
    ensures ClosesOnceRefused(NOTHING_STORED, batch, 2, 0)
  {
    var t := NOTHING_STORED;
    PairIsOneChunk(t, batch[0], batch[1]);
    assert batch == [batch[0], batch[1]];
    assert VerdictOf(t, batch[0]) == Rejected && VerdictOf(t, batch[1]) == Accepted;
    assert batch[..0] == [] && batch[..2] == batch;
    RowsAreSeparate(t, batch, ObsKey(1, "a"));
  }

  lemma SecondSendWrites(once: Tables)
    requires once == ApplyAll(NOTHING_STORED, DIVERGENT)
    ensures !Throws(once, DIVERGENT) && !Settled(once, DIVERGENT[0])
  {
    FirstSend(DIVERGENT);
    PairIsOneChunk(once, DIVERGENT[0], DIVERGENT[1]);
    assert DIVERGENT == [DIVERGENT[0], DIVERGENT[1]];
    assert VerdictOf(once, DIVERGENT[0]) == Completed;
    assert VerdictOf(Apply(once, DIVERGENT[0]), DIVERGENT[1]) == Duplicate;
  }

  /** Sent twice, `DIVERGENT` leaves other tables than sent once. */
  lemma RefusedThenCompletesDiverges()
    ensures var once := ApplyAll(NOTHING_STORED, DIVERGENT);
            && Sent(NOTHING_STORED, DIVERGENT) == Some(once)
            && Sent(once, DIVERGENT) == Some(ApplyAll(once, DIVERGENT)) && ApplyAll(once, DIVERGENT) != once
            && !NoneClosesOnceRefused(NOTHING_STORED, DIVERGENT)
  {
    var once := ApplyAll(NOTHING_STORED, DIVERGENT);
    FirstSend(DIVERGENT);
    SecondSendWrites(once);
    SentChangesNothingIff(once, DIVERGENT);
    PairIsOneChunk(NOTHING_STORED, DIVERGENT[0], DIVERGENT[1]);
    assert DIVERGENT == [DIVERGENT[0], DIVERGENT[1]];
    assert !NoneCloses(NOTHING_STORED, DIVERGENT, 1, 0);
  }

  /** Stored once, `FAILING` fails when it is sent again, and changes nothing, so it fails every time. */
  lemma RefusedThenThrowsFails()
    ensures var once := ApplyAll(NOTHING_STORED, FAILING);
            && Sent(NOTHING_STORED, FAILING) == Some(once) && Sent(once, FAILING) == None
            && !NoneClosesOnceRefused(NOTHING_STORED, FAILING)
  {
    var once := ApplyAll(NOTHING_STORED, FAILING);
    FirstSend(FAILING);
    PairIsOneChunk(once, FAILING[0], FAILING[1]);
    assert FAILING == [FAILING[0], FAILING[1]];
    assert VerdictOf(once, FAILING[0]) == Thrown;
    assert !NoneCloses(NOTHING_STORED, FAILING, 1, 0);
  }
}
