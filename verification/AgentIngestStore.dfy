/**
 The store itself (src/agent-ingest-store.js): `storeBatch` writing one upload
 chunk by chunk, and `pruneObservations` deleting what is past retention in
 small, self-sizing transactions.
 */
module AgentIngestStore {
  import opened Common
  import opened Retries
  import opened AgentIngest
  import opened AgentRollup

  const PRUNE_BATCH_MIN := 50

  datatype Envelope = Envelope(batchId: string, observations: seq<Report>)

  datatype BatchKey = BatchKey(agentId: AgentId, batchId: string)

  /** A row of `agent_ingest_batches`; only a batch without a refusal has one. */
  datatype Receipt = Receipt(accepted: nat, duplicate: nat, receivedAt: int)

  /** A row of `connection_agent_observations`. */
  datatype Link = Link(connection: string, observation: ObsKey)

  // ------------------------------------------------------------ one upload

  datatype Tally = Tally(accepted: nat, duplicate: nat, completed: nat, rejected: nat, acceptedIds: seq<string>)

  const NOTHING_COUNTED := Tally(0, 0, 0, 0, [])

  function Counted(c: Tally, v: Verdict, id: string): Tally {
    match v
    case Accepted => c.(accepted := c.accepted + 1, acceptedIds := c.acceptedIds + [id])
    case Completed => c.(duplicate := c.duplicate + 1, completed := c.completed + 1)
    case Duplicate => c.(duplicate := c.duplicate + 1)
    case Rejected => c.(rejected := c.rejected + 1)
    case Thrown => c.(duplicate := c.duplicate + 1)
  }

  /** What happens to the tables while an upload is under way: a report is
      written, or a retention pass deletes rows. */
  datatype Act = Reported(w: Write) | Deleted(observations: set<ObsKey>, hours: set<HourKey>)

  /** An act in the order the tables meet them: of the upload looked at, or of
      another request that got its turn in between. */
  datatype Turn = Turn(act: Act, own: bool)

  function Done(t: Tables, act: Act): Tables {
    match act
    case Reported(w) => Apply(t, w)
    case Deleted(observations, hours) => Tables(t.observations - observations, t.hourly - hours)
  }

  function DoneAll(t: Tables, acts: seq<Act>): Tables {
    if acts == [] then t else Done(DoneAll(t, acts[..|acts| - 1]), acts[|acts| - 1])
  }

  function Reports(ws: seq<Write>): (acts: seq<Act>)
    ensures |acts| == |ws| && forall i :: 0 <= i < |ws| ==> acts[i] == Reported(ws[i])
  {
    seq(|ws|, i requires 0 <= i < |ws| => Reported(ws[i]))
  }

  function Marked(acts: seq<Act>, own: bool): (turns: seq<Turn>)
    ensures |turns| == |acts| && forall i :: 0 <= i < |acts| ==> turns[i] == Turn(acts[i], own)
  {
    seq(|acts|, i requires 0 <= i < |acts| => Turn(acts[i], own))
  }

  function TablesAfter(t: Tables, turns: seq<Turn>): Tables {
    if turns == [] then t else Done(TablesAfter(t, turns[..|turns| - 1]), turns[|turns| - 1].act)
  }

  predicate ReportedBy(turn: Turn, own: bool) {
    turn.act.Reported? && turn.own == own
  }

  /** The reports of one side, in their order. */
  function Side(turns: seq<Turn>, own: bool): seq<Write> {
    if turns == [] then []
    else
      var last := turns[|turns| - 1];
      Side(turns[..|turns| - 1], own) + if ReportedBy(last, own) then [last.act.w] else []
  }

  /** What one side counts. */
  function TallyOf(t: Tables, turns: seq<Turn>, own: bool): Tally {
    if turns == [] then NOTHING_COUNTED
    else
      var before, last := turns[..|turns| - 1], turns[|turns| - 1];
      if ReportedBy(last, own)
      then Counted(TallyOf(t, before, own), VerdictOf(TablesAfter(t, before), last.act.w), last.act.w.report.observationId)
      else TallyOf(t, before, own)
  }

  /** The rows a retention pass took, counted, and their keys. */
  function DeletedRows(t: Tables, turns: seq<Turn>): nat {
    if turns == [] then 0
    else
      var before, act := turns[..|turns| - 1], turns[|turns| - 1].act;
      DeletedRows(t, before)
      + if act.Deleted? then |act.observations * TablesAfter(t, before).observations.Keys| else 0
  }

  function Gone(turns: seq<Turn>): set<ObsKey> {
    if turns == [] then {}
    else
      var act := turns[|turns| - 1].act;
      Gone(turns[..|turns| - 1]) + if act.Deleted? then act.observations else {}
  }

  /** Where an upload stands after these turns. */
  ghost predicate Reached(t0: Tables, turns: seq<Turn>, t: Tables, c: Tally) {
    t == TablesAfter(t0, turns) && c == TallyOf(t0, turns, true)
  }

  /** Every report sent is counted once, as accepted, duplicate or rejected. */
  lemma {:induction false} TallyAddsUp(t: Tables, turns: seq<Turn>, own: bool)
    ensures var c := TallyOf(t, turns, own);
            && c.accepted + c.duplicate + c.rejected == |Side(turns, own)|
            && c.completed <= c.duplicate
            && c.accepted == |c.acceptedIds|
  {
    if turns != [] {
      TallyAddsUp(t, turns[..|turns| - 1], own);
    }
  }

  /** Each row the turns added was counted as accepted by exactly one side. */
  lemma {:induction false} RowsAreCountedOnce(t: Tables, turns: seq<Turn>)
    ensures |TablesAfter(t, turns).observations.Keys| + DeletedRows(t, turns)
            == |t.observations.Keys| + TallyOf(t, turns, true).accepted + TallyOf(t, turns, false).accepted
  {
    if turns != [] {
      var last := |turns| - 1;
      RowsAreCountedOnce(t, turns[..last]);
      OneActMore(TablesAfter(t, turns[..last]), turns[last].act);
    }
  }

  lemma OneActMore(u: Tables, act: Act)
    ensures var before, after := |u.observations.Keys|, |Done(u, act).observations.Keys|;
            match act
            case Reported(w) => after == before + if VerdictOf(u, w) == Accepted then 1 else 0
            case Deleted(observations, _) => after + |observations * u.observations.Keys| == before
  {
    match act
    case Reported(w) => OneReportMore(u, w);
    case Deleted(observations, hours) => OneDeleteMore(u, observations, hours);
  }

  lemma OneReportMore(u: Tables, w: Write)
    ensures |Apply(u, w).observations.Keys| == |u.observations.Keys| + if VerdictOf(u, w) == Accepted then 1 else 0
  {
    KeysAfter(u, w);
  }

  lemma OneDeleteMore(u: Tables, observations: set<ObsKey>, hours: set<HourKey>)
    ensures |Done(u, Deleted(observations, hours)).observations.Keys| + |observations * u.observations.Keys|
            == |u.observations.Keys|
  {
    var keys := u.observations.Keys;
    assert Done(u, Deleted(observations, hours)).observations.Keys == keys - observations * keys;
  }

  /** Nothing refused means every report sent has its row, or had it until a
      retention pass took it, whatever else was stored meanwhile. */
  lemma {:induction false} NoRefusalStoresAll(t: Tables, turns: seq<Turn>)
    requires TallyOf(t, turns, true).rejected == 0
    ensures forall w <- Side(turns, true) :: KeyOf(w) in TablesAfter(t, turns).observations || KeyOf(w) in Gone(turns)
  {
    if turns != [] {
      var last := |turns| - 1;
      NoRefusalStoresAll(t, turns[..last]);
      if turns[last].act.Reported? {
        ApplyGrows(TablesAfter(t, turns[..last]), turns[last].act.w);
      }
    }
  }

  /** An id counted as accepted was new to its agent and is stored now, if no
      retention pass had to do with it; an id that became stored was counted, or
      another upload stored it. */
  lemma {:induction false} AcceptedIdsAreNew(t: Tables, turns: seq<Turn>, agentId: AgentId)
    requires forall w <- Side(turns, true) :: w.agentId == agentId
    ensures forall id <- TallyOf(t, turns, true).acceptedIds ::
              ObsKey(agentId, id) in Gone(turns)
              || (ObsKey(agentId, id) in TablesAfter(t, turns).observations && ObsKey(agentId, id) !in t.observations)
    ensures forall id :: ObsKey(agentId, id) in TablesAfter(t, turns).observations && ObsKey(agentId, id) !in t.observations ==>
              id in TallyOf(t, turns, true).acceptedIds
              || exists w <- Side(turns, false) :: KeyOf(w) == ObsKey(agentId, id)
  {
    if turns != [] {
      var last, act := |turns| - 1, turns[|turns| - 1].act;
      assert ReportedBy(turns[last], true) ==> act.w in Side(turns, true);
      assert ReportedBy(turns[last], false) ==> act.w in Side(turns, false);
      AcceptedIdsAreNew(t, turns[..last], agentId);
      RowsStayOrGo(t, turns[..last]);
      if act.Reported? {
        ApplyGrows(TablesAfter(t, turns[..last]), act.w);
      }
    }
  }

  lemma {:induction false} RowsStayOrGo(t: Tables, turns: seq<Turn>)
    ensures forall k <- t.observations :: k in TablesAfter(t, turns).observations || k in Gone(turns)
  {
    if turns != [] {
      var last := |turns| - 1;
      RowsStayOrGo(t, turns[..last]);
      if turns[last].act.Reported? {
        ApplyGrows(TablesAfter(t, turns[..last]), turns[last].act.w);
      }
    }
  }

  /** What one report did to the row of its id. */
  datatype Effect = Opened | Filled | Untouched | Absent

  function EffectOn(k: ObsKey, before: Tables, after: Tables): Effect {
    if k !in before.observations then if k in after.observations then Opened else Absent
    else if k in after.observations && after.observations[k] != before.observations[k] then Filled
    else Untouched
  }

  /** How many of one side's reports had this effect. */
  function Effects(t: Tables, turns: seq<Turn>, own: bool, effect: Effect): nat {
    if turns == [] then 0
    else
      var before, last := turns[..|turns| - 1], turns[|turns| - 1];
      Effects(t, before, own, effect)
      + if ReportedBy(last, own) && EffectOn(KeyOf(last.act.w), TablesAfter(t, before), TablesAfter(t, turns)) == effect
        then 1 else 0
  }

  /** The counts are the numbers of reports that opened a row, filled one in, met
      one that stays as it is, and got none. */
  lemma {:induction false} TallyIsEffects(t: Tables, turns: seq<Turn>, own: bool)
    ensures var c := TallyOf(t, turns, own);
            && c.accepted == Effects(t, turns, own, Opened)
            && c.completed == Effects(t, turns, own, Filled)
            && c.duplicate == Effects(t, turns, own, Filled) + Effects(t, turns, own, Untouched)
            && c.rejected == Effects(t, turns, own, Absent)
  {
    if turns != [] {
      var before, last := turns[..|turns| - 1], turns[|turns| - 1];
      TallyIsEffects(t, before, own);
      if last.act.Reported? {
        EffectIsVerdict(TablesAfter(t, before), last.act.w);
      }
    }
  }

  lemma EffectIsVerdict(t: Tables, w: Write)
    ensures EffectOn(KeyOf(w), t, Apply(t, w))
            == match VerdictOf(t, w)
               case Accepted => Opened
               case Completed => Filled
               case Rejected => Absent
               case _ => Untouched
  {
    if VerdictOf(t, w) == Completed {
      CompletingGrows(t.observations[KeyOf(w)], w.report);
    }
  }

  /** The row of an accepted id says what a report of the upload says, or retention took it. */
  ghost predicate SaysWhatWasSent(t: Tables, ws: seq<Write>, id: string, k: ObsKey) {
    exists w <- ws :: w.report.observationId == id && ObsKey(w.agentId, id) == k
                      && k in t.observations && Says(t.observations[k], w.batchId, w.report)
  }

  lemma {:induction false} AcceptedRowsSayWhatWasSent(t: Tables, turns: seq<Turn>, agentId: AgentId, id: string)
    requires forall w <- Side(turns, true) :: w.agentId == agentId
    requires id in TallyOf(t, turns, true).acceptedIds
    ensures ObsKey(agentId, id) in Gone(turns)
            || SaysWhatWasSent(TablesAfter(t, turns), Side(turns, true), id, ObsKey(agentId, id))
  {
    var before, last := turns[..|turns| - 1], turns[|turns| - 1];
    var k, u, now := ObsKey(agentId, id), TablesAfter(t, before), TablesAfter(t, turns);
    assert ReportedBy(last, true) ==> last.act.w in Side(turns, true);
    if id in TallyOf(t, before, true).acceptedIds {
      AcceptedRowsSayWhatWasSent(t, before, agentId, id);
      if k !in Gone(turns) {
        var w :| w in Side(before, true) && w.report.observationId == id && ObsKey(w.agentId, id) == k
                 && k in u.observations && Says(u.observations[k], w.batchId, w.report);
        if last.act.Reported? { ApplyGrows(u, last.act.w); }
        assert k in now.observations && Grows(u.observations[k], now.observations[k]);
        SaysStays(u.observations[k], now.observations[k], w.batchId, w.report);
        assert w in Side(turns, true);
      }
    } else {
      var w := last.act.w;
      AcceptedRowSaysItsReport(u, w.agentId, w.batchId, w.report);
      assert w in Side(turns, true) && Says(now.observations[k], w.batchId, w.report);
    }
  }

  /** The counts a closing report brought stay in its row, until retention takes it. */
  lemma {:induction false} ClosedRowsKeepTheirCounts(t: Tables, turns: seq<Turn>, i: nat)
    requires i < |turns| && turns[i].act.Reported? && VerdictOf(TablesAfter(t, turns[..i]), turns[i].act.w) == Completed
    ensures var w, now := turns[i].act.w, TablesAfter(t, turns);
            KeyOf(w) in Gone(turns)
            || (KeyOf(w) in now.observations
                && now.observations[KeyOf(w)].lastObservedAt >= w.report.lastObservedAt
                && (w.report.bytesIn.Some? || w.report.bytesOut.Some? ==>
                      && now.observations[KeyOf(w)].bytesIn == w.report.bytesIn
                      && now.observations[KeyOf(w)].bytesOut == w.report.bytesOut))
    decreases |turns| - i
  {
    var last := |turns| - 1;
    var w, u := turns[i].act.w, TablesAfter(t, turns[..last]);
    if i == last {
      CompletedRowSaysItsReport(u, w.agentId, w.batchId, w.report);
    } else {
      assert turns[..last][..i] == turns[..i];
      ClosedRowsKeepTheirCounts(t, turns[..last], i);
      if turns[last].act.Reported? { ApplyGrows(u, turns[last].act.w); }
    }
  }

  /** What other requests and retention passes do while an upload gives up its turn. */
  datatype Others = Others(acts: seq<Act>, receipts: map<BatchKey, Receipt>, dropped: set<BatchKey>, unlinked: set<Link>)

  const NOTHING := Others([], map[], {}, {})

  /** What happens right before chunk `n`; the first one starts at once. */
  function Meanwhile(between: seq<Others>, n: nat): Others {
    if 0 < n <= |between| then between[n - 1] else NOTHING
  }

  /** The turns of an upload's first chunks and of everything between them. */
  function TurnsOf(ws: seq<Write>, between: seq<Others>, chunks: nat): seq<Turn>
    decreases chunks, 0
  {
    if chunks == 0 then []
    else
      var n := chunks - 1;
      TurnsBefore(ws, between, n) + Marked(Reports(ChunkOf(ws, n)), true)
  }

  /** And of what happens right before chunk `n`. */
  function TurnsBefore(ws: seq<Write>, between: seq<Others>, n: nat): seq<Turn>
    decreases n, 1
  {
    TurnsOf(ws, between, n) + Marked(Meanwhile(between, n).acts, false)
  }

  /** A long upload gives up its turn before the receipt too. */
  function MeanwhileAtTheEnd(between: seq<Others>, chunks: nat): Others {
    if chunks > 1 then Meanwhile(between, chunks) else NOTHING
  }

  /** The turns of a whole upload. */
  function AllTurns(ws: seq<Write>, between: seq<Others>): seq<Turn> {
    var n := Chunks(|ws|);
    TurnsOf(ws, between, n) + Marked(MeanwhileAtTheEnd(between, n).acts, false)
  }

  function ReceiptsAfter(receipts: map<BatchKey, Receipt>, others: Others): map<BatchKey, Receipt> {
    (receipts - others.dropped) + others.receipts
  }

  /** The receipts there are once `chunks` chunks are written. */
  function ReceiptsOf(receipts: map<BatchKey, Receipt>, between: seq<Others>, chunks: nat): map<BatchKey, Receipt> {
    if chunks == 0 then receipts
    else ReceiptsAfter(ReceiptsOf(receipts, between, chunks - 1), Meanwhile(between, chunks - 1))
  }

  lemma {:induction false} MarkedSide(turns: seq<Turn>, ws: seq<Write>, own: bool, side: bool)
    ensures Side(turns + Marked(Reports(ws), own), side) == Side(turns, side) + if own == side then ws else []
  {
    var more := turns + Marked(Reports(ws), own);
    if ws == [] {
      assert more == turns;
    } else {
      var last := |ws| - 1;
      assert more[..|more| - 1] == turns + Marked(Reports(ws[..last]), own);
      MarkedSide(turns, ws[..last], own, side);
      assert ws == ws[..last] + [ws[last]];
    }
  }

  lemma {:induction false} OthersSide(turns: seq<Turn>, acts: seq<Act>)
    ensures Side(turns + Marked(acts, false), true) == Side(turns, true)
  {
    var more := turns + Marked(acts, false);
    if acts == [] {
      assert more == turns;
    } else {
      assert more[..|more| - 1] == turns + Marked(acts[..|acts| - 1], false);
      OthersSide(turns, acts[..|acts| - 1]);
    }
  }

  /** Among the turns the upload's own reports keep their order, none missing or twice. */
  lemma {:induction false} OwnTurnsAreTheUpload(ws: seq<Write>, between: seq<Others>, chunks: nat)
    ensures Side(TurnsOf(ws, between, chunks), true) == UpTo(ws, chunks)
  {
    if chunks > 0 {
      var n := chunks - 1;
      OwnTurnsAreTheUpload(ws, between, n);
      OthersSide(TurnsOf(ws, between, n), Meanwhile(between, n).acts);
      MarkedSide(TurnsBefore(ws, between, n), ChunkOf(ws, n), true, true);
      OneChunkMore(ws, n);
    }
  }

  lemma AllTurnsAreTheUpload(ws: seq<Write>, between: seq<Others>)
    ensures Side(AllTurns(ws, between), true) == ws
  {
    var n := Chunks(|ws|);
    OwnTurnsAreTheUpload(ws, between, n);
    OthersSide(TurnsOf(ws, between, n), MeanwhileAtTheEnd(between, n).acts);
    assert Start(n, |ws|) == |ws| && ws[..|ws|] == ws;
  }

  /** With only acceptable reports nothing is refused, whatever happens between
      the chunks, so the upload gets its receipt. */
  lemma AcceptableUploadIsNeverRefused(t: Tables, ws: seq<Write>, between: seq<Others>)
    requires forall w <- ws :: PassesChecks(w)
    ensures TallyOf(t, AllTurns(ws, between), true).rejected == 0
  {
    AllTurnsAreTheUpload(ws, between);
    AcceptableIsNeverRefused(t, AllTurns(ws, between));
  }

  lemma {:induction false} AcceptableIsNeverRefused(t: Tables, turns: seq<Turn>)
    requires forall w <- Side(turns, true) :: PassesChecks(w)
    ensures TallyOf(t, turns, true).rejected == 0
  {
    if turns != [] {
      var last := turns[|turns| - 1];
      assert ReportedBy(last, true) ==> last.act.w in Side(turns, true);
      AcceptableIsNeverRefused(t, turns[..|turns| - 1]);
    }
  }

  // -------------------------------------------------- one upload, step by step

  /** The tables, and what an upload has counted so far. */
  datatype Progress = Progress(tables: Tables, counts: Tally)

  function Wrote(p: Progress, w: Write): Progress {
    Progress(Apply(p.tables, w), Counted(p.counts, VerdictOf(p.tables, w), w.report.observationId))
  }

  function WroteAll(p: Progress, ws: seq<Write>): Progress {
    if ws == [] then p else Wrote(WroteAll(p, ws[..|ws| - 1]), ws[|ws| - 1])
  }

  function Meantime(p: Progress, others: Others): Progress {
    p.(tables := DoneAll(p.tables, others.acts))
  }

  /** One chunk after others had their turn; None when it throws and is rolled back. */
  function SentMeanwhile(p: Progress, others: Others, chunk: seq<Write>): Option<Progress> {
    var now := Meantime(p, others);
    if Throws(now.tables, chunk) then None else Some(WroteAll(now, chunk))
  }

  function Disturbed(ws: seq<Write>, between: seq<Others>): Sending<Progress> {
    (p: Progress, n: nat) => SentMeanwhile(p, Meanwhile(between, n), ChunkOf(ws, n))
  }

  const NOBODY: seq<Others> := []

  lemma {:induction false} WroteAllTables(p: Progress, ws: seq<Write>)
    ensures WroteAll(p, ws).tables == ApplyAll(p.tables, ws)
  {
    if ws != [] {
      WroteAllTables(p, ws[..|ws| - 1]);
    }
  }

  function TablesOf(p: Progress): Tables {
    p.tables
  }

  lemma UndisturbedChunk(p: Progress, chunk: seq<Write>)
    ensures Sent(p.tables, chunk) == Mapped(SentMeanwhile(p, NOTHING, chunk), TablesOf)
  {
    assert DoneAll(p.tables, []) == p.tables;
    WroteAllTables(p, chunk);
  }

  /** Undisturbed, an upload is an attempt: what holds of attempts holds of it. */
  lemma UndisturbedIsAnAttempt(p: Progress, ws: seq<Write>, n: nat)
    ensures var upload, attempt := After(Disturbed(ws, NOBODY), p, n), After(Chunked(ws), p.tables, n);
            upload.failed == attempt.failed && upload.state.tables == attempt.state
  {
    forall q: Progress, k: nat ensures Chunked(ws)(TablesOf(q), k) == Mapped(Disturbed(ws, NOBODY)(q, k), TablesOf) {
      assert Meanwhile(NOBODY, k) == NOTHING;
      UndisturbedChunk(q, ChunkOf(ws, k));
    }
    AttemptsAgree(Disturbed(ws, NOBODY), p, Chunked(ws), TablesOf, n);
  }

  function ProgressOf(t: Tables, turns: seq<Turn>): Progress {
    Progress(TablesAfter(t, turns), TallyOf(t, turns, true))
  }

  lemma OneTurnMore(t: Tables, turns: seq<Turn>, more: seq<Turn>, turn: Turn)
    requires more == turns + [turn]
    ensures ProgressOf(t, more)
            == if ReportedBy(turn, true) then Wrote(ProgressOf(t, turns), turn.act.w)
               else ProgressOf(t, turns).(tables := Done(TablesAfter(t, turns), turn.act))
  {
    assert more[..|more| - 1] == turns;
  }

  lemma MarkedOneMore(turns: seq<Turn>, acts: seq<Act>, own: bool)
    requires acts != []
    ensures turns + Marked(acts, own) == turns + Marked(acts[..|acts| - 1], own) + [Turn(acts[|acts| - 1], own)]
  {
  }

  lemma MarkedNone(turns: seq<Turn>, own: bool)
    ensures turns + Marked([], own) == turns
  {
  }

  lemma {:induction false} OwnReportsTurn(t: Tables, turns: seq<Turn>, ws: seq<Write>)
    ensures WroteAll(ProgressOf(t, turns), ws) == ProgressOf(t, turns + Marked(Reports(ws), true))
  {
    if ws == [] {
      assert Reports(ws) == [];
      MarkedNone(turns, true);
    } else {
      var before := ws[..|ws| - 1];
      assert Reports(ws)[..|ws| - 1] == Reports(before);
      MarkedOneMore(turns, Reports(ws), true);
      OwnReportsTurn(t, turns, before);
      OneTurnMore(t, turns + Marked(Reports(before), true), turns + Marked(Reports(ws), true),
                  Turn(Reported(ws[|ws| - 1]), true));
    }
  }

  /** The turns of others leave this upload's counts alone. */
  lemma {:induction false} OthersTurn(t: Tables, turns: seq<Turn>, acts: seq<Act>)
    ensures ProgressOf(t, turns).(tables := DoneAll(TablesAfter(t, turns), acts))
            == ProgressOf(t, turns + Marked(acts, false))
  {
    if acts == [] {
      MarkedNone(turns, false);
    } else {
      var before := acts[..|acts| - 1];
      MarkedOneMore(turns, acts, false);
      OthersTurn(t, turns, before);
      OneTurnMore(t, turns + Marked(before, false), turns + Marked(acts, false), Turn(acts[|acts| - 1], false));
    }
  }

  lemma ChunkIsItsTurns(t: Tables, ws: seq<Write>, between: seq<Others>, n: nat)
    ensures var sent := SentMeanwhile(ProgressOf(t, TurnsOf(ws, between, n)), Meanwhile(between, n), ChunkOf(ws, n));
            sent.Some? ==> sent.value == ProgressOf(t, TurnsOf(ws, between, n + 1))
  {
    OthersTurn(t, TurnsOf(ws, between, n), Meanwhile(between, n).acts);
    OwnReportsTurn(t, TurnsBefore(ws, between, n), ChunkOf(ws, n));
  }

  /** What an upload leaves and counts is what its turns and those between them do. */
  lemma UploadIsItsTurns(t: Tables, ws: seq<Write>, between: seq<Others>, n: nat)
    requires !After(Disturbed(ws, between), Progress(t, NOTHING_COUNTED), n).failed
    ensures After(Disturbed(ws, between), Progress(t, NOTHING_COUNTED), n).state == ProgressOf(t, TurnsOf(ws, between, n))
  {
    var keeps := (p: Progress, k: nat) => p == ProgressOf(t, TurnsOf(ws, between, k));
    forall p: Progress, k: nat | keeps(p, k) && Disturbed(ws, between)(p, k).Some?
      ensures keeps(Disturbed(ws, between)(p, k).value, k + 1)
    {
      ChunkIsItsTurns(t, ws, between, k);
    }
    assert TurnsOf(ws, between, 0) == [];
    assert ProgressOf(t, TurnsOf(ws, between, 0)) == Progress(t, NOTHING_COUNTED);
    AttemptsKeep(Disturbed(ws, between), Progress(t, NOTHING_COUNTED), keeps, n);
  }

  lemma WholeUploadIsItsTurns(t: Tables, ws: seq<Write>, between: seq<Others>)
    requires !After(Disturbed(ws, between), Progress(t, NOTHING_COUNTED), Chunks(|ws|)).failed
    ensures Meantime(After(Disturbed(ws, between), Progress(t, NOTHING_COUNTED), Chunks(|ws|)).state,
                     MeanwhileAtTheEnd(between, Chunks(|ws|)))
            == ProgressOf(t, AllTurns(ws, between))
  {
    var n := Chunks(|ws|);
    UploadIsItsTurns(t, ws, between, n);
    OthersTurn(t, TurnsOf(ws, between, n), MeanwhileAtTheEnd(between, n).acts);
  }

  /** The row of every id a finished upload accepted says what a report of it said, or retention took it. */
  lemma UploadSaysWhatWasSent(t: Tables, ws: seq<Write>, between: seq<Others>, agentId: AgentId, p: Progress)
    requires !After(Disturbed(ws, between), Progress(t, NOTHING_COUNTED), Chunks(|ws|)).failed
    requires p == Meantime(After(Disturbed(ws, between), Progress(t, NOTHING_COUNTED), Chunks(|ws|)).state,
                           MeanwhileAtTheEnd(between, Chunks(|ws|)))
    requires forall w <- ws :: w.agentId == agentId
    ensures forall id <- p.counts.acceptedIds ::
              ObsKey(agentId, id) in Gone(AllTurns(ws, between)) || SaysWhatWasSent(p.tables, ws, id, ObsKey(agentId, id))
  {
    WholeUploadIsItsTurns(t, ws, between);
    AllTurnsAreTheUpload(ws, between);
    forall id <- p.counts.acceptedIds
      ensures ObsKey(agentId, id) in Gone(AllTurns(ws, between)) || SaysWhatWasSent(p.tables, ws, id, ObsKey(agentId, id))
    {
      AcceptedRowsSayWhatWasSent(t, AllTurns(ws, between), agentId, id);
    }
  }

  function Sum(c: Tally): nat {
    c.accepted + c.duplicate + c.rejected
  }

  /** Whatever happens between the chunks, each report written so far is counted once. */
  lemma UploadCounts(t: Tables, ws: seq<Write>, between: seq<Others>, n: nat)
    requires !After(Disturbed(ws, between), Progress(t, NOTHING_COUNTED), n).failed
    ensures Sum(After(Disturbed(ws, between), Progress(t, NOTHING_COUNTED), n).state.counts) == Start(n, |ws|)
  {
    UploadIsItsTurns(t, ws, between, n);
    TallyAddsUp(t, TurnsOf(ws, between, n), true);
    OwnTurnsAreTheUpload(ws, between, n);
  }

  /** The reports `sent` are in, and none of them threw. */
  ghost predicate AreIn(start: Progress, sent: seq<Write>, now: Tables, counts: Tally) {
    Progress(now, counts) == WroteAll(start, sent) && !Throws(start.tables, sent)
  }

  lemma WroteOneMore(p: Progress, sent: seq<Write>, more: seq<Write>, w: Write)
    requires more == sent + [w] && !Throws(p.tables, sent)
    ensures WroteAll(p, more) == Wrote(WroteAll(p, sent), w)
    ensures Throws(p.tables, more) <==> VerdictOf(WroteAll(p, sent).tables, w) == Thrown
  {
    assert more[..|more| - 1] == sent;
    WroteAllTables(p, sent);
  }

  lemma PrefixThrows(t: Tables, sent: seq<Write>, all: seq<Write>)
    requires sent <= all && Throws(t, sent)
    ensures Throws(t, all)
  {
    assert all == sent + all[|sent|..];
    ThrowsConcat(t, sent, all[|sent|..]);
  }

  ghost function OneMore(all: seq<Write>, n: nat): (more: seq<Write>)
    requires n < |all|
    ensures more == all[..n] + [all[n]] && more <= all && more == all[..n + 1]
  {
    all[..n + 1]
  }

  function WritesOf(agentId: AgentId, envelope: Envelope): (ws: seq<Write>)
    ensures |ws| == |envelope.observations|
    ensures forall i :: 0 <= i < |ws| ==> ws[i] == Write(agentId, envelope.batchId, envelope.observations[i])
  {
    seq(|envelope.observations|, i requires 0 <= i < |envelope.observations| =>
      Write(agentId, envelope.batchId, envelope.observations[i]))
  }

  /** `Conflict`: another copy of the batch finished first, and the receipt's primary key is taken. */
  datatype StoreResult =
    | Replayed(receipt: Receipt)
    | Stored(counts: Tally)
    | Conflict(counts: Tally)
    | Failed(chunk: nat)               // rolled back; the chunks before it stay
    | Died

  /** How many chunks an upload writes if none fails. */
  function WrittenAtMost(length: nat, diesAfter: Option<nat>): nat {
    if diesAfter.Some? then Min(diesAfter.value, Chunks(length)) else Chunks(length)
  }

  /** Where an upload stands: all of its first chunks are in, or chunk `chunks`
      failed and only what others did before it is in besides. */
  ghost predicate Stands(was: Tables, receipts0: map<BatchKey, Receipt>, agentId: AgentId, envelope: Envelope,
                         between: seq<Others>, chunks: nat, failed: bool,
                         now: Tables, receipts: map<BatchKey, Receipt>, counts: Tally)
  {
    var send, start := Disturbed(WritesOf(agentId, envelope), between), Progress(was, NOTHING_COUNTED);
    var reach := After(send, start, chunks);
    && !reach.failed
    && (if failed then
          && send(reach.state, chunks).None?
          && now == DoneAll(reach.state.tables, Meanwhile(between, chunks).acts)
          && receipts == ReceiptsOf(receipts0, between, chunks + 1)
        else
          && reach.state == Progress(now, counts)
          && receipts == ReceiptsOf(receipts0, between, chunks))
  }

  lemma SentNext(ws: seq<Write>, between: seq<Others>, start: Progress, now: Progress, n: nat)
    requires After(Disturbed(ws, between), start, n) == Reach(now, false)
    ensures var sent := SentMeanwhile(now, Meanwhile(between, n), ChunkOf(ws, n));
            && Disturbed(ws, between)(now, n) == sent
            && After(Disturbed(ws, between), start, n + 1)
               == if sent.None? then Reach(now, true) else Reach(sent.value, false)
  {
  }

  /** What an upload that is no replay comes to. */
  ghost predicate IsOutcome(was: Tables, receipts0: map<BatchKey, Receipt>, agentId: AgentId, envelope: Envelope,
                            receivedAt: int, between: seq<Others>, diesAfter: Option<nat>, result: StoreResult,
                            now: Tables, receipts: map<BatchKey, Receipt>)
  {
    var b, chunks := BatchKey(agentId, envelope.batchId), Chunks(|envelope.observations|);
    var last, ends := MeanwhileAtTheEnd(between, chunks), WrittenAtMost(|envelope.observations|, diesAfter);
    var later := ReceiptsAfter(ReceiptsOf(receipts0, between, chunks), last);
    var all := After(Disturbed(WritesOf(agentId, envelope), between), Progress(was, NOTHING_COUNTED), chunks).state;
    match result
    case Replayed(_) => false
    case Failed(n) =>
      n < ends && Stands(was, receipts0, agentId, envelope, between, n, true, now, receipts, NOTHING_COUNTED)
    case Died =>
      && diesAfter == Some(ends)
      && exists counts :: Stands(was, receipts0, agentId, envelope, between, ends, false, now, receipts, counts)
    case Stored(counts) =>
      && diesAfter != Some(ends) && Progress(now, counts) == Meantime(all, last)
      && (if counts.rejected == 0
          then b !in later && receipts == later[b := Receipt(counts.accepted, counts.duplicate, receivedAt)]
          else receipts == later)
    case Conflict(counts) =>
      && diesAfter != Some(ends) && Progress(now, counts) == Meantime(all, last)
      && counts.rejected == 0 && b in later && receipts == later
  }

  // ------------------------------------------------------------ retention

  /** Slower than the target halves the size, four times as fast doubles it, within the two limits. */
  function AdaptPruneBatch(size: nat, elapsedMs: int, targetMs: nat, maxBatch: nat): (r: nat)
    ensures PRUNE_BATCH_MIN <= size <= maxBatch ==> PRUNE_BATCH_MIN <= r <= maxBatch
    ensures size >= 1 && maxBatch >= 1 ==> r >= 1
    ensures elapsedMs > targetMs ==> if size < 2 * PRUNE_BATCH_MIN then r == PRUNE_BATCH_MIN else 2 * r <= size <= 2 * r + 1
    ensures elapsedMs * 4 < targetMs ==> if 2 * size <= maxBatch then r == size + size else r == maxBatch
    ensures targetMs <= elapsedMs * 4 && elapsedMs <= targetMs ==> r == size
  {
    if elapsedMs > targetMs then Max(PRUNE_BATCH_MIN, size / 2)
    else if elapsedMs * 4 < targetMs then Min(maxBatch, size * 2)
    else size
  }

  /** What a pass does in time: a transaction, with the rows it was allowed and
      took, or a look at the clock, with the time since the pass started. */
  datatype Step = Batch(limit: nat, rows: nat, elapsedMs: int) | Piece(limit: nat, rows: nat) | Check(elapsedMs: int)

  predicate IsLate(step: Step, budgetMs: int) {
    step.Check? && step.elapsedMs >= budgetMs
  }

  predicate IsWhole(step: Step) {
    !step.Check? && step.rows == step.limit
  }

  /** No transaction takes more rows than it may, a full one is followed by a look
      at the clock, and every look comes after a transaction. */
  predicate IsPaced(steps: seq<Step>) {
    && (forall step <- steps :: !step.Check? ==> step.rows <= step.limit)
    && (forall i | 1 <= i < |steps| :: IsWhole(steps[i - 1]) ==> steps[i].Check?)
    && (forall i | 1 <= i < |steps| :: steps[i].Check? ==> !steps[i - 1].Check?)
    && (steps != [] ==> !steps[0].Check? && !IsWhole(steps[|steps| - 1]))
  }

  /** The steps are paced, and the pass ends with `more` exactly when it finds it is late. */
  predicate IsTimed(steps: seq<Step>, budgetMs: int, more: bool) {
    && IsPaced(steps)
    && (more ==> steps != [])
    && forall i | 0 <= i < |steps| :: IsLate(steps[i], budgetMs) <==> more && i == |steps| - 1
  }

  lemma PacedThenPaced(a: seq<Step>, b: seq<Step>)
    requires IsPaced(a) && IsPaced(b)
    ensures IsPaced(a + b)
  {
    var c := a + b;
    forall i | 1 <= i < |c|
      ensures IsWhole(c[i - 1]) ==> c[i].Check?
      ensures c[i].Check? ==> !c[i - 1].Check?
    {
      if i >= |a| + 1 {
        assert c[i] == b[i - |a|] && c[i - 1] == b[i - |a| - 1];
      }
    }
  }

  lemma TimedThenTimed(a: seq<Step>, b: seq<Step>, budgetMs: int, more: bool)
    requires IsTimed(a, budgetMs, false) && IsTimed(b, budgetMs, more)
    ensures IsTimed(a + b, budgetMs, more)
  {
    PacedThenPaced(a, b);
  }

  /** A look at the clock after the steps so far. */
  lemma TimedThenCheck(a: seq<Step>, check: Step, budgetMs: int)
    requires IsTimed(a, budgetMs, false) && a != [] && !a[|a| - 1].Check? && check.Check?
    ensures IsTimed(a + [check], budgetMs, check.elapsedMs >= budgetMs)
  {
    var c := a + [check];
    assert c[|c| - 2] == a[|a| - 1];
  }

  lemma FullIsTimed(transaction: Step, check: Step, budgetMs: int)
    requires !transaction.Check? && transaction.rows <= transaction.limit && check.Check?
    ensures IsTimed([transaction, check], budgetMs, check.elapsedMs >= budgetMs)
  {
  }

  lemma PartIsTimed(transaction: Step, budgetMs: int)
    requires !transaction.Check? && transaction.rows < transaction.limit
    ensures IsTimed([transaction], budgetMs, false)
  {
  }

  /** The rows all transactions took. */
  function RowsIn(steps: seq<Step>): nat {
    if steps == [] then 0
    else
      var last := steps[|steps| - 1];
      RowsIn(steps[..|steps| - 1]) + if last.Check? then 0 else last.rows
  }

  lemma {:induction false} RowsOfBoth(a: seq<Step>, b: seq<Step>)
    ensures RowsIn(a + b) == RowsIn(a) + RowsIn(b)
    decreases |b|
  {
    if b == [] {
      assert a + b == a;
    } else {
      assert (a + b)[..|a + b| - 1] == a + b[..|b| - 1];
      RowsOfBoth(a, b[..|b| - 1]);
    }
  }

  lemma RowsOfOne(step: Step)
    ensures RowsIn([step]) == if step.Check? then 0 else step.rows
  {
    assert [step][..0] == [];
  }

  /** The batch size after these steps, each batch having had its say. */
  function SizeAfter(steps: seq<Step>, start: nat, fixedSize: bool, targetMs: nat, maxBatch: nat): nat {
    if steps == [] then start
    else
      var size, last := SizeAfter(steps[..|steps| - 1], start, fixedSize, targetMs, maxBatch), steps[|steps| - 1];
      if last.Batch? && !fixedSize then AdaptPruneBatch(size, last.elapsedMs, targetMs, maxBatch) else size
  }

  lemma {:induction false} SizeKeepsLimits(steps: seq<Step>, start: nat, fixedSize: bool, targetMs: nat, maxBatch: nat)
    requires start >= 1 && maxBatch >= 1
    ensures SizeAfter(steps, start, fixedSize, targetMs, maxBatch) >= 1
    ensures PRUNE_BATCH_MIN <= start <= maxBatch ==> PRUNE_BATCH_MIN <= SizeAfter(steps, start, false, targetMs, maxBatch) <= maxBatch
    ensures fixedSize ==> SizeAfter(steps, start, fixedSize, targetMs, maxBatch) == start
  {
    if steps != [] {
      SizeKeepsLimits(steps[..|steps| - 1], start, fixedSize, targetMs, maxBatch);
      SizeKeepsLimits(steps[..|steps| - 1], start, false, targetMs, maxBatch);
    }
  }

  /** Every batch had the size that those before it led to; one that was not full is the last. */
  predicate SizesFollow(steps: seq<Step>, start: nat, fixedSize: bool, targetMs: nat, maxBatch: nat) {
    forall i :: 0 <= i < |steps| ==>
      && !steps[i].Piece?
      && (steps[i].Batch? ==>
            && steps[i].limit == SizeAfter(steps[..i], start, fixedSize, targetMs, maxBatch)
            && (steps[i].rows < steps[i].limit ==> i == |steps| - 1))
  }

  lemma OneStepSized(steps: seq<Step>, step: Step, start: nat, fixedSize: bool, targetMs: nat, maxBatch: nat)
    requires SizesFollow(steps, start, fixedSize, targetMs, maxBatch) && !step.Piece?
    requires step.Batch? ==> step.limit == SizeAfter(steps, start, fixedSize, targetMs, maxBatch)
    requires steps != [] && steps[|steps| - 1].Batch? ==> steps[|steps| - 1].rows >= steps[|steps| - 1].limit
    ensures SizesFollow(steps + [step], start, fixedSize, targetMs, maxBatch)
    ensures SizeAfter(steps + [step], start, fixedSize, targetMs, maxBatch)
            == if step.Batch? && !fixedSize
               then AdaptPruneBatch(SizeAfter(steps, start, fixedSize, targetMs, maxBatch), step.elapsedMs, targetMs, maxBatch)
               else SizeAfter(steps, start, fixedSize, targetMs, maxBatch)
  {
    var more := steps + [step];
    assert more[..|more| - 1] == steps;
    forall i | 0 <= i < |more|
      ensures !more[i].Piece?
              && (more[i].Batch? ==>
                    && more[i].limit == SizeAfter(more[..i], start, fixedSize, targetMs, maxBatch)
                    && (more[i].rows < more[i].limit ==> i == |more| - 1))
    {
      if i < |steps| {
        assert more[..i] == steps[..i] && more[i] == steps[i];
      }
    }
  }

  /** The size of the first batch is the one asked for, or what the last pass ended
      with; each batch sets the size of the next, unless a size was asked for. */
  predicate IsSweptSized(swept: seq<Step>, batchSize: Option<nat>, adaptiveWas: nat, adaptive: nat, size: nat, piece: nat,
                         targetMs: nat, maxBatch: nat)
  {
    var fixedSize := batchSize.Some? && batchSize.value > 0;
    var start := if fixedSize then batchSize.value else Min(adaptiveWas, maxBatch);
    && SizesFollow(swept, start, fixedSize, targetMs, maxBatch)
    && size == SizeAfter(swept, start, fixedSize, targetMs, maxBatch)
    && adaptive == (if fixedSize then adaptiveWas else size)
    && piece == (if fixedSize then start else Min(size, maxBatch))
  }

  /** The transactions of a pass are as large as they should be: the later phases go on with the last size. */
  ghost predicate IsSized(swept: seq<Step>, trimmed: seq<Step>, dropped: seq<Step>, batchSize: Option<nat>,
                          adaptiveWas: nat, adaptive: nat, targetMs: nat, maxBatch: nat)
  {
    exists size: nat, piece: nat ::
      && IsSweptSized(swept, batchSize, adaptiveWas, adaptive, size, piece, targetMs, maxBatch)
      && PiecesOf(trimmed, piece) && PiecesOf(dropped, size)
  }

  /** The size carried to the next pass. */
  predicate IsInLimits(adaptiveWas: nat, adaptive: nat, maxBatch: nat) {
    && adaptive >= 1
    && (PRUNE_BATCH_MIN <= adaptiveWas && PRUNE_BATCH_MIN <= maxBatch ==>
          && PRUNE_BATCH_MIN <= adaptive
          && (adaptiveWas <= maxBatch ==> adaptive <= maxBatch))
  }

  predicate EndsInRows(done: seq<Step>) {
    done != [] && !done[|done| - 1].Check?
  }

  /** What a sweep has logged so far, and the size it goes on with. */
  ghost predicate SweepLog(done: seq<Step>, deleted: nat, size: nat, start: nat, fixedSize: bool, targetMs: nat, maxBatch: nat,
                           budgetMs: int, more: bool)
  {
    && IsTimed(done, budgetMs, more) && RowsIn(done) == deleted
    && SizesFollow(done, start, fixedSize, targetMs, maxBatch)
    && size == SizeAfter(done, start, fixedSize, targetMs, maxBatch)
  }

  lemma SweepBegins(start: nat, fixedSize: bool, targetMs: nat, maxBatch: nat, budgetMs: int)
    ensures SweepLog([], 0, start, start, fixedSize, targetMs, maxBatch, budgetMs, false)
  {
  }

  lemma BatchIsTimed(done: seq<Step>, batch: Step, check: Step, budgetMs: int)
    requires IsTimed(done, budgetMs, false) && batch.Batch? && batch.rows <= batch.limit && check.Check?
    ensures batch.rows < batch.limit ==> IsTimed(done + [batch], budgetMs, false)
    ensures batch.rows == batch.limit ==> IsTimed(done + [batch, check], budgetMs, check.elapsedMs >= budgetMs)
    ensures RowsIn(done + [batch]) == RowsIn(done + [batch, check]) == RowsIn(done) + batch.rows
  {
    RowsOfOne(batch);
    RowsOfBoth(done, [batch]);
    RowsOfOne(check);
    RowsOfBoth(done + [batch], [check]);
    assert done + [batch, check] == done + [batch] + [check];
    if batch.rows < batch.limit {
      PartIsTimed(batch, budgetMs);
      TimedThenTimed(done, [batch], budgetMs, false);
    } else {
      FullIsTimed(batch, check, budgetMs);
      TimedThenTimed(done, [batch, check], budgetMs, check.elapsedMs >= budgetMs);
    }
  }

  lemma BatchIsSized(done: seq<Step>, batch: Step, check: Step, start: nat, fixedSize: bool, targetMs: nat, maxBatch: nat)
    requires SizesFollow(done, start, fixedSize, targetMs, maxBatch) && !EndsInRows(done)
    requires batch.Batch? && batch.limit == SizeAfter(done, start, fixedSize, targetMs, maxBatch) && check.Check?
    ensures SizesFollow(done + [batch], start, fixedSize, targetMs, maxBatch)
    ensures batch.rows >= batch.limit ==> SizesFollow(done + [batch, check], start, fixedSize, targetMs, maxBatch)
    ensures batch.rows >= batch.limit ==>
              SizeAfter(done + [batch, check], start, fixedSize, targetMs, maxBatch)
              == SizeAfter(done + [batch], start, fixedSize, targetMs, maxBatch)
    ensures SizeAfter(done + [batch], start, fixedSize, targetMs, maxBatch)
            == if fixedSize then batch.limit else AdaptPruneBatch(batch.limit, batch.elapsedMs, targetMs, maxBatch)
  {
    OneStepSized(done, batch, start, fixedSize, targetMs, maxBatch);
    if batch.rows >= batch.limit {
      assert done + [batch, check] == done + [batch] + [check];
      OneStepSized(done + [batch], check, start, fixedSize, targetMs, maxBatch);
    }
  }

  /** A full batch and the look at the clock after it, or a batch that was not full. */
  lemma BatchDone(done: seq<Step>, deleted: nat, size: nat, batch: Step, check: Step, start: nat, fixedSize: bool,
                  targetMs: nat, maxBatch: nat, budgetMs: int)
    requires SweepLog(done, deleted, size, start, fixedSize, targetMs, maxBatch, budgetMs, false)
    requires !EndsInRows(done)
    requires batch.Batch? && batch.rows <= batch.limit == size && check.Check?
    ensures var next := if fixedSize then size else AdaptPruneBatch(size, batch.elapsedMs, targetMs, maxBatch);
            if batch.rows < size
            then SweepLog(done + [batch], deleted + batch.rows, next, start, fixedSize, targetMs, maxBatch, budgetMs, false)
            else SweepLog(done + [batch, check], deleted + batch.rows, next, start, fixedSize, targetMs, maxBatch, budgetMs,
                          check.elapsedMs >= budgetMs)
  {
    BatchIsTimed(done, batch, check, budgetMs);
    BatchIsSized(done, batch, check, start, fixedSize, targetMs, maxBatch);
  }

  /** What a phase in pieces has logged so far. */
  ghost predicate PieceLog(done: seq<Step>, deleted: nat, limit: nat, budgetMs: int, more: bool) {
    IsTimed(done, budgetMs, more) && PiecesOf(done, limit) && RowsIn(done) == deleted
  }

  lemma PiecesBegin(limit: nat, budgetMs: int)
    ensures PieceLog([], 0, limit, budgetMs, false)
  {
  }

  /** A full piece and the look at the clock after it, or a piece that was not full. */
  lemma PieceDone(done: seq<Step>, deleted: nat, rows: nat, check: Step, limit: nat, budgetMs: int)
    requires PieceLog(done, deleted, limit, budgetMs, false) && check.Check? && rows <= limit
    ensures var piece := Piece(limit, rows);
            if rows < limit
            then PieceLog(done + [piece], deleted + rows, limit, budgetMs, false) && EndsInRows(done + [piece])
            else PieceLog(done + [piece, check], deleted + rows, limit, budgetMs, check.elapsedMs >= budgetMs)
  {
    var piece := Piece(limit, rows);
    RowsOfOne(piece);
    RowsOfBoth(done, [piece]);
    if rows < limit {
      PartIsTimed(piece, budgetMs);
      TimedThenTimed(done, [piece], budgetMs, false);
    } else {
      FullIsTimed(piece, check, budgetMs);
      TimedThenTimed(done, [piece, check], budgetMs, check.elapsedMs >= budgetMs);
      assert done + [piece, check] == done + [piece] + [check];
      RowsOfOne(check);
      RowsOfBoth(done + [piece], [check]);
    }
  }

  lemma PartDone(done: seq<Step>, deleted: nat, part: seq<Step>, rows: nat, limit: nat, budgetMs: int, more: bool)
    requires PieceLog(done, deleted, limit, budgetMs, false) && PieceLog(part, rows, limit, budgetMs, more)
    ensures PieceLog(done + part, deleted + rows, limit, budgetMs, more)
  {
    TimedThenTimed(done, part, budgetMs, more);
    RowsOfBoth(done, part);
  }

  /** The look at the clock after the last piece of an hour or an agent. */
  lemma CheckDone(done: seq<Step>, deleted: nat, check: Step, limit: nat, budgetMs: int)
    requires PieceLog(done, deleted, limit, budgetMs, false) && EndsInRows(done) && check.Check?
    ensures PieceLog(done + [check], deleted, limit, budgetMs, check.elapsedMs >= budgetMs)
  {
    TimedThenCheck(done, check, budgetMs);
    RowsOfOne(check);
    RowsOfBoth(done, [check]);
  }

  predicate PiecesOf(steps: seq<Step>, limit: nat) {
    forall step <- steps :: !step.Batch? && (step.Piece? ==> step.limit == limit)
  }

  datatype PruneResult = PruneResult(correlations: nat, observations: nat, hourly: nat, batches: nat, more: bool)

  predicate Referenced(observations: map<ObsKey, Row>, b: BatchKey) {
    exists k <- observations :: k.agentId == b.agentId && observations[k].batchId == b.batchId
  }

  /** `after` is `before` without some expired observations and exactly their links. */
  predicate SweptFrom(obs0: map<ObsKey, Row>, links0: set<Link>, obs: map<ObsKey, Row>, links: set<Link>, before: int) {
    && obs.Keys <= obs0.Keys
    && (forall k <- obs :: obs[k] == obs0[k])
    && (forall k <- obs0 :: k !in obs ==> obs0[k].lastObservedAt < before)
    && links == (set l <- links0 | !(l.observation in obs0 && l.observation !in obs))
  }

  /** A sweep with the numbers it reports. */
  ghost predicate Swept(obs0: map<ObsKey, Row>, links0: set<Link>, obs: map<ObsKey, Row>, links: set<Link>, before: int,
                        deleted: nat, unlinked: nat)
  {
    && SweptFrom(obs0, links0, obs, links, before)
    && |obs.Keys| + deleted == |obs0.Keys| && |links| + unlinked == |links0|
  }

  lemma SweptTwice(obs0: map<ObsKey, Row>, links0: set<Link>, obs1: map<ObsKey, Row>, links1: set<Link>,
                   obs2: map<ObsKey, Row>, links2: set<Link>, before: int, d1: nat, u1: nat, d2: nat, u2: nat)
    requires Swept(obs0, links0, obs1, links1, before, d1, u1) && Swept(obs1, links1, obs2, links2, before, d2, u2)
    ensures Swept(obs0, links0, obs2, links2, before, d1 + d2, u1 + u2)
  {
    forall k <- obs0 | k !in obs2 ensures obs0[k].lastObservedAt < before {
      if k in obs1 { assert obs1[k].lastObservedAt < before; }
    }
  }

  predicate TrimmedFrom(hourly0: map<HourKey, HourRow>, hourly: map<HourKey, HourRow>, before: int) {
    && hourly.Keys <= hourly0.Keys
    && (forall k <- hourly :: hourly[k] == hourly0[k])
    && (forall k <- hourly0 :: k !in hourly ==> hourly0[k].lastObservedAt < before)
  }

  lemma SweepingKeepsSound(obs0: map<ObsKey, Row>, links0: set<Link>, obs: map<ObsKey, Row>, links: set<Link>,
                           hourly: map<HourKey, HourRow>, before: int)
    requires Sound(Tables(obs0, hourly)) && SweptFrom(obs0, links0, obs, links, before)
    ensures Sound(Tables(obs, hourly))
  {
  }

  lemma TrimmingKeepsSound(obs: map<ObsKey, Row>, hourly0: map<HourKey, HourRow>, hourly: map<HourKey, HourRow>, before: int)
    requires Sound(Tables(obs, hourly0)) && NoneBefore(obs, before) && TrimmedFrom(hourly0, hourly, before)
    ensures Sound(Tables(obs, hourly))
  {
    forall k <- obs ensures CoveredIn(hourly, k.agentId, obs[k]) {
      assert CoveredIn(hourly0, k.agentId, obs[k]);
    }
  }

  /** No receipt goes while an observation points at it. */
  predicate ReceiptsDroppedFrom(receipts0: map<BatchKey, Receipt>, receipts: map<BatchKey, Receipt>,
                                obs: map<ObsKey, Row>, before: int)
  {
    && receipts.Keys <= receipts0.Keys
    && (forall b <- receipts :: receipts[b] == receipts0[b])
    && (forall b <- receipts0 :: b !in receipts ==> receipts0[b].receivedAt < before && !Referenced(obs, b))
  }

  ghost function HoursAhead(hourly: map<HourKey, HourRow>, cursor: Option<int>): set<HourKey> {
    set k <- hourly | cursor.None? || k.hourStart > cursor.value
  }

  ghost function ReceiptsAhead(receipts: map<BatchKey, Receipt>, cursor: int): set<BatchKey> {
    set b <- receipts | b.agentId > cursor
  }

  /** Any `limit` elements, or all of them when there are fewer. */
  method PickUpTo<T(==)>(from: set<T>, limit: nat) returns (picked: set<T>)
    ensures picked <= from
    ensures |picked| == if |from| < limit then |from| else limit
  {
    picked := {};
    var rest := from;
    while rest != {} && |picked| < limit
      invariant picked !! rest && picked + rest == from && |picked| <= limit
      decreases rest
    {
      var x :| x in rest;
      picked, rest := picked + {x}, rest - {x};
    }
    if rest == {} { assert picked == from; } else {
      assert |picked + rest| == |picked| + |rest|;
    }
  }

  class AgentIngestStore {
    var observations: map<ObsKey, Row>
    var hourly: map<HourKey, HourRow>
    var receipts: map<BatchKey, Receipt>
    var links: set<Link>
    var adaptivePruneBatch: nat
    /** The wall clock, reading by reading, of which nothing is assumed; and how often it was read. */
    const clock: nat -> int
    var readings: nat

    constructor (clock: nat -> int)
      ensures observations == map[] && hourly == map[] && receipts == map[] && links == {}
      ensures adaptivePruneBatch == 500 && this.clock == clock && readings == 0
    {
      observations, hourly, receipts, links := map[], map[], map[], {};
      adaptivePruneBatch, readings, this.clock := 500, 0, clock;
    }

    function Contents(): Tables
      reads this
    {
      Tables(observations, hourly)
    }

    // ---------------------------------------------------------- storeBatch

    /** One chunk, one transaction: the reports from `from` up to `end`, or none of them. */
    method WriteChunk(agentId: AgentId, envelope: Envelope, from: nat, end: nat, counts: Tally)
      returns (ok: bool, c: Tally)
      requires from <= end <= |envelope.observations|
      modifies this`observations, this`hourly
      ensures ok <==> !Throws(old(Contents()), WritesOf(agentId, envelope)[from..end])
      ensures ok ==>
                Progress(Contents(), c) == WroteAll(Progress(old(Contents()), counts), WritesOf(agentId, envelope)[from..end])
      ensures !ok ==> Contents() == old(Contents())
    {
      var before, hours := observations, hourly;
      ok, c := WriteReports(agentId, envelope, from, end, counts);
      if !ok {
        observations, hourly := before, hours;
      }
    }

    method WriteReports(agentId: AgentId, envelope: Envelope, from: nat, end: nat, counts: Tally)
      returns (ok: bool, c: Tally)
      requires from <= end <= |envelope.observations|
      modifies this`observations, this`hourly
      ensures ok <==> !Throws(old(Contents()), WritesOf(agentId, envelope)[from..end])
      ensures ok ==>
                Progress(Contents(), c) == WroteAll(Progress(old(Contents()), counts), WritesOf(agentId, envelope)[from..end])
    {
      ok, c := true, counts;
      ghost var all, start := WritesOf(agentId, envelope)[from..end], Progress(Contents(), counts);
      for i := from to end
        invariant AreIn(start, all[..i - from], Contents(), c)
      {
        ok, c := WriteNext(Write(agentId, envelope.batchId, envelope.observations[i]), c, start, all, i - from);
        if !ok {
          return;
        }
      }
      assert all[..end - from] == all;
    }

    method WriteNext(w: Write, counts: Tally, ghost start: Progress, ghost all: seq<Write>, ghost n: nat)
      returns (ok: bool, c: Tally)
      requires n < |all| && w == all[n] && AreIn(start, all[..n], Contents(), counts)
      modifies this`observations, this`hourly
      ensures if ok then AreIn(start, all[..n + 1], Contents(), c) else Throws(start.tables, all)
    {
      ok, c := WriteReport(w, counts, start, all[..n], OneMore(all, n));
      if !ok {
        PrefixThrows(start.tables, OneMore(all, n), all);
      }
    }

    /** One report: insert, complete, count as a duplicate, refuse, or throw. */
    method WriteReport(w: Write, counts: Tally, ghost start: Progress, ghost sent: seq<Write>, ghost more: seq<Write>)
      returns (ok: bool, c: Tally)
      requires AreIn(start, sent, Contents(), counts) && more == sent + [w]
      modifies this`observations, this`hourly
      ensures ok ==> AreIn(start, more, Contents(), c)
      ensures !ok ==> Throws(start.tables, more)
    {
      WroteOneMore(start, sent, more, w);
      var key := KeyOf(w);
      ok := true;
      if key in observations {
        c := counts.(duplicate := counts.duplicate + 1);
        var stored := observations[key];
        if CompletesStored(stored, w.report) {
          ok := IsStorable(CompletedRow(stored, w.report));
          if !ok {
            return;
          }
          StoreRow(key, CompletedRow(stored, w.report));
          c := c.(completed := c.completed + 1);
        }
      } else if !PassesChecks(w) {
        c := counts.(rejected := counts.rejected + 1);
      } else {
        StoreRow(key, NewRow(w));
        c := counts.(accepted := counts.accepted + 1,
                     acceptedIds := counts.acceptedIds + [w.report.observationId]);
      }
    }

    /** The event loop gives other requests their turn; the retention thread may take one too. */
    method YieldToLoop(others: Others)
      modifies this`observations, this`hourly, this`receipts, this`links
      ensures Contents() == DoneAll(old(Contents()), others.acts)
      ensures receipts == ReceiptsAfter(old(receipts), others) && links <= old(links)
    {
      var t := DoneAll(Contents(), others.acts);
      observations, hourly, links := t.observations, t.hourly, links - others.unlinked;
      receipts := ReceiptsAfter(receipts, others);
    }

    method StoreRow(key: ObsKey, row: Row)
      modifies this`observations, this`hourly
      ensures Contents() == PutRow(old(Contents()), key, row)
    {
      observations := observations[key := row];
      hourly := Upsert(hourly, HourKeyOf(key.agentId, row),
                       HourRow(row.processName, row.firstObservedAt, row.lastObservedAt));
    }

    /**
     Stores one upload. `between` is what others do each time it gives up its
     turn; `diesAfter` is how many chunks are committed when the process stops.
     The receipt is a transaction of its own, after the last chunk.
     */
    method StoreBatch(agentId: AgentId, envelope: Envelope, receivedAt: int, between: seq<Others>, diesAfter: Option<nat>)
      returns (result: StoreResult)
      modifies this`observations, this`hourly, this`receipts, this`links
      ensures result.Replayed? <==> BatchKey(agentId, envelope.batchId) in old(receipts)
      ensures result.Replayed? ==>
                && result.receipt == old(receipts)[BatchKey(agentId, envelope.batchId)]
                && Contents() == old(Contents()) && receipts == old(receipts)
      ensures !result.Replayed? ==>
                IsOutcome(old(Contents()), old(receipts), agentId, envelope, receivedAt, between, diesAfter, result,
                          Contents(), receipts)
      ensures result.Stored? || result.Conflict? ==> Sum(result.counts) == |envelope.observations|
      ensures result.Stored? && result.counts.rejected == 0 ==>
                var b := BatchKey(agentId, envelope.batchId);
                && b in receipts && receipts[b].accepted == result.counts.accepted
                && receipts[b].duplicate == result.counts.duplicate && receipts[b].receivedAt == receivedAt
      ensures result.Stored? || result.Conflict? ==>
                var ws := WritesOf(agentId, envelope);
                forall id <- result.counts.acceptedIds ::
                  ObsKey(agentId, id) in Gone(AllTurns(ws, between))
                  || SaysWhatWasSent(Contents(), ws, id, ObsKey(agentId, id))
    {
      var b := BatchKey(agentId, envelope.batchId);
      if b in receipts {
        return Replayed(receipts[b]);
      }
      var counts, chunks, failed := WriteChunks(agentId, envelope, between, diesAfter);
      if failed {
        return Failed(chunks);
      }
      if diesAfter == Some(chunks) {
        return Died;
      }
      UploadCounts(old(Contents()), WritesOf(agentId, envelope), between, chunks);
      YieldToLoop(MeanwhileAtTheEnd(between, chunks));
      UploadSaysWhatWasSent(old(Contents()), WritesOf(agentId, envelope), between, agentId, Progress(Contents(), counts));
      result := WriteReceipt(b, counts, receivedAt);
    }

    /** No receipt for a batch with a refusal, so that it stays retryable. */
    method WriteReceipt(b: BatchKey, counts: Tally, receivedAt: int) returns (result: StoreResult)
      modifies this`receipts
      ensures result == if counts.rejected == 0 && b in old(receipts) then Conflict(counts) else Stored(counts)
      ensures receipts == if counts.rejected == 0 && result.Stored?
                          then old(receipts)[b := Receipt(counts.accepted, counts.duplicate, receivedAt)]
                          else old(receipts)
    {
      if counts.rejected == 0 {
        if b in receipts {
          return Conflict(counts);
        }
        receipts := receipts[b := Receipt(counts.accepted, counts.duplicate, receivedAt)];
      }
      return Stored(counts);
    }

    /** Others first, then the chunk. */
    method NextChunk(agentId: AgentId, envelope: Envelope, between: seq<Others>, chunk: nat, counts: Tally,
                     ghost was: Tables, ghost receipts0: map<BatchKey, Receipt>)
      returns (ok: bool, c: Tally)
      requires Stands(was, receipts0, agentId, envelope, between, chunk, false, Contents(), receipts, counts)
      modifies this`observations, this`hourly, this`receipts, this`links
      ensures ok ==> Stands(was, receipts0, agentId, envelope, between, chunk + 1, false, Contents(), receipts, c)
      ensures !ok ==> Stands(was, receipts0, agentId, envelope, between, chunk, true, Contents(), receipts, c)
    {
      var length, others := |envelope.observations|, Meanwhile(between, chunk);
      ghost var ws, now := WritesOf(agentId, envelope), Progress(Contents(), counts);
      YieldToLoop(others);
      ok, c := WriteChunk(agentId, envelope, Start(chunk, length), Start(chunk + 1, length), counts);
      SentNext(ws, between, Progress(was, NOTHING_COUNTED), now, chunk);
    }

    method WriteChunks(agentId: AgentId, envelope: Envelope, between: seq<Others>, diesAfter: Option<nat>)
      returns (counts: Tally, chunks: nat, failed: bool)
      modifies this`observations, this`hourly, this`receipts, this`links
      ensures chunks <= WrittenAtMost(|envelope.observations|, diesAfter)
      ensures failed <==> chunks < WrittenAtMost(|envelope.observations|, diesAfter)
      ensures Stands(old(Contents()), old(receipts), agentId, envelope, between, chunks, failed, Contents(), receipts, counts)
    {
      counts, chunks, failed := NOTHING_COUNTED, 0, false;
      var limit := WrittenAtMost(|envelope.observations|, diesAfter);
      while chunks < limit
        invariant chunks <= limit
        invariant Stands(old(Contents()), old(receipts), agentId, envelope, between, chunks, false,
                         Contents(), receipts, counts)
      {
        var ok;
        ok, counts := NextChunk(agentId, envelope, between, chunks, counts, old(Contents()), old(receipts));
        if !ok {
          failed := true;
          return;
        }
        chunks := chunks + 1;
      }
    }

    // --------------------------------------------------- pruneObservations

    /** One row and the links that name it. */
    method DropObservation(row: ObsKey, ghost before: int) returns (unlinked: nat)
      requires row in observations && observations[row].lastObservedAt < before
      modifies this`observations, this`links
      ensures Swept(old(observations), old(links), observations, links, before, 1, unlinked)
      ensures observations.Keys == old(observations).Keys - {row}
    {
      var gone := set l <- links | l.observation == row;
      PartsAddUp(links, gone);
      PartsAddUp(observations.Keys, {row});
      links, unlinked := links - gone, |gone|;
      observations := observations - {row};
    }

    /** Up to `size` expired observations with their links, in one transaction. */
    method ObservationBatch(before: int, size: nat) returns (deleted: nat, unlinked: nat)
      modifies this`observations, this`links
      ensures Swept(old(observations), old(links), observations, links, before, deleted, unlinked)
      ensures deleted <= size && (deleted < size ==> NoneBefore(observations, before))
    {
      var expired := set k <- observations | observations[k].lastObservedAt < before;
      var rest := PickUpTo(expired, size);
      ghost var all := |rest| < size;
      if all { SubsetOfSameSize(rest, expired); }
      deleted, unlinked := 0, 0;
      while rest != {}
        invariant forall k <- rest :: k in observations && observations[k].lastObservedAt < before
        invariant all ==> forall k <- observations :: observations[k].lastObservedAt >= before || k in rest
        invariant Swept(old(observations), old(links), observations, links, before, deleted, unlinked)
        invariant if all then deleted + |rest| < size else deleted + |rest| == size
        decreases rest
      {
        ghost var obs1, links1 := observations, links;
        var row :| row in rest;
        var n := DropObservation(row, before);
        SweptTwice(old(observations), old(links), obs1, links1, observations, links, before,
                   deleted, unlinked, 1, n);
        deleted, unlinked, rest := deleted + 1, unlinked + n, rest - {row};
      }
    }

    /** The clock has been read on, and when the answer is `more` one of the readings
        came when the pass had used up its time. */
    ghost predicate IsReadBy(now: nat, was: nat, startedAt: int, budgetMs: int, more: bool) {
      now >= was && (more ==> exists i: nat | was <= i < now :: clock(i) - startedAt >= budgetMs)
    }

    method Now() returns (t: int)
      modifies this`readings
      ensures readings == old(readings) + 1 && t == clock(old(readings))
    {
      t, readings := clock(readings), readings + 1;
    }

    /** Whether the pass has used up its time. */
    method OutOfTime(startedAt: int, budgetMs: int) returns (late: bool, ghost check: Step)
      modifies this`readings
      ensures readings == old(readings) + 1
      ensures check == Check(clock(old(readings)) - startedAt) && late == (check.elapsedMs >= budgetMs)
    {
      var now := Now();
      late, check := now - startedAt >= budgetMs, Check(now - startedAt);
    }

    /** One batch of the observation phase, and the size of the next. */
    method SizedBatch(before: int, size: nat, fixedSize: bool, targetMs: nat, maxBatch: nat)
      returns (next: nat, deleted: nat, unlinked: nat, ghost batch: Step)
      requires size >= 1 && maxBatch >= 1
      modifies this`observations, this`links, this`adaptivePruneBatch, this`readings
      ensures Swept(old(observations), old(links), observations, links, before, deleted, unlinked)
      ensures deleted <= size && (deleted < size ==> NoneBefore(observations, before))
      ensures batch.Batch? && batch.limit == size && batch.rows == deleted && readings >= old(readings)
      ensures next == if fixedSize then size else AdaptPruneBatch(size, batch.elapsedMs, targetMs, maxBatch)
      ensures adaptivePruneBatch == if fixedSize then old(adaptivePruneBatch) else next
    {
      var batchStartedAt := Now();
      deleted, unlinked := ObservationBatch(before, size);
      next := size;
      var elapsed := 0;
      if !fixedSize {
        var now := Now();
        elapsed := now - batchStartedAt;
        next := AdaptPruneBatch(size, elapsed, targetMs, maxBatch);
        adaptivePruneBatch := next;
      }
      batch := Batch(size, deleted, elapsed);
    }

    /** One batch, and the look at the clock after a full one. */
    method SweepOnce(before: int, size: nat, fixedSize: bool, budgetMs: int, startedAt: int, targetMs: nat, maxBatch: nat,
                     ghost start: nat, ghost done: seq<Step>, ghost soFar: nat)
      returns (next: nat, deleted: nat, unlinked: nat, last: bool, more: bool, ghost now: seq<Step>)
      requires start >= 1 && maxBatch >= 1
      requires SweepLog(done, soFar, size, start, fixedSize, targetMs, maxBatch, budgetMs, false) && !EndsInRows(done)
      modifies this`observations, this`links, this`adaptivePruneBatch, this`readings
      ensures Swept(old(observations), old(links), observations, links, before, deleted, unlinked)
      ensures if last then !more && NoneBefore(observations, before) else deleted >= 1
      ensures SweepLog(now, soFar + deleted, next, start, fixedSize, targetMs, maxBatch, budgetMs, more)
      ensures now != [] && (EndsInRows(now) <==> last)
      ensures IsReadBy(readings, old(readings), startedAt, budgetMs, more)
      ensures adaptivePruneBatch == if fixedSize then old(adaptivePruneBatch) else next
    {
      SizeKeepsLimits(done, start, fixedSize, targetMs, maxBatch);
      ghost var batch, check := Batch(0, 0, 0), Check(0);
      next, deleted, unlinked, batch := SizedBatch(before, size, fixedSize, targetMs, maxBatch);
      last, more := deleted < size, false;
      if !last {
        more, check := OutOfTime(startedAt, budgetMs);
      }
      BatchDone(done, soFar, size, batch, check, start, fixedSize, targetMs, maxBatch, budgetMs);
      now := if last then done + [batch] else done + [batch, check];
    }

    /** The observation phase. Ends after a batch that was not full, or out of time. */
    method SweepObservations(before: int, start: nat, fixedSize: bool, budgetMs: int, startedAt: int,
                             targetMs: nat, maxBatch: nat)
      returns (size: nat, deleted: nat, unlinked: nat, more: bool, ghost done: seq<Step>)
      requires start >= 1 && maxBatch >= 1
      modifies this`observations, this`links, this`adaptivePruneBatch, this`readings
      ensures Swept(old(observations), old(links), observations, links, before, deleted, unlinked)
      ensures !more ==> NoneBefore(observations, before)
      ensures done != [] && IsReadBy(readings, old(readings), startedAt, budgetMs, more)
      ensures SweepLog(done, deleted, size, start, fixedSize, targetMs, maxBatch, budgetMs, more)
      ensures adaptivePruneBatch == if fixedSize then old(adaptivePruneBatch) else size
    {
      size, deleted, unlinked, more, done := start, 0, 0, false, [];
      SweepBegins(start, fixedSize, targetMs, maxBatch, budgetMs);
      while true
        invariant Swept(old(observations), old(links), observations, links, before, deleted, unlinked)
        invariant readings >= old(readings) && !EndsInRows(done)
        invariant SweepLog(done, deleted, size, start, fixedSize, targetMs, maxBatch, budgetMs, false)
        invariant fixedSize ==> adaptivePruneBatch == old(adaptivePruneBatch)
        decreases |observations.Keys|
      {
        ghost var obs1, links1 := observations, links;
        var n, u, last;
        size, n, u, last, more, done :=
          SweepOnce(before, size, fixedSize, budgetMs, startedAt, targetMs, maxBatch, start, done, deleted);
        SweptTwice(old(observations), old(links), obs1, links1, observations, links, before,
                   deleted, unlinked, n, u);
        deleted, unlinked := deleted + n, unlinked + u;
        if last || more {
          return;
        }
      }
    }

    /** The oldest hour after `cursor` that has rows. */
    method NextHour(cursor: Option<int>) returns (hour: Option<int>)
      ensures hour.None? ==> forall k <- hourly :: cursor.Some? && k.hourStart <= cursor.value
      ensures hour.Some? ==>
                && (exists k <- hourly :: k.hourStart == hour.value)
                && (cursor.Some? ==> hour.value > cursor.value)
                && forall k <- hourly :: k.hourStart >= hour.value || (cursor.Some? && k.hourStart <= cursor.value)
    {
      hour := None;
      var rest := hourly.Keys;
      while rest != {}
        invariant rest <= hourly.Keys
        invariant hour.None? ==> forall k <- hourly :: k in rest || (cursor.Some? && k.hourStart <= cursor.value)
        invariant hour.Some? ==>
                    && (exists k <- hourly :: k.hourStart == hour.value)
                    && (cursor.Some? ==> hour.value > cursor.value)
                    && forall k <- hourly :: k in rest || k.hourStart >= hour.value
                                             || (cursor.Some? && k.hourStart <= cursor.value)
        decreases rest
      {
        var k :| k in rest;
        rest := rest - {k};
        if (cursor.None? || k.hourStart > cursor.value) && (hour.None? || k.hourStart < hour.value) {
          hour := Some(k.hourStart);
        }
      }
    }

    method HourPiece(hour: int, before: int, limit: nat) returns (deleted: nat)
      modifies this`hourly
      ensures TrimmedFrom(old(hourly), hourly, before)
      ensures |hourly.Keys| + deleted == |old(hourly).Keys|
      ensures deleted <= limit
      ensures deleted < limit ==> forall k <- hourly :: k.hourStart == hour ==> hourly[k].lastObservedAt >= before
    {
      var expired := set k <- hourly | k.hourStart == hour && hourly[k].lastObservedAt < before;
      var rows := PickUpTo(expired, limit);
      if |rows| < limit { SubsetOfSameSize(rows, expired); }
      assert |hourly.Keys| == |hourly.Keys - rows| + |rows|;
      hourly, deleted := hourly - rows, |rows|;
    }

    /** One hour, in pieces, and the look at the clock after it. */
    method TrimHour(hour: int, before: int, piece: nat, budgetMs: int, startedAt: int)
      returns (deleted: nat, more: bool, ghost done: seq<Step>)
      requires piece >= 1
      modifies this`hourly, this`readings
      ensures TrimmedFrom(old(hourly), hourly, before)
      ensures |hourly.Keys| + deleted == |old(hourly).Keys|
      ensures !more ==> forall k <- hourly :: k.hourStart == hour ==> hourly[k].lastObservedAt >= before
      ensures PieceLog(done, deleted, piece, budgetMs, more) && IsReadBy(readings, old(readings), startedAt, budgetMs, more)
    {
      deleted, more, done := 0, false, [];
      PiecesBegin(piece, budgetMs);
      while true
        invariant TrimmedFrom(old(hourly), hourly, before)
        invariant |hourly.Keys| + deleted == |old(hourly).Keys|
        invariant readings >= old(readings) && PieceLog(done, deleted, piece, budgetMs, false)
        invariant !more
        decreases |hourly.Keys|
      {
        var n := HourPiece(hour, before, piece);
        ghost var check;
        if n < piece {
          PieceDone(done, deleted, n, Check(0), piece, budgetMs);
          deleted, done := deleted + n, done + [Piece(piece, n)];
          break;
        }
        more, check := OutOfTime(startedAt, budgetMs);
        PieceDone(done, deleted, n, check, piece, budgetMs);
        deleted, done := deleted + n, done + [Piece(piece, n), check];
        if more {
          return;
        }
      }
      ghost var check;
      more, check := OutOfTime(startedAt, budgetMs);
      CheckDone(done, deleted, check, piece, budgetMs);
      done := done + [check];
    }

    /** The hourly phase: an hour at a time, oldest first, in pieces. */
    method TrimHours(before: int, piece: nat, budgetMs: int, startedAt: int)
      returns (deleted: nat, more: bool, ghost done: seq<Step>)
      requires piece >= 1 && InOwnHour(hourly)
      modifies this`hourly, this`readings
      ensures TrimmedFrom(old(hourly), hourly, before)
      ensures |hourly.Keys| + deleted == |old(hourly).Keys|
      ensures !more ==> forall k <- hourly :: hourly[k].lastObservedAt >= before
      ensures PieceLog(done, deleted, piece, budgetMs, more) && IsReadBy(readings, old(readings), startedAt, budgetMs, more)
    {
      deleted, more, done := 0, false, [];
      PiecesBegin(piece, budgetMs);
      var cursor: Option<int> := None;
      while true
        invariant TrimmedFrom(old(hourly), hourly, before)
        invariant |hourly.Keys| + deleted == |old(hourly).Keys|
        invariant forall k <- hourly :: cursor.Some? && k.hourStart <= cursor.value ==> hourly[k].lastObservedAt >= before
        invariant readings >= old(readings) && PieceLog(done, deleted, piece, budgetMs, false)
        invariant !more
        decreases HoursAhead(old(hourly), cursor)
      {
        var hour := NextHour(cursor);
        if hour.None? || hour.value >= before {
          break;
        }
        ghost var oldest :| oldest in hourly && oldest.hourStart == hour.value;
        assert oldest in HoursAhead(old(hourly), cursor) && oldest !in HoursAhead(old(hourly), hour);
        var n;
        ghost var part;
        n, more, part := TrimHour(hour.value, before, piece, budgetMs, startedAt);
        PartDone(done, deleted, part, n, piece, budgetMs, more);
        cursor, deleted, done := hour, deleted + n, done + part;
        if more {
          return;
        }
      }
    }

    /** The first agent after `cursor` that has receipts. */
    method NextAgent(cursor: int) returns (agent: Option<int>)
      ensures agent.None? ==> forall b <- receipts :: b.agentId <= cursor
      ensures agent.Some? ==>
                && (exists b <- receipts :: b.agentId == agent.value)
                && agent.value > cursor
                && forall b <- receipts :: b.agentId >= agent.value || b.agentId <= cursor
    {
      agent := None;
      var rest := receipts.Keys;
      while rest != {}
        invariant rest <= receipts.Keys
        invariant agent.None? ==> forall b <- receipts :: b in rest || b.agentId <= cursor
        invariant agent.Some? ==>
                    && (exists b <- receipts :: b.agentId == agent.value)
                    && agent.value > cursor
                    && forall b <- receipts :: b in rest || b.agentId >= agent.value || b.agentId <= cursor
        decreases rest
      {
        var b :| b in rest;
        rest := rest - {b};
        if b.agentId > cursor && (agent.None? || b.agentId < agent.value) {
          agent := Some(b.agentId);
        }
      }
    }

    method ReceiptPiece(agentId: int, before: int, limit: nat) returns (deleted: nat)
      modifies this`receipts
      ensures ReceiptsDroppedFrom(old(receipts), receipts, observations, before)
      ensures |receipts.Keys| + deleted == |old(receipts).Keys|
      ensures deleted <= limit
      ensures deleted < limit ==>
                forall b <- receipts :: b.agentId == agentId ==> receipts[b].receivedAt >= before || Referenced(observations, b)
    {
      var expired := set b <- receipts | b.agentId == agentId && receipts[b].receivedAt < before
                                         && !Referenced(observations, b);
      var rows := PickUpTo(expired, limit);
      if |rows| < limit { SubsetOfSameSize(rows, expired); }
      assert |receipts.Keys| == |receipts.Keys - rows| + |rows|;
      receipts, deleted := receipts - rows, |rows|;
    }

    /** The receipts of one agent, in pieces, and the look at the clock after them. */
    method DropAgentReceipts(agentId: int, before: int, piece: nat, budgetMs: int, startedAt: int)
      returns (deleted: nat, more: bool, ghost done: seq<Step>)
      requires piece >= 1
      modifies this`receipts, this`readings
      ensures ReceiptsDroppedFrom(old(receipts), receipts, observations, before)
      ensures |receipts.Keys| + deleted == |old(receipts).Keys|
      ensures !more ==>
                forall b <- receipts :: b.agentId == agentId ==> receipts[b].receivedAt >= before || Referenced(observations, b)
      ensures PieceLog(done, deleted, piece, budgetMs, more) && IsReadBy(readings, old(readings), startedAt, budgetMs, more)
    {
      deleted, more, done := 0, false, [];
      PiecesBegin(piece, budgetMs);
      while true
        invariant ReceiptsDroppedFrom(old(receipts), receipts, observations, before)
        invariant |receipts.Keys| + deleted == |old(receipts).Keys|
        invariant readings >= old(readings) && PieceLog(done, deleted, piece, budgetMs, false)
        invariant !more
        decreases |receipts.Keys|
      {
        var n := ReceiptPiece(agentId, before, piece);
        ghost var check;
        if n < piece {
          PieceDone(done, deleted, n, Check(0), piece, budgetMs);
          deleted, done := deleted + n, done + [Piece(piece, n)];
          break;
        }
        more, check := OutOfTime(startedAt, budgetMs);
        PieceDone(done, deleted, n, check, piece, budgetMs);
        deleted, done := deleted + n, done + [Piece(piece, n), check];
        if more {
          return;
        }
      }
      ghost var check;
      more, check := OutOfTime(startedAt, budgetMs);
      CheckDone(done, deleted, check, piece, budgetMs);
      done := done + [check];
    }

    /** The receipt phase, agent by agent. */
    method DropReceipts(before: int, piece: nat, budgetMs: int, startedAt: int)
      returns (deleted: nat, more: bool, ghost done: seq<Step>)
      requires piece >= 1
      modifies this`receipts, this`readings
      ensures ReceiptsDroppedFrom(old(receipts), receipts, observations, before)
      ensures |receipts.Keys| + deleted == |old(receipts).Keys|
      ensures !more ==> forall b <- receipts :: receipts[b].receivedAt >= before || Referenced(observations, b)
      ensures PieceLog(done, deleted, piece, budgetMs, more) && IsReadBy(readings, old(readings), startedAt, budgetMs, more)
    {
      deleted, more, done := 0, false, [];
      PiecesBegin(piece, budgetMs);
      var cursor := 0;
      while true
        invariant cursor >= 0
        invariant ReceiptsDroppedFrom(old(receipts), receipts, observations, before)
        invariant |receipts.Keys| + deleted == |old(receipts).Keys|
        invariant forall b <- receipts :: b.agentId <= cursor ==> receipts[b].receivedAt >= before || Referenced(observations, b)
        invariant readings >= old(readings) && PieceLog(done, deleted, piece, budgetMs, false)
        invariant !more
        decreases ReceiptsAhead(old(receipts), cursor)
      {
        var agent := NextAgent(cursor);
        if agent.None? {
          break;
        }
        ghost var first :| first in receipts && first.agentId == agent.value;
        assert first in ReceiptsAhead(old(receipts), cursor) && first !in ReceiptsAhead(old(receipts), agent.value);
        var n;
        ghost var part;
        n, more, part := DropAgentReceipts(agent.value, before, piece, budgetMs, startedAt);
        PartDone(done, deleted, part, n, piece, budgetMs, more);
        cursor, deleted, done := agent.value, deleted + n, done + part;
        if more {
          return;
        }
      }
    }

    /** The two phases after the observations. */
    method TrimAndDrop(before: int, piece: nat, size: nat, budgetMs: int, startedAt: int)
      returns (hours: nat, batches: nat, more: bool, ghost trimmed: seq<Step>, ghost dropped: seq<Step>)
      requires piece >= 1 && size >= 1 && Sound(Contents()) && NoneBefore(observations, before)
      modifies this`hourly, this`receipts, this`readings
      ensures Sound(Contents())
      ensures TrimmedFrom(old(hourly), hourly, before)
      ensures ReceiptsDroppedFrom(old(receipts), receipts, observations, before)
      ensures !more ==>
                && (forall k <- hourly :: hourly[k].lastObservedAt >= before)
                && (forall b <- receipts :: receipts[b].receivedAt >= before || Referenced(observations, b))
      ensures |hourly.Keys| + hours == |old(hourly).Keys| && |receipts.Keys| + batches == |old(receipts).Keys|
      ensures IsTimed(trimmed + dropped, budgetMs, more) && IsReadBy(readings, old(readings), startedAt, budgetMs, more)
      ensures PiecesOf(trimmed, piece) && RowsIn(trimmed) == hours && PiecesOf(dropped, size) && RowsIn(dropped) == batches
    {
      hours, more, trimmed := TrimHours(before, piece, budgetMs, startedAt);
      TrimmingKeepsSound(observations, old(hourly), hourly, before);
      batches, dropped := 0, [];
      assert trimmed + [] == trimmed;
      if !more {
        batches, more, dropped := DropReceipts(before, size, budgetMs, startedAt);
        TimedThenTimed(trimmed, dropped, budgetMs, more);
      }
    }

    /** The observation phase of a pass, the size it starts with and what the next phase gets. */
    method SweepPhase(before: int, batchSize: Option<nat>, budgetMs: int, startedAt: int, targetMs: nat, maxBatch: nat)
      returns (size: nat, piece: nat, deleted: nat, unlinked: nat, more: bool, ghost swept: seq<Step>)
      requires maxBatch >= 1 && adaptivePruneBatch >= 1 && Sound(Contents())
      modifies this`observations, this`links, this`adaptivePruneBatch, this`readings
      ensures Sound(Contents())
      ensures Swept(old(observations), old(links), observations, links, before, deleted, unlinked)
      ensures !more ==> NoneBefore(observations, before)
      ensures swept != [] && IsTimed(swept, budgetMs, more) && IsReadBy(readings, old(readings), startedAt, budgetMs, more)
      ensures size >= 1 && piece >= 1
      ensures IsSweptSized(swept, batchSize, old(adaptivePruneBatch), adaptivePruneBatch, size, piece, targetMs, maxBatch)
      ensures IsInLimits(old(adaptivePruneBatch), adaptivePruneBatch, maxBatch)
    {
      var fixedSize := batchSize.Some? && batchSize.value > 0;
      var start := if fixedSize then batchSize.value else Min(adaptivePruneBatch, maxBatch);
      size, deleted, unlinked, more, swept := SweepObservations(before, start, fixedSize, budgetMs, startedAt, targetMs, maxBatch);
      SizeKeepsLimits(swept, start, fixedSize, targetMs, maxBatch);
      SweepingKeepsSound(old(observations), old(links), observations, links, hourly, before);
      piece := if fixedSize then start else Min(size, maxBatch);
    }

    /**
     Deletes observations older than `before`, their links, the hourly rows and
     the receipts nothing refers to any more. Terminates whatever the clock says;
     `more` is answered only when a look at the clock found the time used up.
     `swept`, `trimmed` and `dropped` are the steps of the three phases.
     */
    method PruneObservations(before: int, batchSize: Option<nat>, budgetMs: int, targetMs: nat, maxBatch: nat)
      returns (result: PruneResult, ghost swept: seq<Step>, ghost trimmed: seq<Step>, ghost dropped: seq<Step>)
      requires maxBatch >= 1 && adaptivePruneBatch >= 1
      requires Sound(Contents())
      modifies this
      ensures Sound(Contents())
      ensures SweptFrom(old(observations), old(links), observations, links, before)
      ensures TrimmedFrom(old(hourly), hourly, before)
      ensures ReceiptsDroppedFrom(old(receipts), receipts, observations, before)
      ensures !result.more ==>
                && NoneBefore(observations, before)
                && (forall k <- hourly :: hourly[k].lastObservedAt >= before)
                && (forall b <- receipts :: receipts[b].receivedAt >= before || Referenced(observations, b))
      ensures |observations.Keys| + result.observations == |old(observations).Keys|
      ensures |hourly.Keys| + result.hourly == |old(hourly).Keys|
      ensures |receipts.Keys| + result.batches == |old(receipts).Keys|
      ensures |links| + result.correlations == |old(links)|
      ensures IsReadBy(readings, old(readings) + 1, clock(old(readings)), budgetMs, result.more)
      ensures swept != [] && swept[0].Batch?
      ensures IsTimed(swept + (trimmed + dropped), budgetMs, result.more)
      ensures IsSized(swept, trimmed, dropped, batchSize, old(adaptivePruneBatch), adaptivePruneBatch, targetMs, maxBatch)
      ensures IsInLimits(old(adaptivePruneBatch), adaptivePruneBatch, maxBatch)
    {
      var startedAt := Now();
      var size, piece, gone, unlinked, more;
      size, piece, gone, unlinked, more, swept := SweepPhase(before, batchSize, budgetMs, startedAt, targetMs, maxBatch);
      var hours, batches := 0, 0;
      trimmed, dropped := [], [];
      if !more {
        hours, batches, more, trimmed, dropped := TrimAndDrop(before, piece, size, budgetMs, startedAt);
        TimedThenTimed(swept, trimmed + dropped, budgetMs, more);
      } else {
        assert swept + ([] + []) == swept;
      }
      result := PruneResult(unlinked, gone, hours, batches, more);
    }
  }

  lemma SubsetOfSameSize<T>(a: set<T>, b: set<T>)
    requires a <= b && |a| == |b|
    ensures a == b
  {
    assert b == a + (b - a);
    assert |b| == |a| + |b - a|;
  }
}
