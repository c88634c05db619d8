/**
 The hourly roll-up always covers the observations it was fed from, through
 any interleaving of upload chunks, completions and retention deletes
 (src/agent-ingest-store.js).
 */
module AgentRollup {
  import opened Common
  import opened AgentIngest

  /** The roll-up row for the row's current endpoint, app and last-seen hour
      spans the whole observation. */
  predicate CoveredIn(hourly: map<HourKey, HourRow>, agentId: AgentId, row: Row) {
    var k := HourKeyOf(agentId, row);
    k in hourly && hourly[k].firstObservedAt <= row.firstObservedAt
    && row.lastObservedAt <= hourly[k].lastObservedAt
  }

  predicate Covered(t: Tables) {
    forall k <- t.observations :: CoveredIn(t.hourly, k.agentId, t.observations[k])
  }

  /** Every roll-up row was last seen inside its own hour. */
  predicate InOwnHour(hourly: map<HourKey, HourRow>) {
    forall k <- hourly :: k.hourStart <= hourly[k].lastObservedAt < k.hourStart + HOUR_MS
  }

  predicate Sound(t: Tables) {
    Covered(t) && InOwnHour(t.hourly)
  }

  lemma PutRowStaysSound(t: Tables, key: ObsKey, row: Row)
    requires Sound(t)
    ensures Sound(PutRow(t, key, row))
  {
    WindowStartHolds(row.lastObservedAt, HOUR_MS);
    var u := PutRow(t, key, row);
    forall k <- u.observations ensures CoveredIn(u.hourly, k.agentId, u.observations[k]) {
      if k != key {
        assert CoveredIn(t.hourly, k.agentId, t.observations[k]);
      }
    }
  }

  lemma ApplyStaysSound(t: Tables, w: Write)
    requires Sound(t)
    ensures Sound(Apply(t, w))
  {
    match VerdictOf(t, w)
    case Accepted => PutRowStaysSound(t, KeyOf(w), NewRow(w));
    case Completed => PutRowStaysSound(t, KeyOf(w), CompletedRow(t.observations[KeyOf(w)], w.report));
    case _ =>
  }

  lemma {:induction false} ApplyAllStaysSound(t: Tables, ws: seq<Write>)
    requires Sound(t)
    ensures Sound(ApplyAll(t, ws))
  {
    if ws != [] {
      ApplyAllStaysSound(t, ws[..|ws| - 1]);
      ApplyStaysSound(ApplyAll(t, ws[..|ws| - 1]), ws[|ws| - 1]);
    }
  }

  // ------------------------------------------------------ uploads and deletes

  predicate NoneBefore(observations: map<ObsKey, Row>, before: int) {
    forall k <- observations :: observations[k].lastObservedAt >= before
  }

  /** What a prune pass is doing: observations first, then the hourly rows. */
  datatype Phase = Idle | Sweeping(before: int) | Trimming(before: int)

  datatype System = System(tables: Tables, phase: Phase)

  datatype Event =
    | Upload(write: Write)
    | StartPrune(bound: int)
    | DropObservations(keys: set<ObsKey>)      // one full batch of expired rows
    | LastObservations                         // the batch that was not full
    | DropHours(hours: set<HourKey>)           // a piece of one hour
    | StopPrune                                // finished, or out of time

  /** The row a report would write, if it would write one. */
  function Written(t: Tables, w: Write): Option<Row> {
    match VerdictOf(t, w)
    case Accepted => Some(NewRow(w))
    case Completed => Some(CompletedRow(t.observations[KeyOf(w)], w.report))
    case _ => None
  }

  /** What can be seen before an upload: it writes nothing, or its row ends at or
      after the bound, or the hour it feeds has such a sighting already. */
  predicate HarmlessDuringTrim(t: Tables, w: Write, before: int) {
    var row := Written(t, w);
    row.Some? ==>
      || row.value.lastObservedAt >= before
      || (HourKeyOf(w.agentId, row.value) in t.hourly
          && t.hourly[HourKeyOf(w.agentId, row.value)].lastObservedAt >= before)
  }

  /** When an event can happen. Only while the hourly rows are trimmed does it
      matter what an upload brings. */
  ghost predicate Enabled(s: System, e: Event) {
    match e
    case Upload(w) => s.phase.Trimming? ==> HarmlessDuringTrim(s.tables, w, s.phase.before)
    case StartPrune(_) => s.phase.Idle?
    case DropObservations(keys) =>
      s.phase.Sweeping? && keys <= s.tables.observations.Keys
      && forall k <- keys :: s.tables.observations[k].lastObservedAt < s.phase.before
    case LastObservations => s.phase.Sweeping?
    case DropHours(hours) =>
      s.phase.Trimming? && hours <= s.tables.hourly.Keys
      && forall k <- hours :: s.tables.hourly[k].lastObservedAt < s.phase.before
    case StopPrune => true
  }

  function Step(s: System, e: Event): System {
    var t := s.tables;
    match e
    case Upload(w) => s.(tables := Apply(t, w))
    case StartPrune(bound) => s.(phase := Sweeping(bound))
    case DropObservations(keys) => s.(tables := t.(observations := t.observations - keys))
    case LastObservations =>
      if s.phase.Idle? then s
      else System(t.(observations := map k <- t.observations | t.observations[k].lastObservedAt >= s.phase.before
                       :: t.observations[k]), Trimming(s.phase.before))
    case DropHours(hours) => s.(tables := t.(hourly := t.hourly - hours))
    case StopPrune => s.(phase := Idle)
  }

  /** The hourly row that covers any observation outlives the bound. */
  predicate TrimSafe(t: Tables, before: int) {
    forall k <- t.observations :: CoverOutlives(t, k, before)
  }

  predicate CoverOutlives(t: Tables, k: ObsKey, before: int)
    requires k in t.observations
  {
    var hour := HourKeyOf(k.agentId, t.observations[k]);
    hour in t.hourly && t.hourly[hour].lastObservedAt >= before
  }

  predicate Inv(s: System) {
    Sound(s.tables) && (s.phase.Trimming? ==> TrimSafe(s.tables, s.phase.before))
  }

  /** Once the sweep is over every cover outlives the bound. */
  lemma SweptIsTrimSafe(t: Tables, before: int)
    requires Sound(t) && NoneBefore(t.observations, before)
    ensures TrimSafe(t, before)
  {
    forall k <- t.observations ensures CoverOutlives(t, k, before) {
      assert CoveredIn(t.hourly, k.agentId, t.observations[k]);
    }
  }

  /** Deleting hourly rows behind the bound uncovers nothing if and only if every
      cover outlives it. */
  lemma TrimmingIsSafeIff(t: Tables, before: int)
    requires Sound(t)
    ensures TrimSafe(t, before)
            <==> forall hours :: Enabled(System(t, Trimming(before)), DropHours(hours))
                                 ==> Sound(t.(hourly := t.hourly - hours))
  {
    if TrimSafe(t, before) {
      forall hours | Enabled(System(t, Trimming(before)), DropHours(hours))
        ensures Sound(t.(hourly := t.hourly - hours))
      {
        HoursBehindTheBoundAreUnused(t, hours, before);
      }
    } else {
      var k :| k in t.observations && !CoverOutlives(t, k, before);
      assert CoveredIn(t.hourly, k.agentId, t.observations[k]);
      var hours := {HourKeyOf(k.agentId, t.observations[k])};
      assert Enabled(System(t, Trimming(before)), DropHours(hours));
      assert !CoveredIn(t.hourly - hours, k.agentId, t.observations[k]);
    }
  }

  /** An hourly row that ended before the bound covers no observation left. */
  lemma HoursBehindTheBoundAreUnused(t: Tables, hours: set<HourKey>, before: int)
    requires Sound(t) && TrimSafe(t, before)
    requires hours <= t.hourly.Keys && forall k <- hours :: t.hourly[k].lastObservedAt < before
    ensures Sound(t.(hourly := t.hourly - hours)) && TrimSafe(t.(hourly := t.hourly - hours), before)
  {
    var u := t.(hourly := t.hourly - hours);
    forall k <- u.observations
      ensures CoveredIn(u.hourly, k.agentId, u.observations[k]) && CoverOutlives(u, k, before)
    {
      assert CoveredIn(t.hourly, k.agentId, t.observations[k]) && CoverOutlives(t, k, before);
    }
  }

  /** One upload during the trim, whatever its age: the trim stays safe if and
      only if the upload is harmless by what can be seen before it. */
  lemma LateUploadIsSafeIff(t: Tables, w: Write, before: int)
    requires Sound(t) && TrimSafe(t, before)
    ensures TrimSafe(Apply(t, w), before) <==> HarmlessDuringTrim(t, w, before)
  {
    var u, row := Apply(t, w), Written(t, w);
    if row.Some? {
      assert u == PutRow(t, KeyOf(w), row.value);
      forall k <- u.observations ensures k != KeyOf(w) ==> CoverOutlives(u, k, before) {
        if k != KeyOf(w) { assert CoverOutlives(t, k, before); }
      }
      assert CoverOutlives(u, KeyOf(w), before) <==> HarmlessDuringTrim(t, w, before);
    }
  }

  /** So an upload that is not harmless can be uncovered by the trim under way,
      and only such an upload can. */
  lemma LateUploadUncoversIff(t: Tables, w: Write, before: int)
    requires Sound(t) && TrimSafe(t, before)
    ensures HarmlessDuringTrim(t, w, before)
            <==> forall hours :: Enabled(System(Apply(t, w), Trimming(before)), DropHours(hours))
                                 ==> Sound(Apply(t, w).(hourly := Apply(t, w).hourly - hours))
  {
    ApplyStaysSound(t, w);
    LateUploadIsSafeIff(t, w, before);
    TrimmingIsSafeIff(Apply(t, w), before);
  }

  lemma StepKeepsInv(s: System, e: Event)
    requires Inv(s) && Enabled(s, e)
    ensures Inv(Step(s, e))
  {
    match e
    case Upload(w) =>
      ApplyStaysSound(s.tables, w);
      if s.phase.Trimming? { LateUploadIsSafeIff(s.tables, w, s.phase.before); }
    case LastObservations =>
      if s.phase.Sweeping? {
        SweptIsTrimSafe(Step(s, e).tables, s.phase.before);
      }
    case DropHours(hours) =>
      HoursBehindTheBoundAreUnused(s.tables, hours, s.phase.before);
    case _ =>
  }

  ghost predicate IsRun(s: System, es: seq<Event>)
    decreases |es|
  {
    es == [] || (Enabled(s, es[0]) && IsRun(Step(s, es[0]), es[1..]))
  }

  function Run(s: System, es: seq<Event>): System
    decreases |es|
  {
    if es == [] then s else Run(Step(s, es[0]), es[1..])
  }

  lemma {:induction false} RunKeepsInv(s: System, es: seq<Event>)
    requires Inv(s) && IsRun(s, es)
    ensures Inv(Run(s, es))
    decreases |es|
  {
    if es != [] {
      StepKeepsInv(s, es[0]);
      RunKeepsInv(Step(s, es[0]), es[1..]);
    }
  }

  const EMPTY := System(Tables(map[], map[]), Idle)

  /** After any interleaving of uploads and retention passes, finished or not, a
      stored observation is spanned by the hourly row of its current endpoint,
      app and last-seen hour, and an hourly row was last seen inside its own hour. */
  lemma RollupCoversEveryRun(es: seq<Event>, k: ObsKey, h: HourKey)
    requires IsRun(EMPTY, es)
    ensures var t := Run(EMPTY, es).tables;
            && (k in t.observations ==>
                  var row := t.observations[k]; var hour := HourKeyOf(k.agentId, row);
                  && hour in t.hourly
                  && t.hourly[hour].firstObservedAt <= row.firstObservedAt
                  && row.lastObservedAt <= t.hourly[hour].lastObservedAt)
            && (h in t.hourly ==> h.hourStart <= t.hourly[h].lastObservedAt < h.hourStart + HOUR_MS)
  {
    RunKeepsInv(EMPTY, es);
    assert k in Run(EMPTY, es).tables.observations ==>
             CoveredIn(Run(EMPTY, es).tables.hourly, k.agentId, Run(EMPTY, es).tables.observations[k]);
  }

  // ------------------------------------------ what a pass leaves and counts

  function AcceptedIn(s: System, es: seq<Event>): nat
    decreases |es|
  {
    if es == [] then 0
    else (if es[0].Upload? && VerdictOf(s.tables, es[0].write) == Accepted then 1 else 0)
         + AcceptedIn(Step(s, es[0]), es[1..])
  }

  function DeletedIn(s: System, es: seq<Event>): nat
    decreases |es|
  {
    if es == [] then 0
    else |s.tables.observations.Keys - Step(s, es[0]).tables.observations.Keys| + DeletedIn(Step(s, es[0]), es[1..])
  }

  /** With uploads between its transactions a pass still accounts for every row. */
  lemma {:induction false} RowsAddUp(s: System, es: seq<Event>)
    ensures |Run(s, es).tables.observations.Keys| + DeletedIn(s, es) == |s.tables.observations.Keys| + AcceptedIn(s, es)
    decreases |es|
  {
    if es != [] {
      OneEventAddsUp(s, es[0]);
      RowsAddUp(Step(s, es[0]), es[1..]);
    }
  }

  lemma OneEventAddsUp(s: System, e: Event)
    ensures var before, after := s.tables.observations.Keys, Step(s, e).tables.observations.Keys;
            |after| + |before - after|
            == |before| + if e.Upload? && VerdictOf(s.tables, e.write) == Accepted then 1 else 0
  {
    var before, after := s.tables.observations.Keys, Step(s, e).tables.observations.Keys;
    if e.Upload? {
      KeysAfter(s.tables, e.write);
      assert before - after == {};
    } else {
      OtherEventsOnlyDelete(s, e);
      PartsAddUp(before, after);
    }
  }

  lemma OtherEventsOnlyDelete(s: System, e: Event)
    requires !e.Upload?
    ensures Step(s, e).tables.observations.Keys <= s.tables.observations.Keys
  {
  }

  predicate Mentions(e: Event, k: ObsKey) {
    e.Upload? && KeyOf(e.write) == k
  }

  /** The pass whose bound is `before` is under way. */
  predicate InPass(s: System, before: int) {
    s.phase == Sweeping(before) || s.phase == Trimming(before)
  }

  predicate IsStored(t: Tables, k: ObsKey, row: Row) {
    k in t.observations && t.observations[k] == row
  }

  /** Of the rows no upload mentions during a pass, those past the bound are gone
      once its sweep is over, those within are as they were, and none is new;
      whatever else arrives meanwhile. A row past the bound that is there after
      a finished sweep was mentioned by an upload during the pass. */
  lemma {:induction false} SweepIsExact(s: System, es: seq<Event>, k: ObsKey, before: int)
    requires IsRun(s, es) && InPass(s, before) && Run(s, es).phase == Trimming(before)
    requires forall e <- es :: !e.StartPrune? && !Mentions(e, k)
    requires s.phase.Trimming? && k in s.tables.observations ==> s.tables.observations[k].lastObservedAt >= before
    ensures k in Run(s, es).tables.observations
            <==> k in s.tables.observations && s.tables.observations[k].lastObservedAt >= before
    ensures k in Run(s, es).tables.observations ==> IsStored(Run(s, es).tables, k, s.tables.observations[k])
    decreases |es|
  {
    if es != [] {
      assert es[0] in es && forall e <- es[1..] :: e in es;
      if es[0] == StopPrune {
        IdleStays(Step(s, es[0]), es[1..]);
      } else {
        SweepIsExact(Step(s, es[0]), es[1..], k, before);
      }
    }
  }

  lemma {:induction false} IdleStays(s: System, es: seq<Event>)
    requires s.phase == Idle && IsRun(s, es) && forall e <- es :: !e.StartPrune?
    ensures Run(s, es).phase == Idle
    decreases |es|
  {
    if es != [] {
      assert es[0] in es && forall e <- es[1..] :: e in es;
      IdleStays(Step(s, es[0]), es[1..]);
    }
  }

  /** However a pass ends, no row within the bound goes: it stays and only fills up. */
  lemma {:induction false} PassKeepsRecentRows(s: System, es: seq<Event>, k: ObsKey, before: int)
    requires IsRun(s, es) && (InPass(s, before) || s.phase == Idle) && forall e <- es :: !e.StartPrune?
    requires k in s.tables.observations && s.tables.observations[k].lastObservedAt >= before
    ensures var t := Run(s, es).tables;
            k in t.observations && Grows(s.tables.observations[k], t.observations[k])
    decreases |es|
  {
    if es != [] {
      assert es[0] in es && forall e <- es[1..] :: e in es;
      var next := Step(s, es[0]);
      if es[0].Upload? { ApplyGrows(s.tables, es[0].write); }
      assert k in next.tables.observations && Grows(s.tables.observations[k], next.tables.observations[k]);
      PassKeepsRecentRows(next, es[1..], k, before);
    }
  }

  /** Such uploads exist: into empty tables, any storable report older than the bound. */
  lemma LateOldUploadUncovers(before: int, w: Write)
    requires PassesChecks(w) && w.report.lastObservedAt < before
    ensures var t := Tables(map[], map[]); var u := Apply(t, w);
            && Sound(t) && TrimSafe(t, before) && !HarmlessDuringTrim(t, w, before)
            && Enabled(System(u, Trimming(before)), DropHours(u.hourly.Keys))
            && !Sound(u.(hourly := u.hourly - u.hourly.Keys))
  {
    var u := Apply(Tables(map[], map[]), w);
    assert KeyOf(w) in u.observations;
    assert !CoveredIn(u.hourly - u.hourly.Keys, w.agentId, u.observations[KeyOf(w)]);
  }
}
