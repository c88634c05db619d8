/**
 At most one backup and one restore at a time (src/backup.js): two flags guard
 the runs; a restore waits for its safety backup, and no backup runs while an
 existing database is replaced.
 */
module BackupFlights {
  import opened Common

  /** Where a call of `restoreFromFile` is. `Awaiting` and `Replacing` name its safety backup's run. */
  datatype Stage =
    | Checking
    | Awaiting(run: nat)
    | Replacing(safety: Option<nat>)

  /** The two flags, and what is under way: the backups running, those ended
      whose `finally` has not cleared the flag yet, and the restores. `made` are
      the runs that ended with a checked backup. */
  datatype State = State(
    backupInFlight: Option<nat>,
    restoreInFlight: bool,
    running: set<nat>,
    clearing: set<nat>,
    restores: map<nat, Stage>,
    nextRun: nat,
    nextRestore: nat,
    made: set<nat>)

  const START := State(None, false, {}, {}, map[], 0, 0, {})

  datatype Event =
    | CreateBackup                       // the timer, a request, or a retry after a cleanup
    | BackupEnds(run: nat, made: bool)
    | FlagClears(run: nat)
    | RestoreRequested
    | SourceChecked(restore: nat, ok: bool, dbExists: bool)
    | SafetySettles(restore: nat)        // the restore wakes up from its await
    | RestoreSettles(restore: nat)

  /** Backups that have not settled for those who wait for them. */
  function Unsettled(s: State): set<nat> {
    s.running + s.clearing
  }

  predicate Enabled(s: State, e: Event) {
    match e
    case CreateBackup => true
    case BackupEnds(r, _) => r in s.running
    case FlagClears(r) => r in s.clearing
    case RestoreRequested => true
    case SourceChecked(x, _, _) => x in s.restores && s.restores[x] == Checking
    case SafetySettles(x) => x in s.restores && s.restores[x].Awaiting? && s.restores[x].run !in Unsettled(s)
    case RestoreSettles(x) => x in s.restores && s.restores[x].Replacing?
  }

  /** `createBackup`: refused during a restore unless the restore asks, shared when one runs. */
  function WithBackup(s: State, forRestore: bool): State {
    if s.restoreInFlight && !forRestore then s
    else if s.backupInFlight.Some? then s
    else s.(backupInFlight := Some(s.nextRun), running := s.running + {s.nextRun}, nextRun := s.nextRun + 1)
  }

  /** The restore returns or throws; its `finally` clears the flag. */
  function RestoreOver(s: State, x: nat): State {
    s.(restoreInFlight := false, restores := s.restores - {x})
  }

  function Step(s: State, e: Event): State
    requires Enabled(s, e)
  {
    match e
    case CreateBackup => WithBackup(s, false)
    case BackupEnds(r, made) =>
      s.(running := s.running - {r}, clearing := s.clearing + {r}, made := if made then s.made + {r} else s.made)
    case FlagClears(r) => s.(backupInFlight := None, clearing := s.clearing - {r})
    case RestoreRequested =>
      if s.restoreInFlight then s
      else s.(restoreInFlight := true, restores := s.restores[s.nextRestore := Checking], nextRestore := s.nextRestore + 1)
    case SourceChecked(x, ok, dbExists) =>
      if !ok then RestoreOver(s, x)
      else if !dbExists then s.(restores := s.restores[x := Replacing(None)])
      else
        var t := WithBackup(s, true);
        t.(restores := t.restores[x := Awaiting(t.backupInFlight.value)])
    case SafetySettles(x) =>
      var run := s.restores[x].run;
      if run in s.made then s.(restores := s.restores[x := Replacing(Some(run))]) else RestoreOver(s, x)
    case RestoreSettles(x) => RestoreOver(s, x)
  }

  predicate Possible(s: State, events: seq<Event>)
    decreases |events|
  {
    events == [] || (Enabled(s, events[0]) && Possible(Step(s, events[0]), events[1..]))
  }

  function Run(s: State, events: seq<Event>): State
    requires Possible(s, events)
    decreases |events|
  {
    if events == [] then s else Run(Step(s, events[0]), events[1..])
  }

  /** The backup flag names the one backup that has not settled. */
  predicate BackupFlagTells(s: State) {
    && (s.running !! s.clearing) && (s.made !! s.running)
    && (forall r <- Unsettled(s) :: s.backupInFlight == Some(r))
    && (s.backupInFlight.Some? ==> s.backupInFlight.value in Unsettled(s))
    && (forall r <- Unsettled(s) :: r < s.nextRun) && (forall r <- s.made :: r < s.nextRun)
  }

  predicate RestoreFlagTells(s: State) {
    && (s.restoreInFlight <==> s.restores != map[])
    && (forall x <- s.restores, y <- s.restores :: x == y)
    && (forall x <- s.restores :: x < s.nextRestore)
  }

  /** No backup but the one the restore waits for is under way beside a restore over a database. */
  predicate RestoresAreSafe(s: State) {
    forall x <- s.restores ::
      match s.restores[x]
      case Checking => true
      case Awaiting(run) => Unsettled(s) <= {run}
      case Replacing(safety) => safety.Some? ==> Unsettled(s) == {} && safety.value in s.made
  }

  predicate Inv(s: State) {
    BackupFlagTells(s) && RestoreFlagTells(s) && RestoresAreSafe(s)
  }

  lemma RestoreOverKeepsInv(s: State, x: nat)
    requires Inv(s) && x in s.restores
    ensures Inv(RestoreOver(s, x)) && RestoreOver(s, x).restores == map[]
  {
  }

  lemma StageKeepsFlag(s: State, x: nat, stage: Stage)
    requires RestoreFlagTells(s) && x in s.restores
    ensures RestoreFlagTells(s.(restores := s.restores[x := stage])) && s.restores[x := stage] == map[x := stage]
  {
    assert x in s.restores[x := stage];
  }

  lemma StepKeepsInv(s: State, e: Event)
    requires Inv(s) && Enabled(s, e)
    ensures Inv(Step(s, e))
  {
    match e
    case RestoreRequested =>
      if !s.restoreInFlight { assert s.nextRestore in Step(s, e).restores; }
    case SourceChecked(x, ok, dbExists) =>
      RestoreOverKeepsInv(s, x);
      StageKeepsFlag(s, x, Replacing(None));
      var t := WithBackup(s, true);
      StageKeepsFlag(t, x, Awaiting(t.backupInFlight.value));
    case SafetySettles(x) =>
      RestoreOverKeepsInv(s, x);
      StageKeepsFlag(s, x, Replacing(Some(s.restores[x].run)));
    case RestoreSettles(x) => RestoreOverKeepsInv(s, x);
    case _ =>
  }

  lemma {:induction false} RunKeepsInv(s: State, events: seq<Event>)
    requires Inv(s) && Possible(s, events)
    ensures Inv(Run(s, events))
    decreases |events|
  {
    if events != [] {
      StepKeepsInv(s, events[0]);
      RunKeepsInv(Step(s, events[0]), events[1..]);
    }
  }

  /** Over every interleaving at most one backup and one restore are under way,
      although each `finally` clears its flag without asking whose it is. */
  lemma OneOfEachAtATime(events: seq<Event>)
    requires Possible(START, events)
    ensures var s := Run(START, events);
            && |s.running| <= 1 && |s.restores| <= 1
            && (s.running != {} ==> s.backupInFlight.Some? && s.running == {s.backupInFlight.value})
            && (s.restores != map[] ==> s.restoreInFlight)
  {
    RunKeepsInv(START, events);
    var s := Run(START, events);
    if s.running != {} {
      assert s.running == {s.backupInFlight.value};
    }
    if s.restores != map[] {
      var x :| x in s.restores;
      assert s.restores == map[x := s.restores[x]];
    }
  }

  /** Over every interleaving, what each call comes to: a backup starts exactly when
      none is unsettled and no restore is under way, a restore exactly when none is;
      a refused source or a failed safety backup ends it, and otherwise it goes on. */
  lemma CallsAreAnswered(events: seq<Event>, x: nat, ok: bool, dbExists: bool)
    requires Possible(START, events)
    ensures var s := Run(START, events); var backup, restore := Step(s, CreateBackup), Step(s, RestoreRequested);
            && (if s.running == {} && s.clearing == {} && s.restores == map[]
                then backup.running == {s.nextRun} && backup.nextRun == s.nextRun + 1
                else backup == s)
            && (if s.restores == map[] then restore.restores == map[s.nextRestore := Checking] else restore == s)
    ensures var s := Run(START, events);
            Enabled(s, SourceChecked(x, ok, dbExists)) ==>
              var t := Step(s, SourceChecked(x, ok, dbExists));
              if !ok then t.restores == map[] && !t.restoreInFlight && t.running == s.running
              else if !dbExists then t.restores == map[x := Replacing(None)] && t.running == s.running
              else exists run: nat :: t.restores == map[x := Awaiting(run)] && Unsettled(t) == {run}
                                      && (Unsettled(s) == {} ==> run == s.nextRun) && (Unsettled(s) != {} ==> Unsettled(s) == {run})
    ensures var s := Run(START, events);
            Enabled(s, SafetySettles(x)) ==>
              var t, run := Step(s, SafetySettles(x)), s.restores[x].run;
              if run in s.made then t.restores == map[x := Replacing(Some(run))] else t.restores == map[] && !t.restoreInFlight
  {
    RunKeepsInv(START, events);
    var s := Run(START, events);
    FlagsTell(s);
    if x in s.restores {
      assert s.restores == map[x := s.restores[x]];
    }
    if Enabled(s, SourceChecked(x, ok, dbExists)) && ok && dbExists {
      var t := Step(s, SourceChecked(x, ok, dbExists));
      var run := t.backupInFlight.value;
      assert Unsettled(t) == {run};
      assert t.restores == map[x := Awaiting(run)];
    }
  }

  lemma FlagsTell(s: State)
    requires Inv(s)
    ensures s.backupInFlight.Some? ==> Unsettled(s) == {s.backupInFlight.value}
    ensures s.backupInFlight.None? ==> Unsettled(s) == {} && s.running == {} && s.clearing == {}
    ensures s.restoreInFlight <==> s.restores != map[]
  {
    if s.backupInFlight.None? {
      assert forall r :: r !in Unsettled(s);
    }
  }

  /** Over every interleaving: while an existing database is replaced or rolled
      back, its checked safety backup is there and no backup runs. */
  lemma NoBackupOverlapsAReplacement(events: seq<Event>, x: nat)
    requires Possible(START, events)
    ensures var s := Run(START, events);
            x in s.restores && s.restores[x].Replacing? && s.restores[x].safety.Some? ==>
              s.running == {} && s.restores[x].safety.value in s.made
  {
    RunKeepsInv(START, events);
  }

  /** An existing database is only ever replaced out of a settled wait for its safety backup. */
  lemma ReplacingFollowsTheSafetyBackup(s: State, e: Event, x: nat)
    requires Inv(s) && Enabled(s, e) && x in Step(s, e).restores
    requires Step(s, e).restores[x].Replacing? && Step(s, e).restores[x].safety.Some?
    requires x in s.restores ==> !s.restores[x].Replacing?
    ensures x in s.restores && s.restores[x].Awaiting? && Unsettled(s) == {} && s.restores[x].run in s.made
  {
  }

  /** The events may happen, and restore `x` neither settles nor gives up. */
  predicate StaysInFlight(s: State, events: seq<Event>, x: nat)
    decreases |events|
  {
    && x in s.restores
    && (events == [] || (Enabled(s, events[0]) && StaysInFlight(Step(s, events[0]), events[1..], x)))
  }

  predicate SafetyIs(s: State, x: nat, run: nat) {
    x in s.restores && (s.restores[x] == Awaiting(run) || s.restores[x] == Replacing(Some(run)))
  }

  /** While a restore is in flight, whatever happens starts at most one backup,
      and that is its own safety backup; the run it waits for stays the same. */
  lemma {:induction false} OnlyTheSafetyBackupStarts(s: State, events: seq<Event>, x: nat)
    requires Inv(s) && StaysInFlight(s, events, x) && Possible(s, events)
    ensures var t := Run(s, events);
            && t.nextRun <= s.nextRun + 1
            && (s.restores[x] != Checking ==> t.nextRun == s.nextRun)
            && (t.nextRun > s.nextRun ==> SafetyIs(t, x, s.nextRun))
            && (forall run: nat :: SafetyIs(s, x, run) ==> SafetyIs(t, x, run))
    decreases |events|
  {
    if events != [] {
      StepKeepsInv(s, events[0]);
      OnlyTheSafetyBackupStarts(Step(s, events[0]), events[1..], x);
    }
  }

  /** Callers while a run has not settled get that run; a new one starts only after it has. */
  lemma {:induction false} OneRunAtATime(s: State, events: seq<Event>)
    requires Inv(s) && Possible(s, events) && s.backupInFlight.Some?
    requires forall e <- events :: !e.FlagClears?
    ensures Run(s, events).backupInFlight == s.backupInFlight && Run(s, events).nextRun == s.nextRun
    decreases |events|
  {
    if events != [] {
      assert events[0] in events && forall e <- events[1..] :: e in events;
      StepKeepsInv(s, events[0]);
      OneRunAtATime(Step(s, events[0]), events[1..]);
    }
  }

  class Flights {
    var backupInFlight: Option<nat>
    var restoreInFlight: bool
    var running: set<nat>
    var clearing: set<nat>
    var restores: map<nat, Stage>
    var nextRun: nat
    var nextRestore: nat
    var made: set<nat>

    constructor ()
      ensures View() == START
    {
      backupInFlight, restoreInFlight, running, clearing := None, false, {}, {};
      restores, nextRun, nextRestore, made := map[], 0, 0, {};
    }

    function View(): State
      reads this
    {
      State(backupInFlight, restoreInFlight, running, clearing, restores, nextRun, nextRestore, made)
    }

    /** Returns the run the caller waits for, or None when it gets nothing. */
    method CreateBackup(forRestore: bool) returns (run: Option<nat>)
      modifies this`backupInFlight, this`running, this`nextRun
      ensures View() == WithBackup(old(View()), forRestore)
      ensures run == if restoreInFlight && !forRestore then None else backupInFlight
    {
      if restoreInFlight && !forRestore {
        return None;
      }
      if backupInFlight.Some? {
        return backupInFlight;
      }
      run := Some(nextRun);
      running, nextRun := running + {nextRun}, nextRun + 1;
      backupInFlight := run;
    }

    method BackupEnds(r: nat, ok: bool)
      requires Enabled(View(), Event.BackupEnds(r, ok))
      modifies this`running, this`clearing, this`made
      ensures View() == Step(old(View()), Event.BackupEnds(r, ok))
    {
      running, clearing := running - {r}, clearing + {r};
      if ok {
        made := made + {r};
      }
    }

    method FlagClears(r: nat)
      requires Enabled(View(), Event.FlagClears(r))
      modifies this`backupInFlight, this`clearing
      ensures View() == Step(old(View()), Event.FlagClears(r))
    {
      clearing := clearing - {r};
      backupInFlight := None;
    }

    /** The restore begun, or None when one is running. */
    method RequestRestore() returns (restore: Option<nat>)
      modifies this`restoreInFlight, this`restores, this`nextRestore
      ensures View() == Step(old(View()), RestoreRequested)
      ensures restore == if old(restoreInFlight) then None else Some(old(nextRestore))
    {
      if restoreInFlight {
        return None;
      }
      restoreInFlight := true;
      restore := Some(nextRestore);
      restores, nextRestore := restores[nextRestore := Checking], nextRestore + 1;
    }

    method SourceChecked(x: nat, ok: bool, dbExists: bool)
      requires Enabled(View(), Event.SourceChecked(x, ok, dbExists))
      modifies this
      ensures View() == Step(old(View()), Event.SourceChecked(x, ok, dbExists))
    {
      if !ok {
        Over(x);
      } else if dbExists {
        var run := CreateBackup(true);
        restores := restores[x := Awaiting(run.value)];
      } else {
        restores := restores[x := Replacing(None)];
      }
    }

    method SafetySettles(x: nat) returns (begun: bool)
      requires Enabled(View(), Event.SafetySettles(x))
      modifies this`restoreInFlight, this`restores
      ensures View() == Step(old(View()), Event.SafetySettles(x))
      ensures begun == (x in restores)
    {
      var run := restores[x].run;
      begun := run in made;
      if begun {
        restores := restores[x := Replacing(Some(run))];
      } else {
        Over(x);
      }
    }

    method RestoreSettles(x: nat)
      requires Enabled(View(), Event.RestoreSettles(x))
      modifies this`restoreInFlight, this`restores
      ensures View() == Step(old(View()), Event.RestoreSettles(x))
    {
      Over(x);
    }

    method Over(x: nat)
      modifies this`restoreInFlight, this`restores
      ensures View() == RestoreOver(old(View()), x)
    {
      restoreInFlight, restores := false, restores - {x};
    }
  }
}
