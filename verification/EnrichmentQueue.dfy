/**
 The two-priority work queue behind address enrichment (src/enrichment-queue.js):
 one runner, foreground before background, and a background delay that a
 foreground arrival cuts short.
 */
module EnrichmentQueue {
  import opened Common

  const FOREGROUND_BATCH_SIZE := 250
  const BACKGROUND_BATCH_SIZE := 25

  type Ip = string

  // ----------------------------------------------------------------- queues

  /** Two sets in insertion order. */
  datatype Queues = Queues(foreground: seq<Ip>, background: seq<Ip>)

  ghost predicate WellFormed(q: Queues) {
    NoRepeats(q.foreground) && NoRepeats(q.background) && (forall ip <- q.foreground :: ip !in q.background)
  }

  function Waiting(q: Queues): multiset<Ip> {
    multiset(q.foreground) + multiset(q.background)
  }

  function Without(q: seq<Ip>, ip: Ip): seq<Ip> {
    if q == [] then []
    else if q[0] == ip then q[1..]
    else [q[0]] + Without(q[1..], ip)
  }

  function Added(q: seq<Ip>, ip: Ip): seq<Ip> {
    if ip in q then q else q + [ip]
  }

  function PutForeground(q: Queues, ip: Ip): Queues {
    Queues(Added(q.foreground, ip), Without(q.background, ip))
  }

  function PutBackground(q: Queues, ip: Ip): Queues {
    if ip in q.foreground then q else q.(background := Added(q.background, ip))
  }

  function Put(q: Queues, ip: Ip, foreground: bool): Queues {
    if foreground then PutForeground(q, ip) else PutBackground(q, ip)
  }

  function PutAll(q: Queues, ips: seq<Ip>, foreground: bool): Queues {
    if ips == [] then q else Put(PutAll(q, ips[..|ips| - 1], foreground), ips[|ips| - 1], foreground)
  }

  /** The addresses that were in neither queue when they came. */
  function NewIn(q: Queues, ips: seq<Ip>, foreground: bool): multiset<Ip> {
    if ips == [] then multiset{}
    else
      var before, ip := PutAll(q, ips[..|ips| - 1], foreground), ips[|ips| - 1];
      NewIn(q, ips[..|ips| - 1], foreground)
      + if Queued(before, ip) then multiset{} else multiset{ip}
  }

  lemma {:induction false} WithoutRemoves(q: seq<Ip>, ip: Ip)
    requires NoRepeats(q)
    ensures NoRepeats(Without(q, ip)) && multiset(Without(q, ip)) == multiset(q) - multiset{ip}
    ensures ip !in Without(q, ip) && forall x <- Without(q, ip) :: x in q
  {
    if q != [] {
      WithoutRemoves(q[1..], ip);
      assert q == [q[0]] + q[1..];
      assert forall x <- q[1..] :: x != q[0];
      if q[0] != ip {
        var rest := Without(q[1..], ip);
        NewInFront(q[0], rest);
        assert multiset([q[0]] + rest) == multiset{q[0]} + multiset(rest);
      }
    }
  }

  lemma NewInFront(x: Ip, rest: seq<Ip>)
    requires NoRepeats(rest) && x !in rest
    ensures NoRepeats([x] + rest)
    ensures forall y <- [x] + rest :: y == x || y in rest
  {
    OneInFront(x, rest);
    assert forall i :: 1 <= i < |[x] + rest| ==> ([x] + rest)[i] in rest;
  }

  lemma AddedOnce(q: seq<Ip>, ip: Ip)
    requires NoRepeats(q)
    ensures NoRepeats(Added(q, ip)) && ip in Added(q, ip)
    ensures multiset(Added(q, ip)) == multiset(q) + if ip in q then multiset{} else multiset{ip}
    ensures forall x <- Added(q, ip) :: x == ip || x in q
  {
    assert (q + [ip])[|q|] == ip;
  }

  predicate Queued(q: Queues, ip: Ip) {
    ip in q.foreground || ip in q.background
  }

  lemma PutForegroundKeepsQueues(q: Queues, ip: Ip)
    requires WellFormed(q)
    ensures WellFormed(PutForeground(q, ip))
    ensures Waiting(PutForeground(q, ip)) == Waiting(q) + if Queued(q, ip) then multiset{} else multiset{ip}
  {
    WithoutRemoves(q.background, ip);
    AddedOnce(q.foreground, ip);
    OnceIn(q.background, ip);
  }

  lemma PutBackgroundKeepsQueues(q: Queues, ip: Ip)
    requires WellFormed(q)
    ensures WellFormed(PutBackground(q, ip))
    ensures Waiting(PutBackground(q, ip)) == Waiting(q) + if Queued(q, ip) then multiset{} else multiset{ip}
  {
    AddedOnce(q.background, ip);
  }

  lemma PutKeepsQueues(q: Queues, ip: Ip, foreground: bool)
    requires WellFormed(q)
    ensures WellFormed(Put(q, ip, foreground))
    ensures Waiting(Put(q, ip, foreground)) == Waiting(q) + if Queued(q, ip) then multiset{} else multiset{ip}
  {
    if foreground {
      PutForegroundKeepsQueues(q, ip);
    } else {
      PutBackgroundKeepsQueues(q, ip);
    }
  }

  lemma {:induction false} OnceIn(q: seq<Ip>, ip: Ip)
    requires NoRepeats(q)
    ensures multiset(q)[ip] == if ip in q then 1 else 0
  {
    if q != [] {
      OnceIn(q[1..], ip);
      assert q == [q[0]] + q[1..];
      assert forall x <- q[1..] :: x != q[0];
    }
  }

  /** Queueing keeps the queues apart and free of repeats, and adds exactly the new addresses. */
  lemma {:induction false} PutAllKeepsQueues(q: Queues, ips: seq<Ip>, foreground: bool)
    requires WellFormed(q)
    ensures WellFormed(PutAll(q, ips, foreground))
    ensures Waiting(PutAll(q, ips, foreground)) == Waiting(q) + NewIn(q, ips, foreground)
  {
    if ips != [] {
      PutAllKeepsQueues(q, ips[..|ips| - 1], foreground);
      PutKeepsQueues(PutAll(q, ips[..|ips| - 1], foreground), ips[|ips| - 1], foreground);
    }
  }

  // ------------------------------------------------------------------- runs

  /** Where a call of the runner stands: before its loop condition, awaiting the
      lookups of a batch, or awaiting the delay or the promise `wakeForeground` resolves. */
  datatype Activity =
    | Ready
    | Working(batch: seq<Ip>, foreground: bool)
    | Delaying(promise: nat)

  /** The module's variables, the promises resolved and the calls of the runner
      under way. `added` and `taken` record every queueing of a new address and
      every address put in a batch. */
  datatype State = State(
    queues: Queues,
    running: bool,
    wakeForeground: Option<nat>,
    resolved: set<nat>,
    runners: map<nat, Activity>,
    promises: nat,
    started: nat,
    added: multiset<Ip>,
    taken: multiset<Ip>)

  const START := State(Queues([], []), false, None, {}, map[], 0, 0, multiset{}, multiset{})

  datatype Event =
    | Arrive(ips: seq<Ip>, foreground: bool)
    | Continue(runner: nat)
    | BatchDone(runner: nat, delay: bool)      // the lookups settle; whether a delay is configured
    | BatchFails(runner: nat)
    | DelayOver(runner: nat)                   // the timer wins the race
    | Woken(runner: nat)                       // the resolved promise does

  predicate Enabled(s: State, e: Event) {
    match e
    case Arrive(_, _) => true
    case Continue(r) => r in s.runners && s.runners[r] == Ready
    case BatchDone(r, _) => r in s.runners && s.runners[r].Working?
    case BatchFails(r) => r in s.runners && s.runners[r].Working?
    case DelayOver(r) => r in s.runners && s.runners[r].Delaying?
    case Woken(r) => r in s.runners && s.runners[r].Delaying? && s.runners[r].promise in s.resolved
  }

  predicate Empty(q: Queues) {
    q.foreground == [] && q.background == []
  }

  function BatchOf(q: Queues): seq<Ip> {
    if q.foreground != [] then q.foreground[..Min(FOREGROUND_BATCH_SIZE, |q.foreground|)]
    else q.background[..Min(BACKGROUND_BATCH_SIZE, |q.background|)]
  }

  function AfterBatch(q: Queues): Queues {
    if q.foreground != [] then q.(foreground := q.foreground[Min(FOREGROUND_BATCH_SIZE, |q.foreground|)..])
    else q.(background := q.background[Min(BACKGROUND_BATCH_SIZE, |q.background|)..])
  }

  /** `startQueue`. */
  function Started(s: State): State {
    if s.running then s
    else s.(running := true, runners := s.runners[s.started := Ready], started := s.started + 1)
  }

  /** `if (wakeForeground) wakeForeground()`. */
  function CalledWake(s: State): State {
    match s.wakeForeground
    case Some(p) => s.(resolved := s.resolved + {p})
    case None => s
  }

  /** The runner's `finally`. */
  function Ended(s: State, r: nat): State {
    var t := s.(running := false, runners := s.runners - {r});
    if Empty(t.queues) then t else Started(t)
  }

  /** The `finally` of the wait. */
  function AfterWait(s: State, r: nat, p: nat): State {
    s.(wakeForeground := if s.wakeForeground == Some(p) then None else s.wakeForeground, runners := s.runners[r := Ready])
  }

  function Step(s: State, e: Event): State
    requires Enabled(s, e)
  {
    match e
    case Arrive(ips, foreground) =>
      var t := s.(queues := PutAll(s.queues, ips, foreground), added := s.added + NewIn(s.queues, ips, foreground));
      Started(if foreground then CalledWake(t) else t)
    case Continue(r) =>
      if Empty(s.queues) then Ended(s, r)
      else
        var batch := BatchOf(s.queues);
        s.(queues := AfterBatch(s.queues), runners := s.runners[r := Working(batch, s.queues.foreground != [])],
           taken := s.taken + multiset(batch))
    case BatchDone(r, delay) =>
      if !s.runners[r].foreground && s.queues.background != [] && delay && s.queues.foreground == [] then
        s.(wakeForeground := Some(s.promises), runners := s.runners[r := Delaying(s.promises)], promises := s.promises + 1)
      else s.(runners := s.runners[r := Ready])
    case BatchFails(r) => Ended(s, r)
    case DelayOver(r) => AfterWait(s, r, s.runners[r].promise)
    case Woken(r) => AfterWait(s, r, s.runners[r].promise)
  }

  predicate Possible(s: State, events: seq<Event>)
    decreases |events|
  {
    events == [] || (Enabled(s, events[0]) && Possible(Step(s, events[0]), events[1..]))
  }

  function Run(s: State, events: seq<Event>): State
    requires Possible(s, events)
    decreases |events|
  {
    if events == [] then s else Run(Step(s, events[0]), events[1..])
  }

  /** The flag tells the truth, and there is one runner at most. */
  ghost predicate OneRunner(s: State) {
    && (s.running <==> s.runners != map[])
    && (forall q <- s.runners, r <- s.runners :: q == r)
    && (forall r <- s.runners :: r < s.started)
    && (!Empty(s.queues) ==> s.running)
  }

  /** The callback is there exactly while a runner waits for it, and no runner
      waits on with foreground work in the queue unless its promise is resolved. */
  ghost predicate WakesReach(s: State) {
    && (forall r <- s.runners :: s.runners[r].Delaying? ==> s.wakeForeground == Some(s.runners[r].promise))
    && (s.wakeForeground.Some? ==> exists r <- s.runners :: s.runners[r] == Delaying(s.wakeForeground.value))
    && (forall r <- s.runners :: s.runners[r].Delaying? && s.queues.foreground != [] ==> s.runners[r].promise in s.resolved)
  }

  ghost predicate Inv(s: State) {
    && WellFormed(s.queues)
    && s.added == s.taken + Waiting(s.queues)
    && OneRunner(s) && WakesReach(s)
  }

  lemma SliceOfDistinct(q: seq<Ip>, n: nat)
    requires n <= |q| && NoRepeats(q)
    ensures NoRepeats(q[n..]) && multiset(q) == multiset(q[..n]) + multiset(q[n..])
    ensures forall x <- q[n..] :: x in q
  {
    assert q == q[..n] + q[n..];
  }

  lemma TakingKeepsQueues(q: Queues)
    requires WellFormed(q) && !Empty(q)
    ensures WellFormed(AfterBatch(q)) && Waiting(q) == multiset(BatchOf(q)) + Waiting(AfterBatch(q))
    ensures |AfterBatch(q).foreground| + |AfterBatch(q).background| < |q.foreground| + |q.background|
  {
    SliceOfDistinct(q.foreground, Min(FOREGROUND_BATCH_SIZE, |q.foreground|));
    SliceOfDistinct(q.background, Min(BACKGROUND_BATCH_SIZE, |q.background|));
  }

  lemma {:induction false} StaleLeavesForeground(q: Queues, ips: seq<Ip>)
    ensures PutAll(q, ips, false).foreground == q.foreground
  {
    if ips != [] {
      StaleLeavesForeground(q, ips[..|ips| - 1]);
    }
  }

  lemma StartedKeepsRunner(s: State)
    requires s.running <==> s.runners != map[]
    requires forall q <- s.runners, r <- s.runners :: q == r
    requires forall r <- s.runners :: r < s.started
    requires WakesReach(s)
    ensures OneRunner(Started(s)) && WakesReach(Started(s))
  {
    var t := Started(s);
    if !s.running {
      assert s.wakeForeground == None && t.runners == map[s.started := Ready];
      assert s.started in t.runners;
    }
  }

  lemma ArrivalKeepsInv(s: State, ips: seq<Ip>, foreground: bool)
    requires Inv(s)
    ensures Inv(Step(s, Arrive(ips, foreground)))
  {
    PutAllKeepsQueues(s.queues, ips, foreground);
    if !foreground { StaleLeavesForeground(s.queues, ips); }
    var t := s.(queues := PutAll(s.queues, ips, foreground), added := s.added + NewIn(s.queues, ips, foreground));
    StartedKeepsRunner(if foreground then CalledWake(t) else t);
  }

  lemma EndingKeepsInv(s: State, r: nat)
    requires Inv(s) && r in s.runners && !s.runners[r].Delaying?
    ensures Inv(Ended(s, r))
  {
    var t := s.(running := false, runners := s.runners - {r});
    assert t.runners == map[];
    assert s.wakeForeground == None;
    if !Empty(t.queues) {
      StartedKeepsRunner(t);
    }
  }

  /** The only runner changes what it does. */
  lemma OnlyRunner(s: State, r: nat, activity: Activity)
    requires OneRunner(s) && r in s.runners
    ensures s.runners[r := activity] == map[r := activity]
  {
  }

  lemma BatchKeepsInv(s: State, r: nat)
    requires Inv(s) && Enabled(s, Continue(r)) && !Empty(s.queues)
    ensures Inv(Step(s, Continue(r)))
  {
    TakingKeepsQueues(s.queues);
    OnlyRunner(s, r, Working(BatchOf(s.queues), s.queues.foreground != []));
  }

  lemma DoneKeepsInv(s: State, r: nat, delay: bool)
    requires Inv(s) && Enabled(s, BatchDone(r, delay))
    ensures Inv(Step(s, BatchDone(r, delay)))
  {
    OnlyRunner(s, r, Delaying(s.promises));
    OnlyRunner(s, r, Ready);
  }

  lemma WaitOverKeepsInv(s: State, r: nat)
    requires Inv(s) && Enabled(s, DelayOver(r))
    ensures Inv(AfterWait(s, r, s.runners[r].promise))
  {
    OnlyRunner(s, r, Ready);
  }

  lemma StepKeepsInv(s: State, e: Event)
    requires Inv(s) && Enabled(s, e)
    ensures Inv(Step(s, e))
  {
    match e
    case Arrive(ips, foreground) => ArrivalKeepsInv(s, ips, foreground);
    case Continue(r) =>
      if Empty(s.queues) {
        EndingKeepsInv(s, r);
      } else {
        BatchKeepsInv(s, r);
      }
    case BatchDone(r, delay) => DoneKeepsInv(s, r, delay);
    case BatchFails(r) => EndingKeepsInv(s, r);
    case DelayOver(r) => WaitOverKeepsInv(s, r);
    case Woken(r) => WaitOverKeepsInv(s, r);
  }

  lemma {:induction false} RunKeepsInv(s: State, events: seq<Event>)
    requires Inv(s) && Possible(s, events)
    ensures Inv(Run(s, events))
    decreases |events|
  {
    if events != [] {
      StepKeepsInv(s, events[0]);
      RunKeepsInv(Step(s, events[0]), events[1..]);
    }
  }

  /** Over every run: the queues are disjoint, every new queueing of an address
      is either still waiting or went into exactly one batch, and whatever waits
      has a runner. */
  lemma NothingIsLostOrDoubled(events: seq<Event>)
    requires Possible(START, events)
    ensures var s := Run(START, events);
            && (forall ip <- s.queues.foreground :: ip !in s.queues.background)
            && s.added == s.taken + multiset(s.queues.foreground) + multiset(s.queues.background)
            && (s.queues.foreground != [] || s.queues.background != [] ==> s.runners != map[])
  {
    RunKeepsInv(START, events);
  }

  /** Over every run no two calls of the runner are under way at once. */
  lemma OneRunnerAtATime(events: seq<Event>, q: nat, r: nat)
    requires Possible(START, events) && q in Run(START, events).runners && r in Run(START, events).runners
    ensures q == r && Run(START, events).running
  {
    RunKeepsInv(START, events);
  }

  /** No wake-up is lost: over every run, a runner that waits out its delay while
      a foreground address is queued has had its promise resolved, whether the
      address came during the wait or between the resolution and the resumption. */
  lemma NoWakeUpIsLost(events: seq<Event>, r: nat)
    requires Possible(START, events)
    ensures var s := Run(START, events);
            r in s.runners && s.runners[r].Delaying? && s.queues.foreground != [] ==> Enabled(s, Woken(r))
  {
    RunKeepsInv(START, events);
  }

  /** From the moment a foreground address is queued until the next batch, however
      many addresses arrive and whatever settles meanwhile: a runner in its delay
      can leave it at once, none begins one, and the next batch is a foreground batch. */
  lemma {:induction false} ForegroundGoesNext(s: State, events: seq<Event>, r: nat, delay: bool)
    requires Inv(s) && s.queues.foreground != [] && Possible(s, events)
    requires forall i :: 0 <= i < |events| ==> !events[i].Continue?
    ensures var t := Run(s, events);
            && t.queues.foreground != []
            && (r in t.runners && t.runners[r].Delaying? ==> Enabled(t, Woken(r)))
            && (Enabled(t, BatchDone(r, delay)) ==> Step(t, BatchDone(r, delay)).runners[r] == Ready)
            && (Enabled(t, Continue(r)) ==>
                  var next := Step(t, Continue(r)).runners[r];
                  next.Working? && next.foreground && next.batch != [] && next.batch <= t.queues.foreground)
    decreases |events|
  {
    if events != [] {
      StepKeepsInv(s, events[0]);
      if events[0].Arrive? {
        ForegroundStaysQueued(s.queues, events[0].ips, events[0].foreground);
      }
      ForegroundGoesNext(Step(s, events[0]), events[1..], r, delay);
    }
  }

  /** Over every run: the runner delays exactly between two background batches, when a delay
      is configured and no foreground address came; it stops exactly when nothing waits or
      its lookups fail, and a new call takes over at once if anything does wait. */
  lemma DelaysAndEndsIff(events: seq<Event>, e: Event, r: nat)
    requires Possible(START, events) && Enabled(Run(START, events), e) && r in Run(START, events).runners
    ensures var s := Run(START, events); var t := Step(s, e);
            && (r in t.runners && t.runners[r].Delaying? && !s.runners[r].Delaying? <==>
                  && e == BatchDone(r, true) && s.runners[r].Working? && !s.runners[r].foreground
                  && s.queues.foreground == [] && s.queues.background != [])
            && (r !in t.runners <==>
                  e == BatchFails(r) || (e == Continue(r) && s.queues.foreground == [] && s.queues.background == []))
            && (r !in t.runners ==>
                  if s.queues.foreground == [] && s.queues.background == [] then t.runners == map[] && !t.running
                  else exists q: nat :: t.runners == map[q := Ready] && t.running)
            && (e == Continue(r) && r in t.runners ==>
                  var batch := t.runners[r].batch;
                  if s.queues.foreground != []
                  then batch == s.queues.foreground[..Min(250, |s.queues.foreground|)]
                  else batch == s.queues.background[..Min(25, |s.queues.background|)])
  {
    RunKeepsInv(START, events);
    var s := Run(START, events);
    OnlyRunner(s, r, s.runners[r]);
    assert s.runners - {r} == map[];
    if r !in Step(s, e).runners && !Empty(s.queues) {
      assert Step(s, e).runners == map[s.started := Ready];
    }
  }

  lemma {:induction false} ForegroundStaysQueued(q: Queues, ips: seq<Ip>, foreground: bool)
    requires q.foreground != []
    ensures PutAll(q, ips, foreground).foreground != []
  {
    if ips != [] {
      ForegroundStaysQueued(q, ips[..|ips| - 1], foreground);
    }
  }

  // -------------------------------------------------------------- draining

  function Rank(a: Activity): nat {
    match a case Ready => 1 case Delaying(_) => 2 case Working(_, _) => 3
  }

  ghost function Load(runners: map<nat, Activity>): nat {
    if runners == map[] then 0
    else
      var r :| r in runners;
      Rank(runners[r])
  }

  /** What is left to do: at most four steps for each address waiting. */
  ghost function Work(s: State): nat {
    4 * (|s.queues.foreground| + |s.queues.background|) + Load(s.runners)
  }

  lemma LoadIsItsRank(runners: map<nat, Activity>, r: nat)
    requires r in runners && forall q <- runners :: q == r
    ensures Load(runners) == Rank(runners[r])
  {
  }

  lemma EndingIsProgress(s: State, r: nat)
    requires Inv(s) && r in s.runners && !s.runners[r].Delaying?
    requires s.runners[r] == Ready ==> Empty(s.queues)
    ensures Work(Ended(s, r)) < Work(s)
  {
    LoadIsItsRank(s.runners, r);
    assert s.runners - {r} == map[];
    if !Empty(s.queues) {
      LoadIsItsRank(map[s.started := Ready], s.started);
      assert Ended(s, r).runners == map[s.started := Ready];
    }
  }

  lemma EveryStepIsProgress(s: State, e: Event)
    requires Inv(s) && Enabled(s, e) && !e.Arrive?
    ensures Work(Step(s, e)) < Work(s)
  {
    var r, t := e.runner, Step(s, e);
    if e.BatchFails? || (e.Continue? && Empty(s.queues)) {
      EndingIsProgress(s, r);
    } else {
      OnlyRunner(s, r, t.runners[r]);
      LoadIsItsRank(s.runners, r);
      LoadIsItsRank(t.runners, r);
      if e.Continue? {
        TakingKeepsQueues(s.queues);
      }
    }
  }

  /** Once arrivals stop the runner stops after at most `Work` steps, whichever
      lookups fail, and it stops only with both queues empty. */
  lemma {:induction false} DrainEnds(s: State, events: seq<Event>)
    requires Inv(s) && Possible(s, events) && forall i :: 0 <= i < |events| ==> !events[i].Arrive?
    ensures |events| <= Work(s)
    ensures Run(s, events).runners == map[] ==> Empty(Run(s, events).queues)
    ensures Run(s, events).runners != map[] ==> exists e: Event :: !e.Arrive? && Enabled(Run(s, events), e)
    decreases |events|
  {
    if events == [] {
      NextStep(s);
    } else {
      EveryStepIsProgress(s, events[0]);
      StepKeepsInv(s, events[0]);
      DrainEnds(Step(s, events[0]), events[1..]);
    }
  }

  lemma NextStep(s: State)
    ensures s.runners != map[] ==> exists e: Event :: !e.Arrive? && Enabled(s, e)
  {
    if s.runners != map[] {
      var r :| r in s.runners;
      match s.runners[r]
      case Ready => assert Enabled(s, Continue(r));
      case Delaying(_) => assert Enabled(s, DelayOver(r));
      case Working(_, _) => assert Enabled(s, BatchFails(r));
    }
  }

  // --------------------------------------------------------------- the object

  class EnrichmentQueue {
    var foregroundQueue: seq<Ip>
    var backgroundQueue: seq<Ip>
    var enrichmentQueueRunning: bool
    var wakeForeground: Option<nat>
    var resolved: set<nat>
    var runners: map<nat, Activity>
    var promises: nat
    var started: nat
    ghost var added: multiset<Ip>
    ghost var taken: multiset<Ip>

    constructor ()
      ensures View() == START
    {
      foregroundQueue, backgroundQueue, enrichmentQueueRunning, wakeForeground := [], [], false, None;
      resolved, runners, promises, started, added, taken := {}, map[], 0, 0, multiset{}, multiset{};
    }

    function BothQueues(): Queues
      reads this
    {
      Queues(foregroundQueue, backgroundQueue)
    }

    ghost function View(): State
      reads this
    {
      State(BothQueues(), enrichmentQueueRunning, wakeForeground, resolved, runners, promises, started, added, taken)
    }

    method StartQueue()
      modifies this`enrichmentQueueRunning, this`runners, this`started
      ensures View() == Started(old(View()))
    {
      if enrichmentQueueRunning {
        return;
      }
      enrichmentQueueRunning := true;
      runners, started := runners[started := Ready], started + 1;
    }

    method QueueConnectionEnrichment(ips: seq<Ip>)
      modifies this
      ensures View() == Step(old(View()), Arrive(ips, true))
    {
      PutForegroundAll(ips);
      ghost var queued := View();
      CallWake();
      assert View() == CalledWake(queued);
      StartQueue();
    }

    method CallWake()
      modifies this`resolved
      ensures View() == CalledWake(old(View()))
    {
      if wakeForeground.Some? {
        resolved := resolved + {wakeForeground.value};
      }
    }

    method PutForegroundAll(ips: seq<Ip>)
      modifies this`foregroundQueue, this`backgroundQueue, this`added
      ensures BothQueues() == PutAll(old(BothQueues()), ips, true)
      ensures added == old(added) + NewIn(old(BothQueues()), ips, true)
    {
      ghost var before := BothQueues();
      for i := 0 to |ips|
        invariant BothQueues() == PutAll(before, ips[..i], true)
        invariant added == old(added)
      {
        assert ips[..i + 1][..i] == ips[..i];
        backgroundQueue := Without(backgroundQueue, ips[i]);
        foregroundQueue := Added(foregroundQueue, ips[i]);
      }
      assert ips[..|ips|] == ips;
      added := added + NewIn(before, ips, true);
    }

    method QueueStaleConnectionEnrichment(ips: seq<Ip>)
      modifies this
      ensures View() == Step(old(View()), Arrive(ips, false))
    {
      ghost var s := View();
      for i := 0 to |ips|
        invariant View() == s.(queues := PutAll(s.queues, ips[..i], false))
      {
        assert ips[..i + 1][..i] == ips[..i];
        if ips[i] !in foregroundQueue {
          backgroundQueue := Added(backgroundQueue, ips[i]);
        }
      }
      assert ips[..|ips|] == ips;
      added := added + NewIn(s.queues, ips, false);
      StartQueue();
    }

    /** The first `size` of a queue and what is left of it. */
    method TakeBatch(queue: seq<Ip>, size: nat) returns (batch: seq<Ip>, left: seq<Ip>)
      requires size > 0
      ensures batch == queue[..Min(size, |queue|)] && left == queue[Min(size, |queue|)..]
    {
      batch, left := [], queue;
      while left != []
        invariant |batch| < size
        invariant |batch| <= |queue| && batch == queue[..|batch|] && left == queue[|batch|..]
        decreases |left|
      {
        batch, left := batch + [left[0]], left[1..];
        if |batch| == size {
          break;
        }
      }
    }

    /** The head of the runner's loop: a batch, or the end when nothing waits. */
    method Continue(r: nat)
      requires Enabled(View(), Event.Continue(r))
      modifies this
      ensures View() == Step(old(View()), Event.Continue(r))
    {
      if foregroundQueue == [] && backgroundQueue == [] {
        Finish(r);
        return;
      }
      var isForeground := foregroundQueue != [];
      var batch, left := TakeBatch(if isForeground then foregroundQueue else backgroundQueue,
                                   if isForeground then FOREGROUND_BATCH_SIZE else BACKGROUND_BATCH_SIZE);
      if isForeground {
        foregroundQueue := left;
      } else {
        backgroundQueue := left;
      }
      runners := runners[r := Working(batch, isForeground)];
      taken := taken + multiset(batch);
    }

    /** The lookups of the batch settled; after background work the runner may wait. */
    method BatchDone(r: nat, delay: bool)
      requires Enabled(View(), Event.BatchDone(r, delay))
      modifies this`runners, this`wakeForeground, this`promises
      ensures View() == Step(old(View()), Event.BatchDone(r, delay))
    {
      if !runners[r].foreground && backgroundQueue != [] {
        WaitForBackgroundDelay(r, delay);
      } else {
        runners := runners[r := Ready];
      }
    }

    method WaitForBackgroundDelay(r: nat, delay: bool)
      modifies this`runners, this`wakeForeground, this`promises
      ensures View() == if !delay || old(foregroundQueue) != [] then old(View()).(runners := old(runners)[r := Ready])
                        else old(View()).(wakeForeground := Some(old(promises)), promises := old(promises) + 1,
                                          runners := old(runners)[r := Delaying(old(promises))])
    {
      if !delay || foregroundQueue != [] {
        runners := runners[r := Ready];
        return;
      }
      wakeForeground := Some(promises);
      runners, promises := runners[r := Delaying(promises)], promises + 1;
    }

    /** The race is decided, by the timer or by the promise. */
    method AfterDelay(r: nat)
      requires Enabled(View(), DelayOver(r))
      modifies this`runners, this`wakeForeground
      ensures View() == Step(old(View()), DelayOver(r))
      ensures old(Enabled(View(), Woken(r))) ==> View() == Step(old(View()), Woken(r))
    {
      if wakeForeground == Some(runners[r].promise) {
        wakeForeground := None;
      }
      runners := runners[r := Ready];
    }

    /** Something threw: the runner ends. */
    method BatchFails(r: nat)
      requires Enabled(View(), Event.BatchFails(r))
      modifies this`enrichmentQueueRunning, this`runners, this`started
      ensures View() == Step(old(View()), Event.BatchFails(r))
    {
      Finish(r);
    }

    /** The runner's `finally`: another one starts when work is left. */
    method Finish(r: nat)
      modifies this`enrichmentQueueRunning, this`runners, this`started
      ensures View() == Ended(old(View()), r)
    {
      enrichmentQueueRunning, runners := false, runners - {r};
      if foregroundQueue != [] || backgroundQueue != [] {
        StartQueue();
      }
    }
  }
}
