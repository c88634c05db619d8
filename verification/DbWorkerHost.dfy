/**
 The main thread's side of the database thread (src/db-worker-host.js): requests
 are posted to a thread and answered later, or never; the thread can hang, die,
 be closed and be replaced, and a reply can arrive long after its request was
 given up.
 */
module DbWorkerHost {
  import opened Common

  /** How a promise was settled. */
  datatype Outcome = Answered(ok: bool) | TimedOut | ThreadGone | Closed

  datatype Entry = Request | CloseRequest

  /**
   The host, the request timers that are armed, and what the host cannot see:
   which thread each id was posted to, every call to a promise's resolve or
   reject, and the `close` calls still waiting, each with a timer of its own.
   */
  datatype Host = Host(
    worker: Option<nat>, spawned: nat,
    pending: map<nat, Entry>, timers: set<nat>, nextId: nat, closed: bool,
    postedTo: map<nat, nat>, calls: map<nat, nat>, outcomes: map<nat, Outcome>, closing: nat)

  const INITIAL := Host(None, 0, map[], {}, 1, true, map[], map[], map[], 0)

  datatype Event =
    | Open
    | Run
    | CloseBegins
    | CloseEnds                               // answered, or the close timeout
    | Message(thread: nat, id: nat, ok: bool)
    | TimerFires(id: nat)
    | ThreadFails(thread: nat)                // 'error' or 'exit'

  // ------------------------------------------------------------------- steps

  /** How often the promise behind `id` was resolved or rejected. */
  function CallsOf(calls: map<nat, nat>, id: nat): nat {
    if id in calls then calls[id] else 0
  }

  function Calls(h: Host, id: nat): nat {
    CallsOf(h.calls, id)
  }

  function Spawned(h: Host): Host {
    h.(worker := Some(h.spawned), spawned := h.spawned + 1)
  }

  function Posted(h: Host, e: Entry): Host
    requires h.worker.Some?
  {
    h.(pending := h.pending[h.nextId := e], timers := if e == Request then h.timers + {h.nextId} else h.timers,
       postedTo := h.postedTo[h.nextId := h.worker.value], nextId := h.nextId + 1)
  }

  function SettledWith(h: Host, id: nat, o: Outcome): Host {
    h.(pending := h.pending - {id}, timers := h.timers - {id}, calls := h.calls[id := Calls(h, id) + 1], outcomes := h.outcomes[id := o])
  }

  function OutcomeOf(e: Entry): Outcome {
    if e == CloseRequest then Closed else ThreadGone
  }

  /** Forgets the thread and settles everything that waited for it. */
  function Discarded(h: Host): Host {
    h.(worker := None, pending := map[], timers := h.timers - h.pending.Keys,
       calls := h.calls + CallsAfter(h), outcomes := h.outcomes + OutcomesAfter(h))
  }

  function CallsAfter(h: Host): map<nat, nat> {
    map id <- h.pending :: Calls(h, id) + 1
  }

  function OutcomesAfter(h: Host): map<nat, Outcome> {
    map id <- h.pending :: OutcomeOf(h.pending[id])
  }

  function Overlaid<V>(base: map<nat, V>, top: map<nat, V>, except: set<nat>): map<nat, V> {
    base + (top - except)
  }

  lemma OverlaidOneMore<V>(base: map<nat, V>, top: map<nat, V>, except: set<nat>, id: nat)
    requires id in top && id in except
    ensures Overlaid(base, top, except)[id := top[id]] == Overlaid(base, top, except - {id})
  {
  }

  /** Half way through a discard: `rest` is still waiting. */
  function PartlyDiscarded(h: Host, rest: set<nat>): Host {
    h.(worker := None, pending := h.pending - (h.pending.Keys - rest), timers := h.timers - (h.pending.Keys - rest),
       calls := Overlaid(h.calls, CallsAfter(h), rest),
       outcomes := Overlaid(h.outcomes, OutcomesAfter(h), rest))
  }

  lemma OneFewer(h: Host, rest: set<nat>, id: nat)
    requires id in rest && rest <= h.pending.Keys
    ensures SettledWith(PartlyDiscarded(h, rest), id, OutcomeOf(h.pending[id])) == PartlyDiscarded(h, rest - {id})
  {
    var part := PartlyDiscarded(h, rest);
    OverlaidOneMore(h.calls, CallsAfter(h), rest, id);
    OverlaidOneMore(h.outcomes, OutcomesAfter(h), rest, id);
    assert Calls(part, id) == Calls(h, id);
    assert part.pending - {id} == h.pending - (h.pending.Keys - (rest - {id}));
    assert part.timers - {id} == h.timers - (h.pending.Keys - (rest - {id}));
  }

  lemma DiscardBegins(h: Host)
    ensures PartlyDiscarded(h, h.pending.Keys) == h.(worker := None)
  {
    var none := h.pending.Keys - h.pending.Keys;
    assert h.pending - none == h.pending && h.timers - none == h.timers;
    assert CallsAfter(h) - h.pending.Keys == map[] && OutcomesAfter(h) - h.pending.Keys == map[];
  }

  lemma DiscardEnds(h: Host)
    ensures PartlyDiscarded(h, {}) == Discarded(h)
  {
    var all := h.pending.Keys - {};
    assert h.pending - all == map[] && h.timers - all == h.timers - h.pending.Keys;
    assert CallsAfter(h) - {} == CallsAfter(h) && OutcomesAfter(h) - {} == OutcomesAfter(h);
  }

  function Step(h: Host, e: Event): Host {
    match e
    case Open => Spawned(h.(closed := false))
    case Run =>
      if h.closed then h
      else Posted(if h.worker.None? then Spawned(h) else h, Request)
    case CloseBegins =>
      if h.worker.None? then h.(closed := true)
      else Posted(h.(closed := true), CloseRequest).(closing := h.closing + 1)
    case CloseEnds => if h.closing == 0 then h else Discarded(h).(closing := h.closing - 1)
    case Message(_, id, ok) =>
      if id !in h.pending then h
      else SettledWith(h, id, if h.pending[id] == CloseRequest then Closed else Answered(ok))
    case TimerFires(id) =>
      var fired := h.(timers := h.timers - {id});
      if id !in h.pending then fired else Discarded(SettledWith(fired, id, TimedOut))
    case ThreadFails(thread) => if h.worker != Some(thread) then h else Discarded(h)
  }

  /** A thread answers only what was posted to it; a timer fires only while it is
      armed, a close timeout only while its call waits. `open` may be called at
      any time, over a live thread too. */
  predicate Enabled(h: Host, e: Event) {
    match e
    case Message(thread, id, _) => id in h.postedTo && h.postedTo[id] == thread
    case TimerFires(id) => id in h.timers
    case CloseEnds => h.closing > 0
    case _ => true
  }

  // -------------------------------------------------------------- invariants

  predicate Issued(h: Host, id: nat) {
    1 <= id < h.nextId
  }

  /** Every id given out is pending or was settled, and settled once. */
  ghost predicate Accounted(pending: map<nat, Entry>, nextId: nat, calls: map<nat, nat>, outcomes: map<nat, Outcome>) {
    && nextId >= 1
    && (forall id: nat :: 1 <= id < nextId <==> id in pending || CallsOf(calls, id) > 0)
    && (forall id: nat :: CallsOf(calls, id) <= 1 && (CallsOf(calls, id) == 1 <==> id in outcomes))
    && (forall id <- pending :: CallsOf(calls, id) == 0)
  }

  /** Whatever is pending was posted to some thread, and without a thread nothing is. */
  predicate PostedToThreads(pending: map<nat, Entry>, postedTo: map<nat, nat>, worker: Option<nat>, spawned: nat, nextId: nat) {
    && (forall id <- postedTo :: postedTo[id] < spawned && 1 <= id < nextId)
    && (forall id <- pending :: worker.Some? && id in postedTo)
    && (worker.Some? ==> worker.value < spawned)
  }

  /** Whatever is pending was posted to the thread held now. */
  predicate PostedToHeld(h: Host) {
    forall id <- h.pending :: id in h.postedTo && h.worker == Some(h.postedTo[id])
  }

  /** A request timer is armed exactly while its request is pending. */
  predicate TimersMatch(pending: map<nat, Entry>, timers: set<nat>) {
    && (forall id <- pending :: pending[id] == Request ==> id in timers)
    && (forall id <- timers :: id in pending && pending[id] == Request)
  }

  predicate ClosesWait(pending: map<nat, Entry>, closing: nat) {
    forall id <- pending :: pending[id] == CloseRequest ==> closing > 0
  }

  ghost predicate Inv(h: Host) {
    && Accounted(h.pending, h.nextId, h.calls, h.outcomes)
    && PostedToThreads(h.pending, h.postedTo, h.worker, h.spawned, h.nextId)
    && TimersMatch(h.pending, h.timers)
    && ClosesWait(h.pending, h.closing)
  }

  /** What no later step may take back. */
  predicate Keeps(h: Host, k: Host) {
    && h.nextId <= k.nextId
    && (forall id <- h.outcomes :: id in k.outcomes && k.outcomes[id] == h.outcomes[id])
    && (forall id <- h.postedTo :: id in k.postedTo && k.postedTo[id] == h.postedTo[id])
  }

  lemma PostKeepsAccounts(pending: map<nat, Entry>, nextId: nat, calls: map<nat, nat>, outcomes: map<nat, Outcome>, e: Entry)
    requires Accounted(pending, nextId, calls, outcomes)
    ensures Accounted(pending[nextId := e], nextId + 1, calls, outcomes)
  {
    assert !(1 <= nextId < nextId);
  }

  lemma PostKeepsInv(h: Host, e: Entry)
    requires Inv(h) && h.worker.Some? && (e == CloseRequest ==> h.closing > 0)
    ensures Inv(Posted(h, e)) && Keeps(h, Posted(h, e))
  {
    PostKeepsAccounts(h.pending, h.nextId, h.calls, h.outcomes, e);
  }

  lemma SettleKeepsInv(h: Host, id: nat, o: Outcome)
    requires Inv(h) && id in h.pending
    ensures Inv(SettledWith(h, id, o)) && Keeps(h, SettledWith(h, id, o))
  {
  }

  lemma DiscardKeepsInv(h: Host)
    requires Inv(h)
    ensures Inv(Discarded(h)) && Keeps(h, Discarded(h))
    ensures Discarded(h).pending == map[] && Discarded(h).worker == None
  {
    var k := Discarded(h);
    forall x: nat ensures (1 <= x < k.nextId <==> CallsOf(k.calls, x) > 0) && CallsOf(k.calls, x) <= 1 {
      assert 1 <= x < h.nextId <==> x in h.pending || CallsOf(h.calls, x) > 0;
    }
  }

  lemma CloseKeepsInv(h: Host)
    requires Inv(h)
    ensures Inv(Step(h, CloseEnds)) && Keeps(h, Step(h, CloseEnds))
  {
    DiscardKeepsInv(h);
  }

  lemma TimerKeepsInv(h: Host, id: nat)
    requires Inv(h)
    ensures Inv(Step(h, TimerFires(id))) && Keeps(h, Step(h, TimerFires(id)))
  {
    if id in h.pending {
      var fired := h.(timers := h.timers - {id});
      assert fired.timers - {id} == h.timers - {id};
      assert SettledWith(fired, id, TimedOut) == SettledWith(h, id, TimedOut);
      SettleKeepsInv(h, id, TimedOut);
      DiscardKeepsInv(SettledWith(h, id, TimedOut));
    } else {
      assert h.timers - {id} == h.timers;
    }
  }

  lemma RunEventKeepsInv(h: Host)
    requires Inv(h)
    ensures Inv(Step(h, Run)) && Keeps(h, Step(h, Run))
  {
    if !h.closed {
      if h.worker.None? {
        assert Inv(Spawned(h));
        PostKeepsInv(Spawned(h), Request);
      } else {
        PostKeepsInv(h, Request);
      }
    }
  }

  lemma CloseBeginsKeepsInv(h: Host)
    requires Inv(h)
    ensures Inv(Step(h, CloseBegins)) && Keeps(h, Step(h, CloseBegins))
  {
    if h.worker.Some? {
      var c := h.(closed := true, closing := h.closing + 1);
      PostKeepsInv(c, CloseRequest);
    }
  }

  lemma MessageKeepsInv(h: Host, e: Event)
    requires Inv(h) && e.Message?
    ensures Inv(Step(h, e)) && Keeps(h, Step(h, e))
  {
    if e.id in h.pending {
      SettleKeepsInv(h, e.id, if h.pending[e.id] == CloseRequest then Closed else Answered(e.ok));
    }
  }

  lemma StepKeepsInv(h: Host, e: Event)
    requires Inv(h) && Enabled(h, e)
    ensures Inv(Step(h, e)) && Keeps(h, Step(h, e))
  {
    match e
    case Open =>
    case Run => RunEventKeepsInv(h);
    case CloseBegins => CloseBeginsKeepsInv(h);
    case CloseEnds => CloseKeepsInv(h);
    case Message(_, _, _) => MessageKeepsInv(h, e);
    case TimerFires(id) => TimerKeepsInv(h, id);
    case ThreadFails(_) => DiscardKeepsInv(h);
  }

  // -------------------------------------------------------------- whole runs

  predicate IsRun(h: Host, es: seq<Event>)
    decreases |es|
  {
    es == [] || (Enabled(h, es[0]) && IsRun(Step(h, es[0]), es[1..]))
  }

  function RunAll(h: Host, es: seq<Event>): Host
    decreases |es|
  {
    if es == [] then h else RunAll(Step(h, es[0]), es[1..])
  }

  lemma {:induction false} RunKeepsInv(h: Host, es: seq<Event>)
    requires Inv(h) && IsRun(h, es)
    ensures Inv(RunAll(h, es)) && Keeps(h, RunAll(h, es))
    decreases |es|
  {
    if es != [] {
      StepKeepsInv(h, es[0]);
      RunKeepsInv(Step(h, es[0]), es[1..]);
    }
  }

  /** Over every interleaving, `open` at any time included: an issued request is
      waiting, or was settled by exactly one call; without a thread nothing waits;
      and everything that waits was posted to a thread. */
  lemma SettledExactlyOnce(es: seq<Event>, id: nat)
    requires IsRun(INITIAL, es)
    ensures var h := RunAll(INITIAL, es);
            && (Issued(h, id) ==> if id in h.pending then Calls(h, id) == 0 else Calls(h, id) == 1)
            && (!Issued(h, id) ==> Calls(h, id) == 0)
            && (h.worker.None? ==> h.pending == map[])
            && (id in h.pending ==> id in h.postedTo && h.postedTo[id] < h.spawned)
  {
    RunKeepsInv(INITIAL, es);
    var h := RunAll(INITIAL, es);
    if h.worker.None? { assert forall x :: x !in h.pending; }
  }

  /** Every `open` of the run finds nothing pending. */
  predicate OpensIdle(h: Host, es: seq<Event>)
    decreases |es|
  {
    es == [] || ((es[0] == Open ==> h.pending == map[]) && OpensIdle(Step(h, es[0]), es[1..]))
  }

  lemma StepKeepsHeld(h: Host, e: Event)
    requires Inv(h) && Enabled(h, e) && PostedToHeld(h) && (e == Open ==> h.pending == map[])
    ensures PostedToHeld(Step(h, e))
  {
  }

  lemma {:induction false} RunKeepsHeld(h: Host, es: seq<Event>)
    requires Inv(h) && IsRun(h, es) && PostedToHeld(h) && OpensIdle(h, es)
    ensures PostedToHeld(RunAll(h, es))
    decreases |es|
  {
    if es != [] {
      StepKeepsInv(h, es[0]);
      StepKeepsHeld(h, es[0]);
      RunKeepsHeld(Step(h, es[0]), es[1..]);
    }
  }

  /** If no `open` finds anything pending, everything that waits was posted to the
      thread held now, so its failing or being replaced settles it. */
  lemma WaitsForTheThreadHeld(es: seq<Event>, id: nat)
    requires IsRun(INITIAL, es) && OpensIdle(INITIAL, es) && id in RunAll(INITIAL, es).pending
    ensures var h := RunAll(INITIAL, es);
            && id in h.postedTo && h.worker == Some(h.postedTo[id])
            && id !in Step(h, ThreadFails(h.postedTo[id])).pending
  {
    RunKeepsInv(INITIAL, es);
    RunKeepsHeld(INITIAL, es);
  }

  // ------------------------------------------- outcomes, from the events alone

  lemma {:induction false} RunOneMore(h: Host, es: seq<Event>, i: nat)
    requires IsRun(h, es) && i < |es|
    ensures IsRun(h, es[..i]) && Enabled(RunAll(h, es[..i]), es[i])
    ensures RunAll(h, es[..i + 1]) == Step(RunAll(h, es[..i]), es[i])
    ensures IsRun(Step(RunAll(h, es[..i]), es[i]), es[i + 1..])
    ensures RunAll(h, es) == RunAll(Step(RunAll(h, es[..i]), es[i]), es[i + 1..])
    decreases i
  {
    if i == 0 {
      assert es[..1] == [es[0]] && es[..1][1..] == [];
    } else {
      var next, rest := Step(h, es[0]), es[1..];
      RunOneMore(next, rest, i - 1);
      assert es[..i][1..] == rest[..i - 1] && es[..i + 1][1..] == rest[..i];
      assert rest[i..] == es[i + 1..];
    }
  }

  function At(es: seq<Event>, i: nat): Host
    requires i <= |es|
  {
    RunAll(INITIAL, es[..i])
  }

  lemma StateAt(es: seq<Event>, i: nat)
    requires IsRun(INITIAL, es) && i < |es|
    ensures Inv(At(es, i)) && Enabled(At(es, i), es[i])
    ensures At(es, i + 1) == Step(At(es, i), es[i]) && Inv(At(es, i + 1))
    ensures Keeps(At(es, i), At(es, i + 1)) && Keeps(At(es, i + 1), RunAll(INITIAL, es))
  {
    RunOneMore(INITIAL, es, i);
    RunKeepsInv(INITIAL, es[..i]);
    StepKeepsInv(At(es, i), es[i]);
    RunKeepsInv(At(es, i + 1), es[i + 1..]);
  }

  /** The i-th event is the one that gave out the id. */
  predicate IssuedAt(es: seq<Event>, i: nat, id: nat) {
    i < |es| && At(es, i).nextId == id && At(es, i + 1).nextId == id + 1
  }

  predicate SettledAt(es: seq<Event>, i: nat, id: nat) {
    i < |es| && id in At(es, i).pending && id !in At(es, i + 1).pending
  }

  /** The id belongs to a `run` call; otherwise to a `close`. */
  ghost predicate IsRequest(es: seq<Event>, id: nat) {
    exists i: nat :: IssuedAt(es, i, id) && es[i] == Run
  }

  /** The host lets its thread go, and not because this id's own timer fires. */
  predicate LetsGo(h: Host, e: Event, id: nat) {
    e == CloseEnds || (e.TimerFires? && e.id != id) || (e.ThreadFails? && h.worker == Some(e.thread))
  }

  predicate LetGoAt(es: seq<Event>, i: nat, id: nat)
    requires i < |es|
  {
    LetsGo(At(es, i), es[i], id)
  }

  predicate AnsweredAt(es: seq<Event>, i: nat, id: nat, ok: bool)
    requires i < |es|
  {
    es[i].Message? && es[i].id == id && es[i].ok == ok
  }

  /** Only `run` and `close` give out ids, one at a time, and what an id stands for stays. */
  lemma StepKeepsKinds(h: Host, e: Event)
    requires Inv(h)
    ensures Step(h, e).nextId == h.nextId || (Step(h, e).nextId == h.nextId + 1 && (e == Run || e == CloseBegins))
    ensures forall id <- Step(h, e).pending ::
              Step(h, e).pending[id] == if id in h.pending then h.pending[id] else if e == Run then Request else CloseRequest
    ensures forall id <- Step(h, e).pending :: id in h.pending || (id == h.nextId && Step(h, e).nextId == id + 1)
  {
  }

  lemma {:induction false} KindsFollowEvents(es: seq<Event>, n: nat, id: nat)
    requires IsRun(INITIAL, es) && n <= |es| && id in At(es, n).pending
    ensures exists i: nat :: i < n && IssuedAt(es, i, id)
                             && es[i] == if At(es, n).pending[id] == Request then Run else CloseBegins
    decreases n
  {
    assert n > 0;
    StateAt(es, n - 1);
    StepKeepsKinds(At(es, n - 1), es[n - 1]);
    if id in At(es, n - 1).pending {
      KindsFollowEvents(es, n - 1, id);
    } else {
      assert IssuedAt(es, n - 1, id);
    }
  }

  lemma {:induction false} IdsGrow(es: seq<Event>, i: nat, j: nat)
    requires IsRun(INITIAL, es) && i <= j <= |es|
    ensures At(es, i).nextId <= At(es, j).nextId
    decreases j - i
  {
    if i < j {
      StateAt(es, i);
      IdsGrow(es, i + 1, j);
    }
  }

  lemma IssuedOnce(es: seq<Event>, i: nat, j: nat, id: nat)
    requires IsRun(INITIAL, es) && IssuedAt(es, i, id) && IssuedAt(es, j, id)
    ensures i == j
  {
    if i < j { IdsGrow(es, i + 1, j); }
    if j < i { IdsGrow(es, j + 1, i); }
  }

  lemma PendingIsRequestIff(es: seq<Event>, n: nat, id: nat)
    requires IsRun(INITIAL, es) && n <= |es| && id in At(es, n).pending
    ensures At(es, n).pending[id] == Request <==> IsRequest(es, id)
  {
    KindsFollowEvents(es, n, id);
    var i: nat :| i < n && IssuedAt(es, i, id) && es[i] == if At(es, n).pending[id] == Request then Run else CloseBegins;
    if IsRequest(es, id) {
      var j: nat :| IssuedAt(es, j, id) && es[j] == Run;
      IssuedOnce(es, i, j, id);
    }
  }

  lemma SettlingStepDecides(h: Host, e: Event, id: nat)
    requires Inv(h) && Enabled(h, e) && id in h.pending && id !in Step(h, e).pending
    ensures id in Step(h, e).outcomes
    ensures var o := Step(h, e).outcomes[id];
            if h.pending[id] == CloseRequest then o == Closed && e != TimerFires(id)
            else if e.Message? then e.id == id && o == Answered(e.ok)
            else if e == TimerFires(id) then o == TimedOut
            else LetsGo(h, e, id) && o == ThreadGone
  {
    match e
    case Message(_, _, _) =>
    case TimerFires(_) =>
    case _ =>
  }

  /** The outcome a settling event gives. */
  lemma SettlingDecides(es: seq<Event>, i: nat, id: nat)
    requires IsRun(INITIAL, es) && SettledAt(es, i, id)
    ensures id in RunAll(INITIAL, es).outcomes
    ensures var o := RunAll(INITIAL, es).outcomes[id];
            if !IsRequest(es, id) then o == Closed && !(es[i] == TimerFires(id))
            else if es[i].Message? then es[i].id == id && o == Answered(es[i].ok)
            else if es[i] == TimerFires(id) then o == TimedOut
            else LetGoAt(es, i, id) && o == ThreadGone
  {
    StateAt(es, i);
    PendingIsRequestIff(es, i, id);
    SettlingStepDecides(At(es, i), es[i], id);
  }

  lemma {:induction false} SettledSomewhere(es: seq<Event>, n: nat, id: nat)
    requires IsRun(INITIAL, es) && n <= |es| && id in At(es, n).outcomes
    ensures exists i: nat :: i < n && SettledAt(es, i, id)
    decreases n
  {
    assert n > 0;
    StateAt(es, n - 1);
    if id in At(es, n - 1).outcomes {
      SettledSomewhere(es, n - 1, id);
    } else {
      assert SettledAt(es, n - 1, id);
    }
  }

  /** Over every run: a promise is answered as its own reply says, times out by its own
      timer, is told that the thread is gone when the host let that go for another
      reason, and counts as closed only if it was a `close`. */
  lemma OutcomesFollowEvents(es: seq<Event>, id: nat, ok: bool)
    requires IsRun(INITIAL, es)
    ensures var outcomes := RunAll(INITIAL, es).outcomes;
            && (id in outcomes <==> exists i: nat :: SettledAt(es, i, id))
            && (id in outcomes && outcomes[id] == Answered(ok) <==>
                  IsRequest(es, id) && exists i: nat :: SettledAt(es, i, id) && AnsweredAt(es, i, id, ok))
            && (id in outcomes && outcomes[id] == TimedOut <==>
                  exists i: nat :: SettledAt(es, i, id) && es[i] == TimerFires(id))
            && (id in outcomes && outcomes[id] == ThreadGone <==>
                  IsRequest(es, id) && exists i: nat :: SettledAt(es, i, id) && LetGoAt(es, i, id))
            && (id in outcomes && outcomes[id] == Closed <==>
                  !IsRequest(es, id) && exists i: nat :: SettledAt(es, i, id))
  {
    if id in RunAll(INITIAL, es).outcomes {
      assert es[..|es|] == es;
      SettledSomewhere(es, |es|, id);
    }
    forall i: nat | SettledAt(es, i, id)
      ensures id in RunAll(INITIAL, es).outcomes
      ensures var o := RunAll(INITIAL, es).outcomes[id];
              && (o == Answered(ok) <==> IsRequest(es, id) && AnsweredAt(es, i, id, ok))
              && (o == TimedOut <==> es[i] == TimerFires(id))
              && (o == ThreadGone <==> IsRequest(es, id) && LetGoAt(es, i, id))
              && (o == Closed <==> !IsRequest(es, id))
    {
      SettlingDecides(es, i, id);
    }
  }

  /** What waits is settled by its own reply, by its own timer and whenever the host
      lets its thread go, and by nothing else. */
  lemma SettlesIff(es: seq<Event>, i: nat, id: nat)
    requires IsRun(INITIAL, es) && i < |es| && id in At(es, i).pending
    ensures SettledAt(es, i, id) <==>
            (es[i].Message? && es[i].id == id) || es[i] == TimerFires(id) || LetGoAt(es, i, id)
  {
    StateAt(es, i);
  }

  /** The host takes requests after an `open` until a `close`. */
  ghost predicate IsOpen(es: seq<Event>) {
    exists i: nat :: i < |es| && es[i] == Open && CloseBegins !in es[i..]
  }

  lemma {:induction false} OpenUntilClosed(es: seq<Event>)
    requires IsRun(INITIAL, es)
    ensures RunAll(INITIAL, es).closed <==> !IsOpen(es)
    decreases |es|
  {
    if es != [] {
      var n := |es| - 1;
      RunOneMore(INITIAL, es, n);
      assert es[..n + 1] == es;
      OpenUntilClosed(es[..n]);
      if es[n] == Open {
        assert es[n..] == [Open];
      } else if es[n] != CloseBegins {
        SameOpens(es, n);
      }
    }
  }

  lemma SameOpens(es: seq<Event>, n: nat)
    requires n + 1 == |es| && es[n] != Open && es[n] != CloseBegins
    ensures IsOpen(es) <==> IsOpen(es[..n])
  {
    forall i: nat | i < n ensures CloseBegins in es[i..] <==> CloseBegins in es[..n][i..] {
      assert es[i..] == es[..n][i..] + [es[n]];
    }
    if IsOpen(es) {
      var i: nat :| i < |es| && es[i] == Open && CloseBegins !in es[i..];
      assert es[..n][i] == Open;
    }
    if IsOpen(es[..n]) {
      var i: nat :| i < n && es[..n][i] == Open && CloseBegins !in es[..n][i..];
      assert es[i] == Open;
    }
  }

  /** A `run` is accepted exactly while the host is open, and then posted to the
      thread held, or to a new one when that died. */
  lemma RequestsAreTakenIff(es: seq<Event>)
    requires IsRun(INITIAL, es)
    ensures var h, k := RunAll(INITIAL, es), Step(RunAll(INITIAL, es), Run);
            if IsOpen(es)
            then h.nextId in k.pending && k.pending[h.nextId] == Request && h.nextId in k.timers && k.nextId == h.nextId + 1
                 && k.postedTo[h.nextId] == (if h.worker.Some? then h.worker.value else h.spawned)
                 && k.worker == Some(k.postedTo[h.nextId])
            else k == h
  {
    OpenUntilClosed(es);
    RunKeepsInv(INITIAL, es);
  }

  /** A promise keeps the outcome it was given, whatever happens later. */
  lemma OutcomesAreFinal(es: seq<Event>, more: seq<Event>, id: nat)
    requires IsRun(INITIAL, es) && IsRun(RunAll(INITIAL, es), more)
    requires id in RunAll(INITIAL, es).outcomes
    ensures var h, k := RunAll(INITIAL, es), RunAll(RunAll(INITIAL, es), more);
            id in k.outcomes && k.outcomes[id] == h.outcomes[id] && Calls(k, id) == 1
  {
    RunKeepsInv(INITIAL, es);
    RunKeepsInv(RunAll(INITIAL, es), more);
  }

  /** No cross-talk: a reply settles only its own request, and if no `open` found
      anything pending, one from a thread that is no longer held changes nothing. */
  lemma LateRepliesChangeNothing(es: seq<Event>, reply: Event)
    requires IsRun(INITIAL, es) && reply.Message? && Enabled(RunAll(INITIAL, es), reply)
    ensures var h := RunAll(INITIAL, es);
            && (OpensIdle(INITIAL, es) && h.worker != Some(reply.thread) ==> Step(h, reply) == h)
            && forall id :: id != reply.id ==> (id in Step(h, reply).pending <==> id in h.pending)
  {
    RunKeepsInv(INITIAL, es);
    if OpensIdle(INITIAL, es) {
      RunKeepsHeld(INITIAL, es);
    }
  }

  /** Once a close has ended nothing is pending, and until somebody opens a
      thread again nothing will be. */
  lemma {:induction false} NothingPendingAfterClose(es: seq<Event>, more: seq<Event>)
    requires IsRun(INITIAL, es) && RunAll(INITIAL, es).closing > 0 && RunAll(INITIAL, es).closed
    requires IsRun(Step(RunAll(INITIAL, es), CloseEnds), more) && Open !in more
    ensures RunAll(Step(RunAll(INITIAL, es), CloseEnds), more).pending == map[]
  {
    RunKeepsInv(INITIAL, es);
    StepKeepsInv(RunAll(INITIAL, es), CloseEnds);
    ClosedStaysEmpty(Step(RunAll(INITIAL, es), CloseEnds), more);
  }

  lemma {:induction false} ClosedStaysEmpty(h: Host, es: seq<Event>)
    requires IsRun(h, es) && Open !in es
    requires h.closed && h.worker.None? && h.pending == map[]
    ensures RunAll(h, es).pending == map[] && RunAll(h, es).worker.None?
    decreases |es|
  {
    if es != [] {
      assert es[0] in es;
      ClosedStaysEmpty(Step(h, es[0]), es[1..]);
    }
  }

  /** Nothing waits for ever, and nothing fires late: a request's timer is armed
      exactly while it is pending, a pending close has its call still waiting,
      and whichever of these ends settles what it was set for, once. */
  lemma NothingWaitsForEver(es: seq<Event>, id: nat)
    requires IsRun(INITIAL, es)
    ensures var h := RunAll(INITIAL, es);
            && (id in h.timers <==> id in h.pending && h.pending[id] == Request)
            && (id in h.pending && h.pending[id] == CloseRequest ==> Enabled(h, CloseEnds))
            && (id in h.pending ==>
                  var k := Step(h, if h.pending[id] == CloseRequest then CloseEnds else TimerFires(id));
                  id !in k.pending && Calls(k, id) == 1)
  {
    RunKeepsInv(INITIAL, es);
    var h := RunAll(INITIAL, es);
    if id in h.pending {
      StepKeepsInv(h, if h.pending[id] == CloseRequest then CloseEnds else TimerFires(id));
    }
  }

  /** `open` keeps what waits with the thread held exactly when nothing is pending,
      whether or not a thread is held. */
  lemma OpenIsSafeIff(h: Host)
    requires Inv(h)
    ensures PostedToHeld(Step(h, Open)) <==> h.pending == map[]
  {
    if h.pending != map[] {
      var id := SomeMember(h.pending.Keys);
      OpenOrphans(h, id);
    }
  }

  /** Otherwise everything pending is orphaned: it belongs to a thread the host no
      longer holds, whose death it does not notice. */
  lemma OpenOrphans(h: Host, id: nat)
    requires Inv(h) && id in h.pending
    ensures var k := Step(h, Open);
            && id in k.pending && id in k.postedTo && k.worker != Some(k.postedTo[id])
            && Step(k, ThreadFails(k.postedTo[id])) == k
  {
  }

  /** An orphan still waits for its old thread's reply, and a request for its
      timer, and either one settles it, once. */
  lemma OrphansStillSettle(h: Host, id: nat, ok: bool)
    requires Inv(h) && id in h.pending
    ensures var k := Step(h, Open); var reply := Message(h.postedTo[id], id, ok);
            && Enabled(k, reply) && SettledNow(Step(k, reply), id)
            && (h.pending[id] == Request ==> Enabled(k, TimerFires(id)) && SettledNow(Step(k, TimerFires(id)), id))
  {
    var k := Step(h, Open);
    StepKeepsInv(h, Open);
    SettlesByReply(k, id, ok);
    if k.pending[id] == Request { SettlesByTimer(k, id); }
  }

  lemma SettlesByReply(h: Host, id: nat, ok: bool)
    requires Inv(h) && id in h.pending
    ensures SettledNow(Step(h, Message(h.postedTo[id], id, ok)), id)
  {
  }

  lemma SettlesByTimer(h: Host, id: nat)
    requires Inv(h) && id in h.pending && h.pending[id] == Request
    ensures SettledNow(Step(h, TimerFires(id)), id)
  {
    TimerKeepsInv(h, id);
    assert 1 <= id < h.nextId;
  }

  predicate SettledNow(h: Host, id: nat) {
    id !in h.pending && Calls(h, id) == 1
  }

  // --------------------------------------------------------------- the class

  class DbWorkerHost {
    var worker: Option<nat>
    var spawned: nat
    var pending: map<nat, Entry>
    var timers: set<nat>
    var nextId: nat
    var closed: bool
    ghost var postedTo: map<nat, nat>
    ghost var calls: map<nat, nat>
    ghost var outcomes: map<nat, Outcome>
    ghost var closing: nat

    ghost function State(): Host
      reads this
    {
      Host(worker, spawned, pending, timers, nextId, closed, postedTo, calls, outcomes, closing)
    }

    constructor ()
      ensures State() == INITIAL
    {
      worker, spawned, pending, timers, nextId, closed := None, 0, map[], {}, 1, true;
      postedTo, calls, outcomes, closing := map[], map[], map[], 0;
    }

    method Open()
      modifies this
      ensures State() == Step(old(State()), Event.Open)
    {
      closed := false;
      Spawn();
    }

    method Spawn()
      modifies this
      ensures State() == Spawned(old(State()))
    {
      worker, spawned := Some(spawned), spawned + 1;
    }

    method Post(e: Entry)
      requires worker.Some?
      modifies this
      ensures State() == Posted(old(State()), e)
    {
      var id := nextId;
      nextId := nextId + 1;
      if e == Request {
        timers := timers + {id};
      }
      pending := pending[id := e];
      postedTo := postedTo[id := worker.value];
    }

    /** Accepted only while open; a thread that died is started again. */
    method Run() returns (accepted: bool)
      modifies this
      ensures State() == Step(old(State()), Event.Run)
      ensures accepted == !old(closed)
    {
      if closed {
        return false;
      }
      if worker.None? {
        Spawn();
      }
      Post(Request);
      return true;
    }

    /** Up to the first `await` of close(); `waiting` says whether there is one. */
    method CloseBegin() returns (waiting: bool)
      modifies this
      ensures State() == Step(old(State()), CloseBegins)
      ensures waiting == old(worker).Some?
    {
      if closed && worker.None? {
        return false;
      }
      closed := true;
      if worker.None? {
        return false;
      }
      Post(CloseRequest);
      closing := closing + 1;
      return true;
    }

    /** After that `await`, however it ended. */
    method CloseEnd()
      requires closing > 0
      modifies this
      ensures State() == Step(old(State()), CloseEnds)
      ensures pending == map[] && worker == None
    {
      Discard();
      closing := closing - 1;
    }

    /** resolve() or reject() of the promise behind `id`. */
    method Settle(id: nat, o: Outcome)
      requires id in pending
      modifies this
      ensures State() == SettledWith(old(State()), id, o)
    {
      pending, timers := pending - {id}, timers - {id};
      calls := calls[id := Calls(State(), id) + 1];
      outcomes := outcomes[id := o];
    }

    /** `message` from any thread, held or not. */
    method OnMessage(thread: nat, id: nat, ok: bool)
      modifies this
      ensures State() == Step(old(State()), Message(thread, id, ok))
    {
      if id !in pending {
        return;
      }
      Settle(id, if pending[id] == CloseRequest then Closed else Answered(ok));
    }

    method OnTimer(id: nat)
      modifies this
      ensures State() == Step(old(State()), TimerFires(id))
    {
      timers := timers - {id};
      if id !in pending {
        return;
      }
      Settle(id, TimedOut);
      Discard();
    }

    method OnThreadFailure(thread: nat)
      modifies this
      ensures State() == Step(old(State()), ThreadFails(thread))
    {
      if worker != Some(thread) {
        return;
      }
      Discard();
    }

    method Discard()
      modifies this
      ensures State() == Discarded(old(State()))
    {
      ghost var h := State();
      worker := None;
      var rest := pending.Keys;
      DiscardBegins(h);
      DiscardEnds(h);
      while rest != {}
        invariant rest <= h.pending.Keys
        invariant State() == PartlyDiscarded(h, rest)
        decreases rest
      {
        var id := AnyOf(rest);
        OneFewer(h, rest, id);
        Settle(id, OutcomeOf(pending[id]));
        rest := rest - {id};
      }
    }
  }
}
