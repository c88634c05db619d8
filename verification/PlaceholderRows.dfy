/**
 Moving a connection row from a wildcard local address to the real one
 (src/agent-placeholder-rows.js), in the table and in the cache that is written
 over it from time to time.
 */
module PlaceholderRows {
  import opened Common

  datatype Key = Key(src: string, dst: string, dport: int, proto: string)

  /** `about` stands for the columns a move only copies along. */
  datatype Row = Row(firstSeen: int, lastSeen: int, sport: Option<int>, agentHost: Option<string>,
                     process: Option<string>, pid: Option<int>, about: Option<string>)

  datatype Observation = Observation(localAddress: string, remoteAddress: string, remotePort: int, networkProtocol: string)
  datatype Link = Link(src: string, dst: string, dport: int, proto: string, agentId: string, observationId: string)

  datatype State = State(table: map<Key, Row>, cache: map<Key, Row>, routerSaw: set<Key>,
                         observations: set<Observation>, links: set<Link>)

  datatype Move = Move(fromSrc: string, toSrc: string, toSport: Option<int>, dst: string, dport: int, proto: string,
                       agentHost: Option<string>)

  datatype Outcome = Outcome(firstSeen: int, lastSeen: int, merged: bool, placeholderRemoved: bool)

  function Coalesce<T>(a: Option<T>, b: Option<T>): Option<T> {
    if a.Some? then a else b
  }

  function Lookup(rows: map<Key, Row>, key: Key): Option<Row> {
    if key in rows then Some(rows[key]) else None
  }

  function FromKey(m: Move): Key {
    Key(m.fromSrc, m.dst, m.dport, m.proto)
  }

  function ToKey(m: Move): Key {
    Key(m.toSrc, m.dst, m.dport, m.proto)
  }

  // ------------------------------------------------------------------ when

  predicate StillUsed(s: State, m: Move) {
    exists o <- s.observations ::
      && o.localAddress == m.fromSrc && o.remoteAddress == m.dst && o.remotePort == m.dport
      && Lower(o.networkProtocol) == Lower(m.proto)
  }

  function Owner(s: State, m: Move): Option<string> {
    var cached, stored := Lookup(s.cache, FromKey(m)), Lookup(s.table, FromKey(m));
    Coalesce(if cached.Some? then cached.value.agentHost else None,
             if stored.Some? then stored.value.agentHost else None)
  }

  /** There is a row to move, the agent that asks owns it, and no router saw it. */
  predicate Moves(s: State, m: Move) {
    && Unspecified(m.fromSrc) && !Unspecified(m.toSrc)
    && m.agentHost.Some? && m.agentHost.value != ""
    && (FromKey(m) in s.table || FromKey(m) in s.cache)
    && Owner(s, m) == m.agentHost
    && FromKey(m) !in s.routerSaw
  }

  // ------------------------------------------------------------------- what

  function SpanOf(r: Row): Span {
    Span(r.firstSeen, r.lastSeen)
  }

  function Union(a: Option<Span>, b: Option<Span>): Option<Span> {
    if a.None? then b
    else if b.None? then a
    else Some(Hull(a.value, b.value))
  }

  /** The times table and cache together know for a key. */
  function TimesOf(s: State, key: Key): Option<Span> {
    Union(if key in s.table then Some(SpanOf(s.table[key])) else None,
          if key in s.cache then Some(SpanOf(s.cache[key])) else None)
  }

  /** What memory knows goes over what the table knows. */
  function SourceRow(s: State, m: Move): Row
    requires Moves(s, m)
  {
    if FromKey(m) in s.cache then s.cache[FromKey(m)] else s.table[FromKey(m)]
  }

  function MovedTable(s: State, m: Move, first: int, last: int): map<Key, Row>
    requires Moves(s, m)
  {
    var source, to := SourceRow(s, m), ToKey(m);
    var sport := Coalesce(m.toSport, source.sport);
    var row := if to in s.table then
        var r := s.table[to];
        r.(firstSeen := Min(r.firstSeen, first), lastSeen := Max(r.lastSeen, last), sport := Coalesce(r.sport, sport),
           agentHost := Coalesce(r.agentHost, source.agentHost), process := Coalesce(r.process, source.process),
           pid := Coalesce(r.pid, source.pid))
      else source.(firstSeen := first, lastSeen := last, sport := sport);
    if StillUsed(s, m) then s.table[to := row] else s.table[to := row] - {FromKey(m)}
  }

  function MovedCache(s: State, m: Move, first: int, last: int): map<Key, Row> {
    var from, to := FromKey(m), ToKey(m);
    var cache :=
      if to in s.cache then
        var c := s.cache[to];
        s.cache[to := c.(firstSeen := Min(c.firstSeen, first), lastSeen := Max(c.lastSeen, last))]
      else if from in s.cache then
        var c := s.cache[from];
        s.cache[to := c.(sport := Coalesce(m.toSport, c.sport), firstSeen := first, lastSeen := last)]
      else s.cache;
    if StillUsed(s, m) then cache else cache - {from}
  }

  predicate LinksHere(l: Link, m: Move) {
    l.src == m.fromSrc && l.dst == m.dst && l.dport == m.dport && Upper(l.proto) == Upper(m.proto)
  }

  /** UPDATE OR IGNORE: a link whose new key is taken stays where it is. */
  function MovedLinks(s: State, m: Move): set<Link> {
    if StillUsed(s, m) then s.links
    else
      (set l <- s.links | !LinksHere(l, m) || l.(src := m.toSrc) in s.links)
      + (set l <- s.links | LinksHere(l, m) :: l.(src := m.toSrc))
  }

  function Relocated(s: State, m: Move): State {
    if !Moves(s, m) then s
    else
      var span := TimesOf(s, FromKey(m)).value;
      s.(table := MovedTable(s, m, span.first, span.last), cache := MovedCache(s, m, span.first, span.last),
         links := MovedLinks(s, m))
  }

  function OutcomeOf(s: State, m: Move): Option<Outcome> {
    if !Moves(s, m) then None
    else
      var span := TimesOf(s, FromKey(m)).value;
      Some(Outcome(span.first, span.last, ToKey(m) in s.table, !StillUsed(s, m)))
  }

  // ------------------------------------------------------------- what it means

  /** A cached row written into the table: times only widen, and what memory
      knows goes over what the table knows. */
  function Upserted(stored: Option<Row>, cached: Row): Row {
    match stored
    case None => cached
    case Some(r) =>
      Row(Min(r.firstSeen, cached.firstSeen), Max(r.lastSeen, cached.lastSeen), Coalesce(cached.sport, r.sport),
          Coalesce(cached.agentHost, r.agentHost), Coalesce(cached.process, r.process), Coalesce(cached.pid, r.pid),
          Coalesce(cached.about, r.about))
  }

  /** The table after the periodic snapshot of the cache. */
  function Snapshot(s: State): map<Key, Row> {
    s.table + map k <- s.cache :: Upserted(Lookup(s.table, k), s.cache[k])
  }

  /** A snapshot keeps all that table and cache know of the times of a key. */
  lemma SnapshotKeepsTimes(s: State, k: Key)
    ensures (if k in Snapshot(s) then Some(SpanOf(Snapshot(s)[k])) else None) == TimesOf(s, k)
  {
  }

  lemma KeysDiffer(m: Move)
    requires Unspecified(m.fromSrc) && !Unspecified(m.toSrc)
    ensures FromKey(m) != ToKey(m)
  {
  }

  /** After a move the real key spans what both keys spanned before, and is in
      the table; a removed placeholder is gone from table and cache, so no
      snapshot brings it back, and otherwise it is as it was. */
  lemma MoveMergesTimes(s: State, m: Move)
    requires Moves(s, m)
    ensures var after := Relocated(s, m);
            && TimesOf(after, ToKey(m)) == Union(TimesOf(s, ToKey(m)), TimesOf(s, FromKey(m)))
            && ToKey(m) in after.table
            && (if StillUsed(s, m) then
                  Lookup(after.table, FromKey(m)) == Lookup(s.table, FromKey(m))
                  && Lookup(after.cache, FromKey(m)) == Lookup(s.cache, FromKey(m))
                else FromKey(m) !in after.table && FromKey(m) !in after.cache && FromKey(m) !in Snapshot(after))
  {
    KeysDiffer(m);
  }

  /** After a move and a snapshot the table's row at the real key spans exactly
      what both keys spanned before, in table and cache. */
  lemma SnapshotKeepsMovedTimes(s: State, m: Move)
    requires Moves(s, m)
    ensures var after := Relocated(s, m);
            && ToKey(m) in Snapshot(after)
            && Some(SpanOf(Snapshot(after)[ToKey(m)])) == Union(TimesOf(s, ToKey(m)), TimesOf(s, FromKey(m)))
  {
    MoveMergesTimes(s, m);
    SnapshotKeepsTimes(Relocated(s, m), ToKey(m));
  }

  /** Nothing but the two keys changes, and nothing at all when a router saw the
      placeholder or another agent owns it. */
  lemma OthersAreLeftAlone(s: State, m: Move, key: Key)
    ensures var after := Relocated(s, m);
            && (key != FromKey(m) && key != ToKey(m) ==>
                  Lookup(after.table, key) == Lookup(s.table, key) && Lookup(after.cache, key) == Lookup(s.cache, key))
            && (FromKey(m) in s.routerSaw || Owner(s, m) != m.agentHost ==> after == s)
  {
  }

  predicate SetStays<T(==)>(before: Option<T>, after: Option<T>) {
    before.Some? ==> after == before
  }

  /** Times only widen, by no more than `moved`; what is set stays, what is empty may be filled. */
  predicate FillsIn(before: Row, after: Row, moved: Span) {
    && Union(Some(SpanOf(before)), Some(moved)) == Some(SpanOf(after))
    && SetStays(before.sport, after.sport) && SetStays(before.agentHost, after.agentHost)
    && SetStays(before.process, after.process) && SetStays(before.pid, after.pid)
    && after.about == before.about
  }

  /** A row already at the real key, whoever owns it and whoever saw it, keeps all
      it says: its times widen to the moved row's, and only its empty columns are
      filled. Its cached copy changes in its times alone. */
  lemma RealRowOnlyFillsIn(s: State, m: Move)
    requires Moves(s, m)
    ensures var after, to, moved := Relocated(s, m), ToKey(m), TimesOf(s, FromKey(m)).value;
            && (to in s.table ==> to in after.table && FillsIn(s.table[to], after.table[to], moved))
            && (to in s.cache ==>
                  && to in after.cache && FillsIn(s.cache[to], after.cache[to], moved)
                  && after.cache[to].(firstSeen := s.cache[to].firstSeen, lastSeen := s.cache[to].lastSeen) == s.cache[to])
  {
    KeysDiffer(m);
  }

  /** The first that is set, of the row's own value, the report's and the moved row's. */
  function FirstSet<T>(own: Option<T>, told: Option<T>, moved: Option<T>): Option<T> {
    match (own, told, moved)
    case (Some(_), _, _) => own
    case (None, Some(_), _) => told
    case _ => moved
  }

  /** Where each column at the real key comes from. `moved` is the moved row, in the
      cache if it is there and else in the table: what the table's row had, then what the
      report says of the port, then what was moved; a new row takes everything from it. */
  lemma ColumnsComeFrom(s: State, m: Move, moved: Row)
    requires Moves(s, m)
    requires if FromKey(m) in s.cache then moved == s.cache[FromKey(m)] else moved == s.table[FromKey(m)]
    ensures var after, to := Relocated(s, m), ToKey(m);
            var own := Lookup(s.table, to); var row := after.table[to];
            && row.sport == FirstSet(if own.Some? then own.value.sport else None, m.toSport, moved.sport)
            && row.agentHost == FirstSet(if own.Some? then own.value.agentHost else None, None, moved.agentHost)
            && row.process == FirstSet(if own.Some? then own.value.process else None, None, moved.process)
            && row.pid == FirstSet(if own.Some? then own.value.pid else None, None, moved.pid)
            && row.about == (if own.Some? then own.value.about else moved.about)
    ensures var after, from, to := Relocated(s, m), FromKey(m), ToKey(m);
            if to in s.cache then to in after.cache
            else if from !in s.cache then to !in after.cache
            else && to in after.cache && after.cache[to].sport == FirstSet(None, m.toSport, moved.sport)
                 && after.cache[to].agentHost == moved.agentHost && after.cache[to].process == moved.process
                 && after.cache[to].pid == moved.pid && after.cache[to].about == moved.about
                 && Some(SpanOf(after.cache[to])) == TimesOf(s, from)
  {
    KeysDiffer(m);
  }

  /** The answer says what was done: when and whether a row was there already, and
      whether the placeholder went, which it does unless an observation still has the
      wildcard as its own address. */
  lemma OutcomeSays(s: State, m: Move)
    ensures OutcomeOf(s, m).Some? <==>
            && m.fromSrc in {"0.0.0.0", "::", ""} && m.toSrc !in {"0.0.0.0", "::", ""}
            && m.agentHost.Some? && m.agentHost != Some("") && Owner(s, m) == m.agentHost
            && FromKey(m) in s.table.Keys + s.cache.Keys - s.routerSaw
    ensures OutcomeOf(s, m).None? ==> Relocated(s, m) == s
    ensures OutcomeOf(s, m).Some? ==>
              var o, after := OutcomeOf(s, m).value, Relocated(s, m);
              && TimesOf(s, FromKey(m)) == Some(Span(o.firstSeen, o.lastSeen))
              && (o.merged <==> ToKey(m) in s.table)
              && (o.placeholderRemoved <==> FromKey(m) !in after.table.Keys + after.cache.Keys)
              && (!o.placeholderRemoved <==>
                    exists x <- s.observations ::
                      && x.localAddress == m.fromSrc && x.remoteAddress == m.dst && x.remotePort == m.dport
                      && Lower(x.networkProtocol) == Lower(m.proto))
  {
    if Moves(s, m) { KeysDiffer(m); }
  }

  /** The links follow the row: each one's observation is linked to the real key
      after, and to the wildcard no more unless it was linked to both; none is invented,
      and links of other rows stay. */
  lemma LinksFollow(s: State, m: Move, l: Link)
    requires Moves(s, m) && !StillUsed(s, m)
    ensures var after := Relocated(s, m).links;
            && (l in s.links && LinksHere(l, m) ==> l.(src := m.toSrc) in after)
            && (l in s.links && !LinksHere(l, m) ==> l in after)
            && (l in s.links && LinksHere(l, m) ==> (l in after <==> l.(src := m.toSrc) in s.links))
            && (l in after ==> l in s.links || (exists o <- s.links :: LinksHere(o, m) && l == o.(src := m.toSrc)))
  {
  }

  /** Asking again changes nothing; and finds nothing once the placeholder is gone. */
  lemma MovingTwiceIsMovingOnce(s: State, m: Move)
    ensures Relocated(Relocated(s, m), m) == Relocated(s, m)
    ensures Moves(s, m) && !StillUsed(s, m) ==> OutcomeOf(Relocated(s, m), m) == None
  {
    if Moves(s, m) {
      KeysDiffer(m);
      MoveMergesTimes(s, m);
      if StillUsed(s, m) {
        SecondMoveIsNoOp(s, m);
      }
    }
  }

  lemma SecondMoveIsNoOp(s: State, m: Move)
    requires Moves(s, m) && StillUsed(s, m)
    ensures Relocated(Relocated(s, m), m) == Relocated(s, m)
  {
    KeysDiffer(m);
    var once := Relocated(s, m);
    var from, to := FromKey(m), ToKey(m);
    assert Lookup(once.table, from) == Lookup(s.table, from) && Lookup(once.cache, from) == Lookup(s.cache, from);
    assert Moves(once, m) && StillUsed(once, m);
    assert TimesOf(once, from) == TimesOf(s, from) && SourceRow(once, m) == SourceRow(s, m);
    var span := TimesOf(s, from).value;
    assert MovedTable(once, m, span.first, span.last)[to] == once.table[to];
    assert MovedTable(once, m, span.first, span.last) == once.table;
    assert MovedCache(once, m, span.first, span.last) == once.cache;
  }

  class PlaceholderRows {
    var table: map<Key, Row>
    var cache: map<Key, Row>
    var routerSaw: set<Key>
    var observations: set<Observation>
    var links: set<Link>

    constructor (s: State)
      ensures View() == s
    {
      table, cache, routerSaw, observations, links := s.table, s.cache, s.routerSaw, s.observations, s.links;
    }

    function View(): State
      reads this
    {
      State(table, cache, routerSaw, observations, links)
    }

    method Relocate(m: Move) returns (outcome: Option<Outcome>)
      modifies this`table, this`cache, this`links
      ensures View() == Relocated(old(View()), m)
      ensures outcome == OutcomeOf(old(View()), m)
    {
      ghost var s := View();
      if !Unspecified(m.fromSrc) || Unspecified(m.toSrc) || m.agentHost.None? || m.agentHost.value == "" {
        return None;
      }
      var from, to := FromKey(m), ToKey(m);
      var cachedFrom, stored := Lookup(cache, from), Lookup(table, from);
      if stored.None? && cachedFrom.None? {
        return None;
      }
      var owner := Coalesce(if cachedFrom.Some? then cachedFrom.value.agentHost else None,
                            if stored.Some? then stored.value.agentHost else None);
      if owner != m.agentHost || from in routerSaw {
        return None;
      }
      var stillUsed := StillUsed(View(), m);
      var source := if cachedFrom.Some? then cachedFrom.value else stored.value;
      var span := Union(if stored.Some? then Some(SpanOf(stored.value)) else None,
                        if cachedFrom.Some? then Some(SpanOf(cachedFrom.value)) else None).value;
      var sport := Coalesce(m.toSport, source.sport);
      var merged := to in table;
      if merged {
        var r := table[to];
        table := table[to := r.(firstSeen := Min(r.firstSeen, span.first), lastSeen := Max(r.lastSeen, span.last),
                                sport := Coalesce(r.sport, sport), agentHost := Coalesce(r.agentHost, source.agentHost),
                                process := Coalesce(r.process, source.process), pid := Coalesce(r.pid, source.pid))];
      } else {
        table := table[to := source.(firstSeen := span.first, lastSeen := span.last, sport := sport)];
      }
      if !stillUsed {
        links := MovedLinks(State(table, cache, routerSaw, observations, links), m);
        table := table - {from};
      }
      if to in cache {
        var c := cache[to];
        cache := cache[to := c.(firstSeen := Min(c.firstSeen, span.first), lastSeen := Max(c.lastSeen, span.last))];
      } else if cachedFrom.Some? {
        cache := cache[to := cachedFrom.value.(sport := Coalesce(m.toSport, cachedFrom.value.sport),
                                               firstSeen := span.first, lastSeen := span.last)];
      }
      if !stillUsed {
        cache := cache - {from};
      }
      outcome := Some(Outcome(span.first, span.last, merged, !stillUsed));
    }
  }
}
