/**
 Planning which backups to delete (src/backup-inventory.js): damaged files first,
 then old generations, then as many more as the space limits demand, but never
 the protected restore points.
 */
module BackupInventory {
  import opened Common

  const MIN_NORMAL_GENERATIONS := 2
  const MIN_MIGRATION_GENERATIONS := 1

  datatype Kind = Normal | Migration

  /** A backup file. `rank` is the place of its name in the names' order. */
  datatype Entry = Entry(path: nat, rank: int, kind: Kind, allocatedSize: nat, mtimeMs: int, headerOk: bool)

  datatype Reason = InvalidBackup | GenerationLimit | MigrationRetention | MigrationSpace | StorageLimit

  datatype Candidate = Candidate(entry: Entry, reason: Reason)

  /** The limits of a plan: free space now, and what the next migration needs. */
  datatype Limits = Limits(maxGenerations: int, maxBackupBytes: nat, freeBytes: int, migrationRequiredBytes: int)

  /** `selected` lists the candidates as they were chosen, `candidates` by age. */
  datatype Plan = Plan(selected: seq<Candidate>, candidates: seq<Candidate>, protectedEntries: seq<Entry>,
                       projectedBackupBytes: int, projectedFreeBytes: int, blocked: bool)

  // ------------------------------------------------------------------ entries

  predicate Older(a: Entry, b: Entry) {
    a.mtimeMs < b.mtimeMs || (a.mtimeMs == b.mtimeMs && a.rank <= b.rank)
  }

  predicate DistinctPaths(entries: seq<Entry>) {
    forall i, j :: 0 <= i < j < |entries| ==> entries[i].path != entries[j].path
  }

  function Usable(entries: seq<Entry>, kind: Kind): seq<Entry> {
    if entries == [] then []
    else (if entries[0].headerOk && entries[0].kind == kind then [entries[0]] else []) + Usable(entries[1..], kind)
  }

  function Damaged(entries: seq<Entry>): seq<Entry> {
    if entries == [] then []
    else (if entries[0].headerOk then [] else [entries[0]]) + Damaged(entries[1..])
  }

  predicate Present(entries: seq<Entry>, kind: Kind) {
    exists e <- entries :: e.kind == kind
  }

  function Total(entries: seq<Entry>): nat {
    if entries == [] then 0 else Total(entries[..|entries| - 1]) + entries[|entries| - 1].allocatedSize
  }

  function EntriesOf(cs: seq<Candidate>): (es: seq<Entry>)
    ensures |es| == |cs|
    ensures forall i :: 0 <= i < |cs| ==> es[i] == cs[i].entry
  {
    seq(|cs|, i requires 0 <= i < |cs| => cs[i].entry)
  }

  ghost function Freed(cs: seq<Candidate>): nat {
    Total(EntriesOf(cs))
  }

  // ------------------------------------------------------- the files sorted out

  lemma {:induction false} EveryEntryIsOneOfThree(entries: seq<Entry>)
    ensures multiset(entries)
            == multiset(Damaged(entries)) + multiset(Usable(entries, Normal)) + multiset(Usable(entries, Migration))
  {
    if entries != [] {
      EveryEntryIsOneOfThree(entries[1..]);
      assert entries == [entries[0]] + entries[1..];
    }
  }

  lemma {:induction false} DistinctEntries(entries: seq<Entry>, e: Entry)
    requires DistinctPaths(entries)
    ensures multiset(entries)[e] <= 1
  {
    if entries != [] {
      DistinctEntries(entries[1..], e);
      assert entries == [entries[0]] + entries[1..];
      assert e == entries[0] ==> forall i :: 0 <= i < |entries[1..]| ==> entries[1..][i].path != e.path;
    }
  }

  lemma {:induction false} UsableOfKind(entries: seq<Entry>, kind: Kind)
    ensures forall e <- Usable(entries, kind) :: e.headerOk && e.kind == kind && e in entries
  {
    if entries != [] {
      UsableOfKind(entries[1..], kind);
    }
  }

  lemma {:induction false} DamagedAre(entries: seq<Entry>)
    ensures forall e <- Damaged(entries) :: !e.headerOk && e in entries
  {
    if entries != [] {
      DamagedAre(entries[1..]);
    }
  }

  lemma {:induction false} DamagedAreListed(entries: seq<Entry>, e: Entry)
    requires e in entries && !e.headerOk
    ensures e in Damaged(entries)
  {
    if e != entries[0] {
      DamagedAreListed(entries[1..], e);
    }
  }

  lemma {:induction false} UsableKeepOrder(entries: seq<Entry>, kind: Kind)
    requires OldestFirst(entries)
    ensures OldestFirst(Usable(entries, kind))
  {
    if entries != [] {
      UsableKeepOrder(entries[1..], kind);
      UsableOfKind(entries[1..], kind);
      var rest := Usable(entries[1..], kind);
      forall j | 0 <= j < |rest| ensures Older(entries[0], rest[j]) {
        assert rest[j] in entries[1..];
      }
    }
  }

  /** A directory sorted out as the planner does at first: what is damaged, what
      is usable of each kind, which kinds there are, and how many bytes in all. */
  datatype Lists = Lists(damaged: seq<Entry>, normal: seq<Entry>, migration: seq<Entry>,
                         hasNormal: bool, hasMigration: bool, total: nat)

  function ListsOf(entries: seq<Entry>): Lists {
    Lists(Damaged(entries), Usable(entries, Normal), Usable(entries, Migration),
          Present(entries, Normal), Present(entries, Migration), Total(entries))
  }

  function Of(l: Lists, kind: Kind): seq<Entry> {
    if kind == Normal then l.normal else l.migration
  }

  predicate Has(l: Lists, kind: Kind) {
    if kind == Normal then l.hasNormal else l.hasMigration
  }

  function All(l: Lists): multiset<Entry> {
    multiset(l.damaged) + multiset(l.normal) + multiset(l.migration)
  }

  /** Each list holds what it should, no file is listed twice, and no path names two. */
  ghost predicate Proper(l: Lists) {
    && (forall e <- l.damaged :: !e.headerOk)
    && (forall e <- l.normal :: e.headerOk && e.kind == Normal)
    && (forall e <- l.migration :: e.headerOk && e.kind == Migration)
    && (forall e: Entry :: All(l)[e] <= 1)
    && (forall x, y: Entry :: x in All(l) && y in All(l) && x.path == y.path ==> x == y)
  }

  lemma ListsAreProper(entries: seq<Entry>)
    requires DistinctPaths(entries)
    ensures Proper(ListsOf(entries)) && All(ListsOf(entries)) == multiset(entries)
  {
    var l := ListsOf(entries);
    DamagedAre(entries);
    UsableOfKind(entries, Normal);
    UsableOfKind(entries, Migration);
    EveryEntryIsOneOfThree(entries);
    forall e: Entry ensures All(l)[e] <= 1 {
      DistinctEntries(entries, e);
    }
    forall x, y: Entry | x in All(l) && y in All(l) && x.path == y.path ensures x == y {
      SamePathSameEntry(entries, x, y);
    }
  }

  lemma SamePathSameEntry(entries: seq<Entry>, x: Entry, y: Entry)
    requires DistinctPaths(entries) && x in multiset(entries) && y in multiset(entries) && x.path == y.path
    ensures x == y
  {
    var i :| 0 <= i < |entries| && entries[i] == x;
    var j :| 0 <= j < |entries| && entries[j] == y;
  }

  // ----------------------------------------------------------- protected sets

  function Missing(l: Lists, kind: Kind): nat {
    var minimum := if kind == Normal then MIN_NORMAL_GENERATIONS else MIN_MIGRATION_GENERATIONS;
    if Has(l, kind) then Max(0, minimum - |Of(l, kind)|) else 0
  }

  /** What is protected of a kind; a shortage of one kind is made up by the other. */
  function EffectiveMinimum(l: Lists, kind: Kind): (n: nat)
    ensures n <= |Of(l, kind)|
  {
    if kind == Normal then Min(|l.normal|, MIN_NORMAL_GENERATIONS + Missing(l, Migration))
    else Min(|l.migration|, MIN_MIGRATION_GENERATIONS + Missing(l, Normal))
  }

  /** `list.slice(-n)`, which is the whole list when n is 0. */
  function SliceLast(list: seq<Entry>, n: nat): seq<Entry>
    requires n <= |list|
  {
    if n == 0 then list else list[|list| - n..]
  }

  function Protected(l: Lists): seq<Entry> {
    SliceLast(l.normal, EffectiveMinimum(l, Normal)) + SliceLast(l.migration, EffectiveMinimum(l, Migration))
  }

  lemma MinimaLeaveThreeRestorePoints(l: Lists)
    requires Has(l, Normal) && Has(l, Migration)
    ensures EffectiveMinimum(l, Normal) + EffectiveMinimum(l, Migration)
            >= Min(|l.normal| + |l.migration|, 3)
  {
  }

  // ----------------------------------------------------------------- the plan

  predicate NeedStorage(limits: Limits, projectedBackup: int) {
    limits.maxBackupBytes > 0 && projectedBackup > limits.maxBackupBytes
  }

  predicate NeedSpace(limits: Limits, projectedFree: int) {
    projectedFree < limits.migrationRequiredBytes
  }

  /** Whether space is still short once `freed` bytes are gone from `total`. */
  predicate StillNeeded(limits: Limits, total: int, freed: int) {
    NeedStorage(limits, total - freed) || NeedSpace(limits, limits.freeBytes + freed)
  }

  /** How many of the oldest normal generations exceed the configured number. */
  function OverLimit(l: Lists, limits: Limits): nat {
    Max(0, |l.normal| - Max(EffectiveMinimum(l, Normal), limits.maxGenerations))
  }

  function AllButProtected(l: Lists, kind: Kind): nat {
    |Of(l, kind)| - EffectiveMinimum(l, kind)
  }

  /** Who goes, in the order chosen: the damaged files, the `g` oldest normal
      generations, the `m` oldest migration snapshots, then for space the
      normal generations from `g` up to `n`. */
  function Chosen(l: Lists, g: nat, m: nat, n: nat): seq<Entry>
    requires g <= n <= |l.normal| && m <= |l.migration|
  {
    l.damaged + l.normal[..g] + l.migration[..m] + l.normal[g..n]
  }

  /** Who stays: the newest usable files of each kind. */
  function Kept(l: Lists, m: nat, n: nat): seq<Entry>
    requires n <= |l.normal| && m <= |l.migration|
  {
    l.normal[n..] + l.migration[m..]
  }

  /** The reason for the candidate at `i`, when `freed` bytes were gone before it. */
  predicate RightReason(l: Lists, limits: Limits, g: nat, m: nat, i: nat, freed: nat, reason: Reason) {
    var d := |l.damaged|;
    if i < d then reason == InvalidBackup
    else if i < d + g then reason == GenerationLimit
    else if i < d + g + m then reason == MigrationRetention
    else if NeedSpace(limits, limits.freeBytes + freed) then reason == MigrationSpace
    else reason == StorageLimit && NeedStorage(limits, l.total - freed)
  }

  ghost predicate ReasonAt(l: Lists, limits: Limits, cs: seq<Candidate>, g: nat, m: nat, i: nat)
    requires i < |cs|
  {
    RightReason(l, limits, g, m, i, Total(EntriesOf(cs)[..i]), cs[i].reason)
  }

  ghost predicate ReasonsHold(l: Lists, limits: Limits, cs: seq<Candidate>, g: nat, m: nat) {
    forall i {:trigger ReasonAt(l, limits, cs, g, m, i)} :: 0 <= i < |cs| ==>
      ReasonAt(l, limits, cs, g, m, i)
  }

  predicate Unmet(limits: Limits, plan: Plan) {
    NeedStorage(limits, plan.projectedBackupBytes) || NeedSpace(limits, plan.projectedFreeBytes)
  }

  predicate ByAge(cs: seq<Candidate>) {
    forall i, j :: 0 <= i < j < |cs| ==> Older(cs[i].entry, cs[j].entry)
  }

  /** What the planner promises, `n` being how many usable normal generations go. */
  ghost predicate IsPlan(l: Lists, limits: Limits, plan: Plan, n: nat) {
    var g, m := OverLimit(l, limits), AllButProtected(l, Migration);
    && g <= n <= AllButProtected(l, Normal)
    && EntriesOf(plan.selected) == Chosen(l, g, m, n)
    && ReasonsHold(l, limits, plan.selected, g, m)
    && multiset(plan.candidates) == multiset(plan.selected) && ByAge(plan.candidates)
    && plan.protectedEntries == Protected(l)
    && plan.projectedBackupBytes == l.total - Total(EntriesOf(plan.selected))
    && plan.projectedFreeBytes == limits.freeBytes + Total(EntriesOf(plan.selected))
    && (Unmet(limits, plan) ==> n == AllButProtected(l, Normal))
    && (plan.blocked <==> Unmet(limits, plan) || Missing(l, Normal) > 0 || Missing(l, Migration) > 0)
  }

  /** How many usable normal generations a plan lists. */
  function NormalGone(l: Lists, plan: Plan): nat {
    Max(0, |plan.selected| - |l.damaged| - AllButProtected(l, Migration))
  }

  lemma PlanSaysHowMany(l: Lists, limits: Limits, plan: Plan, n: nat)
    requires IsPlan(l, limits, plan, n)
    ensures n == NormalGone(l, plan)
  {
    assert |EntriesOf(plan.selected)| == |plan.selected|;
  }

  // ------------------------------------------------------- what a plan means

  /** Chosen and kept files together are the files, each as often as it occurs. */
  lemma ChosenAndKeptPartition(l: Lists, g: nat, m: nat, n: nat)
    requires g <= n <= |l.normal| && m <= |l.migration|
    ensures All(l) == multiset(Chosen(l, g, m, n)) + multiset(Kept(l, m, n))
  {
    var un, um := l.normal, l.migration;
    SplitInThree(un, g, n);
    SplitInThree(um, m, |um|);
    assert um[m..] == um[m..|um|] + um[|um|..];
    FourTogether(l.damaged, un[..g], um[..m], un[g..n]);
  }

  lemma SplitInThree(list: seq<Entry>, g: nat, n: nat)
    requires g <= n <= |list|
    ensures multiset(list) == multiset(list[..g]) + multiset(list[g..n]) + multiset(list[n..])
  {
    assert list == list[..g] + list[g..n] + list[n..];
  }

  lemma FourTogether(a: seq<Entry>, b: seq<Entry>, c: seq<Entry>, d: seq<Entry>)
    ensures multiset(a + b + c + d) == multiset(a) + multiset(b) + multiset(c) + multiset(d)
  {
  }

  lemma KeptIsNotChosen(l: Lists, g: nat, m: nat, n: nat, e: Entry)
    requires Proper(l)
    requires g <= n <= |l.normal| && m <= |l.migration|
    requires e in Kept(l, m, n)
    ensures e in All(l) && e !in Chosen(l, g, m, n)
  {
    var chosen, kept := Chosen(l, g, m, n), Kept(l, m, n);
    ChosenAndKeptPartition(l, g, m, n);
    assert multiset(kept)[e] > 0;
    assert All(l)[e] == 1;
    assert multiset(chosen)[e] == 0;
  }

  /** Candidates and kept files together are all the files; what is kept is the
      newest usable part of each kind; every damaged file is a candidate and no
      protected one is. */
  lemma PlanPartitions(entries: seq<Entry>, l: Lists, limits: Limits, plan: Plan, n: nat)
    requires DistinctPaths(entries) && l == ListsOf(entries) && IsPlan(l, limits, plan, n)
    ensures multiset(entries)
            == multiset(EntriesOf(plan.selected)) + multiset(Kept(l, AllButProtected(l, Migration), n))
    ensures forall e <- entries :: !e.headerOk ==> e in EntriesOf(plan.selected)
    ensures forall e <- plan.protectedEntries :: e in entries && e !in EntriesOf(plan.selected)
  {
    var g, m := OverLimit(l, limits), AllButProtected(l, Migration);
    ListsAreProper(entries);
    ChosenAndKeptPartition(l, g, m, n);
    forall e <- entries | !e.headerOk ensures e in EntriesOf(plan.selected) {
      DamagedAreListed(entries, e);
    }
    forall e <- plan.protectedEntries ensures e in entries && e !in EntriesOf(plan.selected) {
      ProtectedAreKept(l, n, e);
      KeptIsNotChosen(l, g, m, n, e);
      assert e in multiset(entries);
    }
  }

  lemma ProtectedAreKept(l: Lists, n: nat, e: Entry)
    requires n <= AllButProtected(l, Normal)
    requires e in Protected(l)
    ensures e in Kept(l, AllButProtected(l, Migration), n)
  {
    var un, um := l.normal, l.migration;
    SliceLastIsSuffix(un, EffectiveMinimum(l, Normal), n, e);
    SliceLastIsSuffix(um, EffectiveMinimum(l, Migration), AllButProtected(l, Migration), e);
  }

  lemma SliceLastIsSuffix(list: seq<Entry>, k: nat, from: nat, e: Entry)
    requires from + k <= |list| && (k == 0 ==> list == [])
    ensures e in SliceLast(list, k) ==> e in list[from..]
  {
    if e in SliceLast(list, k) {
      var i :| 0 <= i < k && list[|list| - k..][i] == e;
      assert list[from..][|list| - k - from + i] == e;
    }
  }

  predicate OldestFirst(list: seq<Entry>) {
    forall i, j :: 0 <= i < j < |list| ==> Older(list[i], list[j])
  }

  /** Of usable files of one kind, none that stays is older than one that goes. */
  lemma NewestAreKept(entries: seq<Entry>, l: Lists, limits: Limits, plan: Plan, n: nat, gone: Entry, kept: Entry)
    requires DistinctPaths(entries) && OldestFirst(entries) && l == ListsOf(entries) && IsPlan(l, limits, plan, n)
    requires gone in EntriesOf(plan.selected) && gone.headerOk && gone.kind == kept.kind
    requires kept in Kept(l, AllButProtected(l, Migration), n)
    ensures Older(gone, kept)
  {
    var m := AllButProtected(l, Migration);
    ListsAreProper(entries);
    UsableKeepOrder(entries, gone.kind);
    GoneIsInPrefix(l, OverLimit(l, limits), m, n, gone);
    KeptIsInSuffix(l, m, n, kept);
    PrefixIsOlder(Of(l, gone.kind), if gone.kind == Normal then n else m, gone, kept);
  }

  lemma PrefixIsOlder(list: seq<Entry>, at: nat, gone: Entry, kept: Entry)
    requires OldestFirst(list) && at <= |list| && gone in list[..at] && kept in list[at..]
    ensures Older(gone, kept)
  {
    var i :| 0 <= i < at && list[i] == gone;
    var j :| 0 <= j < |list| - at && list[at..][j] == kept;
    assert list[at + j] == kept;
  }

  lemma KeptIsInSuffix(l: Lists, m: nat, n: nat, e: Entry)
    requires Proper(l) && n <= |l.normal| && m <= |l.migration|
    requires e in Kept(l, m, n)
    ensures if e.kind == Normal then e in l.normal[n..] else e in l.migration[m..]
  {
  }

  lemma GoneIsInPrefix(l: Lists, g: nat, m: nat, n: nat, e: Entry)
    requires Proper(l) && g <= n <= |l.normal| && m <= |l.migration|
    requires e in Chosen(l, g, m, n) && e.headerOk
    ensures if e.kind == Normal then e in l.normal[..n] else e in l.migration[..m]
  {
    var un := l.normal;
    assert un[..n] == un[..g] + un[g..n];
  }

  /** With both kinds present, at least three restore points stay, or all there are. */
  lemma PlanKeepsRestorePoints(l: Lists, limits: Limits, plan: Plan, n: nat)
    requires IsPlan(l, limits, plan, n) && Has(l, Normal) && Has(l, Migration)
    ensures |Kept(l, AllButProtected(l, Migration), n)|
            >= Min(|l.normal| + |l.migration|, 3)
  {
    MinimaLeaveThreeRestorePoints(l);
  }

  /** With the candidates before `i` gone a limit was still unmet, the reason says
      which, and a usable normal generation goes. */
  ghost predicate NeededWhenMade(l: Lists, limits: Limits, cs: seq<Candidate>, i: nat)
    requires i < |cs|
  {
    var freed := Total(EntriesOf(cs)[..i]);
    && StillNeeded(limits, l.total, freed)
    && (cs[i].reason == MigrationSpace <==> NeedSpace(limits, limits.freeBytes + freed))
    && cs[i].entry.kind == Normal && cs[i].entry.headerOk
  }

  /** Every deletion made for space was still needed when it was made. */
  lemma SpaceDeletionsWereNeeded(l: Lists, limits: Limits, plan: Plan, n: nat, i: nat)
    requires Proper(l) && IsPlan(l, limits, plan, n) && i < |plan.selected|
    requires plan.selected[i].reason == MigrationSpace || plan.selected[i].reason == StorageLimit
    ensures NeededWhenMade(l, limits, plan.selected, i)
  {
    SpaceReason(l, limits, plan.selected, OverLimit(l, limits), AllButProtected(l, Migration), n, i);
  }

  lemma SpaceReason(l: Lists, limits: Limits, cs: seq<Candidate>, g: nat, m: nat, n: nat, i: nat)
    requires Proper(l) && g <= n <= |l.normal| && m <= |l.migration| && i < |cs|
    requires EntriesOf(cs) == Chosen(l, g, m, n) && ReasonsHold(l, limits, cs, g, m)
    requires cs[i].reason == MigrationSpace || cs[i].reason == StorageLimit
    ensures NeededWhenMade(l, limits, cs, i)
  {
    var freed := Total(EntriesOf(cs)[..i]);
    assert ReasonAt(l, limits, cs, g, m, i);
    ChosenForSpace(l, g, m, n, i);
    assert EntriesOf(cs)[i] == cs[i].entry;
  }

  lemma ChosenForSpace(l: Lists, g: nat, m: nat, n: nat, i: nat)
    requires Proper(l) && g <= n <= |l.normal| && m <= |l.migration|
    requires |l.damaged| + g + m <= i < |Chosen(l, g, m, n)|
    ensures var e := Chosen(l, g, m, n)[i]; e.headerOk && e.kind == Normal
  {
    var at := i - |l.damaged| - m;
    assert Chosen(l, g, m, n)[i] == l.normal[at];
    assert l.normal[at] in l.normal;
  }

  /** Two normal generations and one migration snapshot are protected, and one more of a
      kind for each the other kind is short of, if it is there at all. */
  lemma ProtectedNumbers(l: Lists)
    ensures EffectiveMinimum(l, Normal) == Min(|l.normal|, if l.hasMigration && |l.migration| == 0 then 3 else 2)
    ensures EffectiveMinimum(l, Migration)
            == Min(|l.migration|, if !l.hasNormal || |l.normal| >= 2 then 1 else if |l.normal| == 1 then 2 else 3)
    ensures |Protected(l)| == EffectiveMinimum(l, Normal) + EffectiveMinimum(l, Migration)
  {
    ProtectedIsSuffix(l);
  }

  /** The bytes gone before it is the turn of the normal generation at `k`, once the
      snapshots are gone: the damaged files, those snapshots, and the older generations. */
  function GoneBefore(l: Lists, k: nat): nat
    requires k <= |l.normal|
  {
    Total(l.damaged) + Total(l.migration[..AllButProtected(l, Migration)]) + Total(l.normal[..k])
  }

  /** The unprotected normal generation at `k` is one too many, or a limit is unmet
      when its turn comes; a storage limit of 0 means there is none. */
  predicate MustGo(l: Lists, limits: Limits, k: nat)
    requires k < |l.normal|
  {
    || |l.normal| - k > limits.maxGenerations
    || (limits.maxBackupBytes > 0 && l.total - GoneBefore(l, k) > limits.maxBackupBytes)
    || limits.freeBytes + GoneBefore(l, k) < limits.migrationRequiredBytes
  }

  lemma TotalOfChosen(l: Lists, g: nat, n: nat, k: nat)
    requires g <= k <= n <= |l.normal|
    ensures var m := AllButProtected(l, Migration);
            |l.damaged| + m + k <= |Chosen(l, g, m, n)| && Total(Chosen(l, g, m, n)[..|l.damaged| + m + k]) == GoneBefore(l, k)
  {
    var m := AllButProtected(l, Migration);
    ChosenUpTo(l, g, m, n, k);
    TotalOfFour(l.damaged, l.normal[..g], l.migration[..m], l.normal[g..k]);
    TotalOfConcat(l.normal[..g], l.normal[g..k]);
    assert l.normal[..g] + l.normal[g..k] == l.normal[..k];
  }

  lemma ChosenUpTo(l: Lists, g: nat, m: nat, n: nat, k: nat)
    requires g <= k <= n <= |l.normal| && m <= |l.migration|
    ensures |l.damaged| + m + k <= |Chosen(l, g, m, n)|
    ensures Chosen(l, g, m, n)[..|l.damaged| + m + k] == l.damaged + l.normal[..g] + l.migration[..m] + l.normal[g..k]
  {
    var start := l.damaged + l.normal[..g] + l.migration[..m];
    assert Chosen(l, g, m, n) == start + l.normal[g..n] && |start| == |l.damaged| + g + m;
    assert l.normal[g..n][..k - g] == l.normal[g..k];
  }

  lemma TotalOfFour(a: seq<Entry>, b: seq<Entry>, c: seq<Entry>, d: seq<Entry>)
    ensures Total(a + b + c + d) == Total(a) + Total(b) + Total(c) + Total(d)
  {
    TotalOfConcat(a + b + c, d);
    TotalOfConcat(a + b, c);
    TotalOfConcat(a, b);
  }

  lemma LaterFreesMore(l: Lists, k: nat, j: nat)
    requires k <= j <= |l.normal|
    ensures GoneBefore(l, k) <= GoneBefore(l, j)
  {
    TotalOfConcat(l.normal[..k], l.normal[k..j]);
    assert l.normal[..k] + l.normal[k..j] == l.normal[..j];
  }

  lemma GoesForSpaceOnlyIfShort(l: Lists, limits: Limits, cs: seq<Candidate>, g: nat, n: nat, k: nat)
    requires g <= k < n <= |l.normal| && EntriesOf(cs) == Chosen(l, g, AllButProtected(l, Migration), n)
    requires ReasonsHold(l, limits, cs, g, AllButProtected(l, Migration))
    ensures StillNeeded(limits, l.total, GoneBefore(l, k))
  {
    var m := AllButProtected(l, Migration);
    var i := |l.damaged| + m + k;
    TotalOfChosen(l, g, n, k);
    ChosenUpTo(l, g, m, n, n);
    assert i < |cs| by { assert |cs| == |EntriesOf(cs)|; }
    var reason := cs[i].reason;
    assert RightReason(l, limits, g, m, i, GoneBefore(l, k), reason) by {
      assert ReasonAt(l, limits, cs, g, m, i);
    }
  }

  /** Exactly these usable files go: all snapshots but the protected, and of the normal
      generations those not protected that are too many or for whom space is short. */
  lemma GoesIff(l: Lists, limits: Limits, plan: Plan, n: nat, k: nat)
    requires IsPlan(l, limits, plan, n)
    ensures k < |l.normal| ==>
              (k < n <==> k < |l.normal| - EffectiveMinimum(l, Normal) && MustGo(l, limits, k))
    ensures EntriesOf(plan.selected)
            == l.damaged + l.normal[..OverLimit(l, limits)] + l.migration[..|l.migration| - EffectiveMinimum(l, Migration)]
               + l.normal[OverLimit(l, limits)..n]
  {
    var g := OverLimit(l, limits);
    if g <= k < n {
      GoesForSpaceOnlyIfShort(l, limits, plan.selected, g, n, k);
    } else if n <= k < |l.normal| {
      TotalOfChosen(l, g, n, n);
      assert Chosen(l, g, AllButProtected(l, Migration), n)[..|l.damaged| + AllButProtected(l, Migration) + n]
             == EntriesOf(plan.selected);
      LaterFreesMore(l, n, k);
    }
  }

  /** A plan is blocked when a limit stays unmet or a kind has too few usable files. */
  lemma BlockedIff(l: Lists, limits: Limits, plan: Plan, n: nat)
    requires IsPlan(l, limits, plan, n)
    ensures plan.blocked <==>
            || (limits.maxBackupBytes > 0 && plan.projectedBackupBytes > limits.maxBackupBytes)
            || plan.projectedFreeBytes < limits.migrationRequiredBytes
            || (l.hasNormal && |l.normal| < 2) || (l.hasMigration && |l.migration| < 1)
    ensures limits.maxBackupBytes == 0 ==> forall i :: 0 <= i < |plan.selected| ==> plan.selected[i].reason != StorageLimit
  {
    var g, m := OverLimit(l, limits), AllButProtected(l, Migration);
    forall i | 0 <= i < |plan.selected| && limits.maxBackupBytes == 0 ensures plan.selected[i].reason != StorageLimit {
      assert ReasonAt(l, limits, plan.selected, g, m, i);
    }
  }

  lemma SliceLastWhole(list: seq<Entry>, k: nat)
    requires k <= |list| && (k == 0 ==> |list| == 0)
    ensures SliceLast(list, k) == list[|list| - k..]
  {
  }

  lemma ProtectedIsSuffix(l: Lists)
    ensures Protected(l) == l.normal[|l.normal| - EffectiveMinimum(l, Normal)..]
                            + l.migration[|l.migration| - EffectiveMinimum(l, Migration)..]
  {
    SliceLastWhole(l.normal, EffectiveMinimum(l, Normal));
    SliceLastWhole(l.migration, EffectiveMinimum(l, Migration));
  }

  lemma OnlyProtectedLeft(l: Lists)
    ensures Kept(l, AllButProtected(l, Migration), AllButProtected(l, Normal)) == Protected(l)
  {
    ProtectedIsSuffix(l);
  }

  /** A limit left unmet means that nothing but protected files is left, and is reported. */
  lemma UnmetMeansOnlyProtectedLeft(l: Lists, limits: Limits, plan: Plan, n: nat)
    requires IsPlan(l, limits, plan, n) && Unmet(limits, plan)
    ensures plan.blocked
    ensures Kept(l, AllButProtected(l, Migration), n) == plan.protectedEntries
  {
    OnlyProtectedLeft(l);
  }

  /** The projections account for every byte of the final candidate list. */
  lemma ProjectionsBalance(l: Lists, limits: Limits, plan: Plan, n: nat)
    requires IsPlan(l, limits, plan, n)
    ensures plan.projectedFreeBytes - limits.freeBytes == l.total - plan.projectedBackupBytes
    ensures plan.projectedFreeBytes - limits.freeBytes == Total(EntriesOf(plan.candidates))
  {
    TotalIsOrderFree(plan.selected, plan.candidates);
  }

  lemma {:induction false} TotalOfConcat(a: seq<Entry>, b: seq<Entry>)
    ensures Total(a + b) == Total(a) + Total(b)
    decreases |b|
  {
    if b == [] {
      assert a + b == a;
    } else {
      assert (a + b)[..|a + b| - 1] == a + b[..|b| - 1];
      TotalOfConcat(a, b[..|b| - 1]);
    }
  }

  lemma TotalWithout(b: seq<Candidate>, i: nat)
    requires i < |b|
    ensures Total(EntriesOf(b)) == Total(EntriesOf(b[..i] + b[i + 1..])) + b[i].entry.allocatedSize
  {
    var x, y := EntriesOf(b[..i]), EntriesOf(b[i + 1..]);
    assert EntriesOf(b) == x + [b[i].entry] + y;
    assert EntriesOf(b[..i] + b[i + 1..]) == x + y;
    TotalOfConcat(x, [b[i].entry]);
    TotalOfConcat(x + [b[i].entry], y);
    TotalOfConcat(x, y);
    assert [b[i].entry][..0] == [];
  }

  /** `b` holds the first of `a` somewhere, and the rest of `a` elsewhere. */
  lemma FirstOf(a: seq<Candidate>, b: seq<Candidate>) returns (i: nat)
    requires multiset(a) == multiset(b) && a != []
    ensures i < |b| && b[i] == a[0] && multiset(a[1..]) == multiset(b[..i] + b[i + 1..])
  {
    assert a[0] in multiset(b);
    i :| 0 <= i < |b| && b[i] == a[0];
    MultisetWithout(b, i);
    assert a == [a[0]] + a[1..];
    assert multiset(a[1..]) == multiset(a) - multiset{a[0]};
  }

  lemma TotalStep(a: seq<Candidate>, b: seq<Candidate>, i: nat)
    requires a != [] && i < |b| && b[i] == a[0]
    requires Freed(a[1..]) == Freed(b[..i] + b[i + 1..])
    ensures Freed(a) == Freed(b)
  {
    TotalWithout(a, 0);
    TotalWithout(b, i);
    var rest := a[..0] + a[1..];
    assert rest == a[1..];
    assert Total(EntriesOf(rest)) == Freed(a[1..]);
  }

  lemma {:induction false} TotalIsOrderFree(a: seq<Candidate>, b: seq<Candidate>)
    requires multiset(a) == multiset(b)
    ensures Freed(a) == Freed(b)
    decreases |a|
  {
    if a == [] {
      assert |multiset(b)| == |b|;
    } else {
      var i := FirstOf(a, b);
      TotalIsOrderFree(a[1..], b[..i] + b[i + 1..]);
      TotalStep(a, b, i);
    }
  }

  // ------------------------------------------------------------ the selection

  lemma ReasonsExtend(l: Lists, limits: Limits, cs: seq<Candidate>, g: nat, m: nat, c: Candidate)
    requires ReasonsHold(l, limits, cs, g, m)
    requires RightReason(l, limits, g, m, |cs|, Total(EntriesOf(cs)), c.reason)
    ensures ReasonsHold(l, limits, cs + [c], g, m)
    ensures EntriesOf(cs + [c]) == EntriesOf(cs) + [c.entry]
    ensures Total(EntriesOf(cs + [c])) == Total(EntriesOf(cs)) + c.entry.allocatedSize
  {
    var es, fs := EntriesOf(cs), EntriesOf(cs + [c]);
    assert fs == es + [c.entry];
    assert fs[..|cs|] == es;
    forall i | 0 <= i <= |cs|
      ensures ReasonAt(l, limits, cs + [c], g, m, i)
    {
      if i < |cs| {
        assert fs[..i] == es[..i];
        assert ReasonAt(l, limits, cs, g, m, i);
      }
    }
  }

  lemma ReasonsWiden(l: Lists, limits: Limits, cs: seq<Candidate>, g: nat, m: nat, g': nat, m': nat)
    requires ReasonsHold(l, limits, cs, g, m)
    requires g <= g' && m <= m' && |cs| <= |l.damaged| + g + m && (g == g' || |cs| <= |l.damaged| + g)
    ensures ReasonsHold(l, limits, cs, g', m')
  {
    forall i | 0 <= i < |cs|
      ensures ReasonAt(l, limits, cs, g', m', i)
    {
      assert ReasonAt(l, limits, cs, g, m, i);
    }
  }

  /** Distinct files: a kept file shares its path with no chosen one. */
  lemma KeptPathsAreNew(l: Lists, g: nat, m: nat, n: nat, e: Entry)
    requires Proper(l)
    requires g <= n <= |l.normal| && m <= |l.migration|
    requires e in Kept(l, m, n)
    ensures forall c <- Chosen(l, g, m, n) :: c.path != e.path
  {
    KeptIsNotChosen(l, g, m, n, e);
    forall c <- Chosen(l, g, m, n) ensures c.path != e.path {
      ChosenAreEntries(l, g, m, n, c);
    }
  }

  lemma ChosenAreEntries(l: Lists, g: nat, m: nat, n: nat, c: Entry)
    requires g <= n <= |l.normal| && m <= |l.migration|
    requires c in Chosen(l, g, m, n)
    ensures c in All(l)
  {
    ChosenAndKeptPartition(l, g, m, n);
    assert c in multiset(Chosen(l, g, m, n));
  }

  /** The planner's state after `g` generations over the limit, `m` snapshots
      and `n` normal generations in all. */
  ghost predicate Picked(l: Lists, limits: Limits, cs: seq<Candidate>, selected: set<nat>,
                         g: nat, m: nat, n: nat)
  {
    && Proper(l)
    && g <= n <= AllButProtected(l, Normal) && m <= AllButProtected(l, Migration)
    && EntriesOf(cs) == Chosen(l, g, m, n)
    && ReasonsHold(l, limits, cs, g, m)
    && selected == set e <- Chosen(l, g, m, n) :: e.path
  }

  lemma ChosenOneMore(l: Lists, g: nat, m: nat, n: nat)
    requires g <= n <= |l.normal| && m <= |l.migration|
    ensures n < |l.normal| ==>
              Chosen(l, g, m, n) + [l.normal[n]] == Chosen(l, g, m, n + 1)
    ensures n < |l.normal| && g == n && m == 0 ==>
              Chosen(l, g, 0, n) + [l.normal[n]] == Chosen(l, g + 1, 0, n + 1)
    ensures m < |l.migration| && g == n ==>
              Chosen(l, g, m, n) + [l.migration[m]] == Chosen(l, g, m + 1, n)
  {
  }

  lemma PathsOneMore(es: seq<Entry>, e: Entry)
    ensures (set x <- es + [e] :: x.path) == (set x <- es :: x.path) + {e.path}
  {
    var more := es + [e];
    assert more[|es|] == e;
    forall x <- es ensures x in more {}
    forall x <- more ensures x in es || x == e {}
  }

  /** The oldest normal generation left is taken because there are too many. */
  lemma PickOverLimit(l: Lists, limits: Limits, cs: seq<Candidate>, selected: set<nat>, g: nat)
    requires Picked(l, limits, cs, selected, g, 0, g) && g < AllButProtected(l, Normal)
    ensures var e := l.normal[g];
            && e.path !in selected
            && Picked(l, limits, cs + [Candidate(e, GenerationLimit)], selected + {e.path}, g + 1, 0, g + 1)
  {
    var e := l.normal[g];
    assert Kept(l, 0, g)[0] == e;
    KeptPathsAreNew(l, g, 0, g, e);
    assert |cs| == |EntriesOf(cs)| == |l.damaged| + g;
    ReasonsWiden(l, limits, cs, g, 0, g + 1, 0);
    ReasonsExtend(l, limits, cs, g + 1, 0, Candidate(e, GenerationLimit));
    ChosenOneMore(l, g, 0, g);
    PathsOneMore(Chosen(l, g, 0, g), e);
  }

  /** Space is short once `cs` is gone, and `reason` says for whom. */
  ghost predicate ShortFor(l: Lists, limits: Limits, cs: seq<Candidate>, g: nat, m: nat, reason: Reason) {
    RightReason(l, limits, g, m, |cs|, Freed(cs), reason)
  }

  lemma ReasonWhenShort(l: Lists, limits: Limits, cs: seq<Candidate>, selected: set<nat>,
                        g: nat, m: nat, n: nat)
    requires Picked(l, limits, cs, selected, g, m, n)
    requires StillNeeded(limits, l.total, Freed(cs))
    ensures ShortFor(l, limits, cs, g, m,
                     if NeedSpace(limits, limits.freeBytes + Freed(cs)) then MigrationSpace else StorageLimit)
  {
    assert |cs| == |EntriesOf(cs)| == |l.damaged| + m + n;
  }

  /** The oldest normal generation left is taken because space is short. */
  lemma PickForSpace(l: Lists, limits: Limits, cs: seq<Candidate>, selected: set<nat>,
                     g: nat, m: nat, n: nat, e: Entry, reason: Reason)
    requires Picked(l, limits, cs, selected, g, m, n) && n < AllButProtected(l, Normal)
    requires e == l.normal[n] && ShortFor(l, limits, cs, g, m, reason)
    ensures e.path !in selected
    ensures Picked(l, limits, cs + [Candidate(e, reason)], selected + {e.path}, g, m, n + 1)
    ensures Freed(cs + [Candidate(e, reason)]) == Freed(cs) + e.allocatedSize
  {
    assert Kept(l, m, n)[0] == e;
    KeptPathsAreNew(l, g, m, n, e);
    ReasonsExtend(l, limits, cs, g, m, Candidate(e, reason));
    ChosenOneMore(l, g, m, n);
    PathsOneMore(Chosen(l, g, m, n), e);
  }

  lemma PickMigration(l: Lists, limits: Limits, cs: seq<Candidate>, selected: set<nat>, g: nat, m: nat)
    requires Picked(l, limits, cs, selected, g, m, g) && m < AllButProtected(l, Migration)
    ensures var e := l.migration[m];
            && e.path !in selected
            && Picked(l, limits, cs + [Candidate(e, MigrationRetention)], selected + {e.path}, g, m + 1, g)
  {
    var e := l.migration[m];
    assert Kept(l, m, g)[|l.normal| - g] == e;
    KeptPathsAreNew(l, g, m, g, e);
    ReasonsWiden(l, limits, cs, g, m, g, m + 1);
    ReasonsExtend(l, limits, cs, g, m + 1, Candidate(e, MigrationRetention));
    ChosenOneMore(l, g, m, g);
    PathsOneMore(Chosen(l, g, m, g), e);
  }

  /** The planner at work: what is left of each list, oldest first. */
  class Planner {
    const l: Lists
    const limits: Limits
    var normal: seq<Entry>
    var migration: seq<Entry>
    var candidates: seq<Candidate>
    var selected: set<nat>

    constructor (l: Lists, limits: Limits)
      requires Proper(l)
      ensures this.l == l && this.limits == limits
      ensures Valid(0, 0, 0)
    {
      var damaged := l.damaged;
      this.l, this.limits := l, limits;
      normal := l.normal[..AllButProtected(l, Normal)];
      migration := l.migration[..AllButProtected(l, Migration)];
      candidates := seq(|damaged|, i requires 0 <= i < |damaged| => Candidate(damaged[i], InvalidBackup));
      selected := set e <- damaged :: e.path;
      new;
      assert EntriesOf(candidates) == damaged == Chosen(l, 0, 0, 0);
    }

    /** `g` generations over the limit are out, `m` snapshots and `n` normal generations in all. */
    ghost predicate Valid(g: nat, m: nat, n: nat)
      reads this
    {
      && Picked(l, limits, candidates, selected, g, m, n)
      && normal == l.normal[n..AllButProtected(l, Normal)]
      && migration == l.migration[m..AllButProtected(l, Migration)]
    }

    /** `addCandidate`: false when the file was chosen before. */
    method AddCandidate(entry: Entry, reason: Reason) returns (added: bool)
      modifies this`candidates, this`selected
      ensures added == (entry.path !in old(selected))
      ensures added ==> candidates == old(candidates) + [Candidate(entry, reason)]
                        && selected == old(selected) + {entry.path}
      ensures !added ==> candidates == old(candidates) && selected == old(selected)
    {
      if entry.path in selected {
        return false;
      }
      selected := selected + {entry.path};
      candidates := candidates + [Candidate(entry, reason)];
      return true;
    }

    /** `removeOldest`: takes the oldest entry of a kind off its list; false when
        there is none, or when the file was chosen before. */
    method RemoveOldest(kind: Kind, reason: Reason) returns (removed: bool)
      modifies this`normal, this`migration, this`candidates, this`selected
      ensures var list := if kind == Normal then old(normal) else old(migration);
              && removed == (list != [] && list[0].path !in old(selected))
              && candidates == old(candidates) + (if removed then [Candidate(list[0], reason)] else [])
              && selected == old(selected) + (if removed then {list[0].path} else {})
              && normal == (if kind == Normal && list != [] then list[1..] else old(normal))
              && migration == (if kind == Migration && list != [] then list[1..] else old(migration))
    {
      var list := if kind == Normal then normal else migration;
      if list == [] {
        return false;
      }
      if kind == Normal {
        normal := list[1..];
      } else {
        migration := list[1..];
      }
      removed := AddCandidate(list[0], reason);
    }

    /** Down to the configured number of normal generations. */
    method EnforceGenerations() returns (ghost g: nat)
      requires Valid(0, 0, 0)
      modifies this
      ensures Valid(g, 0, g) && g == OverLimit(l, limits)
    {
      g := 0;
      var retention := Max(EffectiveMinimum(l, Normal), limits.maxGenerations);
      while |normal| + EffectiveMinimum(l, Normal) > retention
        invariant Valid(g, 0, g) && g <= OverLimit(l, limits)
        decreases |normal|
      {
        PickOverLimit(l, limits, candidates, selected, g);
        var removed := RemoveOldest(Normal, GenerationLimit);
        g := g + 1;
        if !removed {
          break;
        }
      }
    }

    /** All migration snapshots that are not protected. */
    method DropMigrations(ghost g: nat)
      requires Valid(g, 0, g)
      modifies this
      ensures Valid(g, AllButProtected(l, Migration), g)
    {
      ghost var m: nat := 0;
      while |migration| > 0
        invariant Valid(g, m, g)
        decreases |migration|
      {
        PickMigration(l, limits, candidates, selected, g, m);
        var removed := RemoveOldest(Migration, MigrationRetention);
        m := m + 1;
        if !removed {
          break;
        }
      }
    }

    /** The projections after what is chosen so far. */
    ghost predicate Projected(backup: int, free: int)
      reads this
    {
      backup == l.total - Freed(candidates) && free == limits.freeBytes + Freed(candidates)
    }

    /** One more normal generation goes, for the limit that is short. */
    method FreeOne(backup: int, free: int, ghost g: nat, ghost m: nat, ghost n: nat)
      returns (backupAfter: int, freeAfter: int)
      requires Valid(g, m, n) && Projected(backup, free) && normal != []
      requires NeedStorage(limits, backup) || NeedSpace(limits, free)
      modifies this
      ensures Valid(g, m, n + 1) && Projected(backupAfter, freeAfter) && |normal| < |old(normal)|
    {
      var entry := normal[0];
      ReasonWhenShort(l, limits, candidates, selected, g, m, n);
      var reason := if NeedSpace(limits, free) then MigrationSpace else StorageLimit;
      PickForSpace(l, limits, candidates, selected, g, m, n, entry, reason);
      var removed := RemoveOldest(Normal, reason);
      backupAfter, freeAfter := backup - entry.allocatedSize, free + entry.allocatedSize;
    }

    /** As long as space is short and something unprotected is left. By now no
        migration snapshot is, so the oldest choice is a normal generation. */
    method FreeSpace(ghost g: nat, ghost m: nat) returns (backup: int, free: int, ghost n: nat)
      requires Valid(g, m, g) && m == AllButProtected(l, Migration)
      modifies this
      ensures g <= n && Valid(g, m, n) && Projected(backup, free)
      ensures NeedStorage(limits, backup) || NeedSpace(limits, free) ==> n == AllButProtected(l, Normal)
    {
      n := g;
      var freed := Total(EntriesOf(candidates));
      backup, free := l.total - freed, limits.freeBytes + freed;
      while NeedStorage(limits, backup) || NeedSpace(limits, free)
        invariant g <= n && Valid(g, m, n) && Projected(backup, free)
        decreases |normal|
      {
        assert migration == [];
        if normal == [] {
          break;
        }
        backup, free := FreeOne(backup, free, g, m, n);
        n := n + 1;
      }
    }
  }

  lemma InsertedInOrder(sorted: seq<Candidate>, at: nat, c: Candidate)
    requires ByAge(sorted) && at <= |sorted|
    requires at > 0 ==> Older(sorted[at - 1].entry, c.entry)
    requires forall j :: at <= j < |sorted| ==> Older(c.entry, sorted[j].entry)
    ensures ByAge(sorted[..at] + [c] + sorted[at..])
  {
  }

  method InsertByAge(sorted: seq<Candidate>, c: Candidate) returns (longer: seq<Candidate>)
    requires ByAge(sorted)
    ensures ByAge(longer) && multiset(longer) == multiset(sorted) + multiset{c}
  {
    var at := |sorted|;
    while at > 0 && !Older(sorted[at - 1].entry, c.entry)
      invariant 0 <= at <= |sorted|
      invariant forall j :: at <= j < |sorted| ==> Older(c.entry, sorted[j].entry)
    {
      at := at - 1;
    }
    InsertedInOrder(sorted, at, c);
    InsertedOnce(sorted, at, c);
    longer := sorted[..at] + [c] + sorted[at..];
  }

  /** Oldest first. */
  method SortByAge(cs: seq<Candidate>) returns (sorted: seq<Candidate>)
    ensures multiset(sorted) == multiset(cs) && ByAge(sorted)
  {
    sorted := [];
    for i := 0 to |cs|
      invariant multiset(sorted) == multiset(cs[..i]) && ByAge(sorted)
    {
      assert cs[..i + 1] == cs[..i] + [cs[i]];
      sorted := InsertByAge(sorted, cs[i]);
    }
    assert cs[..|cs|] == cs;
  }

  lemma PickedIsPlan(l: Lists, limits: Limits, plan: Plan, selected: set<nat>, n: nat)
    requires Picked(l, limits, plan.selected, selected, OverLimit(l, limits),
                    AllButProtected(l, Migration), n)
    requires multiset(plan.candidates) == multiset(plan.selected) && ByAge(plan.candidates)
    requires plan.protectedEntries == Protected(l)
    requires plan.projectedBackupBytes == l.total - Freed(plan.selected)
    requires plan.projectedFreeBytes == limits.freeBytes + Freed(plan.selected)
    requires Unmet(limits, plan) ==> n == AllButProtected(l, Normal)
    requires plan.blocked <==> Unmet(limits, plan) || Missing(l, Normal) > 0 || Missing(l, Migration) > 0
    ensures IsPlan(l, limits, plan, n)
  {
  }

  /** The plan for a directory of distinct files, listed oldest first. */
  method BuildPrunePlan(entries: seq<Entry>, limits: Limits) returns (plan: Plan)
    requires DistinctPaths(entries)
    ensures IsPlan(ListsOf(entries), limits, plan, NormalGone(ListsOf(entries), plan))
  {
    var l := ListsOf(entries);
    ListsAreProper(entries);
    var planner := new Planner(l, limits);
    ghost var g := planner.EnforceGenerations();
    planner.DropMigrations(g);
    var backup, free, n := planner.FreeSpace(g, AllButProtected(l, Migration));
    var sorted := SortByAge(planner.candidates);
    var protectedEntries := Protected(l);
    var blocked := Missing(l, Normal) > 0 || Missing(l, Migration) > 0
                   || NeedStorage(limits, backup) || NeedSpace(limits, free);
    plan := Plan(planner.candidates, sorted, protectedEntries, backup, free, blocked);
    PickedIsPlan(l, limits, plan, planner.selected, n);
    PlanSaysHowMany(l, limits, plan, n);
  }

  // ------------------------------------------------------------- carrying it out

  /** What the directory holds just before each deletion; others may change it in between. */
  type Directory = map<nat, Entry>

  predicate Unchanged(d: Directory, e: Entry) {
    e.path in d && d[e.path] == e
  }

  /** How an execution ended: all done, something changed since the plan, or a file that would not go. */
  datatype Execution = Completed | ChangedSincePlan | UnlinkFailed

  /** Deletes the candidates oldest first, each only if it is still what was
      planned, and stops at the first that is not. */
  method ExecutePrune(plan: Plan, found: seq<Directory>, refusing: set<nat>)
    returns (deleted: seq<Entry>, deletedBytes: nat, ended: Execution)
    requires |found| == |plan.candidates|
    ensures deleted <= EntriesOf(plan.candidates) && deletedBytes == Total(deleted)
    ensures forall i :: 0 <= i < |deleted| ==> Unchanged(found[i], deleted[i]) && deleted[i].path !in refusing
    ensures ended == Completed <==> deleted == EntriesOf(plan.candidates)
    ensures ended == ChangedSincePlan ==>
              |deleted| < |found| && !Unchanged(found[|deleted|], plan.candidates[|deleted|].entry)
    ensures ended == UnlinkFailed ==>
              |deleted| < |found| && plan.candidates[|deleted|].entry.path in refusing
  {
    deleted, deletedBytes, ended := [], 0, Completed;
    for i := 0 to |plan.candidates|
      invariant |deleted| == i && deleted == EntriesOf(plan.candidates)[..i] && deletedBytes == Total(deleted)
      invariant forall k :: 0 <= k < i ==> Unchanged(found[k], deleted[k]) && deleted[k].path !in refusing
    {
      var e := plan.candidates[i].entry;
      if !Unchanged(found[i], e) {
        return deleted, deletedBytes, ChangedSincePlan;
      }
      if e.path in refusing {
        return deleted, deletedBytes, UnlinkFailed;
      }
      assert (deleted + [e])[..i] == deleted;
      deleted, deletedBytes := deleted + [e], deletedBytes + e.allocatedSize;
    }
  }

  /** However far an execution gets, no protected file goes, and with both kinds
      present at least three restore points stay, or all there are. */
  lemma ExecutionKeepsRestorePoints(l: Lists, limits: Limits, plan: Plan, n: nat, deleted: seq<Entry>)
    requires Proper(l) && IsPlan(l, limits, plan, n) && deleted <= EntriesOf(plan.candidates)
    ensures forall e <- plan.protectedEntries :: e in All(l) && e !in deleted
    ensures forall e <- Kept(l, AllButProtected(l, Migration), n) :: e in All(l) && e !in deleted
    ensures Has(l, Normal) && Has(l, Migration) ==>
              |Kept(l, AllButProtected(l, Migration), n)|
              >= Min(|l.normal| + |l.migration|, 3)
  {
    var g, m := OverLimit(l, limits), AllButProtected(l, Migration);
    forall e | e in deleted ensures e in Chosen(l, g, m, n) {
      DeletedWereSelected(plan, deleted, e);
    }
    forall e <- Kept(l, m, n) ensures e in All(l) && e !in deleted {
      KeptIsNotChosen(l, g, m, n, e);
    }
    forall e <- plan.protectedEntries ensures e in Kept(l, m, n) {
      ProtectedAreKept(l, n, e);
    }
    if Has(l, Normal) && Has(l, Migration) {
      MinimaLeaveThreeRestorePoints(l);
    }
  }

  lemma DeletedWereSelected(plan: Plan, deleted: seq<Entry>, e: Entry)
    requires multiset(plan.candidates) == multiset(plan.selected)
    requires deleted <= EntriesOf(plan.candidates) && e in deleted
    ensures e in EntriesOf(plan.selected)
  {
    var i :| 0 <= i < |deleted| && deleted[i] == e;
    assert plan.candidates[i] in multiset(plan.selected);
    var j :| 0 <= j < |plan.selected| && plan.selected[j] == plan.candidates[i];
    assert EntriesOf(plan.selected)[j] == e;
  }
}
