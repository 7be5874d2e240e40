/** The read-only budget scan and why a manifest built from it makes the dry run exact. */
module BudgetScan {
  import opened Common
  import opened Counters
  import opened Reclassification
  import opened ReclassificationRun
  import opened ReclassificationReport
  import opened BudgetReclassification

  datatype BudgetRecord = BudgetRecord(id: int, category: int, amount: int)
  datatype LineRecord = LineRecord(id: int, monthlyBudget: int, category: int, amount: int)

  type GroupKey = (int, string)

  predicate IsLegacy(category: int) { 1 <= category <= 10 }

  /** The report row of one reference, None when it is not a legacy reference. */
  function BudgetRow(kind: string, id: int, category: int, amount: int, mapping: Mapping): Option<ReportRow> {
    if !IsLegacy(category) then None
    else
      var proposal := Lookup(mapping.categories, Some(category));
      match proposal
      case None =>
        Some(ReportRow(kind, id, Some(category), None, "unresolved", "missing_or_target_taxonomy_reference", None, None,
          Some(amount), false))
      case Some(p) =>
        var target := ProposedTarget(mapping, category);
        Some(ReportRow(kind, id, Some(category), None, p.disposition, p.reason,
                       if target.Some? then Some(target.value.key) else None,
                       if target.Some? then Some(target.value.publicId) else None,
                       Some(amount), false))
  }

  /** Exactly the legacy categories 1 to 10 are reported, with the mapping's disposition and reason, or as unresolved
      when it has none, and with a target only when it is the one target of a safe entry. */
  lemma BudgetRowByColumns(kind: string, id: int, category: int, amount: int, mapping: Mapping)
    ensures
      var r := BudgetRow(kind, id, category, amount, mapping);
      && (r.Some? <==> 1 <= category <= 10)
      && (r.Some? ==>
            var row := r.value;
            && row.kind == kind && row.sourceId == id && row.legacyCategory == Some(category)
            && row.legacySubcategory.None? && row.amount == Some(amount)
            && ((forall e :: !IsEntryFor(mapping.categories, Some(category), e)) ==>
                  row.disposition == "unresolved" && row.targetKey.None? && row.targetPublicId.None?)
            && forall e :: IsEntryFor(mapping.categories, Some(category), e) ==>
                 && row.disposition == e.disposition && row.reason == e.reason
                 && if |e.targets| == 1 && e.disposition == "safe_one_to_one"
                    then row.targetKey == Some(e.targets[0].key) && row.targetPublicId == Some(e.targets[0].publicId)
                    else row.targetKey.None? && row.targetPublicId.None?)
  {
    LookupFindsTheEntry(mapping.categories, Some(category));
  }

  /** A target is proposed only for a safe mapping with exactly one. */
  function ProposedTarget(mapping: Mapping, category: int): Option<Target> {
    var p := Lookup(mapping.categories, Some(category));
    if p.Some? && |p.value.targets| == 1 && p.value.disposition == SAFE then Some(p.value.targets[0]) else None
  }

  function GroupKeyOf(line: LineRecord, mapping: Mapping): Option<GroupKey> {
    if IsLegacy(line.category) && ProposedTarget(mapping, line.category).Some?
    then Some((line.monthlyBudget, ProposedTarget(mapping, line.category).value.key))
    else None
  }

  predicate InGroup(line: LineRecord, mapping: Mapping, key: GroupKey) { GroupKeyOf(line, mapping) == Some(key) }

  /** Another line of the same monthly budget proposes the same target. */
  ghost predicate Clashes(lines: seq<LineRecord>, mapping: Mapping, i: nat)
    requires i < |lines|
  {
    exists j, key :: 0 <= j < |lines| && j != i && InGroup(lines[i], mapping, key) && InGroup(lines[j], mapping, key)
  }

  function Flagged(row: ReportRow): ReportRow {
    row.(disposition := MANUAL_REVIEW, reason := "budget_target_collision")
  }

  function BudgetRows(budgets: seq<BudgetRecord>, mapping: Mapping): seq<ReportRow> {
    if budgets == [] then []
    else
      var n := |budgets| - 1;
      var row := BudgetRow("legacy_budget", budgets[n].id, budgets[n].category, budgets[n].amount, mapping);
      BudgetRows(budgets[..n], mapping) + if row.Some? then [row.value] else []
  }

  function LineReport(line: LineRecord, mapping: Mapping, crowded: bool): seq<ReportRow> {
    var row := BudgetRow("monthly_budget_line", line.id, line.category, line.amount, mapping);
    if row.None? then [] else if crowded then [Flagged(row.value)] else [row.value]
  }

  /** The rows of the first n lines, clashing ones sent to manual review. */
  ghost function LineRows(lines: seq<LineRecord>, mapping: Mapping, n: nat): seq<ReportRow>
    requires n <= |lines|
  {
    if n == 0 then []
    else
      LineRows(lines, mapping, n - 1) + LineReport(lines[n - 1], mapping, Clashes(lines, mapping, n - 1))
  }

  ghost function ScanRows(budgets: seq<BudgetRecord>, lines: seq<LineRecord>, mapping: Mapping): seq<ReportRow> {
    BudgetRows(budgets, mapping) + LineRows(lines, mapping, |lines|)
  }

  // ----- the collision dictionary -----

  function Members(lines: seq<LineRecord>, mapping: Mapping, key: GroupKey): seq<int> {
    if lines == [] then []
    else
      var n := |lines| - 1;
      Members(lines[..n], mapping, key) + if InGroup(lines[n], mapping, key) then [lines[n].id] else []
  }

  ghost predicate DistinctIds(lines: seq<LineRecord>) {
    forall i, j :: 0 <= i < j < |lines| ==> lines[i].id != lines[j].id
  }

  lemma {:induction false} MemberIff(lines: seq<LineRecord>, mapping: Mapping, key: GroupKey, id: int)
    ensures id in Members(lines, mapping, key) <==>
        exists i :: 0 <= i < |lines| && lines[i].id == id && InGroup(lines[i], mapping, key)
  {
    if lines == [] {
    } else {
      var n := |lines| - 1;
      MemberIff(lines[..n], mapping, key, id);
      assert forall i :: 0 <= i < n ==> lines[..n][i] == lines[i];
    }
  }

  ghost predicate HasOne<T>(s: seq<T>, p: T -> bool) { exists i :: 0 <= i < |s| && p(s[i]) }

  ghost predicate HasTwo<T>(s: seq<T>, p: T -> bool) { exists i, j :: 0 <= i < j < |s| && p(s[i]) && p(s[j]) }

  lemma OneMore<T>(s: seq<T>, x: T, p: T -> bool)
    ensures HasOne(s + [x], p) <==> HasOne(s, p) || p(x)
    ensures HasTwo(s + [x], p) <==> HasTwo(s, p) || (HasOne(s, p) && p(x))
  {
    var t := s + [x];
    assert t[|s|] == x && forall i :: 0 <= i < |s| ==> t[i] == s[i];
    if HasOne(s, p) {
      var i :| 0 <= i < |s| && p(s[i]);
      assert p(t[i]);
    }
    if HasTwo(s, p) {
      var i, j :| 0 <= i < j < |s| && p(s[i]) && p(s[j]);
      assert p(t[i]) && p(t[j]);
    }
  }

  ghost function Grouping(mapping: Mapping, key: GroupKey): LineRecord -> bool { line => InGroup(line, mapping, key) }

  lemma {:induction false} CrowdedIff(lines: seq<LineRecord>, mapping: Mapping, key: GroupKey)
    ensures |Members(lines, mapping, key)| > 1 <==> HasTwo(lines, Grouping(mapping, key))
    ensures |Members(lines, mapping, key)| > 0 <==> HasOne(lines, Grouping(mapping, key))
  {
    if lines == [] {
    } else {
      var n := |lines| - 1;
      CrowdedIff(lines[..n], mapping, key);
      OneMore(lines[..n], lines[n], Grouping(mapping, key));
      assert lines == lines[..n] + [lines[n]];
    }
  }

  /** A line's id sits in a group of two or more exactly when another line clashes with it. */
  lemma InCrowdIff(lines: seq<LineRecord>, mapping: Mapping, i: nat)
    requires i < |lines| && DistinctIds(lines)
    ensures (exists key :: |Members(lines, mapping, key)| > 1 && lines[i].id in Members(lines, mapping, key)) <==>
        Clashes(lines, mapping, i)
  {
    if key :| |Members(lines, mapping, key)| > 1 && lines[i].id in Members(lines, mapping, key) {
      MemberIff(lines, mapping, key, lines[i].id);
      CrowdedIff(lines, mapping, key);
      var a, b :| 0 <= a < b < |lines| && Grouping(mapping, key)(lines[a]) && Grouping(mapping, key)(lines[b]);
      assert InGroup(lines[i], mapping, key);
    }
    if Clashes(lines, mapping, i) {
      var j, key :| 0 <= j < |lines| && j != i && InGroup(lines[i], mapping, key) && InGroup(lines[j], mapping, key);
      MemberIff(lines, mapping, key, lines[i].id);
      CrowdedIff(lines, mapping, key);
      var a, b := if i < j then i else j, if i < j then j else i;
      assert Grouping(mapping, key)(lines[a]) && Grouping(mapping, key)(lines[b]);
    }
  }

  ghost predicate Groups(groups: map<GroupKey, seq<int>>, lines: seq<LineRecord>, mapping: Mapping) {
    forall key :: GroupOf(groups, key) == Members(lines, mapping, key)
  }

  lemma MembersSnoc(lines: seq<LineRecord>, line: LineRecord, mapping: Mapping, key: GroupKey)
    ensures Members(lines + [line], mapping, key) ==
            Members(lines, mapping, key) + if InGroup(line, mapping, key) then [line.id] else []
  {
    assert (lines + [line])[..|lines|] == lines;
  }

  function GroupOf(groups: map<GroupKey, seq<int>>, key: GroupKey): seq<int> {
    if key in groups then groups[key] else []
  }

  lemma GroupsNext(groups: map<GroupKey, seq<int>>, lines: seq<LineRecord>, line: LineRecord, mapping: Mapping)
    requires Groups(groups, lines, mapping)
    ensures
      var key := GroupKeyOf(line, mapping);
      if key.None? then Groups(groups, lines + [line], mapping)
      else Groups(groups[key.value := GroupOf(groups, key.value) + [line.id]], lines + [line], mapping)
  {
    var k := GroupKeyOf(line, mapping);
    forall key
      ensures Members(lines + [line], mapping, key) == GroupOf(groups, key) + if k == Some(key) then [line.id] else []
    {
      MembersSnoc(lines, line, mapping, key);
      assert GroupOf(groups, key) == Members(lines, mapping, key);
    }
  }

  method CollisionGroups(lines: seq<LineRecord>, mapping: Mapping) returns (groups: map<GroupKey, seq<int>>)
    ensures Groups(groups, lines, mapping)
  {
    groups := map[];
    assert lines[..0] == [];
    for i := 0 to |lines|
      invariant Groups(groups, lines[..i], mapping)
    {
      PrefixSnoc(lines, i);
      GroupsNext(groups, lines[..i], lines[i], mapping);
      var key := GroupKeyOf(lines[i], mapping);
      if key.Some? {
        groups := groups[key.value := GroupOf(groups, key.value) + [lines[i].id]];
      }
    }
    assert lines[..|lines|] == lines;
  }

  /** How many budgets, and how many lines, carry category k. */
  function BudgetsAt(budgets: seq<BudgetRecord>, k: int): nat {
    if budgets == [] then 0
    else BudgetsAt(budgets[..|budgets| - 1], k) + if budgets[|budgets| - 1].category == k then 1 else 0
  }

  function LinesAt(lines: seq<LineRecord>, k: int): nat {
    if lines == [] then 0
    else LinesAt(lines[..|lines| - 1], k) + if lines[|lines| - 1].category == k then 1 else 0
  }

  /** The reference histogram of the snapshot, over legacy and current references alike. */
  method CountReferences(budgets: seq<BudgetRecord>, lines: seq<LineRecord>) returns (histogram: map<int, int>)
    ensures forall k :: Get(histogram, k) == BudgetsAt(budgets, k) + LinesAt(lines, k)
  {
    histogram := map[];
    for i := 0 to |budgets|
      invariant forall k :: Get(histogram, k) == BudgetsAt(budgets[..i], k)
    {
      PrefixSnoc(budgets, i);
      histogram := Add(histogram, budgets[i].category, 1);
    }
    assert budgets[..|budgets|] == budgets;
    for i := 0 to |lines|
      invariant forall k :: Get(histogram, k) == BudgetsAt(budgets, k) + LinesAt(lines[..i], k)
    {
      PrefixSnoc(lines, i);
      histogram := Add(histogram, lines[i].category, 1);
    }
    assert lines[..|lines|] == lines;
  }

  /** Every legacy reference is reported, a line is sent to manual review exactly when another line of its monthly
      budget proposes the same target, and the histogram counts every reference. Line ids are primary keys. */
  method ScanBudgets(budgets: seq<BudgetRecord>, lines: seq<LineRecord>, mapping: Mapping)
    returns (rows: seq<ReportRow>, histogram: map<int, int>)
    requires DistinctIds(lines)
    ensures rows == ScanRows(budgets, lines, mapping)
    ensures forall k :: Get(histogram, k) == BudgetsAt(budgets, k) + LinesAt(lines, k)
  {
    rows := BudgetRows(budgets, mapping);
    var groups := CollisionGroups(lines, mapping);
    for i := 0 to |lines|
      invariant rows == BudgetRows(budgets, mapping) + LineRows(lines, mapping, i)
    {
      CrowdedMeansClash(groups, lines, mapping, i);
      rows := rows + LineReport(lines[i], mapping, IsCrowded(groups, lines[i].id));
    }
    histogram := CountReferences(budgets, lines);
  }

  /** The target key a line is reported with. */
  ghost function ReportedKey(line: LineRecord, mapping: Mapping): Option<string> {
    var row := BudgetRow("monthly_budget_line", line.id, line.category, line.amount, mapping);
    if row.Some? then row.value.targetKey else None
  }

  /** Lines clash when they belong to one monthly budget and are reported with the same target. */
  lemma ClashByColumns(lines: seq<LineRecord>, mapping: Mapping, i: nat)
    requires i < |lines|
    ensures Clashes(lines, mapping, i) <==>
            exists j :: 0 <= j < |lines| && j != i && lines[j].monthlyBudget == lines[i].monthlyBudget &&
              ReportedKey(lines[i], mapping).Some? && ReportedKey(lines[j], mapping) == ReportedKey(lines[i], mapping)
  {
    forall j | 0 <= j < |lines| && j != i && lines[j].monthlyBudget == lines[i].monthlyBudget &&
               ReportedKey(lines[i], mapping).Some? && ReportedKey(lines[j], mapping) == ReportedKey(lines[i], mapping)
      ensures Clashes(lines, mapping, i)
    {
      var key := (lines[i].monthlyBudget, ReportedKey(lines[i], mapping).value);
      assert InGroup(lines[i], mapping, key) && InGroup(lines[j], mapping, key);
    }
  }

  /** A clashing line is reported for manual review, otherwise as it is; a line that is not legacy is not reported. */
  lemma LineReportByColumns(line: LineRecord, mapping: Mapping, crowded: bool)
    ensures
      var row := BudgetRow("monthly_budget_line", line.id, line.category, line.amount, mapping);
      && (row.None? ==> LineReport(line, mapping, crowded) == [])
      && (row.Some? && !crowded ==> LineReport(line, mapping, crowded) == [row.value])
      && (row.Some? && crowded ==>
            LineReport(line, mapping, crowded) ==
            [row.value.(disposition := "manual_review", reason := "budget_target_collision")])
  {
  }

  /** The id sits in some group of two or more. */
  predicate IsCrowded(groups: map<GroupKey, seq<int>>, id: int) {
    exists key :: key in groups && |groups[key]| > 1 && id in groups[key]
  }

  lemma CrowdedMeansClash(groups: map<GroupKey, seq<int>>, lines: seq<LineRecord>, mapping: Mapping, i: nat)
    requires i < |lines| && DistinctIds(lines) && Groups(groups, lines, mapping)
    ensures IsCrowded(groups, lines[i].id) <==> Clashes(lines, mapping, i)
  {
    InCrowdIff(lines, mapping, i);
    if IsCrowded(groups, lines[i].id) {
      var key :| key in groups && |groups[key]| > 1 && lines[i].id in groups[key];
      assert GroupOf(groups, key) == Members(lines, mapping, key);
      assert |Members(lines, mapping, key)| > 1 && lines[i].id in Members(lines, mapping, key);
    }
    if Clashes(lines, mapping, i) {
      var key :| |Members(lines, mapping, key)| > 1 && lines[i].id in Members(lines, mapping, key);
      assert GroupOf(groups, key) == Members(lines, mapping, key);
      assert key in groups && |groups[key]| > 1 && lines[i].id in groups[key];
    }
  }

  // ----- from scan to manifest to apply -----

  lemma {:induction false} LineRowOrigin(lines: seq<LineRecord>, mapping: Mapping, n: nat, row: ReportRow)
    requires n <= |lines| && row in LineRows(lines, mapping, n)
    ensures row.kind == "monthly_budget_line"
    ensures exists i ::
              && 0 <= i < n && lines[i].id == row.sourceId
              && row.legacyCategory == Some(lines[i].category) && IsLegacy(lines[i].category)
    ensures IsExecutable(row.disposition) && HasTarget(row) ==>
              exists i :: 0 <= i < n && lines[i].id == row.sourceId && !Clashes(lines, mapping, i) &&
                InGroup(lines[i], mapping, (lines[i].monthlyBudget, row.targetKey.value))
  {
    if row in LineRows(lines, mapping, n - 1) {
      LineRowOrigin(lines, mapping, n - 1, row);
    }
  }

  lemma {:induction false} BudgetRowOrigin(budgets: seq<BudgetRecord>, mapping: Mapping, row: ReportRow)
    requires row in BudgetRows(budgets, mapping)
    ensures row.kind == "legacy_budget" && row.legacyCategory.Some? && IsLegacy(row.legacyCategory.value)
  {
    if row in BudgetRows(budgets[..|budgets| - 1], mapping) {
      BudgetRowOrigin(budgets[..|budgets| - 1], mapping, row);
    }
  }

  /** Target resolution tells keys apart and never lands on a legacy id. */
  ghost predicate SoundResolver(resolve: Resolver) {
    && (forall a, b :: resolve(a).Some? && resolve(a) == resolve(b) ==> a.key == b.key)
    && (forall a :: resolve(a).Some? ==> !IsLegacy(resolve(a).value))
  }

  /** The manifest holds scan candidates only, each source once, in any order. */
  ghost predicate FromScan(manifest: seq<ExecutionRow>, scan: seq<ReportRow>) {
    && (forall c :: c in manifest ==> c in Candidates("budget-service", scan))
    && (forall i, j :: 0 <= i < j < |manifest| ==>
       (manifest[i].kind, manifest[i].sourceId) != (manifest[j].kind, manifest[j].sourceId))
  }

  /** Whatever else was edited since the scan, lines still belong to the monthly budget they were scanned in. */
  ghost predicate SameOwners(t: Table, lines: seq<LineRecord>) {
    && (forall s :: s in t.group ==> s.BudgetLine?)
    && (forall i :: 0 <= i < |lines| && BudgetLine(lines[i].id) in t.group ==>
       t.group[BudgetLine(lines[i].id)] == lines[i].monthlyBudget)
  }

  lemma ScannedRow(budgets: seq<BudgetRecord>, lines: seq<LineRecord>, mapping: Mapping, c: ExecutionRow)
    requires c in Candidates("budget-service", ScanRows(budgets, lines, mapping))
    ensures c.legacyCategory.Some? && IsLegacy(c.legacyCategory.value)
    ensures c.kind == "legacy_budget" || c.kind == "monthly_budget_line"
    ensures c.kind == "monthly_budget_line" ==>
              exists i :: 0 <= i < |lines| && lines[i].id == c.sourceId && !Clashes(lines, mapping, i) &&
                InGroup(lines[i], mapping, (lines[i].monthlyBudget, c.target.key))
  {
    CandidateOrigin("budget-service", ScanRows(budgets, lines, mapping), c);
    var row :| row in ScanRows(budgets, lines, mapping) && IsCandidate("budget-service", row) && c == ToExecution(row);
    if row in BudgetRows(budgets, mapping) {
      BudgetRowOrigin(budgets, mapping, row);
    } else {
      LineRowOrigin(lines, mapping, |lines|, row);
    }
  }

  lemma NeverShareATarget(
    lines: seq<LineRecord>, mapping: Mapping, t: Table, resolve: Resolver, c: ExecutionRow, d: ExecutionRow, i: nat,
    j: nat)
    requires SoundResolver(resolve) && SameOwners(t, lines)
    requires i < |lines| && j < |lines| && lines[i].id == c.sourceId && lines[j].id == d.sourceId
    requires !Clashes(lines, mapping, i)
    requires InGroup(lines[i], mapping, (lines[i].monthlyBudget, c.target.key))
    requires InGroup(lines[j], mapping, (lines[j].monthlyBudget, d.target.key))
    requires Siblings(t, BudgetLine(c.sourceId), BudgetLine(d.sourceId))
    ensures resolve(c.target).Some? ==> resolve(c.target) != resolve(d.target)
  {
    assert i != j;
    assert lines[i].monthlyBudget == lines[j].monthlyBudget;
  }

  lemma ScannedMovesAreSafe(
    budgets: seq<BudgetRecord>, lines: seq<LineRecord>, mapping: Mapping, manifest: seq<ExecutionRow>,
      resolve: Resolver, t: Table)
    requires FromScan(manifest, ScanRows(budgets, lines, mapping)) && SoundResolver(resolve) && SameOwners(t, lines)
    requires ToMoves(manifest, Mover(resolve)).Success?
    ensures
      var moves := ToMoves(manifest, Mover(resolve)).value;
      UniqueSources(moves) && TargetsNotLegacy(t, moves) && TargetsNotShared(t, moves)
  {
    var moves := ToMoves(manifest, Mover(resolve)).value;
    forall i, j | 0 <= i < |moves| && 0 <= j < |moves| && Siblings(t, moves[i].source, moves[j].source)
      ensures Some(moves[i].target) != moves[j].legacy && moves[i].target != moves[j].target
    {
      var c, d := manifest[i], manifest[j];
      assert ToMove(c, resolve) == Success(moves[i]) && ToMove(d, resolve) == Success(moves[j]);
      ScannedRow(budgets, lines, mapping, c);
      ScannedRow(budgets, lines, mapping, d);
      var a :| 0 <= a < |lines| && lines[a].id == c.sourceId && !Clashes(lines, mapping, a) &&
          InGroup(lines[a], mapping, (lines[a].monthlyBudget, c.target.key));
      var b :| 0 <= b < |lines| && lines[b].id == d.sourceId && !Clashes(lines, mapping, b) &&
          InGroup(lines[b], mapping, (lines[b].monthlyBudget, d.target.key));
      NeverShareATarget(lines, mapping, t, resolve, c, d, a, b);
    }
    forall i, j | 0 <= i < j < |moves| ensures moves[i].source != moves[j].source {
      assert ToMove(manifest[i], resolve) == Success(moves[i]) && ToMove(manifest[j], resolve) == Success(moves[j]);
      ScannedRow(budgets, lines, mapping, manifest[i]);
      ScannedRow(budgets, lines, mapping, manifest[j]);
    }
  }

  /** Scan, build the manifest, edit anything but line ownership, then apply: the dry run reports, row by row,
      what the execution does, and a second execution does nothing. */
  lemma ScannedManifestIsPredictable(
    budgets: seq<BudgetRecord>, lines: seq<LineRecord>, mapping: Mapping, manifest: seq<ExecutionRow>,
      resolve: Resolver, t: Table)
    requires FromScan(manifest, ScanRows(budgets, lines, mapping)) && SoundResolver(resolve) && SameOwners(t, lines)
    requires ToMoves(manifest, Mover(resolve)).Success?
    ensures
      var moves := ToMoves(manifest, Mover(resolve)).value;
      var dry, wet := CountsOf(Met(t, moves, false), false), CountsOf(Met(t, moves, true), true);
      var again := CountsOf(Met(Execute(t, moves), moves, true), true);
      && Met(t, moves, true) == Met(t, moves, false)
      && wet == dry.(applied := dry.validated, validated := 0)
      && Execute(Execute(t, moves), moves) == Execute(t, moves)
      && again == wet.(applied := 0, alreadyApplied := wet.alreadyApplied + wet.applied)
  {
    var moves := ToMoves(manifest, Mover(resolve)).value;
    ScannedMovesAreSafe(budgets, lines, mapping, manifest, resolve, t);
    DryRunIsExact(t, moves);
    SecondExecuteIsIdle(t, moves);
    RerunCounts(Outcomes(t, moves));
  }
}
