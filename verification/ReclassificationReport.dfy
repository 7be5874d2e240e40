/** The fail-closed aggregation of service reports: execution manifests and the analytics accounting. */
module ReclassificationReport {
  import opened Common
  import opened Counters

  datatype Target = Target(key: string, publicId: string)

  /** One reported reference. Amounts are in cents. */
  datatype ReportRow = ReportRow(
    kind: string,
    sourceId: int,
    legacyCategory: Option<int>,
    legacySubcategory: Option<int>,
    disposition: string,
    reason: string,
    targetKey: Option<string>,
    targetPublicId: Option<string>,
    amount: Option<int>,
    changesCategoryType: bool)

  datatype MappingEntry = MappingEntry(legacyId: int, disposition: string, reason: string, targets: seq<Target>)
  datatype Mapping = Mapping(categories: seq<MappingEntry>, subcategories: seq<MappingEntry>)

  datatype ExecutionRow = ExecutionRow(
    kind: string,
    sourceId: int,
    legacyCategory: Option<int>,
    legacySubcategory: Option<int>,
    disposition: string,
    reason: string,
    target: Target)

  datatype ReportError = DuplicateSource | TargetOutsideMapping | UnexplainedRow | UntracedDelta | TotalsDiffer

  const SAFE := "safe_one_to_one"
  const EVIDENCE := "evidence_proposal"
  const MANUAL_REVIEW := "manual_review"

  predicate IsWritable(service: string, kind: string) {
    || (service == "categorization-service" && kind in {"categorization_result", "system_rule"})
    || (service == "transaction-service" && kind == "transaction")
    || (service == "budget-service" && kind in {"legacy_budget", "monthly_budget_line"})
  }

  predicate IsExecutable(disposition: string) { disposition in {SAFE, EVIDENCE} }

  predicate IsTerminalDisposition(disposition: string) {
    disposition in {SAFE, EVIDENCE, MANUAL_REVIEW, "protected", "unresolved"}
  }

  /** The entry the mapping has for a legacy id: the first one, should there be several. */
  ghost predicate IsEntryFor(entries: seq<MappingEntry>, id: Option<int>, e: MappingEntry) {
    exists n :: 0 <= n < |entries| && entries[n] == e && Some(e.legacyId) == id &&
      forall m :: 0 <= m < n ==> Some(entries[m].legacyId) != id
  }

  function Lookup(entries: seq<MappingEntry>, id: Option<int>): (e: Option<MappingEntry>)
    ensures e.Some? ==> e.value in entries && Some(e.value.legacyId) == id
    ensures e.None? ==> forall x :: x in entries ==> Some(x.legacyId) != id
  {
    if entries == [] then None
    else if Some(entries[0].legacyId) == id then Some(entries[0])
    else Lookup(entries[1..], id)
  }

  lemma {:induction false} LookupFindsTheEntry(entries: seq<MappingEntry>, id: Option<int>)
    ensures forall x :: IsEntryFor(entries, id, x) <==> Lookup(entries, id) == Some(x)
  {
    if entries == [] {
    } else if Some(entries[0].legacyId) == id {
      assert IsEntryFor(entries, id, entries[0]);
    } else {
      EntryForTail(entries, id);
      LookupFindsTheEntry(entries[1..], id);
    }
  }

  lemma EntryForTail(entries: seq<MappingEntry>, id: Option<int>)
    requires entries != [] && Some(entries[0].legacyId) != id
    ensures forall x :: IsEntryFor(entries, id, x) <==> IsEntryFor(entries[1..], id, x)
  {
    forall x | IsEntryFor(entries[1..], id, x) ensures IsEntryFor(entries, id, x) {
      var n :| 0 <= n < |entries[1..]| && entries[1..][n] == x && Some(x.legacyId) == id &&
               forall m :: 0 <= m < n ==> Some(entries[1..][m].legacyId) != id;
      assert entries[n + 1] == x;
      forall m | 0 <= m < n + 1 ensures Some(entries[m].legacyId) != id {
        if m > 0 { assert entries[1..][m - 1] == entries[m]; }
      }
    }
    forall x | IsEntryFor(entries, id, x) ensures IsEntryFor(entries[1..], id, x) {
      var n :| 0 <= n < |entries| && entries[n] == x && Some(x.legacyId) == id &&
               forall m :: 0 <= m < n ==> Some(entries[m].legacyId) != id;
      assert entries[1..][n - 1] == x;
    }
  }

  /** The approved targets: by subcategory when the row has one, else by category. */
  function AllowedTargets(mapping: Mapping, row: ReportRow): set<Target> {
    var entry := if row.legacySubcategory.Some? then Lookup(mapping.subcategories, row.legacySubcategory)
                 else Lookup(mapping.categories, row.legacyCategory);
    if entry.None? then {} else set t | t in entry.value.targets
  }

  predicate HasTarget(row: ReportRow) {
    row.targetKey.Some? && row.targetKey.value != "" && row.targetPublicId.Some? && row.targetPublicId.value != ""
  }

  function TargetOf(row: ReportRow): Target
    requires HasTarget(row)
  {
    Target(row.targetKey.value, row.targetPublicId.value)
  }

  predicate IsCandidate(service: string, row: ReportRow) {
    IsWritable(service, row.kind) && IsExecutable(row.disposition) && HasTarget(row)
  }

  function ToExecution(row: ReportRow): ExecutionRow
    requires HasTarget(row)
  {
    ExecutionRow(row.kind, row.sourceId, row.legacyCategory, row.legacySubcategory, row.disposition, row.reason,
      TargetOf(row))
  }

  /** The rows a manifest may write, in report order. */
  function Candidates(service: string, rows: seq<ReportRow>): seq<ExecutionRow> {
    if rows == [] then []
    else
      var n := |rows| - 1;
      Candidates(service, rows[..n]) + if IsCandidate(service, rows[n]) then [ToExecution(rows[n])] else []
  }

  ghost predicate UniqueIdentities(rows: seq<ReportRow>) {
    forall i, j :: 0 <= i < j < |rows| ==> (rows[i].kind, rows[i].sourceId) != (rows[j].kind, rows[j].sourceId)
  }

  ghost predicate WithinMapping(service: string, mapping: Mapping, rows: seq<ReportRow>) {
    forall row :: row in rows && IsCandidate(service, row) ==> TargetOf(row) in AllowedTargets(mapping, row)
  }

  function Exclusion(service: string, row: ReportRow): string
    requires !IsCandidate(service, row)
  {
    if !IsWritable(service, row.kind) then "source_kind_not_writable"
    else if !IsExecutable(row.disposition) then "disposition:" + row.disposition
    else "target_not_resolved"
  }

  /** How many rows are left out for reason k. */
  function ExcludedAs(service: string, rows: seq<ReportRow>, k: string): nat {
    if rows == [] then 0
    else
      var n := |rows| - 1;
      ExcludedAs(service, rows[..n], k) + if !IsCandidate(service, rows[n]) && Exclusion(service, rows[n]) == k then 1
        else 0
  }

  ghost predicate Excluded(service: string, rows: seq<ReportRow>, exclusions: map<string, int>) {
    forall k :: Get(exclusions, k) == ExcludedAs(service, rows, k)
  }

  lemma ExcludedNext(service: string, rows: seq<ReportRow>, row: ReportRow, exclusions: map<string, int>)
    requires Excluded(service, rows, exclusions)
    ensures IsCandidate(service, row) ==> Excluded(service, rows + [row], exclusions)
    ensures !IsCandidate(service, row) ==> Excluded(service, rows + [row], Add(exclusions, Exclusion(service, row), 1))
  {
    assert (rows + [row])[..|rows|] == rows;
    forall k ensures ExcludedAs(service, rows + [row], k) ==
        Get(exclusions, k) + if !IsCandidate(service, row) && Exclusion(service, row) == k then 1 else 0
    {
      assert Get(exclusions, k) == ExcludedAs(service, rows, k);
    }
  }

  /** One service's manifest rows and the counted reasons for every row left out of it. It is refused exactly
      when two rows share an identity or a candidate's target is outside the approved mapping. */
  method ExecutionManifest(service: string, rows: seq<ReportRow>, mapping: Mapping)
    returns (r: Result<(seq<ExecutionRow>, map<string, int>), ReportError>)
    ensures r.Success? <==> UniqueIdentities(rows) && WithinMapping(service, mapping, rows)
    ensures r.Success? ==> r.value.0 == Candidates(service, rows)
    ensures r.Success? ==> Excluded(service, rows, r.value.1) && |r.value.0| + Total(r.value.1) == |rows|
  {
    var candidates: seq<ExecutionRow>, exclusions: map<string, int> := [], map[];
    var identities: set<(string, int)> := {};
    for i := 0 to |rows|
      invariant identities == set j | 0 <= j < i :: (rows[j].kind, rows[j].sourceId)
      invariant UniqueIdentities(rows[..i]) && WithinMapping(service, mapping, rows[..i])
      invariant candidates == Candidates(service, rows[..i])
      invariant Excluded(service, rows[..i], exclusions) && |candidates| + Total(exclusions) == i
    {
      var row := rows[i];
      PrefixSnoc(rows, i);
      ExcludedNext(service, rows[..i], row, exclusions);
      if (row.kind, row.sourceId) in identities {
        return Failure(DuplicateSource);
      }
      identities := identities + {(row.kind, row.sourceId)};
      if !IsCandidate(service, row) {
        TotalAdd(exclusions, k => true, Exclusion(service, row), 1);
        exclusions := Add(exclusions, Exclusion(service, row), 1);
      } else if TargetOf(row) !in AllowedTargets(mapping, row) {
        assert row in rows;
        return Failure(TargetOutsideMapping);
      } else {
        candidates := candidates + [ToExecution(row)];
      }
    }
    assert rows[..|rows|] == rows;
    r := Success((candidates, exclusions));
  }

  lemma {:induction false} CandidateOrigin(service: string, rows: seq<ReportRow>, c: ExecutionRow)
    requires c in Candidates(service, rows)
    ensures exists row :: row in rows && IsCandidate(service, row) && c == ToExecution(row)
  {
    var n := |rows| - 1;
    assert rows == rows[..n] + [rows[n]];
    if c in Candidates(service, rows[..n]) {
      CandidateOrigin(service, rows[..n], c);
      var row :| row in rows[..n] && IsCandidate(service, row) && c == ToExecution(row);
      assert row in rows;
    } else {
      assert rows[n] in rows;
    }
  }

  lemma {:induction false} CandidateListed(service: string, rows: seq<ReportRow>, row: ReportRow)
    requires row in rows && IsCandidate(service, row)
    ensures ToExecution(row) in Candidates(service, rows)
  {
    var n := |rows| - 1;
    assert row in rows[..n] || row == rows[n];
    if row in rows[..n] { CandidateListed(service, rows[..n], row); }
  }

  lemma {:induction false} CandidatesAppend(service: string, a: seq<ReportRow>, b: seq<ReportRow>)
    ensures Candidates(service, a + b) == Candidates(service, a) + Candidates(service, b)
  {
    if b == [] {
      assert a + b == a;
    } else {
      var n := |b| - 1;
      assert (a + b)[..|a| + n] == a + b[..n];
      CandidatesAppend(service, a, b[..n]);
    }
  }

  /** The manifest row of a reported one whose target the mapping approves. */
  predicate IsApproved(mapping: Mapping, row: ReportRow, c: ExecutionRow) {
    HasTarget(row) && c == ToExecution(row) && c.target in AllowedTargets(mapping, row)
  }

  /** Every manifest row has a writable kind, an executable disposition and a mapping-approved target, and no
      two name the same source. */
  lemma {:induction false} ManifestIsApproved(service: string, mapping: Mapping, rows: seq<ReportRow>)
    requires UniqueIdentities(rows) && WithinMapping(service, mapping, rows)
    ensures
      var cs := Candidates(service, rows);
      && (forall c :: c in cs ==> IsWritable(service, c.kind) && IsExecutable(c.disposition))
      && (forall c :: c in cs ==> exists row :: row in rows && IsApproved(mapping, row, c))
      && (forall i, j :: 0 <= i < j < |cs| ==> (cs[i].kind, cs[i].sourceId) != (cs[j].kind, cs[j].sourceId))
  {
    var cs := Candidates(service, rows);
    forall c | c in cs
      ensures IsWritable(service, c.kind) && IsExecutable(c.disposition)
      ensures exists row :: row in rows && IsApproved(mapping, row, c)
    {
      CandidateOrigin(service, rows, c);
    }
    if rows == [] {
    } else {
      var n := |rows| - 1;
      assert rows == rows[..n] + [rows[n]];
      ManifestIsApproved(service, mapping, rows[..n]);
      var before := Candidates(service, rows[..n]);
      forall i | 0 <= i < |before| ensures (before[i].kind, before[i].sourceId) != (rows[n].kind, rows[n].sourceId) {
        CandidateOrigin(service, rows[..n], before[i]);
      }
    }
  }

  /** A service may write its own kinds of source, on a safe or evidenced disposition with a target identity. */
  ghost predicate MayBeWritten(service: string, row: ReportRow) {
    && (|| (service == "categorization-service" && (row.kind == "categorization_result" || row.kind == "system_rule"))
        || (service == "transaction-service" && row.kind == "transaction")
        || (service == "budget-service" && (row.kind == "legacy_budget" || row.kind == "monthly_budget_line")))
    && (row.disposition == "safe_one_to_one" || row.disposition == "evidence_proposal")
    && row.targetKey.Some? && row.targetKey.value != "" && row.targetPublicId.Some? && row.targetPublicId.value != ""
  }

  /** The manifest holds exactly the rows that may be written, with the references and target they were reported
      with. */
  lemma ManifestByColumns(service: string, rows: seq<ReportRow>, c: ExecutionRow)
    ensures c in Candidates(service, rows) <==>
            exists row :: row in rows && MayBeWritten(service, row) &&
              c == ExecutionRow(row.kind, row.sourceId, row.legacyCategory, row.legacySubcategory, row.disposition,
                row.reason,
                                Target(row.targetKey.value, row.targetPublicId.value))
  {
    if c in Candidates(service, rows) {
      CandidateOrigin(service, rows, c);
    }
    forall row | row in rows && IsCandidate(service, row) ensures ToExecution(row) in Candidates(service, rows) {
      CandidateListed(service, rows, row);
    }
  }

  /** Every row that is not written is counted under the first reason that keeps it out. */
  lemma ExclusionByColumns(service: string, row: ReportRow)
    ensures IsCandidate(service, row) <==> MayBeWritten(service, row)
    ensures !IsCandidate(service, row) ==>
              var writable := MayBeWritten(service,
                  row.(disposition := "safe_one_to_one", targetKey := Some("k"), targetPublicId := Some("i")));
              var executable := row.disposition == "safe_one_to_one" || row.disposition == "evidence_proposal";
              Exclusion(service, row) ==
              if !writable then "source_kind_not_writable"
              else if !executable then "disposition:" + row.disposition
              else "target_not_resolved"
  {
  }

  /** An approved target is one the mapping has for the row's subcategory, or for its category when it has none. */
  lemma AllowedByColumns(mapping: Mapping, row: ReportRow, t: Target)
    ensures row.legacySubcategory.Some? ==>
              (t in AllowedTargets(mapping, row) <==>
               exists e :: IsEntryFor(mapping.subcategories, row.legacySubcategory, e) && t in e.targets)
    ensures row.legacySubcategory.None? ==>
              (t in AllowedTargets(mapping, row) <==>
               exists e :: IsEntryFor(mapping.categories, row.legacyCategory, e) && t in e.targets)
  {
    LookupFindsTheEntry(mapping.subcategories, row.legacySubcategory);
    LookupFindsTheEntry(mapping.categories, row.legacyCategory);
  }

  function AmountOf(row: ReportRow): int { if row.amount.Some? then row.amount.value else 0 }

  function AmountSum(rows: seq<ReportRow>): int {
    if rows == [] then 0 else AmountSum(rows[..|rows| - 1]) + AmountOf(rows[|rows| - 1])
  }

  function CountWith(rows: seq<ReportRow>, disposition: string): nat {
    if rows == [] then 0
    else CountWith(rows[..|rows| - 1], disposition) + if rows[|rows| - 1].disposition == disposition then 1 else 0
  }

  function AmountWith(rows: seq<ReportRow>, disposition: string): int {
    if rows == [] then 0
    else
      var n := |rows| - 1;
      AmountWith(rows[..n], disposition) + if rows[n].disposition == disposition then AmountOf(rows[n]) else 0
  }

  ghost predicate Sorted(rows: seq<ReportRow>, counts: map<string, int>, amounts: map<string, int>) {
    forall k :: Get(counts, k) == CountWith(rows, k) && Get(amounts, k) == AmountWith(rows, k)
  }

  lemma SortedNext(rows: seq<ReportRow>, row: ReportRow, counts: map<string, int>, amounts: map<string, int>)
    requires Sorted(rows, counts, amounts)
    ensures
      var amounts' := if row.amount.Some? then Add(amounts, row.disposition, row.amount.value) else amounts;
      Sorted(rows + [row], Add(counts, row.disposition, 1), amounts')
  {
    assert (rows + [row])[..|rows|] == rows;
    forall k
      ensures CountWith(rows + [row], k) == Get(counts, k) + if row.disposition == k then 1 else 0
      ensures AmountWith(rows + [row], k) == Get(amounts, k) + if row.disposition == k then AmountOf(row) else 0
    {
      assert Get(counts, k) == CountWith(rows, k) && Get(amounts, k) == AmountWith(rows, k);
    }
  }

  /** Row counts and amounts per disposition: no row and no cent is lost or counted twice. */
  method CountDispositions(rows: seq<ReportRow>) returns (r: Result<(map<string, int>, map<string, int>), ReportError>)
    ensures r.Success? <==>
            forall row :: row in rows ==>
              && row.reason != ""
              && row.disposition in {"safe_one_to_one", "evidence_proposal", "manual_review", "protected", "unresolved"}
    ensures r.Success? ==> Sorted(rows, r.value.0, r.value.1)
    ensures r.Success? ==> Total(r.value.0) == |rows| && Total(r.value.1) == AmountSum(rows)
  {
    var counts: map<string, int>, amounts: map<string, int> := map[], map[];
    for i := 0 to |rows|
      invariant forall row :: row in rows[..i] ==> IsTerminalDisposition(row.disposition) && row.reason != ""
      invariant Sorted(rows[..i], counts, amounts)
      invariant Total(counts) == i && Total(amounts) == AmountSum(rows[..i])
    {
      var row := rows[i];
      PrefixSnoc(rows, i);
      SortedNext(rows[..i], row, counts, amounts);
      if !IsTerminalDisposition(row.disposition) || row.reason == "" {
        assert row in rows;
        return Failure(UnexplainedRow);
      }
      TotalAdd(counts, k => true, row.disposition, 1);
      counts := Add(counts, row.disposition, 1);
      if row.amount.Some? {
        TotalAdd(amounts, k => true, row.disposition, row.amount.value);
        amounts := Add(amounts, row.disposition, row.amount.value);
      }
    }
    assert rows[..|rows|] == rows;
    r := Success((counts, amounts));
  }

  // ----- analytics accounting -----

  datatype Group = Expense | Income | Investment | Cash | Savings | OwnAccount | UnknownTransfer

  type Trace = (Group, Group, string, string)

  predicate IsSpecialTarget(key: Option<string>) {
    key.Some? && key.value in {"investment", "cash_withdrawal", "own_accounts_savings", "unknown_transfer",
      "person_transfer"}
  }

  function SpecialGroup(key: string): Group {
    match key
    case "investment" => Investment
    case "cash_withdrawal" => Cash
    case "own_accounts_savings" => Savings
    case _ => UnknownTransfer
  }

  function BeforeGroup(row: ReportRow): Group {
    match row.legacyCategory
    case Some(c) => if 1 <= c <= 8 then Expense else if c == 9 then Income else OwnAccount
    case None => OwnAccount
  }

  function AfterGroup(row: ReportRow): Group {
    if IsSpecialTarget(row.targetKey) then SpecialGroup(row.targetKey.value)
    else if row.changesCategoryType then OwnAccount
    else BeforeGroup(row)
  }

  predicate Counted(row: ReportRow) { row.kind == "transaction" && row.amount.Some? }

  predicate Moves(row: ReportRow) { Counted(row) && BeforeGroup(row) != AfterGroup(row) }

  predicate Traced(row: ReportRow) { row.reason != "" && row.targetKey.Some? && row.targetKey.value != "" }

  function Share(row: ReportRow, group: ReportRow -> Group, g: Group): int {
    if Counted(row) && group(row) == g then row.amount.value else 0
  }

  /** Sum of the counted amounts that a grouping puts into g. */
  function Sum(rows: seq<ReportRow>, group: ReportRow -> Group, g: Group): int {
    if rows == [] then 0
    else
      var n := |rows| - 1;
      Sum(rows[..n], group, g) + Share(rows[n], group, g)
  }

  ghost function TracedIn(traces: map<Trace, int>, g: Group): int { TotalWhere(traces, (k: Trace) => k.1 == g) }

  ghost function TracedOut(traces: map<Trace, int>, g: Group): int { TotalWhere(traces, (k: Trace) => k.0 == g) }

  ghost predicate Balanced(before: map<Group, int>, after: map<Group, int>, traces: map<Trace, int>) {
    forall g :: Get(after, g) - Get(before, g) == TracedIn(traces, g) - TracedOut(traces, g)
  }

  // ----- the same over the columns -----

  /** The group a legacy category belongs to: 1 to 8 are expenses, 9 is income, anything else an own account. */
  ghost predicate StartsIn(row: ReportRow, g: Group) {
    match g
    case Expense => row.legacyCategory.Some? && 1 <= row.legacyCategory.value <= 8
    case Income => row.legacyCategory == Some(9)
    case OwnAccount => row.legacyCategory.None? || row.legacyCategory.value < 1 || row.legacyCategory.value > 9
    case _ => false
  }

  ghost predicate HasSpecialKey(row: ReportRow) {
    || row.targetKey == Some("investment") || row.targetKey == Some("cash_withdrawal")
    || row.targetKey == Some("own_accounts_savings") || row.targetKey == Some("unknown_transfer")
    || row.targetKey == Some("person_transfer")
  }

  /** A special target key decides; otherwise a changed type lands in the own accounts and all else stays. */
  ghost predicate LandsIn(row: ReportRow, g: Group) {
    match g
    case Investment => row.targetKey == Some("investment")
    case Cash => row.targetKey == Some("cash_withdrawal")
    case Savings => row.targetKey == Some("own_accounts_savings")
    case UnknownTransfer => row.targetKey == Some("unknown_transfer") || row.targetKey == Some("person_transfer")
    case OwnAccount => !HasSpecialKey(row) && (row.changesCategoryType || StartsIn(row, OwnAccount))
    case _ => !HasSpecialKey(row) && !row.changesCategoryType && StartsIn(row, g)
  }

  ghost predicate IsAmount(row: ReportRow) { row.kind == "transaction" && row.amount.Some? }

  ghost predicate ChangesGroup(row: ReportRow) {
    IsAmount(row) && exists g: Group :: StartsIn(row, g) && !LandsIn(row, g)
  }

  ghost function Starting(rows: seq<ReportRow>, g: Group): int {
    if rows == [] then 0
    else
      var n := |rows| - 1;
      Starting(rows[..n], g) + if IsAmount(rows[n]) && StartsIn(rows[n], g) then rows[n].amount.value else 0
  }

  ghost function Landing(rows: seq<ReportRow>, g: Group): int {
    if rows == [] then 0
    else
      var n := |rows| - 1;
      Landing(rows[..n], g) + if IsAmount(rows[n]) && LandsIn(rows[n], g) then rows[n].amount.value else 0
  }

  ghost predicate Flows(row: ReportRow, key: Trace) {
    && IsAmount(row) && key.0 != key.1 && StartsIn(row, key.0) && LandsIn(row, key.1)
    && row.disposition == key.2 && row.reason == key.3
  }

  /** The amounts that flow from one group to another for one reason. */
  ghost function Flowing(rows: seq<ReportRow>, key: Trace): int {
    if rows == [] then 0
    else Flowing(rows[..|rows| - 1], key) + if Flows(rows[|rows| - 1], key) then rows[|rows| - 1].amount.value else 0
  }

  lemma GroupsByColumns(row: ReportRow, g: Group)
    ensures BeforeGroup(row) == g <==> StartsIn(row, g)
    ensures AfterGroup(row) == g <==> LandsIn(row, g)
  {
  }

  lemma MovesByColumns(row: ReportRow)
    ensures Moves(row) <==> ChangesGroup(row)
  {
    GroupsByColumns(row, BeforeGroup(row));
    forall g: Group | StartsIn(row, g) ensures g == BeforeGroup(row) { GroupsByColumns(row, g); }
  }

  lemma FlowsByColumns(row: ReportRow, key: Trace)
    ensures Moves(row) && TraceOf(row) == key <==> Flows(row, key)
  {
    GroupsByColumns(row, key.0);
    GroupsByColumns(row, key.1);
  }

  lemma {:induction false} SumByColumns(rows: seq<ReportRow>, g: Group)
    ensures Sum(rows, BeforeGroup, g) == Starting(rows, g) && Sum(rows, AfterGroup, g) == Landing(rows, g)
  {
    if rows == [] {
    } else {
      SumByColumns(rows[..|rows| - 1], g);
      GroupsByColumns(rows[|rows| - 1], g);
    }
  }

  lemma {:induction false} TraceByColumns(rows: seq<ReportRow>, key: Trace)
    ensures TraceSum(rows, key) == Flowing(rows, key)
  {
    if rows == [] {
    } else {
      TraceByColumns(rows[..|rows| - 1], key);
      FlowsByColumns(rows[|rows| - 1], key);
    }
  }

  lemma SumsByColumns(rows: seq<ReportRow>)
    ensures forall g :: Sum(rows, BeforeGroup, g) == Starting(rows, g) && Sum(rows, AfterGroup, g) == Landing(rows, g)
    ensures forall key :: TraceSum(rows, key) == Flowing(rows, key)
    ensures forall row :: Moves(row) <==> ChangesGroup(row)
  {
    forall g: Group { SumByColumns(rows, g); }
    forall key { TraceByColumns(rows, key); }
    forall row { MovesByColumns(row); }
  }

  /** The before, after and trace counters of the transaction rows. The run is refused exactly when a row
      changes group without a reason and target; otherwise each group's delta is traced in minus traced out,
      and the totals guard at the end never fires. */
  method Analytics(
    rows: seq<ReportRow>) returns (r: Result<(map<Group, int>, map<Group, int>, map<Trace, int>), ReportError>)
    ensures r.Success? <==> forall row :: row in rows && ChangesGroup(row) ==> Traced(row)
    ensures r.Failure? ==> r.error == UntracedDelta
    ensures r.Success? ==> forall g :: Get(r.value.0, g) == Starting(rows, g) && Get(r.value.1, g) == Landing(rows, g)
    ensures r.Success? ==> forall key :: Get(r.value.2, key) == Flowing(rows, key)
    ensures r.Success? ==> Balanced(r.value.0, r.value.1, r.value.2)
    ensures r.Success? ==> Summed(r.value.0, r.value.1, rows) && Followed(r.value.2, rows)
    ensures r.Success? ==> SevenGroups(g => Get(r.value.0, g)) == SevenGroups(g => Get(r.value.1, g))
  {
    var before: map<Group, int>, after: map<Group, int>, traces: map<Trace, int> := map[], map[], map[];
    for i := 0 to |rows|
      invariant forall row :: row in rows[..i] && Moves(row) ==> Traced(row)
      invariant Balanced(before, after, traces)
      invariant Summed(before, after, rows[..i]) && Followed(traces, rows[..i])
    {
      var row := rows[i];
      assert rows[..i + 1] == rows[..i] + [row];
      SummedStep(before, after, rows[..i], row);
      FollowedStep(traces, rows[..i], row);
      if Counted(row) {
        var amount, from, to := row.amount.value, BeforeGroup(row), AfterGroup(row);
        if from != to && !Traced(row) {
          assert row in rows;
          MovesByColumns(row);
          return Failure(UntracedDelta);
        }
        var key := (from, to, row.disposition, row.reason);
        BalancedStep(before, after, traces, key, amount);
        before, after := Add(before, from, amount), Add(after, to, amount);
        if from != to {
          traces := Add(traces, key, amount);
        }
      }
    }
    assert rows[..|rows|] == rows;
    DeltasSumToZero(rows);
    SumsByColumns(rows);
    if SevenGroups(g => Get(before, g)) != SevenGroups(g => Get(after, g)) {
      return Failure(TotalsDiffer);
    }
    r := Success((before, after, traces));
  }

  lemma BalancedStep(before: map<Group, int>, after: map<Group, int>, traces: map<Trace, int>, key: Trace, amount: int)
    requires Balanced(before, after, traces)
    ensures
      var traces' := if key.0 == key.1 then traces else Add(traces, key, amount);
      Balanced(Add(before, key.0, amount), Add(after, key.1, amount), traces')
  {
    var traces' := if key.0 == key.1 then traces else Add(traces, key, amount);
    forall g: Group
      ensures TracedIn(traces', g) - TracedOut(traces', g) ==
              TracedIn(traces, g) - TracedOut(traces, g) +
                (if key.1 == g then amount else 0) - (if key.0 == g then amount else 0)
    {
      TotalAdd(traces, (k: Trace) => k.1 == g, key, amount);
      TotalAdd(traces, (k: Trace) => k.0 == g, key, amount);
    }
  }

  /** The counters agree with the sums over the rows seen so far. */
  ghost predicate Summed(before: map<Group, int>, after: map<Group, int>, rows: seq<ReportRow>) {
    forall g :: Get(before, g) == Sum(rows, BeforeGroup, g) && Get(after, g) == Sum(rows, AfterGroup, g)
  }

  function TraceOf(row: ReportRow): Trace { (BeforeGroup(row), AfterGroup(row), row.disposition, row.reason) }

  /** Sum of the amounts that change group along one trace. */
  function TraceSum(rows: seq<ReportRow>, key: Trace): int {
    if rows == [] then 0
    else
      var n := |rows| - 1;
      TraceSum(rows[..n], key) + if Moves(rows[n]) && TraceOf(rows[n]) == key then rows[n].amount.value else 0
  }

  ghost predicate Followed(traces: map<Trace, int>, rows: seq<ReportRow>) {
    forall key :: Get(traces, key) == TraceSum(rows, key)
  }

  lemma FollowedStep(traces: map<Trace, int>, rows: seq<ReportRow>, row: ReportRow)
    requires Followed(traces, rows)
    ensures if Moves(row) then Followed(Add(traces, TraceOf(row), row.amount.value), rows + [row])
        else Followed(traces, rows + [row])
  {
    assert (rows + [row])[..|rows|] == rows;
    forall key ensures TraceSum(rows + [row], key) == Get(traces, key) + if Moves(row) && TraceOf(row) == key
        then row.amount.value else 0 {
      assert Get(traces, key) == TraceSum(rows, key);
    }
  }

  lemma SummedStep(before: map<Group, int>, after: map<Group, int>, rows: seq<ReportRow>, row: ReportRow)
    requires Summed(before, after, rows)
    ensures
      if Counted(row) then
        Summed(Add(before, BeforeGroup(row), row.amount.value), Add(after, AfterGroup(row), row.amount.value),
          rows + [row])
      else Summed(before, after, rows + [row])
  {
    forall g ensures Sum(rows + [row], BeforeGroup, g) == Get(before, g) + Share(row, BeforeGroup, g)
      ensures Sum(rows + [row], AfterGroup, g) == Get(after, g) + Share(row, AfterGroup, g)
    {
      assert (rows + [row])[..|rows|] == rows;
    }
  }

  function SevenGroups(of: Group -> int): int {
    of(Expense) + of(Income) + of(Investment) + of(Cash) + of(Savings) + of(OwnAccount) + of(UnknownTransfer)
  }

  /** The seven reported deltas sum to zero for every set of rows. */
  lemma {:induction false} DeltasSumToZero(rows: seq<ReportRow>)
    ensures SevenGroups(g => Sum(rows, AfterGroup, g) - Sum(rows, BeforeGroup, g)) == 0
  {
    if rows == [] {
    } else {
      DeltasSumToZero(rows[..|rows| - 1]);
    }
  }
}
