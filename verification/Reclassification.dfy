/**
  The row-by-row reclassification that the service-owned apply commands share: each manifest row moves
  one stored reference from its legacy value to its target, unless the row is gone, protected, already
  moved, edited since the scan, or would collide with a sibling of its group.
*/
module Reclassification {
  import opened Common

  /** A stored row that carries a taxonomy reference. */
  datatype Source =
    | LegacyBudget(id: int)
    | BudgetLine(id: int)
    | CategorizationResult(id: int)
    | SystemRule(id: int)

  datatype Ref = Category(id: int) | SubCategory(id: int) | Pair(category: int, subcategory: int)

  /** One manifest row with its target identity resolved. */
  datatype Move = Move(source: Source, legacy: Option<Ref>, target: Ref)

  /** References by row; siblings in one group must carry distinct references. */
  datatype Table = Table(refs: map<Source, Ref>, guarded: set<Source>, group: map<Source, int>)

  datatype Outcome = Missing | Protected | AlreadyApplied | Changed | Collision | Hit

  ghost predicate Siblings(t: Table, a: Source, b: Source) {
    a != b && a in t.group && b in t.group && t.group[a] == t.group[b]
  }

  /** The unique constraint: no two siblings share a reference. */
  ghost predicate Unique(t: Table) {
    forall a, b :: a in t.refs && b in t.refs && Siblings(t, a, b) ==> t.refs[a] != t.refs[b]
  }

  ghost predicate Collides(t: Table, m: Move) {
    exists o :: o in t.refs && Siblings(t, m.source, o) && t.refs[o] == m.target
  }

  ghost function Classify(t: Table, m: Move): Outcome {
    if m.source !in t.refs then Missing
    else if m.source in t.guarded then Protected
    else if t.refs[m.source] == m.target then AlreadyApplied
    else if Some(t.refs[m.source]) != m.legacy then Changed
    else if Collides(t, m) then Collision
    else Hit
  }

  ghost function Apply(t: Table, m: Move): Table {
    if Classify(t, m).Hit? then t.(refs := t.refs[m.source := m.target]) else t
  }

  /** The table after executing the moves in order. */
  ghost function Execute(t: Table, moves: seq<Move>): Table {
    if moves == [] then t else Apply(Execute(t, moves[..|moves| - 1]), moves[|moves| - 1])
  }

  /** What each move meets when the moves before it have been executed. */
  ghost function Outcomes(t: Table, moves: seq<Move>): seq<Outcome> {
    if moves == [] then []
    else
      var n := |moves| - 1;
      Outcomes(t, moves[..n]) + [Classify(Execute(t, moves[..n]), moves[n])]
  }

  /** What each move meets when nothing is written. */
  ghost function DryRun(t: Table, moves: seq<Move>): seq<Outcome> {
    seq(|moves|, i requires 0 <= i < |moves| => Classify(t, moves[i]))
  }

  /** What a run over the moves meets, written or not. */
  ghost function Met(t: Table, moves: seq<Move>, execute: bool): seq<Outcome> {
    if execute then Outcomes(t, moves) else DryRun(t, moves)
  }

  ghost function After(t: Table, moves: seq<Move>, execute: bool): Table {
    if execute then Execute(t, moves) else t
  }

  lemma OneMore(t: Table, moves: seq<Move>, m: Move, execute: bool)
    ensures
      var o := Classify(After(t, moves, execute), m);
      && Met(t, moves + [m], execute) == Met(t, moves, execute) + [o]
      && After(t, moves + [m], execute) == if execute then Apply(After(t, moves, true), m) else t
  {
    assert (moves + [m])[..|moves|] == moves;
  }

  function Tally(outcomes: seq<Outcome>, o: Outcome): nat {
    if outcomes == [] then 0
    else Tally(outcomes[..|outcomes| - 1], o) + if outcomes[|outcomes| - 1] == o then 1 else 0
  }

  lemma Overlay(a: map<Source, Ref>, b: map<Source, Ref>, s: Source, r: Ref)
    ensures s !in b ==> a[s := r] + b == (a + b)[s := r]
    ensures a + b[s := r] == (a + b)[s := r]
  {
  }

  ghost predicate UniqueSources(moves: seq<Move>) {
    forall i, j :: 0 <= i < j < |moves| ==> moves[i].source != moves[j].source
  }

  /** Within a group no target is another move's legacy reference. */
  ghost predicate TargetsNotLegacy(t: Table, moves: seq<Move>) {
    forall i, j :: 0 <= i < |moves| && 0 <= j < |moves| && Siblings(t, moves[i].source, moves[j].source) ==>
      Some(moves[i].target) != moves[j].legacy
  }

  /** Within a group no two moves share a target. */
  ghost predicate TargetsNotShared(t: Table, moves: seq<Move>) {
    forall i, j :: 0 <= i < |moves| && 0 <= j < |moves| && Siblings(t, moves[i].source, moves[j].source) ==>
      moves[i].target != moves[j].target
  }

  // ----- what every move keeps -----

  lemma ApplyKeepsShape(t: Table, m: Move)
    ensures Apply(t, m).guarded == t.guarded && Apply(t, m).group == t.group
    ensures Apply(t, m).refs.Keys == t.refs.Keys
    ensures Unique(t) ==> Unique(Apply(t, m))
  {
    if Unique(t) && Classify(t, m).Hit? {
      var t' := Apply(t, m);
      forall a, b | a in t'.refs && b in t'.refs && Siblings(t', a, b) ensures t'.refs[a] != t'.refs[b] {
        assert Siblings(t, a, b) && Siblings(t, b, a);
      }
    }
  }

  /** Any manifest, after any number of its rows, leaves the unique constraint intact. */
  lemma {:induction false} ExecuteKeepsUnique(t: Table, moves: seq<Move>)
    ensures Execute(t, moves).guarded == t.guarded && Execute(t, moves).group == t.group
    ensures Execute(t, moves).refs.Keys == t.refs.Keys
    ensures Unique(t) ==> Unique(Execute(t, moves))
  {
    if moves == [] {
    } else {
      var n := |moves| - 1;
      ExecuteKeepsUnique(t, moves[..n]);
      ApplyKeepsShape(Execute(t, moves[..n]), moves[n]);
    }
  }

  /** A reference changes only from a legacy value some move of that row named, and never on a guarded row. */
  lemma {:induction false} OnlyLegacyReferencesMove(t: Table, moves: seq<Move>, s: Source)
    requires s in t.refs
    ensures s in Execute(t, moves).refs
    ensures Execute(t, moves).refs[s] != t.refs[s] ==>
              s !in t.guarded && exists m :: m in moves && m.source == s && m.legacy == Some(t.refs[s])
  {
    ExecuteKeepsUnique(t, moves);
    if moves == [] {
    } else {
      var n := |moves| - 1;
      OnlyLegacyReferencesMove(t, moves[..n], s);
      ExecuteKeepsUnique(t, moves[..n]);
      assert forall m :: m in moves[..n] ==> m in moves;
      assert moves[n] in moves;
    }
  }

  // ----- drift between two points of one execution -----

  /** With unique sources, a reference either stays from point k to point n or makes one recorded move. */
  ghost predicate Drifted(t: Table, moves: seq<Move>, k: nat, n: nat, s: Source)
    requires k <= n <= |moves|
  {
    var before, after := Execute(t, moves[..k]), Execute(t, moves[..n]);
    s in before.refs && s in after.refs &&
    (before.refs[s] == after.refs[s] ||
     exists i :: k <= i < n && MovedAt(t, moves, i) && moves[i].source == s &&
       moves[i].legacy == Some(before.refs[s]) && moves[i].target == after.refs[s])
  }

  /** The i-th move was a hit when its turn came. */
  ghost predicate MovedAt(t: Table, moves: seq<Move>, i: nat)
    requires i < |moves|
  {
    Classify(Execute(t, moves[..i]), moves[i]).Hit?
  }

  lemma {:induction false} Drift(t: Table, moves: seq<Move>, k: nat, n: nat, s: Source)
    requires k <= n <= |moves| && UniqueSources(moves) && s in t.refs
    ensures Drifted(t, moves, k, n, s)
    decreases n
  {
    ExecuteKeepsUnique(t, moves[..k]);
    ExecuteKeepsUnique(t, moves[..n]);
    if k < n {
      Drift(t, moves, k, n - 1, s);
      StepAt(t, moves, n - 1);
      var mid := Execute(t, moves[..n - 1]);
      var before := Execute(t, moves[..k]);
      if moves[n - 1].source != s && before.refs[s] != mid.refs[s] {
        var i :| k <= i < n - 1 && MovedAt(t, moves, i) && moves[i].source == s &&
                 moves[i].legacy == Some(before.refs[s]) && moves[i].target == mid.refs[s];
        assert k <= i < n;
      }
    }
  }

  lemma StepAt(t: Table, moves: seq<Move>, i: nat)
    requires i < |moves|
    ensures Execute(t, moves[..i + 1]) == Apply(Execute(t, moves[..i]), moves[i])
    ensures |Outcomes(t, moves[..i + 1])| == |Outcomes(t, moves[..i])| + 1
    ensures Outcomes(t, moves[..i + 1]) == Outcomes(t, moves[..i]) + [Classify(Execute(t, moves[..i]), moves[i])]
  {
    assert moves[..i + 1][..i] == moves[..i];
  }

  lemma {:induction false} OutcomeAt(t: Table, moves: seq<Move>, n: nat, i: nat)
    requires i < n <= |moves|
    ensures |Outcomes(t, moves[..n])| == n
    ensures Outcomes(t, moves[..n])[i] == Classify(Execute(t, moves[..i]), moves[i])
    decreases n
  {
    StepAt(t, moves, n - 1);
    if n == 1 {
      assert moves[..0] == [];
    } else {
      OutcomeAt(t, moves, n - 1, if i < n - 1 then i else 0);
    }
  }

  /** A row's own reference is untouched until its move comes up. */
  lemma UntouchedBefore(t: Table, moves: seq<Move>, i: nat)
    requires i < |moves| && UniqueSources(moves) && moves[i].source in t.refs
    ensures moves[i].source in Execute(t, moves[..i]).refs
    ensures Execute(t, moves[..i]).refs[moves[i].source] == t.refs[moves[i].source]
  {
    Drift(t, moves, 0, i, moves[i].source);
    assert moves[..0] == [];
  }

  // ----- the dry run predicts the execution -----

  /** Two rows of one group of which the dry run validates the earlier: it takes the later one's target, or it
      leaves the reference the later one was found to collide with. */
  ghost predicate Interferes(t: Table, moves: seq<Move>, j: nat, i: nat)
    requires j < i < |moves|
  {
    && Siblings(t, moves[i].source, moves[j].source) && Classify(t, moves[j]).Hit?
    && (|| (Classify(t, moves[i]).Hit? && moves[i].target == moves[j].target)
        || (Classify(t, moves[i]).Collision? && moves[j].legacy == Some(moves[i].target)))
  }

  ghost predicate NoInterference(t: Table, moves: seq<Move>) {
    forall i, j :: 0 <= j < i < |moves| ==> !Interferes(t, moves, j, i)
  }

  /** The first n moves met what the dry run reported. */
  ghost predicate AgreesUpTo(t: Table, moves: seq<Move>, n: nat)
    requires n <= |moves|
  {
    forall i :: 0 <= i < n ==> AgreesAt(t, moves, i)
  }

  ghost predicate AgreesAt(t: Table, moves: seq<Move>, i: nat)
    requires i < |moves|
  {
    Classify(Execute(t, moves[..i]), moves[i]) == Classify(t, moves[i])
  }

  lemma OutcomesAt(t: Table, moves: seq<Move>, i: nat)
    requires i < |moves|
    ensures |Outcomes(t, moves)| == |moves| && Outcomes(t, moves)[i] == Classify(Execute(t, moves[..i]), moves[i])
  {
    assert moves[..|moves|] == moves;
    OutcomeAt(t, moves, |moves|, i);
  }

  lemma ExactIffAgrees(t: Table, moves: seq<Move>)
    ensures Outcomes(t, moves) == DryRun(t, moves) <==> AgreesUpTo(t, moves, |moves|)
  {
    if moves != [] {
      OutcomesAt(t, moves, 0);
    }
    if AgreesUpTo(t, moves, |moves|) {
      forall i | 0 <= i < |moves| ensures Outcomes(t, moves)[i] == DryRun(t, moves)[i] {
        OutcomesAt(t, moves, i);
        assert AgreesAt(t, moves, i);
      }
    }
    if Outcomes(t, moves) == DryRun(t, moves) {
      forall i | 0 <= i < |moves| ensures AgreesAt(t, moves, i) {
        OutcomesAt(t, moves, i);
      }
    }
  }

  /** Whether the row of move i is there, guarded, settled or edited does not depend on the moves before it. */
  lemma SameUpToCollision(t: Table, moves: seq<Move>, i: nat)
    requires i < |moves| && UniqueSources(moves)
    ensures
      var now, m := Execute(t, moves[..i]), moves[i];
      && (Classify(now, m) == Classify(t, m) || {Classify(now, m), Classify(t, m)} == {Hit, Collision})
      && (Classify(t, m) in {Hit, Collision} ==> (Classify(now, m).Collision? <==> Collides(now, m)))
      && (Classify(t, m) in {Hit, Collision} ==> (Classify(t, m).Collision? <==> Collides(t, m)))
  {
    ExecuteKeepsUnique(t, moves[..i]);
    if moves[i].source in t.refs {
      UntouchedBefore(t, moves, i);
    }
  }

  lemma SameSiblings(t: Table, moves: seq<Move>, i: nat, a: Source, b: Source)
    requires i <= |moves|
    ensures Siblings(Execute(t, moves[..i]), a, b) <==> Siblings(t, a, b)
    ensures Execute(t, moves[..i]).refs.Keys == t.refs.Keys
  {
    ExecuteKeepsUnique(t, moves[..i]);
  }

  /** A reference that differs before move i was moved by an earlier hit. */
  lemma MovedBefore(t: Table, moves: seq<Move>, i: nat, o: Source) returns (j: nat)
    requires i <= |moves| && UniqueSources(moves) && o in t.refs && o in Execute(t, moves[..i]).refs
    requires Execute(t, moves[..i]).refs[o] != t.refs[o]
    ensures j < i && MovedAt(t, moves, j) && moves[j].source == o
    ensures moves[j].legacy == Some(t.refs[o]) && moves[j].target == Execute(t, moves[..i]).refs[o]
  {
    Drift(t, moves, 0, i, o);
    assert moves[..0] == [];
    j :| 0 <= j < i && MovedAt(t, moves, j) && moves[j].source == o &&
         moves[j].legacy == Some(t.refs[o]) && moves[j].target == Execute(t, moves[..i]).refs[o];
  }

  /** A hit stays where it moved to. */
  lemma StaysMoved(t: Table, moves: seq<Move>, j: nat, n: nat)
    requires j < n <= |moves| && UniqueSources(moves) && MovedAt(t, moves, j)
    ensures moves[j].source in t.refs && moves[j].source in Execute(t, moves[..n]).refs
    ensures Execute(t, moves[..n]).refs[moves[j].source] == moves[j].target
    ensures Some(t.refs[moves[j].source]) == moves[j].legacy && moves[j].legacy != Some(moves[j].target)
  {
    ExecuteKeepsUnique(t, moves[..j]);
    UntouchedBefore(t, moves, j);
    StepAt(t, moves, j);
    Drift(t, moves, j + 1, n, moves[j].source);
  }

  lemma AgreesNext(t: Table, moves: seq<Move>, i: nat)
    requires i < |moves| && UniqueSources(moves) && AgreesUpTo(t, moves, i) && NoInterference(t, moves)
    ensures AgreesAt(t, moves, i)
  {
    var now, m := Execute(t, moves[..i]), moves[i];
    SameUpToCollision(t, moves, i);
    if Classify(t, m).Hit? && Collides(now, m) {
      var o :| o in now.refs && Siblings(now, m.source, o) && now.refs[o] == m.target;
      SameSiblings(t, moves, i, m.source, o);
      var j := MovedBefore(t, moves, i, o);
      assert AgreesAt(t, moves, j);
      assert Interferes(t, moves, j, i);
    } else if Classify(t, m).Collision? && !Collides(now, m) {
      var o :| o in t.refs && Siblings(t, m.source, o) && t.refs[o] == m.target;
      SameSiblings(t, moves, i, m.source, o);
      var j := MovedBefore(t, moves, i, o);
      assert AgreesAt(t, moves, j);
      assert Interferes(t, moves, j, i);
    }
  }

  lemma {:induction false} Agrees(t: Table, moves: seq<Move>, n: nat)
    requires n <= |moves| && UniqueSources(moves) && NoInterference(t, moves)
    ensures AgreesUpTo(t, moves, n)
  {
    if n == 0 {
    } else {
      Agrees(t, moves, n - 1);
      AgreesNext(t, moves, n - 1);
    }
  }

  /** Interference makes the later of the two rows meet something else than reported. */
  lemma InterferenceShows(t: Table, moves: seq<Move>, j: nat, i: nat)
    requires j < i < |moves| && UniqueSources(moves) && Unique(t) && Interferes(t, moves, j, i)
    requires AgreesUpTo(t, moves, i)
    ensures !AgreesAt(t, moves, i)
  {
    var now, m := Execute(t, moves[..i]), moves[i];
    var b := moves[j].source;
    SameUpToCollision(t, moves, i);
    SameSiblings(t, moves, i, m.source, b);
    assert AgreesAt(t, moves, j);
    StaysMoved(t, moves, j, i);
    if Classify(t, m).Hit? {
      assert Collides(now, m);
    } else if Collides(now, m) {
      var o :| o in now.refs && Siblings(now, m.source, o) && now.refs[o] == m.target;
      SameSiblings(t, moves, i, m.source, o);
      assert Siblings(t, o, b);
      var k := MovedBefore(t, moves, i, o);
      assert AgreesAt(t, moves, k);
      assert Siblings(t, moves[k].source, b) && Collides(t, moves[k]);
    }
  }

  /** Row by row the execution meets what the dry run reported if and only if no two rows interfere. */
  lemma DryRunIsExactIff(t: Table, moves: seq<Move>)
    requires UniqueSources(moves) && Unique(t)
    ensures Outcomes(t, moves) == DryRun(t, moves) <==> NoInterference(t, moves)
  {
    ExactIffAgrees(t, moves);
    if NoInterference(t, moves) {
      Agrees(t, moves, |moves|);
    } else {
      var i, j :| 0 <= j < i < |moves| && Interferes(t, moves, j, i);
      if AgreesUpTo(t, moves, |moves|) {
        InterferenceShows(t, moves, j, i);
      }
    }
  }

  /** Targets that are neither shared nor legacy references within a group do not interfere. */
  lemma DryRunIsExact(t: Table, moves: seq<Move>)
    requires UniqueSources(moves) && TargetsNotLegacy(t, moves) && TargetsNotShared(t, moves)
    ensures NoInterference(t, moves) && Outcomes(t, moves) == DryRun(t, moves)
  {
    forall i, j | 0 <= j < i < |moves| ensures !Interferes(t, moves, j, i) {
      assert Siblings(t, moves[i].source, moves[j].source) ==> Some(moves[i].target) != moves[j].legacy;
    }
    ExactIffAgrees(t, moves);
    Agrees(t, moves, |moves|);
  }

  // ----- executing again -----

  function Settled(o: Outcome): Outcome { if o.Hit? then AlreadyApplied else o }

  /** Move i was blocked, a later hit of its group left the blocked reference, and no hit after that took it. */
  ghost predicate Freed(t: Table, moves: seq<Move>, i: nat)
    requires i < |moves|
  {
    && Classify(Execute(t, moves[..i]), moves[i]).Collision?
    && exists j :: i < j < |moves| && Frees(t, moves, i, j)
  }

  ghost predicate Frees(t: Table, moves: seq<Move>, i: nat, j: nat)
    requires i < |moves| && j < |moves|
  {
    && MovedAt(t, moves, j) && Siblings(t, moves[i].source, moves[j].source) && moves[j].legacy == Some(moves[i].target)
    && forall k :: j < k < |moves| && MovedAt(t, moves, k) && Siblings(t, moves[i].source, moves[k].source) ==>
         moves[k].target != moves[i].target
  }

  /** On the final table a blocked move is still blocked unless its target was freed. */
  lemma StillBlocked(t: Table, moves: seq<Move>, i: nat)
    requires i < |moves| && UniqueSources(moves) && Classify(Execute(t, moves[..i]), moves[i]).Collision?
    requires !Freed(t, moves, i)
    ensures Collides(Execute(t, moves), moves[i])
  {
    var m, now, end := moves[i], Execute(t, moves[..i]), Execute(t, moves);
    assert moves[..|moves|] == moves;
    var o :| o in now.refs && Siblings(now, m.source, o) && now.refs[o] == m.target;
    SameSiblings(t, moves, i, m.source, o);
    SameSiblings(t, moves, |moves|, m.source, o);
    Drift(t, moves, i, |moves|, o);
    if end.refs[o] != m.target {
      var j :| i <= j < |moves| && MovedAt(t, moves, j) && moves[j].source == o && moves[j].legacy == Some(m.target);
      assert j != i;
      assert !Frees(t, moves, i, j);
      var k :| j < k < |moves| && MovedAt(t, moves, k) && Siblings(t, m.source, moves[k].source) &&
          moves[k].target == m.target;
      StaysMoved(t, moves, k, |moves|);
      SameSiblings(t, moves, |moves|, m.source, moves[k].source);
    }
  }

  /** After a hit left a reference, a sibling has it at the end only by a later hit. */
  lemma RetakenLater(t: Table, moves: seq<Move>, j: nat, o: Source) returns (k: nat)
    requires j < |moves| && UniqueSources(moves) && Unique(t) && MovedAt(t, moves, j)
    requires o in t.refs && o in Execute(t, moves).refs && Siblings(t, o, moves[j].source)
    requires Some(Execute(t, moves).refs[o]) == moves[j].legacy
    ensures j < k < |moves| && MovedAt(t, moves, k) && moves[k].source == o && Some(moves[k].target) == moves[j].legacy
  {
    assert moves[..|moves|] == moves;
    var mid := Execute(t, moves[..j]);
    ExecuteKeepsUnique(t, moves[..j]);
    assert Siblings(mid, o, moves[j].source);
    assert mid.refs[o] != mid.refs[moves[j].source];
    Drift(t, moves, j, |moves|, o);
    k :| j <= k < |moves| && MovedAt(t, moves, k) && moves[k].source == o &&
      moves[k].target == Execute(t, moves).refs[o];
  }

  /** A freed target is free on the final table. */
  lemma FreedIsFree(t: Table, moves: seq<Move>, i: nat)
    requires i < |moves| && UniqueSources(moves) && Unique(t) && Freed(t, moves, i)
    ensures !Collides(Execute(t, moves), moves[i])
  {
    var j :| i < j < |moves| && Frees(t, moves, i, j);
    forall o | o in Execute(t, moves).refs && Siblings(Execute(t, moves), moves[i].source, o)
      ensures Execute(t, moves).refs[o] != moves[i].target
    {
      FreedFrom(t, moves, i, j, o);
    }
  }

  lemma FreedFrom(t: Table, moves: seq<Move>, i: nat, j: nat, o: Source)
    requires i < j < |moves| && UniqueSources(moves) && Unique(t) && Frees(t, moves, i, j)
    requires o in Execute(t, moves).refs && Siblings(Execute(t, moves), moves[i].source, o)
    ensures Execute(t, moves).refs[o] != moves[i].target
  {
    assert moves[..|moves|] == moves;
    SameSiblings(t, moves, |moves|, moves[i].source, o);
    StaysMoved(t, moves, j, |moves|);
    if o != moves[j].source && Execute(t, moves).refs[o] == moves[i].target {
      var k := RetakenLater(t, moves, j, o);
    }
  }

  /** On the final table a move meets its first outcome again, hits now being applied, unless it was freed: then it
      hits. */
  lemma RerunAt(t: Table, moves: seq<Move>, i: nat)
    requires i < |moves| && UniqueSources(moves)
    ensures !Freed(t, moves, i) ==>
              Classify(Execute(t, moves), moves[i]) == Settled(Classify(Execute(t, moves[..i]), moves[i]))
    ensures Freed(t, moves, i) && Unique(t) ==> Classify(Execute(t, moves), moves[i]).Hit?
  {
    assert moves[..|moves|] == moves;
    ExecuteKeepsUnique(t, moves[..i]);
    ExecuteKeepsUnique(t, moves);
    if moves[i].source in t.refs {
      StepAt(t, moves, i);
      Drift(t, moves, i + 1, |moves|, moves[i].source);
    }
    if Classify(Execute(t, moves[..i]), moves[i]).Collision? {
      if Freed(t, moves, i) {
        if Unique(t) {
          FreedIsFree(t, moves, i);
        }
      } else {
        StillBlocked(t, moves, i);
      }
    }
  }

  lemma {:induction false} NoHitNoChange(t: Table, moves: seq<Move>)
    requires forall m :: m in moves ==> !Classify(t, m).Hit?
    ensures Execute(t, moves) == t
  {
    if moves == [] {
    } else {
      var n := |moves| - 1;
      assert forall m :: m in moves[..n] ==> m in moves;
      NoHitNoChange(t, moves[..n]);
      assert moves[n] in moves;
    }
  }

  ghost predicate NoneFreed(t: Table, moves: seq<Move>) { forall i :: 0 <= i < |moves| ==> !Freed(t, moves, i) }

  /** Nothing was freed: the rerun changes no row and turns every hit into already applied, all else equal. */
  lemma UnfreedRerunIsIdle(t: Table, moves: seq<Move>)
    requires UniqueSources(moves) && NoneFreed(t, moves)
    ensures Execute(Execute(t, moves), moves) == Execute(t, moves)
    ensures Outcomes(Execute(t, moves), moves) == SettledAll(Outcomes(t, moves))
  {
    var end := Execute(t, moves);
    assert moves[..|moves|] == moves;
    if moves != [] {
      OutcomeAt(t, moves, |moves|, 0);
      OutcomeAt(end, moves, |moves|, 0);
    }
    forall i | 0 <= i < |moves| ensures Classify(end, moves[i]) == Settled(Outcomes(t, moves)[i]) {
      RerunAt(t, moves, i);
      OutcomeAt(t, moves, |moves|, i);
    }
    NoHitNoChange(end, moves);
    forall i | 0 <= i < |moves| ensures Outcomes(end, moves)[i] == Settled(Outcomes(t, moves)[i]) {
      OutcomeAt(end, moves, |moves|, i);
      assert forall m :: m in moves[..i] ==> m in moves;
      NoHitNoChange(end, moves[..i]);
    }
  }

  /** A second execution changes nothing, and repeats the first outcomes with hits as already applied, if and only if
      the first one freed no target it had skipped before. */
  lemma RerunIsIdleIff(t: Table, moves: seq<Move>)
    requires UniqueSources(moves) && Unique(t)
    ensures Execute(Execute(t, moves), moves) == Execute(t, moves) <==> NoneFreed(t, moves)
    ensures Outcomes(Execute(t, moves), moves) == SettledAll(Outcomes(t, moves)) <==> NoneFreed(t, moves)
  {
    if NoneFreed(t, moves) {
      UnfreedRerunIsIdle(t, moves);
    } else {
      var i :| 0 <= i < |moves| && Freed(t, moves, i);
      var end := Execute(t, moves);
      RerunAt(t, moves, i);
      FirstHit(end, moves, i);
    }
  }

  lemma SomeMoved(t: Table, moves: seq<Move>, i: nat) returns (j: nat)
    requires i < |moves| && Classify(t, moves[i]).Hit?
    ensures j < |moves| && MovedAt(t, moves, j)
  {
    if forall j :: 0 <= j < |moves| ==> !MovedAt(t, moves, j) {
      NoneMoved(t, moves, i);
      assert MovedAt(t, moves, i);
    }
    j :| 0 <= j < |moves| && MovedAt(t, moves, j);
  }

  /** A table on which some move hits is changed by executing, and a hit is among the outcomes. */
  lemma FirstHit(t: Table, moves: seq<Move>, i: nat)
    requires i < |moves| && UniqueSources(moves) && Classify(t, moves[i]).Hit?
    ensures Execute(t, moves) != t && Hit in Outcomes(t, moves)
  {
    assert moves[..|moves|] == moves;
    var j := SomeMoved(t, moves, i);
    assert Execute(t, moves).refs[moves[j].source] != t.refs[moves[j].source] by {
      StaysMoved(t, moves, j, |moves|);
    }
    OutcomeAt(t, moves, |moves|, j);
  }

  lemma {:induction false} NoneMoved(t: Table, moves: seq<Move>, n: nat)
    requires n <= |moves| && forall j :: 0 <= j < |moves| ==> !MovedAt(t, moves, j)
    ensures Execute(t, moves[..n]) == t
  {
    if n == 0 {
      assert moves[..0] == [];
    } else {
      NoneMoved(t, moves, n - 1);
      assert !MovedAt(t, moves, n - 1);
      StepAt(t, moves, n - 1);
    }
  }

  /** Without targets on legacy references of the group nothing is freed. */
  lemma SecondExecuteIsIdle(t: Table, moves: seq<Move>)
    requires UniqueSources(moves) && TargetsNotLegacy(t, moves)
    ensures NoneFreed(t, moves)
    ensures Execute(Execute(t, moves), moves) == Execute(t, moves)
    ensures Outcomes(Execute(t, moves), moves) == SettledAll(Outcomes(t, moves))
  {
    forall i, j | 0 <= i < |moves| && i < j < |moves| ensures !Frees(t, moves, i, j) {
      assert Siblings(t, moves[i].source, moves[j].source) ==> Some(moves[i].target) != moves[j].legacy;
    }
    UnfreedRerunIsIdle(t, moves);
  }

  function SettledAll(outcomes: seq<Outcome>): seq<Outcome> {
    seq(|outcomes|, i requires 0 <= i < |outcomes| => Settled(outcomes[i]))
  }

  /** Settling moves the hits to the already applied and leaves every other counter alone. */
  lemma {:induction false} SettledTally(outcomes: seq<Outcome>, o: Outcome)
    ensures Tally(SettledAll(outcomes), o) ==
            if o.Hit? then 0 else Tally(outcomes, o) + if o.AlreadyApplied? then Tally(outcomes, Hit) else 0
  {
    if outcomes == [] {
    } else {
      var n := |outcomes| - 1;
      SettledTally(outcomes[..n], o);
      assert SettledAll(outcomes)[..n] == SettledAll(outcomes[..n]);
    }
  }

  // ----- why the conditions are there -----

  lemma TwoMoves(t: Table, a: Move, b: Move)
    ensures Execute(t, [a, b]) == Apply(Apply(t, a), b)
    ensures Outcomes(t, [a, b]) == [Classify(t, a), Classify(Apply(t, a), b)]
    ensures DryRun(t, [a, b]) == [Classify(t, a), Classify(t, b)]
  {
    assert [a, b][..1] == [a] && [a][..0] == [];
    assert Execute(t, [a]) == Apply(t, a);
    assert Outcomes(t, [a]) == [] + [Classify(t, a)];
  }

  /** Two lines of one budget, the first moving onto the reference the second is about to leave: a second
      execute applies what the first one skipped, and in the other order the dry run is wrong. */
  lemma ChainedTargetsBreakBoth() returns (t: Table, a: Move, b: Move)
    ensures Unique(t) && UniqueSources([a, b]) && TargetsNotShared(t, [a, b]) && !TargetsNotLegacy(t, [a, b])
    ensures Outcomes(t, [a, b]) == [Collision, Hit] && Execute(Execute(t, [a, b]), [a, b]) != Execute(t, [a, b])
    ensures DryRun(t, [b, a]) == [Hit, Collision] && Outcomes(t, [b, a]) == [Hit, Hit]
  {
    var x, y := BudgetLine(1), BudgetLine(2);
    t := Table(map[x := Category(1), y := Category(2)], {}, map[x := 7, y := 7]);
    a, b := Move(x, Some(Category(1)), Category(2)), Move(y, Some(Category(2)), Category(3));
    assert Siblings(t, x, y) && Siblings(t, [a, b][0].source, [a, b][1].source);
    assert Classify(t, a).Collision? && Classify(t, b).Hit?;
    var t2 := Apply(t, b);
    assert t2.refs == map[x := Category(1), y := Category(3)];
    assert Classify(t2, a).Hit?;
    TwoMoves(t, a, b);
    TwoMoves(t, b, a);
    TwoMoves(t2, a, b);
    assert Apply(t2, a).refs[x] == Category(2);
  }

  /** Two lines of one budget with the same target: the dry run validates both, the execution applies one. */
  lemma SharedTargetBreaksTheDryRun() returns (t: Table, a: Move, b: Move)
    ensures Unique(t) && UniqueSources([a, b]) && TargetsNotLegacy(t, [a, b]) && !TargetsNotShared(t, [a, b])
    ensures DryRun(t, [a, b]) == [Hit, Hit] && Outcomes(t, [a, b]) == [Hit, Collision]
  {
    var x, y := BudgetLine(1), BudgetLine(2);
    t := Table(map[x := Category(1), y := Category(2)], {}, map[x := 7, y := 7]);
    a, b := Move(x, Some(Category(1)), Category(9)), Move(y, Some(Category(2)), Category(9));
    assert Siblings(t, [a, b][0].source, [a, b][1].source);
    assert Classify(t, a).Hit? && Classify(t, b).Hit?;
    var t' := Apply(t, a);
    assert t'.refs == map[x := Category(9), y := Category(2)];
    assert Siblings(t', y, x);
    TwoMoves(t, a, b);
  }
}
