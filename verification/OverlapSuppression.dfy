/**
 Evidence of one root is counted once: within each overlap group only the strongest item keeps
 its score.
*/
module OverlapSuppression {
  import opened Common

  type Family = (string, string, string)

  /** `phaseClaim` records whether the claim names a market phase rather than an event. */
  datatype Evidence = Evidence(
    engine: string, direction: string, claim: string, phaseClaim: bool, score: real,
    overlapNote: Option<string>, overlapGroup: Option<string>, overlapWinner: Option<string>)

  datatype OverlapGroup = OverlapGroup(groupId: string, families: seq<Family>)

  function EvidenceFamily(e: Evidence): Option<Family> {
    if e.direction != "long" && e.direction != "short" then None
    else if e.engine == "liquidity" then Some(("liquidity", "sweep", e.direction))
    else if e.engine == "wyckoff" then
      if e.phaseClaim then None else Some(("wyckoff", "event", e.direction))
    else if e.engine == "harmonic" then Some(("harmonic", "prz", e.direction))
    else if e.engine == "level" then Some(("levels", "level", e.direction))
    else None
  }

  // ----- Specification -----

  /** A family listed by several groups belongs to the last of them. */
  function GroupOf(groups: seq<OverlapGroup>, f: Family): (g: Option<nat>)
    ensures g.Some? ==> g.value < |groups| && f in groups[g.value].families
    ensures g.None? <==> forall i :: 0 <= i < |groups| ==> f !in groups[i].families
  {
    if groups == [] then None
    else if f in groups[|groups| - 1].families then Some(|groups| - 1)
    else GroupOf(groups[..|groups| - 1], f)
  }

  function GroupIndex(groups: seq<OverlapGroup>, e: Evidence): (g: Option<nat>)
    ensures g.Some? ==> g.value < |groups|
  {
    if EvidenceFamily(e).None? then None else GroupOf(groups, EvidenceFamily(e).value)
  }

  predicate Member(evidence: seq<Evidence>, groups: seq<OverlapGroup>, g: nat, i: nat)
    requires i < |evidence|
  {
    GroupIndex(groups, evidence[i]) == Some(g)
  }

  /** The strongest of the first n items of a group, the earliest among equals. */
  function Winner(evidence: seq<Evidence>, groups: seq<OverlapGroup>, g: nat, n: nat): (w: Option<nat>)
    requires n <= |evidence|
    ensures w.Some? ==> w.value < n && Member(evidence, groups, g, w.value)
    ensures w.None? ==> forall i :: 0 <= i < n ==> !Member(evidence, groups, g, i)
    ensures w.Some? ==> forall i :: 0 <= i < n && Member(evidence, groups, g, i) ==>
              evidence[i].score <= evidence[w.value].score
              && (i < w.value ==> evidence[i].score < evidence[w.value].score)
  {
    if n == 0 then None
    else
      var best := Winner(evidence, groups, g, n - 1);
      if Member(evidence, groups, g, n - 1)
         && (best.None? || evidence[n - 1].score > evidence[best.value].score)
      then Some(n - 1) else best
  }

  function Demoted(e: Evidence, groupId: string, winner: Evidence): Evidence {
    e.(score := 0.0, overlapNote := Some("same root"), overlapGroup := Some(groupId), overlapWinner := Some(winner.claim))
  }

  predicate Loses(evidence: seq<Evidence>, groups: seq<OverlapGroup>, i: nat)
    requires i < |evidence|
  {
    var g := GroupIndex(groups, evidence[i]);
    g.Some? && Winner(evidence, groups, g.value, |evidence|) != Some(i)
  }

  function Resulting(evidence: seq<Evidence>, groups: seq<OverlapGroup>, i: nat): Evidence
    requires i < |evidence|
  {
    var g := GroupIndex(groups, evidence[i]);
    if g.None? then evidence[i]
    else if Loses(evidence, groups, i) then
      assert Member(evidence, groups, g.value, i);
      Demoted(evidence[i], groups[g.value].groupId,
              evidence[Winner(evidence, groups, g.value, |evidence|).value])
    else evidence[i].(overlapGroup := Some(groups[g.value].groupId))
  }

  function Suppressed(evidence: seq<Evidence>, groups: seq<OverlapGroup>): (r: seq<Evidence>)
    ensures |r| == |evidence|
  {
    seq(|evidence|, i requires 0 <= i < |evidence| => Resulting(evidence, groups, i))
  }

  function Losers(evidence: seq<Evidence>, groups: seq<OverlapGroup>, n: nat): seq<Evidence>
    requires n <= |evidence|
  {
    if n == 0 then []
    else if Loses(evidence, groups, n - 1) then
      Losers(evidence, groups, n - 1) + [Resulting(evidence, groups, n - 1)]
    else Losers(evidence, groups, n - 1)
  }

  // ----- The code's loops -----

  method IndexGroups(groups: seq<OverlapGroup>) returns (groupOf: map<Family, nat>)
    ensures forall f :: f in groupOf <==> GroupOf(groups, f).Some?
    ensures forall f :: f in groupOf ==> Some(groupOf[f]) == GroupOf(groups, f)
  {
    groupOf := map[];
    var i := 0;
    while i < |groups|
      invariant 0 <= i <= |groups|
      invariant forall f :: f in groupOf <==> GroupOf(groups[..i], f).Some?
      invariant forall f :: f in groupOf ==> Some(groupOf[f]) == GroupOf(groups[..i], f)
    {
      ghost var before := groupOf;
      var k := 0;
      while k < |groups[i].families|
        invariant 0 <= k <= |groups[i].families|
        invariant forall f :: f in groupOf <==> f in before || f in groups[i].families[..k]
        invariant forall f :: f in groupOf ==>
                    groupOf[f] == if f in groups[i].families[..k] then i else before[f]
      {
        groupOf := groupOf[groups[i].families[k] := i];
        assert groups[i].families[..k + 1] == groups[i].families[..k] + [groups[i].families[k]];
        k := k + 1;
      }
      assert groups[i].families[..k] == groups[i].families;
      assert groups[..i + 1][..i] == groups[..i];
      i := i + 1;
    }
    assert groups[..i] == groups;
  }

  lemma IndexedGroup(groups: seq<OverlapGroup>, groupOf: map<Family, nat>, e: Evidence)
    requires forall f :: f in groupOf <==> GroupOf(groups, f).Some?
    requires forall f :: f in groupOf ==> Some(groupOf[f]) == GroupOf(groups, f)
    ensures var family := EvidenceFamily(e);
            GroupIndex(groups, e) == if family.Some? && family.value in groupOf then Some(groupOf[family.value]) else None
  {
  }

  lemma NoWinnerYet(evidence: seq<Evidence>, groups: seq<OverlapGroup>, g: nat)
    ensures Winner(evidence, groups, g, 0) == None
  {
  }

  /** The winner after one more item. */
  lemma WinnerStep(evidence: seq<Evidence>, groups: seq<OverlapGroup>, g: nat, n: nat)
    requires n < |evidence|
    ensures var best := Winner(evidence, groups, g, n);
            Winner(evidence, groups, g, n + 1) ==
              if GroupIndex(groups, evidence[n]) == Some(g)
                 && (best.None? || evidence[n].score > evidence[best.value].score)
              then Some(n) else best
  {
    hide GroupIndex;
  }

  /** The map holds the winner of group g among the first n items, if there is one. */
  predicate HoldsWinner(evidence: seq<Evidence>, groups: seq<OverlapGroup>, winners: map<nat, nat>, n: nat, g: nat)
    requires n <= |evidence|
  {
    if g in winners then Some(winners[g]) == Winner(evidence, groups, g, n) else Winner(evidence, groups, g, n).None?
  }

  ghost predicate HoldsWinners(evidence: seq<Evidence>, groups: seq<OverlapGroup>, winners: map<nat, nat>, n: nat)
    requires n <= |evidence|
  {
    forall g :: HoldsWinner(evidence, groups, winners, n, g)
  }

  lemma NoWinnersYet(evidence: seq<Evidence>, groups: seq<OverlapGroup>)
    ensures HoldsWinners(evidence, groups, map[], 0)
  {
    forall g ensures HoldsWinner(evidence, groups, map[], 0, g) {
      NoWinnerYet(evidence, groups, g);
    }
  }

  /** What one more item does to the map. */
  function WithItem(evidence: seq<Evidence>, group: Option<nat>, winners: map<nat, nat>, n: nat): map<nat, nat>
    requires n < |evidence|
    requires group.Some? && group.value in winners ==> winners[group.value] < |evidence|
  {
    if group.Some? && (group.value !in winners || evidence[n].score > evidence[winners[group.value]].score)
    then winners[group.value := n] else winners
  }

  lemma KnownWinner(evidence: seq<Evidence>, groups: seq<OverlapGroup>, winners: map<nat, nat>, n: nat, g: nat)
    requires n <= |evidence| && HoldsWinner(evidence, groups, winners, n, g) && g in winners
    ensures winners[g] < n
  {
    hide Member;
  }

  lemma HeldWinnerStep(evidence: seq<Evidence>, groups: seq<OverlapGroup>, winners: map<nat, nat>, n: nat, g: nat)
    requires n < |evidence| && HoldsWinner(evidence, groups, winners, n, g)
    requires var group := GroupIndex(groups, evidence[n]);
             group.Some? && group.value in winners ==> winners[group.value] < n
    ensures HoldsWinner(evidence, groups, WithItem(evidence, GroupIndex(groups, evidence[n]), winners, n), n + 1, g)
  {
    hide GroupIndex, Winner, Member;
    WinnerStep(evidence, groups, g, n);
  }

  lemma WinnersStep(evidence: seq<Evidence>, groups: seq<OverlapGroup>, winners: map<nat, nat>, n: nat)
    requires n < |evidence| && HoldsWinners(evidence, groups, winners, n)
    ensures var group := GroupIndex(groups, evidence[n]);
            && (group.Some? && group.value in winners ==> winners[group.value] < n)
            && HoldsWinners(evidence, groups, WithItem(evidence, group, winners, n), n + 1)
  {
    hide GroupIndex, HoldsWinner, WithItem;
    var group := GroupIndex(groups, evidence[n]);
    if group.Some? && group.value in winners {
      KnownWinner(evidence, groups, winners, n, group.value);
    }
    var updated, count := WithItem(evidence, group, winners, n), n + 1;
    forall g ensures HoldsWinner(evidence, groups, updated, count, g) {
      HeldWinnerStep(evidence, groups, winners, n, g);
    }
  }

  lemma AllWinnersHeld(evidence: seq<Evidence>, groups: seq<OverlapGroup>, winners: map<nat, nat>)
    requires HoldsWinners(evidence, groups, winners, |evidence|)
    ensures forall g :: g in winners <==> Winner(evidence, groups, g, |evidence|).Some?
    ensures forall g :: g in winners ==> Some(winners[g]) == Winner(evidence, groups, g, |evidence|)
  {
    hide Winner, Member;
    forall g | g in winners ensures Some(winners[g]) == Winner(evidence, groups, g, |evidence|) {
      assert HoldsWinner(evidence, groups, winners, |evidence|, g);
    }
    forall g: nat | Winner(evidence, groups, g, |evidence|).Some? ensures g in winners {
      assert HoldsWinner(evidence, groups, winners, |evidence|, g);
    }
  }

  method FindWinners(evidence: seq<Evidence>, groups: seq<OverlapGroup>, groupOf: map<Family, nat>)
      returns (winners: map<nat, nat>)
    requires forall f :: f in groupOf <==> GroupOf(groups, f).Some?
    requires forall f :: f in groupOf ==> Some(groupOf[f]) == GroupOf(groups, f)
    ensures forall g :: g in winners <==> Winner(evidence, groups, g, |evidence|).Some?
    ensures forall g :: g in winners ==> Some(winners[g]) == Winner(evidence, groups, g, |evidence|)
  {
    hide EvidenceFamily, GroupIndex, Winner, Member, HoldsWinners;
    winners := map[];
    NoWinnersYet(evidence, groups);
    var i := 0;
    while i < |evidence|
      invariant 0 <= i <= |evidence|
      invariant HoldsWinners(evidence, groups, winners, i)
    {
      IndexedGroup(groups, groupOf, evidence[i]);
      WinnersStep(evidence, groups, winners, i);
      var family := EvidenceFamily(evidence[i]);
      if family.Some? && family.value in groupOf {
        var g := groupOf[family.value];
        if g !in winners || evidence[i].score > evidence[winners[g]].score {
          winners := winners[g := i];
        }
      }
      i := i + 1;
    }
    AllWinnersHeld(evidence, groups, winners);
  }

  lemma ItemResult(evidence: seq<Evidence>, groups: seq<OverlapGroup>, winners: map<nat, nat>, i: nat)
    requires i < |evidence|
    requires forall g :: g in winners <==> Winner(evidence, groups, g, |evidence|).Some?
    requires forall g :: g in winners ==> Some(winners[g]) == Winner(evidence, groups, g, |evidence|)
    ensures var e, g := evidence[i], GroupIndex(groups, evidence[i]);
            if g.None? then !Loses(evidence, groups, i) && Resulting(evidence, groups, i) == e
            else
              && g.value in winners && winners[g.value] < |evidence|
              && (Loses(evidence, groups, i) <==> winners[g.value] != i)
              && Resulting(evidence, groups, i) ==
                   (if winners[g.value] != i then Demoted(e, groups[g.value].groupId, evidence[winners[g.value]])
                    else e.(overlapGroup := Some(groups[g.value].groupId)))
  {
    hide EvidenceFamily, GroupIndex;
    var g := GroupIndex(groups, evidence[i]);
    if g.Some? {
      assert Member(evidence, groups, g.value, i);
    }
  }

  lemma OneMoreResult(evidence: seq<Evidence>, groups: seq<OverlapGroup>, i: nat)
    requires i < |evidence|
    ensures Suppressed(evidence, groups)[..i + 1] == Suppressed(evidence, groups)[..i] + [Resulting(evidence, groups, i)]
  {
    hide Resulting;
  }

  method SuppressOverlaps(evidence: seq<Evidence>, groups: seq<OverlapGroup>)
      returns (result: seq<Evidence>, suppressed: seq<Evidence>)
    ensures result == Suppressed(evidence, groups)
    ensures suppressed == Losers(evidence, groups, |evidence|)
  {
    hide EvidenceFamily, GroupIndex, Winner, Resulting, Loses, Demoted, Suppressed;
    if groups == [] {
      NoGroups(evidence, |evidence|);
      return evidence, [];
    }
    var groupOf := IndexGroups(groups);
    var winners := FindWinners(evidence, groups, groupOf);
    result, suppressed := [], [];
    var i := 0;
    while i < |evidence|
      invariant 0 <= i <= |evidence|
      invariant result == Suppressed(evidence, groups)[..i]
      invariant suppressed == Losers(evidence, groups, i)
    {
      IndexedGroup(groups, groupOf, evidence[i]);
      ItemResult(evidence, groups, winners, i);
      var family := EvidenceFamily(evidence[i]);
      var item := evidence[i];
      if family.Some? && family.value in groupOf {
        var g := groupOf[family.value];
        if winners[g] != i {
          item := Demoted(item, groups[g].groupId, evidence[winners[g]]);
          suppressed := suppressed + [item];
        } else {
          item := item.(overlapGroup := Some(groups[g].groupId));
        }
      }
      OneMoreResult(evidence, groups, i);
      result := result + [item];
      i := i + 1;
    }
  }

  lemma {:induction false} NoGroups(evidence: seq<Evidence>, n: nat)
    requires n <= |evidence|
    ensures Suppressed(evidence, []) == evidence && Losers(evidence, [], n) == []
  {
    if n > 0 {
      NoGroups(evidence, n - 1);
    }
  }

  // ----- What remains of each group -----

  predicate NonNegative(evidence: seq<Evidence>) {
    forall i :: 0 <= i < |evidence| ==> evidence[i].score >= 0.0
  }

  /** Ungrouped items are untouched; in a group only the strongest can keep a positive score. */
  lemma OnlyTheStrongestCounts(evidence: seq<Evidence>, groups: seq<OverlapGroup>, i: nat)
    requires i < |evidence|
    ensures var r, g := Suppressed(evidence, groups)[i], GroupIndex(groups, evidence[i]);
            && GroupIndex(groups, r) == g
            && (g.None? ==> r == evidence[i])
            && (g.Some? && r.score > 0.0 ==>
                  r.score == evidence[i].score
                  && forall j :: 0 <= j < |evidence| && j != i && Member(evidence, groups, g.value, j) ==>
                       evidence[j].score <= r.score && Suppressed(evidence, groups)[j].score == 0.0)
  {
  }

  function Total(evidence: seq<Evidence>, n: nat): real
    requires n <= |evidence|
  {
    if n == 0 then 0.0 else Total(evidence, n - 1) + evidence[n - 1].score
  }

  function UngroupedTotal(evidence: seq<Evidence>, groups: seq<OverlapGroup>, n: nat): real
    requires n <= |evidence|
  {
    if n == 0 then 0.0
    else UngroupedTotal(evidence, groups, n - 1)
         + if GroupIndex(groups, evidence[n - 1]).None? then evidence[n - 1].score else 0.0
  }

  /** The winner's score of group g if it is among the first n items. */
  function Best(evidence: seq<Evidence>, groups: seq<OverlapGroup>, g: nat, n: nat): real
    requires n <= |evidence|
  {
    var w := Winner(evidence, groups, g, |evidence|);
    if w.Some? && w.value < n then evidence[w.value].score else 0.0
  }

  /** The sum of these over the first k groups. */
  function BestTotal(evidence: seq<Evidence>, groups: seq<OverlapGroup>, k: nat, n: nat): real
    requires n <= |evidence|
  {
    if k == 0 then 0.0
    else BestTotal(evidence, groups, k - 1, n) + Best(evidence, groups, k - 1, n)
  }

  lemma {:induction false} OneMoreItem(evidence: seq<Evidence>, groups: seq<OverlapGroup>, k: nat, n: nat)
    requires n < |evidence|
    ensures var g := GroupIndex(groups, evidence[n]);
            BestTotal(evidence, groups, k, n + 1) == BestTotal(evidence, groups, k, n)
              + if g.Some? && g.value < k && !Loses(evidence, groups, n) then evidence[n].score else 0.0
  {
    hide Winner, GroupIndex;
    if k > 0 {
      OneMoreItem(evidence, groups, k - 1, n);
      var w := Winner(evidence, groups, k - 1, |evidence|);
      if w == Some(n) {
        assert Member(evidence, groups, k - 1, n);
      }
    }
  }

  lemma {:induction false} NothingYet(evidence: seq<Evidence>, groups: seq<OverlapGroup>, k: nat)
    ensures BestTotal(evidence, groups, k, 0) == 0.0
  {
    if k > 0 {
      NothingYet(evidence, groups, k - 1);
    }
  }

  lemma {:induction false} PrefixTotal(evidence: seq<Evidence>, groups: seq<OverlapGroup>, n: nat)
    requires n <= |evidence|
    ensures Total(Suppressed(evidence, groups), n)
              == UngroupedTotal(evidence, groups, n) + BestTotal(evidence, groups, |groups|, n)
  {
    hide Winner, Loses, GroupIndex, Best;
    if n == 0 {
      NothingYet(evidence, groups, |groups|);
    } else {
      PrefixTotal(evidence, groups, n - 1);
      OneMoreItem(evidence, groups, |groups|, n - 1);
    }
  }

  /** The strongest score of a group, zero for a group without evidence. */
  ghost predicate IsBestOf(evidence: seq<Evidence>, groups: seq<OverlapGroup>, g: nat, best: real) {
    if exists i :: 0 <= i < |evidence| && Member(evidence, groups, g, i) then
      (exists i :: 0 <= i < |evidence| && Member(evidence, groups, g, i) && evidence[i].score == best)
      && forall i :: 0 <= i < |evidence| && Member(evidence, groups, g, i) ==> evidence[i].score <= best
    else best == 0.0
  }

  /** The total after suppression is the ungrouped total plus one strongest score per group. */
  lemma SuppressedTotal(evidence: seq<Evidence>, groups: seq<OverlapGroup>)
    ensures Total(Suppressed(evidence, groups), |evidence|)
              == UngroupedTotal(evidence, groups, |evidence|) + BestTotal(evidence, groups, |groups|, |evidence|)
    ensures forall g :: 0 <= g < |groups| ==> IsBestOf(evidence, groups, g, Best(evidence, groups, g, |evidence|))
  {
    PrefixTotal(evidence, groups, |evidence|);
    forall g | 0 <= g < |groups| ensures IsBestOf(evidence, groups, g, Best(evidence, groups, g, |evidence|)) {
      var w := Winner(evidence, groups, g, |evidence|);
      if w.Some? {
        assert Member(evidence, groups, g, w.value);
      }
    }
  }

  lemma SameWinner(evidence: seq<Evidence>, groups: seq<OverlapGroup>, g: nat)
    requires NonNegative(evidence)
    ensures var r, w := Suppressed(evidence, groups), Winner(evidence, groups, g, |evidence|);
            w.Some? && evidence[w.value].score > 0.0 ==> Winner(r, groups, g, |r|) == w
  {
    var r, w := Suppressed(evidence, groups), Winner(evidence, groups, g, |evidence|);
    if w.Some? && evidence[w.value].score > 0.0 {
      var again := Winner(r, groups, g, |r|);
      OnlyTheStrongestCounts(evidence, groups, w.value);
      assert Member(r, groups, g, w.value) && r[w.value].score > 0.0;
      OnlyTheStrongestCounts(evidence, groups, again.value);
      assert Member(evidence, groups, g, again.value);
    }
  }

  /** Suppressing twice changes no score. */
  lemma SuppressionIsIdempotent(evidence: seq<Evidence>, groups: seq<OverlapGroup>, i: nat)
    requires NonNegative(evidence) && i < |evidence|
    ensures var once := Suppressed(evidence, groups);
            Suppressed(once, groups)[i].score == once[i].score
  {
    var once := Suppressed(evidence, groups);
    OnlyTheStrongestCounts(evidence, groups, i);
    var g := GroupIndex(groups, evidence[i]);
    if g.Some? {
      SameWinner(evidence, groups, g.value);
      assert Member(evidence, groups, g.value, i);
    }
  }

  // ----- Which evidence is in a group, and what becomes of it -----

  /** Group g lists the family and no later group does. */
  ghost predicate ListedLast(groups: seq<OverlapGroup>, g: nat, f: Family) {
    && g < |groups| && f in groups[g].families
    && forall h :: g < h < |groups| ==> f !in groups[h].families
  }

  /** Sweeps, prize zones, levels and market events of a direction are the only evidence groups can list. */
  ghost predicate Belongs(groups: seq<OverlapGroup>, e: Evidence, g: nat) {
    && (e.direction == "long" || e.direction == "short")
    && (|| (e.engine == "liquidity" && ListedLast(groups, g, ("liquidity", "sweep", e.direction)))
        || (e.engine == "wyckoff" && !e.phaseClaim && ListedLast(groups, g, ("wyckoff", "event", e.direction)))
        || (e.engine == "harmonic" && ListedLast(groups, g, ("harmonic", "prz", e.direction)))
        || (e.engine == "level" && ListedLast(groups, g, ("levels", "level", e.direction))))
  }

  ghost predicate Grouped(groups: seq<OverlapGroup>, e: Evidence) {
    exists g :: Belongs(groups, e, g)
  }

  lemma {:induction false} LastListing(groups: seq<OverlapGroup>, f: Family, g: nat)
    ensures GroupOf(groups, f) == Some(g) <==> ListedLast(groups, g, f)
  {
    if groups != [] {
      var last := |groups| - 1;
      if f !in groups[last].families {
        LastListing(groups[..last], f, g);
        assert ListedLast(groups, g, f) <==> ListedLast(groups[..last], g, f) by {
          forall h | 0 <= h < last ensures groups[..last][h] == groups[h] {
          }
        }
      }
    }
  }

  lemma BelongsExactly(groups: seq<OverlapGroup>, e: Evidence, g: nat)
    ensures GroupIndex(groups, e) == Some(g) <==> Belongs(groups, e, g)
  {
    hide GroupOf, ListedLast;
    if EvidenceFamily(e).Some? {
      LastListing(groups, EvidenceFamily(e).value, g);
    }
  }

  /** Item w is the strongest of group g, and the earliest among equals. */
  ghost predicate Strongest(evidence: seq<Evidence>, groups: seq<OverlapGroup>, g: nat, w: nat) {
    && w < |evidence| && Belongs(groups, evidence[w], g)
    && forall i :: 0 <= i < |evidence| && Belongs(groups, evidence[i], g) ==>
         evidence[i].score <= evidence[w].score && (i < w ==> evidence[i].score < evidence[w].score)
  }

  lemma WinnerIsStrongest(evidence: seq<Evidence>, groups: seq<OverlapGroup>, g: nat, w: nat)
    ensures Winner(evidence, groups, g, |evidence|) == Some(w) <==> Strongest(evidence, groups, g, w)
  {
    hide GroupIndex, Belongs;
    forall i | 0 <= i < |evidence| ensures Member(evidence, groups, g, i) <==> Belongs(groups, evidence[i], g) {
      BelongsExactly(groups, evidence[i], g);
    }
    var best := Winner(evidence, groups, g, |evidence|);
    if best.Some? && Strongest(evidence, groups, g, w) {
      assert Belongs(groups, evidence[best.value], g);
    }
  }

  /** What becomes of one item: outside every group it comes back unchanged; the strongest of a group keeps
      its score and is labelled; every other member is set to zero and names group and winner. */
  lemma FateExactly(evidence: seq<Evidence>, groups: seq<OverlapGroup>, i: nat, g: nat, w: nat)
    requires i < |evidence|
    ensures !Grouped(groups, evidence[i]) ==> Suppressed(evidence, groups)[i] == evidence[i]
    ensures Belongs(groups, evidence[i], g) && Strongest(evidence, groups, g, w) ==>
              var r, tag := Suppressed(evidence, groups)[i], Some(groups[g].groupId);
              r == if i == w then evidence[i].(overlapGroup := tag)
                   else evidence[i].(score := 0.0, overlapNote := Some("same root"), overlapGroup := tag,
                                     overlapWinner := Some(evidence[w].claim))
  {
    hide GroupIndex, Belongs, Strongest, Winner;
    var own := GroupIndex(groups, evidence[i]);
    if own.Some? {
      BelongsExactly(groups, evidence[i], own.value);
    }
    BelongsExactly(groups, evidence[i], g);
    WinnerIsStrongest(evidence, groups, g, w);
  }

  lemma BelongsToAtMostOne(groups: seq<OverlapGroup>, e: Evidence, g: nat, h: nat)
    requires Belongs(groups, e, g) && Belongs(groups, e, h)
    ensures g == h
  {
    hide Belongs, GroupIndex;
    BelongsExactly(groups, e, g);
    BelongsExactly(groups, e, h);
  }

  /** A group with evidence has a strongest item, so every grouped item has a fate. */
  lemma StrongestExists(evidence: seq<Evidence>, groups: seq<OverlapGroup>, g: nat, i: nat) returns (w: nat)
    requires i < |evidence| && Belongs(groups, evidence[i], g)
    ensures Strongest(evidence, groups, g, w)
  {
    hide Belongs, GroupIndex, Strongest;
    BelongsExactly(groups, evidence[i], g);
    assert Member(evidence, groups, g, i);
    w := Winner(evidence, groups, g, |evidence|).value;
    WinnerIsStrongest(evidence, groups, g, w);
  }

  /** Where the suppressed items were, in ascending order. */
  function LoserPlaces(evidence: seq<Evidence>, groups: seq<OverlapGroup>, n: nat): (places: seq<nat>)
    requires n <= |evidence|
    ensures forall k :: 0 <= k < |places| ==> places[k] < n && Loses(evidence, groups, places[k])
    ensures forall j, k :: 0 <= j < k < |places| ==> places[j] < places[k]
    ensures forall i :: 0 <= i < n && Loses(evidence, groups, i) ==> i in places
  {
    if n == 0 then []
    else LoserPlaces(evidence, groups, n - 1) + if Loses(evidence, groups, n - 1) then [n - 1] else []
  }

  lemma {:induction false} LosersInOrder(evidence: seq<Evidence>, groups: seq<OverlapGroup>, n: nat)
    requires n <= |evidence|
    ensures |Losers(evidence, groups, n)| == |LoserPlaces(evidence, groups, n)|
    ensures forall k :: 0 <= k < |LoserPlaces(evidence, groups, n)| ==>
              Losers(evidence, groups, n)[k] == Suppressed(evidence, groups)[LoserPlaces(evidence, groups, n)[k]]
  {
    hide Loses, Resulting;
    if n > 0 {
      LosersInOrder(evidence, groups, n - 1);
    }
  }

  /** The second list holds the demoted items exactly as they stand in the first, in its order: an item is
      listed iff it belongs to a group and is not that group's strongest. */
  lemma SuppressedListExactly(evidence: seq<Evidence>, groups: seq<OverlapGroup>) returns (places: seq<nat>)
    ensures |Losers(evidence, groups, |evidence|)| == |places|
    ensures forall j, k :: 0 <= j < k < |places| ==> places[j] < places[k]
    ensures forall k :: 0 <= k < |places| ==>
              places[k] < |evidence| && Losers(evidence, groups, |evidence|)[k] == Suppressed(evidence, groups)[places[k]]
    ensures forall i, g :: 0 <= i < |evidence| && Belongs(groups, evidence[i], g) ==>
              (i in places <==> !Strongest(evidence, groups, g, i))
    ensures forall k :: 0 <= k < |places| ==> Grouped(groups, evidence[places[k]])
  {
    places := LoserPlaces(evidence, groups, |evidence|);
    LosersInOrder(evidence, groups, |evidence|);
    forall i, g | 0 <= i < |evidence| && Belongs(groups, evidence[i], g)
      ensures i in places <==> !Strongest(evidence, groups, g, i)
    {
      BelongsExactly(groups, evidence[i], g);
      WinnerIsStrongest(evidence, groups, g, i);
    }
    forall k | 0 <= k < |places| ensures Grouped(groups, evidence[places[k]]) {
      var own := GroupIndex(groups, evidence[places[k]]);
      BelongsExactly(groups, evidence[places[k]], own.value);
    }
  }
}
