// What the matching of array elements promises (`pick`, indexer/src/config.rs).
module PickFacts {
  import opened Base
  import opened Trees
  import opened Pick

  ghost predicate InRange(oa: seq<Tree>, picks: seq<Option<nat>>) {
    forall j :: 0 <= j < |picks| && picks[j].Some? ==> picks[j].value < |oa|
  }

  ghost predicate NeverTwice(picks: seq<Option<nat>>) {
    forall j, k :: 0 <= j < k < |picks| && picks[j].Some? && picks[k].Some? ==> picks[j].value != picks[k].value
  }

  ghost predicate Picked(picks: seq<Option<nat>>, i: nat) { exists j :: 0 <= j < |picks| && picks[j] == Some(i) }

  // ---------------------------------------------------------------------
  // First pass.

  lemma {:induction false} ExactSound(oa: seq<Tree>, na: seq<Tree>, j: nat)
    requires j <= |na|
    ensures var p := Exact(oa, na, j);
            |p.picks| == j && InRange(oa, p.picks) && NeverTwice(p.picks) &&
            (forall i :: i in p.used <==> Picked(p.picks, i)) &&
            (forall k :: 0 <= k < j && p.picks[k].Some? ==> oa[p.picks[k].value] == na[k])
  {
    hide FirstUnused;
    if j == 0 {
      NothingPicked(oa);
    } else {
      ExactSound(oa, na, j - 1);
      var p := Exact(oa, na, j - 1);
      FirstUnusedMeans(oa, p.used, na[j - 1], 0);
      OneMorePick(p.picks, FirstUnused(oa, p.used, na[j - 1], 0));
    }
  }

  lemma OneMorePick(picks: seq<Option<nat>>, pick: Option<nat>)
    ensures forall i: nat :: Picked(picks + [pick], i) <==> Picked(picks, i) || pick == Some(i)
  {
    var more := picks + [pick];
    forall i: nat ensures Picked(more, i) <==> Picked(picks, i) || pick == Some(i) {
      if Picked(picks, i) {
        var j :| 0 <= j < |picks| && picks[j] == Some(i);
        assert more[j] == Some(i);
      }
      if pick == Some(i) { assert more[|picks|] == Some(i); }
    }
  }

  /** How many of the first `n` old elements are `x` and used. */
  function UsedCount(oa: seq<Tree>, used: set<nat>, x: Tree, n: nat): nat
    requires n <= |oa|
  {
    if n == 0 then 0
    else UsedCount(oa, used, x, n - 1) + (if n - 1 in used && oa[n - 1] == x then 1 else 0)
  }

  lemma {:induction false} UseOneMore(oa: seq<Tree>, used: set<nat>, i: nat, x: Tree, n: nat)
    requires n <= |oa| && i < |oa| && i !in used
    ensures UsedCount(oa, used + {i}, x, n) == UsedCount(oa, used, x, n) + (if i < n && oa[i] == x then 1 else 0)
  {
    if n > 0 { UseOneMore(oa, used, i, x, n - 1); }
  }

  lemma {:induction false} UsedAtMost(oa: seq<Tree>, used: set<nat>, x: Tree, n: nat)
    requires n <= |oa|
    ensures UsedCount(oa, used, x, n) <= multiset(oa[..n])[x]
    ensures UsedCount(oa, used, x, n) == multiset(oa[..n])[x] <==>
            forall i :: 0 <= i < n && oa[i] == x ==> i in used
  {
    if n > 0 {
      UsedAtMost(oa, used, x, n - 1);
      assert oa[..n] == oa[..n - 1] + [oa[n - 1]];
    }
  }

  lemma {:induction false} NoneUsed(oa: seq<Tree>, x: Tree, n: nat)
    requires n <= |oa|
    ensures UsedCount(oa, {}, x, n) == 0
  {
    if n > 0 { NoneUsed(oa, x, n - 1); }
  }

  function Min(a: nat, b: nat): nat { if a < b then a else b }

  /** After `j` new elements, as many old `x` are used as both lists hold. */
  lemma {:induction false} UsedIsIntersection(oa: seq<Tree>, na: seq<Tree>, x: Tree, j: nat)
    requires j <= |na|
    ensures UsedCount(oa, Exact(oa, na, j).used, x, |oa|) == Min(multiset(oa)[x], multiset(na[..j])[x])
  {
    hide FirstUnused;
    if j == 0 {
      NoneUsed(oa, x, |oa|);
    } else {
      UsedIsIntersection(oa, na, x, j - 1);
      var p := Exact(oa, na, j - 1);
      assert na[..j] == na[..j - 1] + [na[j - 1]];
      assert oa[..|oa|] == oa;
      FirstUnusedMeans(oa, p.used, na[j - 1], 0);
      UsedAtMost(oa, p.used, x, |oa|);
      var pick := FirstUnused(oa, p.used, na[j - 1], 0);
      if pick.Some? {
        UseOneMore(oa, p.used, pick.value, x, |oa|);
        UsedAtMost(oa, p.used + {pick.value}, x, |oa|);
      }
    }
  }

  /** How many picks were made. */
  function Made(picks: seq<Option<nat>>): nat {
    if picks == [] then 0 else Made(picks[..|picks| - 1]) + (if picks[|picks| - 1].Some? then 1 else 0)
  }

  /** The new elements picked for, as a multiset. */
  function Matched(na: seq<Tree>, picks: seq<Option<nat>>): multiset<Tree>
    requires |picks| <= |na|
  {
    if picks == [] then multiset{}
    else
      var n := |picks| - 1;
      Matched(na, picks[..n]) + (if picks[n].Some? then multiset{na[n]} else multiset{})
  }

  lemma {:induction false} MatchedSize(na: seq<Tree>, picks: seq<Option<nat>>)
    requires |picks| <= |na|
    ensures |Matched(na, picks)| == Made(picks)
  {
    if picks != [] { MatchedSize(na, picks[..|picks| - 1]); }
  }

  lemma {:induction false} MatchedIsUsed(oa: seq<Tree>, na: seq<Tree>, x: Tree, j: nat)
    requires j <= |na|
    ensures |Exact(oa, na, j).picks| == j &&
            Matched(na, Exact(oa, na, j).picks)[x] == UsedCount(oa, Exact(oa, na, j).used, x, |oa|)
  {
    hide FirstUnused;
    if j == 0 {
      NoneUsed(oa, x, |oa|);
    } else {
      MatchedIsUsed(oa, na, x, j - 1);
      var p := Exact(oa, na, j - 1);
      var pick := FirstUnused(oa, p.used, na[j - 1], 0);
      FirstUnusedMeans(oa, p.used, na[j - 1], 0);
      assert Take(p, pick).picks[..j - 1] == p.picks;
      if pick.Some? { UseOneMore(oa, p.used, pick.value, x, |oa|); }
    }
  }

  /** The first pass matches as many elements as the two lists have in common,
      counted with multiplicity. */
  lemma ExactPassIsIntersection(oa: seq<Tree>, na: seq<Tree>)
    ensures var p := Exact(oa, na, |na|);
            |p.picks| == |na| && Matched(na, p.picks) == multiset(oa) * multiset(na) &&
            Made(p.picks) == |multiset(oa) * multiset(na)|
  {
    var p := Exact(oa, na, |na|);
    ExactLength(oa, na, |na|);
    forall x ensures Matched(na, p.picks)[x] == (multiset(oa) * multiset(na))[x] {
      MatchedIsUsed(oa, na, x, |na|);
      UsedIsIntersection(oa, na, x, |na|);
      assert na[..|na|] == na;
    }
    MatchedSize(na, p.picks);
    assert Matched(na, p.picks) == multiset(oa) * multiset(na);
  }

  lemma {:induction false} UsedGrows(oa: seq<Tree>, na: seq<Tree>, j: nat, k: nat)
    requires j <= k <= |na|
    ensures Exact(oa, na, j).used <= Exact(oa, na, k).used
    decreases k
  {
    hide FirstUnused;
    if j < k { UsedGrows(oa, na, j, k - 1); }
  }

  lemma {:induction false} ExactPicksStay(oa: seq<Tree>, na: seq<Tree>, j: nat, k: nat)
    requires j <= k <= |na|
    ensures |Exact(oa, na, j).picks| == j && |Exact(oa, na, k).picks| == k
    ensures Exact(oa, na, k).picks[..j] == Exact(oa, na, j).picks
    decreases k
  {
    hide FirstUnused;
    ExactLength(oa, na, j);
    ExactLength(oa, na, k);
    if j < k { ExactPicksStay(oa, na, j, k - 1); }
  }

  /** An element the first pass left out has no equal left unused. */
  lemma LeftOutHasNoEqual(oa: seq<Tree>, na: seq<Tree>, j: nat)
    requires j < |na| && |Exact(oa, na, |na|).picks| == |na| && Exact(oa, na, |na|).picks[j].None?
    ensures forall i :: 0 <= i < |oa| && oa[i] == na[j] ==> i in Exact(oa, na, |na|).used
  {
    ExactPicksStay(oa, na, j + 1, |na|);
    ExactLength(oa, na, j);
    var p := Exact(oa, na, j);
    assert Exact(oa, na, |na|).picks[..j + 1][j].None?;
    assert FirstUnused(oa, p.used, na[j], 0).None?;
    FirstUnusedMeans(oa, p.used, na[j], 0);
    UsedGrows(oa, na, j, |na|);
  }

  // ---------------------------------------------------------------------
  // Second pass.

  ghost predicate IsBest(oa: seq<Tree>, used: set<nat>, id: string, x: Tree, from: nat, k: nat) {
    from <= k < |oa| && Candidate(oa, used, id, k) &&
    forall i :: from <= i < |oa| && Candidate(oa, used, id, i) ==>
      SharedValues(oa[i], x) <= SharedValues(oa[k], x) && (SharedValues(oa[i], x) == SharedValues(oa[k], x) ==> k <= i)
  }

  lemma {:induction false} BestFromMeans(oa: seq<Tree>, used: set<nat>, id: string, x: Tree, i: nat)
    requires i <= |oa|
    ensures match BestFrom(oa, used, id, x, i)
            case Some(k) => IsBest(oa, used, id, x, i, k)
            case None => forall l :: i <= l < |oa| ==> !Candidate(oa, used, id, l)
    decreases |oa| - i
  {
    hide SharedValues, Identity;
    if i < |oa| { BestFromMeans(oa, used, id, x, i + 1); }
  }

  /** What holds after `j` steps of the second pass. */
  ghost predicate SecondSound(oa: seq<Tree>, na: seq<Tree>, first: Picking, p: Picking, j: nat) {
    j <= |na| == |first.picks| && |p.picks| == j && InRange(oa, p.picks) && NeverTwice(p.picks) &&
    (forall i :: i in p.used <==> i in first.used || Picked(p.picks, i)) &&
    (forall k :: 0 <= k < j && first.picks[k].Some? ==> p.picks[k] == first.picks[k]) &&
    (forall k :: 0 <= k < j && first.picks[k].None? && p.picks[k].Some? ==> p.picks[k].value !in first.used)
  }

  lemma SecondStep(oa: seq<Tree>, na: seq<Tree>, first: Picking, p: Picking, j: nat,
                   pick: Option<nat>)
    requires SecondSound(oa, na, first, p, j) && j < |na|
    requires InRange(oa, first.picks) && NeverTwice(first.picks)
    requires forall k :: 0 <= k < |first.picks| && first.picks[k].Some? ==> first.picks[k].value in first.used
    requires if first.picks[j].Some? then pick == first.picks[j]
             else pick.Some? ==> pick.value < |oa| && pick.value !in p.used
    ensures SecondSound(oa, na, first, Take(p, pick), j + 1)
  {
    OneMorePick(p.picks, pick);
    var q := Take(p, pick);
    forall a, b | 0 <= a < b < |q.picks| && q.picks[a].Some? && q.picks[b].Some?
        ensures q.picks[a].value != q.picks[b].value {
      if b == j {
        assert Picked(p.picks, p.picks[a].value);
        if first.picks[j].Some? && first.picks[a].Some? { assert p.picks[a] == first.picks[a]; }
      }
    }
  }

  lemma {:induction false} ByIdSound(oa: seq<Tree>, na: seq<Tree>, j: nat)
    requires j <= |na| && |Exact(oa, na, |na|).picks| == |na|
    ensures SecondSound(oa, na, Exact(oa, na, |na|), ById(oa, na, Exact(oa, na, |na|), j), j)
  {
    hide Exact, BestFrom, NeverTwice, InRange, Candidate;
    var first := Exact(oa, na, |na|);
    ExactSound(oa, na, |na|);
    if j == 0 {
      NothingPicked(oa);
    } else {
      ByIdSound(oa, na, j - 1);
      var p := ById(oa, na, first, j - 1);
      var pick := SecondPick(oa, p.used, na[j - 1], first.picks[j - 1]);
      if first.picks[j - 1].None? { SecondPickUnused(oa, p.used, na[j - 1]); }
      FirstArePicked(first.picks, first.used);
      SecondStep(oa, na, first, p, j - 1, pick);
    }
  }

  lemma NothingPicked(oa: seq<Tree>)
    ensures InRange(oa, []) && NeverTwice([]) && forall i :: !Picked([], i)
  {
  }

  lemma FirstArePicked(picks: seq<Option<nat>>, used: set<nat>)
    requires forall i :: i in used <==> Picked(picks, i)
    ensures forall k :: 0 <= k < |picks| && picks[k].Some? ==> picks[k].value in used
  {
    forall k | 0 <= k < |picks| && picks[k].Some? ensures picks[k].value in used {
      assert Picked(picks, picks[k].value);
    }
  }

  lemma SecondPickUnused(oa: seq<Tree>, used: set<nat>, x: Tree)
    ensures SecondPick(oa, used, x, None).Some? ==>
            SecondPick(oa, used, x, None).value < |oa| && SecondPick(oa, used, x, None).value !in used
  {
    hide SharedValues, Identity;
    if Identity(x).Some? { BestFromMeans(oa, used, Identity(x).value, x, 0); }
  }

  lemma {:induction false} ByIdStays(oa: seq<Tree>, na: seq<Tree>, first: Picking, j: nat, k: nat)
    requires j <= k <= |na| == |first.picks|
    ensures |ById(oa, na, first, j).picks| == j && |ById(oa, na, first, k).picks| == k
    ensures ById(oa, na, first, k).picks[..j] == ById(oa, na, first, j).picks
    decreases k
  {
    hide SecondPick;
    ByIdLength(oa, na, first, j);
    ByIdLength(oa, na, first, k);
    if j < k { ByIdStays(oa, na, first, j, k - 1); }
  }

  // ---------------------------------------------------------------------
  // Main results.

  /** No old element is picked twice, and every pick is one. */
  lemma PicksAreInjective(oa: seq<Tree>, na: seq<Tree>)
    ensures InRange(oa, Picks(oa, na)) && NeverTwice(Picks(oa, na))
  {
    hide Exact, ById;
    ExactLength(oa, na, |na|);
    ByIdSound(oa, na, |na|);
  }

  /** The picks whose old element is the new one, unchanged. */
  function Unchanged(oa: seq<Tree>, na: seq<Tree>, picks: seq<Option<nat>>): seq<Option<nat>>
    requires |picks| == |na| && InRange(oa, picks)
  {
    seq(|na|, j requires 0 <= j < |na| => if picks[j].Some? && oa[picks[j].value] == na[j] then picks[j] else None)
  }

  /** The unchanged elements are the first pass's. */
  lemma UnchangedAreFirst(oa: seq<Tree>, na: seq<Tree>)
    ensures InRange(oa, Picks(oa, na)) && Unchanged(oa, na, Picks(oa, na)) == Exact(oa, na, |na|).picks
  {
    hide Exact, ById;
    ExactLength(oa, na, |na|);
    ExactSound(oa, na, |na|);
    ByIdSound(oa, na, |na|);
    var first, picks := Exact(oa, na, |na|), Picks(oa, na);
    forall j | 0 <= j < |na| ensures Unchanged(oa, na, picks)[j] == first.picks[j] {
      if first.picks[j].None? { LeftOutHasNoEqual(oa, na, j); }
    }
  }

  /** Elements matched unchanged are as many as the old and the new list have
      in common, counted with multiplicity. */
  lemma UnchangedAreAllInCommon(oa: seq<Tree>, na: seq<Tree>)
    ensures InRange(oa, Picks(oa, na))
    ensures Made(Unchanged(oa, na, Picks(oa, na))) == |multiset(oa) * multiset(na)|
    ensures Matched(na, Unchanged(oa, na, Picks(oa, na))) == multiset(oa) * multiset(na)
  {
    hide Exact, Picks, Made, Matched, Unchanged;
    UnchangedAreFirst(oa, na);
    ExactPassIsIntersection(oa, na);
  }

  /** Old element `i` was there to be taken when new element `j` was looked at
      by identity: no new element continues it unchanged, and no earlier one
      took it. */
  ghost predicate FreeFor(oa: seq<Tree>, na: seq<Tree>, picks: seq<Option<nat>>, j: nat, i: nat)
    requires |picks| == |na| && i < |oa|
  {
    forall k :: 0 <= k < |na| && picks[k] == Some(i) ==> j <= k && oa[i] != na[k]
  }

  lemma FreeIsUnused(oa: seq<Tree>, na: seq<Tree>, j: nat, i: nat)
    requires j < |na| && i < |oa| && |Exact(oa, na, |na|).picks| == |na|
    ensures i in ById(oa, na, Exact(oa, na, |na|), j).used ==> !FreeFor(oa, na, Picks(oa, na), j, i)
  {
    hide Exact, ById, BestFrom;
    var first, picks := Exact(oa, na, |na|), Picks(oa, na);
    ExactSound(oa, na, |na|);
    ByIdSound(oa, na, j);
    ByIdSound(oa, na, |na|);
    ByIdStays(oa, na, first, j, |na|);
    var p := ById(oa, na, first, j);
    if i in p.used {
      if i in first.used {
        var k :| 0 <= k < |first.picks| && first.picks[k] == Some(i);
        assert picks[k] == Some(i) && oa[i] == na[k];
      } else {
        var k :| 0 <= k < |p.picks| && p.picks[k] == Some(i);
        assert picks[..j][k] == Some(i);
      }
    }
  }

  lemma SecondPickAt(oa: seq<Tree>, na: seq<Tree>, j: nat)
    requires j < |na| && |Exact(oa, na, |na|).picks| == |na| && Exact(oa, na, |na|).picks[j].None?
    ensures Picks(oa, na)[j] == SecondPick(oa, ById(oa, na, Exact(oa, na, |na|), j).used, na[j], None)
  {
    hide Exact, SecondPick;
    var first := Exact(oa, na, |na|);
    ByIdStays(oa, na, first, j + 1, |na|);
    ByIdLength(oa, na, first, j);
    assert Picks(oa, na)[..j + 1][j] == ById(oa, na, first, j + 1).picks[j];
  }

  /** Any other match shares its element's identity, and of the old elements
      of that identity still free it holds most of the same values, the
      earliest on a tie. */
  lemma OtherPicksAreBest(oa: seq<Tree>, na: seq<Tree>, j: nat)
    requires j < |na| && Picks(oa, na)[j].Some?
    ensures var picks := Picks(oa, na);
            var i := picks[j].value;
            i < |oa| &&
            (oa[i] != na[j] ==>
               Identity(na[j]).Some? && Identity(oa[i]) == Identity(na[j]) &&
               forall k :: 0 <= k < |oa| && Identity(oa[k]) == Identity(na[j]) && FreeFor(oa, na, picks, j, k) ==>
                 SharedValues(oa[k], na[j]) <= SharedValues(oa[i], na[j]) &&
                 (SharedValues(oa[k], na[j]) == SharedValues(oa[i], na[j]) ==> i <= k))
  {
    hide Exact, ById, BestFrom, SharedValues, Identity, FreeFor, Picks;
    PicksAreInjective(oa, na);
    ExactLength(oa, na, |na|);
    ExactSound(oa, na, |na|);
    UnchangedAreFirst(oa, na);
    var first, picks := Exact(oa, na, |na|), Picks(oa, na);
    var i := picks[j].value;
    if oa[i] != na[j] {
      assert Unchanged(oa, na, picks)[j].None?;
      SecondPickAt(oa, na, j);
      var used := ById(oa, na, first, j).used;
      BestFromMeans(oa, used, Identity(na[j]).value, na[j], 0);
      forall k | 0 <= k < |oa| && FreeFor(oa, na, picks, j, k) ensures k !in used { FreeIsUnused(oa, na, j, k); }
    }
  }

  /** A new element with no match has no old one of its identity left over. */
  lemma NoneIsMissed(oa: seq<Tree>, na: seq<Tree>, j: nat)
    requires j < |na| && Picks(oa, na)[j].None? && Identity(na[j]).Some?
    ensures forall i :: 0 <= i < |oa| && Identity(oa[i]) == Identity(na[j]) ==> Picked(Picks(oa, na), i)
  {
    hide Exact, ById, BestFrom, SharedValues, Identity, Picks;
    ExactLength(oa, na, |na|);
    ExactSound(oa, na, |na|);
    UnchangedAreFirst(oa, na);
    var first, picks := Exact(oa, na, |na|), Picks(oa, na);
    PicksAre(oa, na);
    ByIdSound(oa, na, |na|);
    SecondPickAt(oa, na, j);
    var used := ById(oa, na, first, j).used;
    BestFromMeans(oa, used, Identity(na[j]).value, na[j], 0);
    UsedStays(oa, na, j);
    FirstStayPicked(first.picks, picks);
    forall i: nat | i < |oa| && Identity(oa[i]) == Identity(na[j]) ensures Picked(picks, i) {
      assert !Candidate(oa, used, Identity(na[j]).value, i);
      assert i in ById(oa, na, first, |na|).used;
    }
  }

  lemma PicksAre(oa: seq<Tree>, na: seq<Tree>)
    ensures |Exact(oa, na, |na|).picks| == |na|
    ensures Picks(oa, na) == ById(oa, na, Exact(oa, na, |na|), |na|).picks
  {
    ExactLength(oa, na, |na|);
  }

  lemma {:induction false} UsedKept(oa: seq<Tree>, na: seq<Tree>, first: Picking, j: nat, k: nat)
    requires j <= k <= |na| == |first.picks|
    ensures ById(oa, na, first, j).used <= ById(oa, na, first, k).used
    decreases k
  {
    hide SecondPick;
    if j < k { UsedKept(oa, na, first, j, k - 1); }
  }

  lemma UsedStays(oa: seq<Tree>, na: seq<Tree>, j: nat)
    requires j <= |na| && |Exact(oa, na, |na|).picks| == |na|
    ensures ById(oa, na, Exact(oa, na, |na|), j).used <= ById(oa, na, Exact(oa, na, |na|), |na|).used
  {
    UsedKept(oa, na, Exact(oa, na, |na|), j, |na|);
  }

  lemma FirstStayPicked(first: seq<Option<nat>>, picks: seq<Option<nat>>)
    requires |first| == |picks| && forall k :: 0 <= k < |first| && first[k].Some? ==> picks[k] == first[k]
    ensures forall i: nat :: Picked(first, i) ==> Picked(picks, i)
  {
    forall i: nat | Picked(first, i) ensures Picked(picks, i) {
      var k :| 0 <= k < |first| && first[k] == Some(i);
      assert picks[k] == Some(i);
    }
  }

  ghost predicate UniqueIdentities(a: seq<Tree>) {
    (forall i :: 0 <= i < |a| ==> Identity(a[i]).Some?) &&
    forall i, k :: 0 <= i < k < |a| ==> Identity(a[i]) != Identity(a[k])
  }

  lemma PickSharesIdentity(oa: seq<Tree>, na: seq<Tree>, j: nat)
    requires j < |na| && Picks(oa, na)[j].Some?
    ensures Picks(oa, na)[j].value < |oa| &&
            (Identity(na[j]).Some? ==> Identity(oa[Picks(oa, na)[j].value]) == Identity(na[j]))
  {
    hide Picks, Identity, SharedValues, FreeFor;
    OtherPicksAreBest(oa, na, j);
  }

  /** Where identities are unique in both lists, elements are matched exactly
      by identity, however they were reordered or changed. */
  lemma MatchedByIdentity(oa: seq<Tree>, na: seq<Tree>, i: nat, j: nat)
    requires UniqueIdentities(oa) && UniqueIdentities(na) && i < |oa| && j < |na|
    ensures Picks(oa, na)[j] == Some(i) <==> Identity(oa[i]) == Identity(na[j])
  {
    hide Picks, Identity;
    var picks := Picks(oa, na);
    if picks[j].Some? {
      PickSharesIdentity(oa, na, j);
    } else if Identity(oa[i]) == Identity(na[j]) {
      NoneIsMissed(oa, na, j);
      var k :| 0 <= k < |picks| && picks[k] == Some(i);
      PickSharesIdentity(oa, na, k);
      assert false;
    }
  }
}
