// Which old array element each new one continues
// (`pick`, indexer/src/config.rs).
module Pick {
  import opened Base
  import opened Trees

  /** Old elements taken so far, and what each new element got. */
  datatype Picking = Picking(used: set<nat>, picks: seq<Option<nat>>)

  // ---------------------------------------------------------------------
  // First pass: unchanged content.

  function FirstUnused(oa: seq<Tree>, used: set<nat>, x: Tree, i: nat): Option<nat>
    requires i <= |oa|
    decreases |oa| - i
  {
    if i == |oa| then None
    else if i !in used && oa[i] == x then Some(i)
    else FirstUnused(oa, used, x, i + 1)
  }

  function Take(p: Picking, pick: Option<nat>): Picking {
    Picking(if pick.Some? then p.used + {pick.value} else p.used, p.picks + [pick])
  }

  function Exact(oa: seq<Tree>, na: seq<Tree>, j: nat): Picking
    requires j <= |na|
  {
    if j == 0 then Picking({}, [])
    else
      var p := Exact(oa, na, j - 1);
      Take(p, FirstUnused(oa, p.used, na[j - 1], 0))
  }

  // ---------------------------------------------------------------------
  // Second pass: identity.

  predicate Candidate(oa: seq<Tree>, used: set<nat>, id: string, i: nat)
    requires i < |oa|
  {
    i !in used && Identity(oa[i]) == Some(id)
  }

  /** The best from `i` on, walking down: a later index gives way to an equal
      earlier one. */
  function BestFrom(oa: seq<Tree>, used: set<nat>, id: string, x: Tree, i: nat): (r: Option<nat>)
    requires i <= |oa|
    ensures r.Some? ==> i <= r.value < |oa|
    decreases |oa| - i
  {
    if i == |oa| then None
    else
      var later := BestFrom(oa, used, id, x, i + 1);
      if Candidate(oa, used, id, i) && (later.None? || SharedValues(oa[later.value], x) <= SharedValues(oa[i], x))
      then Some(i) else later
  }

  function SecondPick(oa: seq<Tree>, used: set<nat>, x: Tree, first: Option<nat>): Option<nat> {
    if first.Some? then first
    else match Identity(x)
      case None => None
      case Some(id) => BestFrom(oa, used, id, x, 0)
  }

  function ById(oa: seq<Tree>, na: seq<Tree>, first: Picking, j: nat): Picking
    requires j <= |na| == |first.picks|
  {
    if j == 0 then Picking(first.used, [])
    else
      var p := ById(oa, na, first, j - 1);
      Take(p, SecondPick(oa, p.used, na[j - 1], first.picks[j - 1]))
  }

  lemma {:induction false} ExactLength(oa: seq<Tree>, na: seq<Tree>, j: nat)
    requires j <= |na|
    ensures |Exact(oa, na, j).picks| == j
  {
    if j > 0 { ExactLength(oa, na, j - 1); }
  }

  lemma {:induction false} ByIdLength(oa: seq<Tree>, na: seq<Tree>, first: Picking, j: nat)
    requires j <= |na| == |first.picks|
    ensures |ById(oa, na, first, j).picks| == j
  {
    if j > 0 { ByIdLength(oa, na, first, j - 1); }
  }

  function Picks(oa: seq<Tree>, na: seq<Tree>): (picks: seq<Option<nat>>)
    ensures |picks| == |na|
  {
    ExactLength(oa, na, |na|);
    ByIdLength(oa, na, Exact(oa, na, |na|), |na|);
    ById(oa, na, Exact(oa, na, |na|), |na|).picks
  }

  // ---------------------------------------------------------------------
  // The program's loops.

  method FindUnused(oa: seq<Tree>, used: seq<bool>, x: Tree) returns (r: Option<nat>)
    requires |used| == |oa|
    ensures r == FirstUnused(oa, Used(used), x, 0)
  {
    for i := 0 to |oa|
      invariant FirstUnused(oa, Used(used), x, 0) == FirstUnused(oa, Used(used), x, i)
    {
      if !used[i] && oa[i] == x { return Some(i); }
    }
    return None;
  }

  ghost function Used(used: seq<bool>): set<nat> { set i: nat | i < |used| && used[i] }

  method FindBest(oa: seq<Tree>, used: seq<bool>, id: string, x: Tree) returns (best: Option<nat>)
    requires |used| == |oa|
    ensures best == BestFrom(oa, Used(used), id, x, 0)
  {
    hide SharedValues, Identity;
    best := None;
    for i := |oa| downto 0
      invariant best == BestFrom(oa, Used(used), id, x, i)
    {
      if !used[i] && Identity(oa[i]) == Some(id) {
        if best.None? || SharedValues(oa[best.value], x) <= SharedValues(oa[i], x) { best := Some(i); }
      }
    }
  }

  method PickExact(oa: seq<Tree>, na: seq<Tree>) returns (used: seq<bool>, picks: seq<Option<nat>>)
    ensures |used| == |oa| && |picks| == |na| && Picking(Used(used), picks) == Exact(oa, na, |na|)
  {
    hide FirstUnused;
    used := seq(|oa|, _ => false);
    picks := [];
    assert Used(used) == {};
    for j := 0 to |na|
      invariant |used| == |oa| && |picks| == j
      invariant Picking(Used(used), picks) == Exact(oa, na, j)
    {
      var i := FindUnused(oa, used, na[j]);
      FirstUnusedMeans(oa, Used(used), na[j], 0);
      if i.Some? {
        MarkUsed(used, i.value);
        used := used[i.value := true];
      }
      picks := picks + [i];
    }
  }

  lemma MarkUsed(used: seq<bool>, i: nat)
    requires i < |used|
    ensures Used(used[i := true]) == Used(used) + {i}
  {
  }

  lemma {:induction false} FirstUnusedMeans(oa: seq<Tree>, used: set<nat>, x: Tree, i: nat)
    requires i <= |oa|
    ensures match FirstUnused(oa, used, x, i)
            case Some(k) => i <= k < |oa| && k !in used && oa[k] == x &&
                forall l :: i <= l < k ==> l in used || oa[l] != x
            case None => forall l :: i <= l < |oa| ==> l in used || oa[l] != x
    decreases |oa| - i
  {
    if i < |oa| && !(i !in used && oa[i] == x) { FirstUnusedMeans(oa, used, x, i + 1); }
  }

  /** What one new element gets in the second pass, marked used. */
  method PickById(oa: seq<Tree>, used: seq<bool>, x: Tree, first: Option<nat>)
    returns (pick: Option<nat>, now: seq<bool>)
    requires |used| == |oa|
    requires first.Some? ==> first.value in Used(used)
    ensures pick == SecondPick(oa, Used(used), x, first)
    ensures |now| == |oa| && Used(now) == if pick.Some? then Used(used) + {pick.value} else Used(used)
  {
    hide SharedValues, Identity;
    pick, now := first, used;
    var id := Identity(x);
    if first.None? && id.Some? {
      pick := FindBest(oa, used, id.value, x);
      if pick.Some? {
        MarkUsed(used, pick.value);
        now := used[pick.value := true];
      }
    }
  }

  /** `pick`: two passes over the new elements, marking old ones used. */
  method PickElements(oa: seq<Tree>, na: seq<Tree>) returns (picks: seq<Option<nat>>)
    ensures picks == Picks(oa, na)
  {
    hide Exact, SecondPick, Used;
    var used, first := PickExact(oa, na);
    ghost var start := Picking(Used(used), first);
    picks := [];
    for j := 0 to |na|
      invariant |used| == |oa| && |picks| == j
      invariant Picking(Used(used), picks) == ById(oa, na, start, j)
    {
      var pick;
      if first[j].Some? { TakenBefore(oa, na, start, j); }
      pick, used := PickById(oa, used, na[j], first[j]);
      picks := picks + [pick];
    }
  }

  lemma {:induction false} ByIdKeepsUsed(oa: seq<Tree>, na: seq<Tree>, first: Picking, j: nat)
    requires j <= |na| == |first.picks|
    ensures first.used <= ById(oa, na, first, j).used
  {
    if j > 0 { ByIdKeepsUsed(oa, na, first, j - 1); }
  }

  lemma {:induction false} ExactUsed(oa: seq<Tree>, na: seq<Tree>, n: nat, j: nat)
    requires j < n <= |na| && |Exact(oa, na, n).picks| == n
    ensures Exact(oa, na, n).picks[j].Some? ==> Exact(oa, na, n).picks[j].value in Exact(oa, na, n).used
  {
    hide FirstUnused;
    ExactLength(oa, na, n - 1);
    if j < n - 1 { ExactUsed(oa, na, n - 1, j); }
  }

  lemma TakenBefore(oa: seq<Tree>, na: seq<Tree>, start: Picking, j: nat)
    requires start == Exact(oa, na, |na|) && j < |na| == |start.picks| && start.picks[j].Some?
    ensures start.picks[j].value in ById(oa, na, start, j).used
  {
    hide ById, Exact;
    ExactUsed(oa, na, |na|, j);
    ByIdKeepsUsed(oa, na, start, j);
  }
}
