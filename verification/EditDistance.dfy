// The nearest-key suggestion's Levenshtein distance (`edit_distance`,
// indexer/src/config.rs): one row overwritten in place. Its result is proved
// to be the least number of single-character edits, in any order and at any
// positions, that turn one text into the other.
module EditDistance {

  function Min(a: int, b: int): int { if a <= b then a else b }

  /** The recurrence the row holds, on the first `i` characters of `a` and the
      first `j` of `b`: the diagonal alone where the last characters agree, the
      least of three otherwise. */
  function Prefixes(a: string, b: string, i: nat, j: nat): nat
    requires i <= |a| && j <= |b|
    decreases i + j
  {
    if i == 0 then j
    else if j == 0 then i
    else if a[i - 1] == b[j - 1] then Prefixes(a, b, i - 1, j - 1)
    else 1 + Min(Min(Prefixes(a, b, i - 1, j - 1), Prefixes(a, b, i - 1, j)), Prefixes(a, b, i, j - 1))
  }

  function Distance(a: string, b: string): nat { Prefixes(a, b, |a|, |b|) }

  method EditDistance(a: string, b: string) returns (d: nat)
    ensures d == Distance(a, b)
  {
    var row := new nat[|b| + 1](j => j);
    for i := 0 to |a|
      invariant forall j {:trigger row[j]} :: 0 <= j <= |b| ==> row[j] == Prefixes(a, b, i, j)
    {
      var diag := row[0];
      row[0] := i + 1;
      for j := 0 to |b|
        invariant diag == Prefixes(a, b, i, j)
        invariant forall k {:trigger row[k]} :: 0 <= k <= j ==> row[k] == Prefixes(a, b, i + 1, k)
        invariant forall k {:trigger row[k]} :: j < k <= |b| ==> row[k] == Prefixes(a, b, i, k)
      {
        var up := row[j + 1];
        row[j + 1] := if a[i] == b[j] then diag else 1 + Min(Min(diag, up), row[j]);
        diag := up;
      }
    }
    d := row[|b|];
  }

  // ---------------------------------------------------------------------
  // The reference: edits applied to a text.

  datatype Edit = Insertion(at: nat, c: char) | Deletion(at: nat) | Substitution(at: nat, c: char)

  predicate Applies(e: Edit, s: string) {
    match e
    case Insertion(at, _) => at <= |s|
    case Deletion(at) => at < |s|
    case Substitution(at, _) => at < |s|
  }

  function Apply(e: Edit, s: string): string
    requires Applies(e, s)
  {
    match e
    case Insertion(at, c) => s[..at] + [c] + s[at..]
    case Deletion(at) => s[..at] + s[at + 1..]
    case Substitution(at, c) => s[at := c]
  }

  /** `script` applied to `a`, edit by edit, gives `b`. */
  ghost predicate Turns(script: seq<Edit>, a: string, b: string) {
    if script == [] then a == b
    else Applies(script[0], a) && Turns(script[1..], Apply(script[0], a), b)
  }

  // ---------------------------------------------------------------------
  // The three-way recurrence, which never prefers the diagonal.

  predicate Near(x: int, y: int) { x <= y + 1 && y <= x + 1 }

  /** One character more or less of one text moves the distance by at most one. */
  lemma {:induction false} DropLast(a: string, b: string, i: nat, j: nat)
    requires i <= |a| && j <= |b|
    ensures i > 0 ==> Near(Prefixes(a, b, i, j), Prefixes(a, b, i - 1, j))
    ensures j > 0 ==> Near(Prefixes(a, b, i, j), Prefixes(a, b, i, j - 1))
    decreases i + j
  {
    if i > 0 && j > 0 {
      DropLast(a, b, i - 1, j);
      DropLast(a, b, i, j - 1);
    }
  }

  function Cost(x: char, y: char): nat { if x == y then 0 else 1 }

  /** Taking the diagonal at once where the characters agree loses nothing:
      the distance is the least of all three moves in every case. */
  lemma DiagonalIsOptimal(a: string, b: string, i: nat, j: nat)
    requires 0 < i <= |a| && 0 < j <= |b|
    ensures Prefixes(a, b, i, j) ==
            Min(Cost(a[i - 1], b[j - 1]) + Prefixes(a, b, i - 1, j - 1),
                1 + Min(Prefixes(a, b, i - 1, j), Prefixes(a, b, i, j - 1)))
  {
    DropLast(a, b, i - 1, j);
    DropLast(a, b, i, j - 1);
  }

  lemma {:induction false} SymmetricPrefixes(a: string, b: string, i: nat, j: nat)
    requires i <= |a| && j <= |b|
    ensures Prefixes(a, b, i, j) == Prefixes(b, a, j, i)
    decreases i + j
  {
    if i > 0 && j > 0 {
      SymmetricPrefixes(a, b, i - 1, j - 1);
      SymmetricPrefixes(a, b, i - 1, j);
      SymmetricPrefixes(a, b, i, j - 1);
    }
  }

  lemma Symmetric(a: string, b: string)
    ensures Distance(a, b) == Distance(b, a)
  {
    SymmetricPrefixes(a, b, |a|, |b|);
  }

  lemma {:induction false} LengthBounds(a: string, b: string, i: nat, j: nat)
    requires i <= |a| && j <= |b|
    ensures Prefixes(a, b, i, j) <= i + j
    ensures j <= i + Prefixes(a, b, i, j)
    ensures i <= j + Prefixes(a, b, i, j)
    decreases i + j
  {
    if i > 0 && j > 0 {
      LengthBounds(a, b, i - 1, j - 1);
      LengthBounds(a, b, i - 1, j);
      LengthBounds(a, b, i, j - 1);
    }
  }

  datatype Move = Done | Left | Up | Diagonal

  /** A neighbour the least distance comes from. */
  function BestMove(a: string, b: string, i: nat, j: nat): (m: Move)
    requires i <= |a| && j <= |b|
    ensures m.Done? ==> i == 0 && j == 0 && Prefixes(a, b, i, j) == 0
    ensures m.Left? ==> j > 0 && Prefixes(a, b, i, j) == 1 + Prefixes(a, b, i, j - 1)
    ensures m.Up? ==> i > 0 && Prefixes(a, b, i, j) == 1 + Prefixes(a, b, i - 1, j)
    ensures m.Diagonal? ==> i > 0 && j > 0 &&
                            Prefixes(a, b, i, j) == Cost(a[i - 1], b[j - 1]) + Prefixes(a, b, i - 1, j - 1)
  {
    if i == 0 && j == 0 then Done
    else if i == 0 then Left
    else if j == 0 then Up
    else if a[i - 1] == b[j - 1] then Diagonal
    else if Prefixes(a, b, i, j) == 1 + Prefixes(a, b, i, j - 1) then Left
    else if Prefixes(a, b, i, j) == 1 + Prefixes(a, b, i - 1, j) then Up
    else Diagonal
  }

  /** Any single move bounds the distance from above. */
  lemma MovesBound(a: string, b: string, i: nat, j: nat)
    requires i <= |a| && j <= |b|
    ensures i > 0 ==> Prefixes(a, b, i, j) <= 1 + Prefixes(a, b, i - 1, j)
    ensures j > 0 ==> Prefixes(a, b, i, j) <= 1 + Prefixes(a, b, i, j - 1)
    ensures i > 0 && j > 0 ==> Prefixes(a, b, i, j) <= Cost(a[i - 1], b[j - 1]) + Prefixes(a, b, i - 1, j - 1)
  {
    DropLast(a, b, i, j);
  }

  /** By the best moves into the two distances on the right. */
  lemma {:induction false} TrianglePrefixes(a: string, b: string, c: string, i: nat, j: nat, k: nat)
    requires i <= |a| && j <= |b| && k <= |c|
    ensures Prefixes(a, c, i, k) <= Prefixes(a, b, i, j) + Prefixes(b, c, j, k)
    decreases i + j + k
  {
    hide Prefixes;
    MovesBound(a, c, i, k);
    LengthBounds(a, c, i, k);
    LengthBounds(a, b, i, j);
    LengthBounds(b, c, j, k);
    match (BestMove(a, b, i, j), BestMove(b, c, j, k)) {
      case (Up, _) => TrianglePrefixes(a, b, c, i - 1, j, k);
      case (_, Left) => TrianglePrefixes(a, b, c, i, j, k - 1);
      case (Left, Up) => TrianglePrefixes(a, b, c, i, j - 1, k);
      case (Left, Diagonal) => TrianglePrefixes(a, b, c, i, j - 1, k - 1);
      case (Diagonal, Up) => TrianglePrefixes(a, b, c, i - 1, j - 1, k);
      case (Diagonal, Diagonal) => TrianglePrefixes(a, b, c, i - 1, j - 1, k - 1);
      case (Done, _) =>
      case (_, Done) =>
    }
  }

  lemma Triangle(a: string, b: string, c: string)
    ensures Distance(a, c) <= Distance(a, b) + Distance(b, c)
  {
    TrianglePrefixes(a, b, c, |a|, |b|, |c|);
  }

  lemma {:induction false} SelfPrefixes(a: string, i: nat)
    requires i <= |a|
    ensures Prefixes(a, a, i, i) == 0
  {
    if i > 0 { SelfPrefixes(a, i - 1); }
  }

  // ---------------------------------------------------------------------
  // Distance against scripts.

  /** `Prefixes` reads nothing past the prefixes. */
  lemma {:induction false} ReadsPrefixesOnly(a: string, b: string, x: string, y: string, i: nat, j: nat)
    requires i <= |a| && j <= |b| && i <= |x| && j <= |y|
    requires forall k :: 0 <= k < i ==> a[k] == x[k]
    requires forall k :: 0 <= k < j ==> b[k] == y[k]
    ensures Prefixes(a, b, i, j) == Prefixes(x, y, i, j)
    decreases i + j
  {
    if i > 0 && j > 0 {
      ReadsPrefixesOnly(a, b, x, y, i - 1, j - 1);
      ReadsPrefixesOnly(a, b, x, y, i - 1, j);
      ReadsPrefixesOnly(a, b, x, y, i, j - 1);
    }
  }

  lemma {:induction false} CommonTail(a: string, b: string, i: nat, j: nat, n: nat)
    requires i + n <= |a| && j + n <= |b|
    requires a[i..i + n] == b[j..j + n]
    ensures Prefixes(a, b, i + n, j + n) <= Prefixes(a, b, i, j)
    decreases n
  {
    if n > 0 {
      assert a[i + n - 1] == a[i..i + n][n - 1] == b[j..j + n][n - 1] == b[j + n - 1];
      assert a[i..i + (n - 1)] == a[i..i + n][..n - 1];
      assert b[j..j + (n - 1)] == b[j..j + n][..n - 1];
      CommonTail(a, b, i, j, n - 1);
    }
  }

  lemma OneEdit(e: Edit, s: string)
    requires Applies(e, s)
    ensures Distance(s, Apply(e, s)) <= 1
  {
    hide Prefixes;
    var t := Apply(e, s);
    var at := e.at;
    SelfPrefixes(s, at);
    ReadsPrefixesOnly(s, s, s, t, at, at);
    match e {
      case Insertion(_, c) =>
        assert s[at..] == t[at + 1..];
        MovesBound(s, t, at, at + 1);
        CommonTail(s, t, at, at + 1, |s| - at);
      case Deletion(_) =>
        assert s[at + 1..] == t[at..];
        MovesBound(s, t, at + 1, at);
        CommonTail(s, t, at + 1, at, |t| - at);
      case Substitution(_, c) =>
        assert s[at + 1..] == t[at + 1..];
        MovesBound(s, t, at + 1, at + 1);
        CommonTail(s, t, at + 1, at + 1, |s| - at - 1);
    }
  }

  /** No script is shorter than the distance. */
  lemma {:induction false} NoShorterScript(script: seq<Edit>, a: string, b: string)
    requires Turns(script, a, b)
    ensures Distance(a, b) <= |script|
  {
    if script == [] {
      SelfPrefixes(a, |a|);
    } else {
      var next := Apply(script[0], a);
      NoShorterScript(script[1..], next, b);
      OneEdit(script[0], a);
      Triangle(a, next, b);
    }
  }

  lemma {:induction false} TurnsThen(p: seq<Edit>, a: string, b: string, e: Edit)
    requires Turns(p, a, b) && Applies(e, b)
    ensures Turns(p + [e], a, Apply(e, b))
  {
    if p == [] {
      assert (p + [e])[1..] == [];
    } else {
      TurnsThen(p[1..], Apply(p[0], a), b, e);
      assert (p + [e])[1..] == p[1..] + [e];
    }
  }

  lemma AppliesBeforeSuffix(e: Edit, a: string, t: string)
    requires Applies(e, a)
    ensures Applies(e, a + t) && Apply(e, a + t) == Apply(e, a) + t
  {
    match e {
      case Insertion(at, c) =>
        assert (a + t)[..at] == a[..at] && (a + t)[at..] == a[at..] + t;
      case Deletion(at) =>
        assert (a + t)[..at] == a[..at] && (a + t)[at + 1..] == a[at + 1..] + t;
      case Substitution(at, c) =>
    }
  }

  /** The same edits do the same with more text after them. */
  lemma {:induction false} TurnsBeforeSuffix(p: seq<Edit>, a: string, b: string, t: string)
    requires Turns(p, a, b)
    ensures Turns(p, a + t, b + t)
  {
    if p != [] {
      TurnsBeforeSuffix(p[1..], Apply(p[0], a), b, t);
      AppliesBeforeSuffix(p[0], a, t);
    }
  }

  /** A script as short as the distance. */
  lemma {:induction false} BestScript(a: string, b: string, i: nat, j: nat) returns (script: seq<Edit>)
    requires i <= |a| && j <= |b|
    ensures Turns(script, a[..i], b[..j]) && |script| == Prefixes(a, b, i, j)
    decreases i + j
  {
    hide Prefixes;
    match BestMove(a, b, i, j) {
      case Done =>
        script := [];
      case Left =>
        var p := BestScript(a, b, i, j - 1);
        script := ThenInsert(p, a[..i], b, j);
      case Up =>
        var p := BestScript(a, b, i - 1, j);
        script := ThenDelete(p, a, b[..j], i);
      case Diagonal =>
        var p := BestScript(a, b, i - 1, j - 1);
        script := ThenDiagonal(p, a, b, i, j);
    }
  }

  lemma ThenDiagonal(p: seq<Edit>, a: string, b: string, i: nat, j: nat) returns (script: seq<Edit>)
    requires 0 < i <= |a| && 0 < j <= |b| && Turns(p, a[..i - 1], b[..j - 1])
    ensures Turns(script, a[..i], b[..j]) && |script| == |p| + Cost(a[i - 1], b[j - 1])
  {
    hide Turns;
    assert a[..i] == a[..i - 1] + [a[i - 1]];
    TurnsBeforeSuffix(p, a[..i - 1], b[..j - 1], [a[i - 1]]);
    if a[i - 1] == b[j - 1] {
      assert b[..j] == b[..j - 1] + [a[i - 1]];
      script := p;
    } else {
      script := ThenSubstitute(p, a[..i], b, j, a[i - 1]);
    }
  }

  lemma ThenInsert(p: seq<Edit>, a: string, b: string, j: nat) returns (script: seq<Edit>)
    requires 0 < j <= |b| && Turns(p, a, b[..j - 1])
    ensures Turns(script, a, b[..j]) && |script| == |p| + 1
  {
    hide Turns;
    var e := Insertion(j - 1, b[j - 1]);
    TurnsThen(p, a, b[..j - 1], e);
    assert Apply(e, b[..j - 1]) == b[..j];
    script := p + [e];
  }

  lemma ThenDelete(p: seq<Edit>, a: string, b: string, i: nat) returns (script: seq<Edit>)
    requires 0 < i <= |a| && Turns(p, a[..i - 1], b)
    ensures Turns(script, a[..i], b) && |script| == |p| + 1
  {
    hide Turns;
    assert a[..i] == a[..i - 1] + [a[i - 1]];
    TurnsBeforeSuffix(p, a[..i - 1], b, [a[i - 1]]);
    var e := Deletion(|b|);
    TurnsThen(p, a[..i], b + [a[i - 1]], e);
    assert Apply(e, b + [a[i - 1]]) == b;
    script := p + [e];
  }

  lemma ThenSubstitute(p: seq<Edit>, a: string, b: string, j: nat, c: char) returns (script: seq<Edit>)
    requires 0 < j <= |b| && Turns(p, a, b[..j - 1] + [c])
    ensures Turns(script, a, b[..j]) && |script| == |p| + 1
  {
    hide Turns;
    var e := Substitution(j - 1, b[j - 1]);
    TurnsThen(p, a, b[..j - 1] + [c], e);
    assert Apply(e, b[..j - 1] + [c]) == b[..j];
    script := p + [e];
  }

  /** The distance is the length of a shortest script. */
  lemma DistanceIsLeast(a: string, b: string)
    ensures exists script :: Turns(script, a, b) && |script| == Distance(a, b)
    ensures forall script :: Turns(script, a, b) ==> Distance(a, b) <= |script|
  {
    var best := BestScript(a, b, |a|, |b|);
    assert a[..|a|] == a && b[..|b|] == b;
    forall script | Turns(script, a, b) ensures Distance(a, b) <= |script| {
      NoShorterScript(script, a, b);
    }
  }
}
