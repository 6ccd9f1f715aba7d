// Documents as trees: tables, arrays and plain values. Comments, spacing and
// the order of keys are not part of a tree (indexer/src/config.rs, surgical).
module Trees {
  import opened Base

  datatype Scalar = Str(s: string) | Int(n: int) | Bool(b: bool) | Other(text: string)

  datatype Tree = Leaf(v: Scalar) | Table(t: map<string, Tree>) | Array(a: seq<Tree>)

  function Get(d: Tree, k: string): Option<Tree> {
    if d.Table? && k in d.t then Some(d.t[k]) else None
  }

  /** What matches an array element across a save: its `label` or `name`. */
  function Identity(v: Tree): Option<string> {
    var key := if Get(v, "label").Some? then Get(v, "label") else Get(v, "name");
    if key.Some? && key.value.Leaf? && key.value.v.Str? then Some(key.value.v.s) else None
  }

  /** How many of `b`'s keys `a` holds with the same value. */
  function SharedValues(a: Tree, b: Tree): nat {
    if a.Table? && b.Table? then |set k | k in b.t && k in a.t && a.t[k] == b.t[k]| else 0
  }
}
