// What this program knows of a document: which keys it reads, what an absent
// one means, and which it writes back (indexer/src/config.rs, serde).
module Schemas {
  import opened Base
  import opened Trees

  /** `bare` tables may be written as the string that is their `name`. */
  datatype Schema = LeafS | TableS(fields: map<string, Field>, bare: bool) | ArrayS(elem: Schema)

  datatype Field = Field(schema: Schema, presence: Presence)

  /** What an absent key means. `OmitDefault` is not written back when it has
      the default; `FedBy` is filled from a legacy key when it holds nothing. */
  datatype Presence = Required | Default(v: Tree) | Optional | OmitDefault(v: Tree) | FedBy(legacy: string)

  const SERIAL := "serial"
  const SERIALS := "serials"
  const NOTHING := Array([])

  /** The table an element stands for; a bare string is its `name`. */
  function Contents(d: Tree): map<string, Tree> {
    match d
    case Table(t) => t
    case Leaf(_) => map["name" := d]
    case Array(_) => map[]
  }

  predicate IsText(d: Tree) { d.Leaf? && d.v.Str? }

  predicate FeedsSomething(t: map<string, Tree>, legacy: string) {
    legacy in t && IsText(t[legacy]) && t[legacy].v.s != ""
  }

  // ---------------------------------------------------------------------
  // Documents that load.

  predicate FieldShaped(f: Field, k: string, t: map<string, Tree>) {
    (f.presence.Required? ==> k in t) &&
    (k in t ==> Shaped(f.schema, t[k])) &&
    (f.presence.FedBy? && f.presence.legacy in t ==> IsText(t[f.presence.legacy]))
  }

  predicate Shaped(s: Schema, d: Tree) {
    match s
    case LeafS => d.Leaf?
    case ArrayS(e) => d.Array? && forall i :: 0 <= i < |d.a| ==> Shaped(e, d.a[i])
    case TableS(fields, bare) =>
      (d.Table? || (bare && IsText(d))) && forall k :: k in fields ==> FieldShaped(fields[k], k, Contents(d))
  }

  // ---------------------------------------------------------------------
  // What is known of a document: what would be written after loading it.

  function FieldView(f: Field, k: string, t: map<string, Tree>): Option<Tree> {
    var here := if k in t then Some(View(f.schema, t[k])) else None;
    match f.presence
    case Required => here
    case Optional => here
    case Default(v) => if here.Some? then here else Some(v)
    case OmitDefault(v) => if here == Some(v) then None else here
    case FedBy(legacy) =>
      if here.Some? && here.value != NOTHING then here
      else if FeedsSomething(t, legacy) then Some(Array([t[legacy]]))
      else Some(NOTHING)
  }

  function View(s: Schema, d: Tree): Tree {
    match s
    case LeafS => d
    case ArrayS(e) =>
      if d.Array? then Array(seq(|d.a|, i requires 0 <= i < |d.a| => View(e, d.a[i]))) else d
    case TableS(fields, bare) =>
      Table(map k | k in fields && FieldView(fields[k], k, Contents(d)).Some?
              :: FieldView(fields[k], k, Contents(d)).value)
  }

  // ---------------------------------------------------------------------
  // What a configuration is written as.

  predicate FieldNormal(f: Field, k: string, t: map<string, Tree>) {
    (k in t ==> Normal(f.schema, t[k])) &&
    match f.presence
    case Required => k in t
    case Default(_) => k in t
    case FedBy(_) => k in t
    case Optional => true
    case OmitDefault(v) => k in t ==> t[k] != v
  }

  predicate Normal(s: Schema, n: Tree) {
    match s
    case LeafS => n.Leaf?
    case ArrayS(e) => n.Array? && forall i :: 0 <= i < |n.a| ==> Normal(e, n.a[i])
    case TableS(fields, bare) =>
      n.Table? && (forall k :: k in n.t ==> k in fields) && forall k :: k in fields ==> FieldNormal(fields[k], k, n.t)
  }

  // ---------------------------------------------------------------------
  // Schemas that make sense.

  predicate FieldWell(f: Field, k: string) {
    WellFormed(f.schema) && k != SERIAL && (k == SERIALS ==> f.presence.FedBy?) &&
    match f.presence
    case Required => true
    case Optional => true
    case Default(v) =>
      Normal(f.schema, v) &&
      (f.schema.TableS? ==> Shaped(f.schema, Table(map[])) && View(f.schema, Table(map[])) == v)
    case OmitDefault(v) => f.schema.LeafS?
    case FedBy(legacy) => k == SERIALS && legacy == SERIAL && f.schema == ArrayS(LeafS)
  }

  predicate WellFormed(s: Schema) {
    match s
    case LeafS => true
    case ArrayS(e) => WellFormed(e)
    case TableS(fields, bare) => forall k :: k in fields ==> FieldWell(fields[k], k)
  }

  // ---------------------------------------------------------------------

  lemma ViewAt(s: Schema, d: Tree, k: string)
    requires s.TableS?
    ensures View(s, d).Table?
    ensures Get(View(s, d), k) == if k in s.fields then FieldView(s.fields[k], k, Contents(d)) else None
  {
  }

  /** Tables are equal when every key says the same. */
  lemma SameTable(a: Tree, b: Tree)
    requires a.Table? && b.Table? && forall k: string :: Get(a, k) == Get(b, k)
    ensures a == b
  {
    forall k ensures k in a.t <==> k in b.t { assert Get(a, k) == Get(b, k); }
    forall k | k in a.t ensures a.t[k] == b.t[k] { assert Get(a, k) == Get(b, k); }
    assert a.t == b.t;
  }

  /** What is written loads, as itself. */
  lemma {:induction false} NormalViewsAsItself(s: Schema, n: Tree)
    requires WellFormed(s) && Normal(s, n)
    ensures Shaped(s, n) && View(s, n) == n
    decreases s, 1
  {
    match s {
      case LeafS =>
      case ArrayS(e) =>
        forall i | 0 <= i < |n.a|
            ensures Shaped(e, n.a[i]) && View(e, n.a[i]) == n.a[i] { NormalViewsAsItself(e, n.a[i]); }
        assert View(s, n).a == n.a;
      case TableS(fields, bare) =>
        forall k | k in fields ensures FieldShaped(fields[k], k, n.t) && FieldView(fields[k], k, n.t) == Get(n, k) {
          assert FieldWell(fields[k], k) && FieldNormal(fields[k], k, n.t);
          NormalField(s, n, k);
        }
        forall k: string ensures Get(View(s, n), k) == Get(n, k) { ViewAt(s, n, k); }
        SameTable(View(s, n), n);
    }
  }

  lemma {:induction false} NormalField(s: Schema, n: Tree, k: string)
    requires s.TableS? && WellFormed(s) && Normal(s, n) && k in s.fields
    ensures FieldShaped(s.fields[k], k, n.t) && FieldView(s.fields[k], k, n.t) == Get(n, k)
    decreases s, 0
  {
    hide View, Shaped;
    var f := s.fields[k];
    assert FieldWell(f, k) && FieldNormal(f, k, n.t);
    NoLegacyField(s, n);
    if k in n.t { NormalViewsAsItself(f.schema, n.t[k]); }
  }

  lemma NoLegacyField(s: Schema, n: Tree)
    requires s.TableS? && WellFormed(s) && Normal(s, n)
    ensures SERIAL !in n.t
  {
    forall k | k in s.fields ensures k != SERIAL { assert FieldWell(s.fields[k], k); }
  }

  /** What is known of a document that loads can be written. */
  lemma {:induction false} ViewIsNormal(s: Schema, d: Tree)
    requires WellFormed(s) && Shaped(s, d)
    ensures Normal(s, View(s, d))
    decreases s, 1
  {
    match s {
      case LeafS =>
      case ArrayS(e) =>
        forall i | 0 <= i < |d.a| ensures Normal(e, View(e, d.a[i])) { ViewIsNormal(e, d.a[i]); }
      case TableS(fields, bare) =>
        forall k | k in fields ensures FieldNormal(fields[k], k, View(s, d).t) { ViewFieldNormal(s, d, k); }
    }
  }

  lemma {:induction false} ViewFieldNormal(s: Schema, d: Tree, k: string)
    requires s.TableS? && WellFormed(s) && Shaped(s, d) && k in s.fields
    ensures View(s, d).Table? && FieldNormal(s.fields[k], k, View(s, d).t)
    decreases s, 0
  {
    hide Normal;
    var f, t := s.fields[k], Contents(d);
    assert FieldWell(f, k) && FieldShaped(f, k, t);
    ViewAt(s, d, k);
    if k in t { ViewIsNormal(f.schema, t[k]); }
    if f.presence.FedBy? {
      NothingNormal();
      if FeedsSomething(t, f.presence.legacy) { OneNormal(t[f.presence.legacy]); }
    }
  }

  lemma NothingNormal()
    ensures Normal(ArrayS(LeafS), NOTHING)
  {
  }

  lemma OneNormal(d: Tree)
    requires d.Leaf?
    ensures Normal(ArrayS(LeafS), Array([d]))
  {
  }
}
