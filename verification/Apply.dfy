// Carrying a plan out on a configuration (`apply_plan`, indexer/src/adopt.rs).
module Apply {
  import opened Base
  import opened Config
  import opened Glob
  import opened Names
  import opened Sync

  /** Why a plan cannot be carried out. `NamesExhausted` stands for the
      program's panic when all candidates for a name are taken. */
  datatype ApplyError =
    | NoSuchEntry(reviving: bool, reference: EntryRef)
    | NoSource(name: string, volume: string)
    | NamesExhausted(base: string)

  function IndexOfTag(sources: seq<Source>, tag: string): (r: Option<nat>)
    ensures r.Some? ==> r.value < |sources| && sources[r.value].tag == tag
    ensures r.Some? ==> forall j :: 0 <= j < r.value ==> sources[j].tag != tag
    ensures r.None? ==> forall j :: 0 <= j < |sources| ==> sources[j].tag != tag
  {
    if sources == [] then None
    else if sources[0].tag == tag then Some(0)
    else match IndexOfTag(sources[1..], tag)
      case None => None
      case Some(j) => Some(j + 1)
  }

  function IndexOfName(entries: seq<Entry>, name: string): (r: Option<nat>)
    ensures r.Some? ==> r.value < |entries| && entries[r.value].name == name
    ensures r.Some? ==> forall j :: 0 <= j < r.value ==> entries[j].name != name
    ensures r.None? ==> forall j :: 0 <= j < |entries| ==> entries[j].name != name
  {
    if entries == [] then None
    else if entries[0].name == name then Some(0)
    else match IndexOfName(entries[1..], name)
      case None => None
      case Some(j) => Some(j + 1)
  }

  function WithEntry(c: Config, i: nat, k: nat, e: Entry): Config
    requires i < |c.sources| && k < |c.sources[i].subvolumes|
  {
    c.(sources := c.sources[i := c.sources[i].(subvolumes := c.sources[i].subvolumes[k := e])])
  }

  /** The first entry of that name in the first source of that label, its
      `retired` set; `None` when there is none. */
  function SetRetired(c: Config, r: EntryRef, value: Option<string>): Option<Config> {
    match IndexOfTag(c.sources, r.sourceTag)
    case None => None
    case Some(i) =>
      match IndexOfName(c.sources[i].subvolumes, r.name)
      case None => None
      case Some(k) => Some(WithEntry(c, i, k, c.sources[i].subvolumes[k].(retired := value)))
  }

  function MarkAll(c: Config, refs: seq<EntryRef>, value: Option<string>): Result<Config, ApplyError>
    decreases |refs|
  {
    if refs == [] then Ok(c)
    else match SetRetired(c, refs[0], value)
      case None => Err(NoSuchEntry(value.None?, refs[0]))
      case Some(next) => MarkAll(next, refs[1..], value)
  }

  // ---------------------------------------------------------------------

  function TrimEndSlashes(s: string): string {
    if s != [] && s[|s| - 1] == '/' then TrimEndSlashes(s[..|s| - 1]) else s
  }

  function TrimStartDots(s: string): string {
    if s != [] && s[0] == '.' then TrimStartDots(s[1..]) else s
  }

  predicate PlainNameChar(c: char) {
    'a' <= c <= 'z' || 'A' <= c <= 'Z' || IsDigit(c) || c == '_' || c == '-'
  }

  function Dashed(s: string): string {
    if s == [] then [] else [if PlainNameChar(s[0]) then s[0] else '-'] + Dashed(s[1..])
  }

  function LastComponent(s: string): string {
    match LastSlash(s) case None => s case Some(cut) => s[cut + 1..]
  }

  /** The name a volume's top level is adopted with. */
  function TopLevelName(volume: string): string {
    var base := Dashed(TrimStartDots(LastComponent(TrimEndSlashes(volume))));
    (if base == [] then "volume" else base) + "-toplevel"
  }

  function NameBase(a: Adoption): string {
    if a.name == TOP_LEVEL then TopLevelName(a.volume) else AlgorithmicName(a.name)
  }

  function FirstOn(sources: seq<Source>, volume: string): Option<Source> {
    if sources == [] then None
    else if sources[0].volume == volume then Some(sources[0])
    else FirstOn(sources[1..], volume)
  }

  function FirstPrimary(targets: seq<Target>): seq<string> {
    if targets == [] then []
    else if targets[0].role.Primary? then [targets[0].tag]
    else FirstPrimary(targets[1..])
  }

  /** The adoption source made for `a`, on the model of its volume's first. */
  function NewSource(c: Config, a: Adoption, model: Source): Source {
    Source(a.sourceTag, model.volume, [], model.device, model.snapshotDir, [a.sourceTag], FirstPrimary(c.targets))
  }

  function NewEntry(a: Adoption, snapshotName: string, today: string): Entry {
    Entry(a.name, a.manualOnly, Some(snapshotName), Some(today), None, false)
  }

  /** `sources` with a home for `a`: as they are, or one more. */
  function WithHome(c: Config, sources: seq<Source>, a: Adoption): Result<seq<Source>, ApplyError> {
    if IndexOfTag(sources, a.sourceTag).Some? then Ok(sources)
    else match FirstOn(c.sources, a.volume)
      case None => Err(NoSource(a.name, a.volume))
      case Some(model) => Ok(sources + [NewSource(c, a, model)])
  }

  function Appended(sources: seq<Source>, i: nat, e: Entry): seq<Source>
    requires i < |sources|
  {
    sources[i := sources[i].(subvolumes := sources[i].subvolumes + [e])]
  }

  function HomeIndex(sources: seq<Source>, a: Adoption): nat {
    match IndexOfTag(sources, a.sourceTag) case Some(i) => i case None => |sources|
  }

  datatype Progress = Progress(sources: seq<Source>, taken: set<string>)

  function AdoptOne(c: Config, p: Progress, a: Adoption, today: string): Result<Progress, ApplyError> {
    match WithHome(c, p.sources, a)
    case Err(e) => Err(e)
    case Ok(sources) =>
      match FirstFree(NameBase(a), p.taken, 1)
      case None => Err(NamesExhausted(NameBase(a)))
      case Some(name) =>
        Ok(Progress(Appended(sources, HomeIndex(p.sources, a), NewEntry(a, name, today)), p.taken + {name}))
  }

  function AdoptAll(c: Config, p: Progress, adopt: seq<Adoption>, today: string): Result<Progress, ApplyError>
    decreases |adopt|
  {
    if adopt == [] then Ok(p)
    else match AdoptOne(c, p, adopt[0], today)
      case Err(e) => Err(e)
      case Ok(next) => AdoptAll(c, next, adopt[1..], today)
  }

  function NamesIn(sources: seq<Source>): set<string> {
    if sources == [] then {} else (set x | x in Resolve(sources[0].subvolumes)) + NamesIn(sources[1..])
  }

  function Applied(c: Config, plan: Plan, today: string): Result<Config, ApplyError> {
    match MarkAll(c, plan.retire, Some(today))
    case Err(e) => Err(e)
    case Ok(retired) =>
      match MarkAll(retired, plan.revive, None)
      case Err(e) => Err(e)
      case Ok(marked) =>
        match AdoptAll(c, Progress(marked.sources, NamesIn(marked.sources)), plan.adopt, today)
        case Err(e) => Err(e)
        case Ok(p) => Ok(marked.(sources := p.sources))
  }

  // ---------------------------------------------------------------------
  // The program's loops over the cloned configuration.

  method MarkEntries(c: Config, refs: seq<EntryRef>, value: Option<string>) returns (r: Result<Config, ApplyError>)
    ensures r == MarkAll(c, refs, value)
  {
    hide SetRetired;
    var out := c;
    for i := 0 to |refs|
      invariant MarkAll(c, refs, value) == MarkAll(out, refs[i..], value)
    {
      match SetRetired(out, refs[i], value) {
        case None => return Err(NoSuchEntry(value.None?, refs[i]));
        case Some(next) => out := next;
      }
    }
    return Ok(out);
  }

  method TakenNames(sources: seq<Source>) returns (taken: set<string>)
    ensures taken == NamesIn(sources)
  {
    taken := {};
    for i := 0 to |sources|
      invariant taken + NamesIn(sources[i..]) == NamesIn(sources)
    {
      var names := ResolveSnapshotNames(sources[i].subvolumes);
      taken := taken + set x | x in names;
    }
  }

  method AdoptEntries(c: Config, start: seq<Source>, names: set<string>, adopt: seq<Adoption>, today: string)
    returns (r: Result<Progress, ApplyError>)
    ensures r == AdoptAll(c, Progress(start, names), adopt, today)
  {
    hide FirstFree, NameBase;
    var sources, taken := start, names;
    for i := 0 to |adopt|
      invariant AdoptAll(c, Progress(start, names), adopt, today) ==
                AdoptAll(c, Progress(sources, taken), adopt[i..], today)
    {
      var a := adopt[i];
      ghost var before := sources;
      var index;
      match IndexOfTag(sources, a.sourceTag) {
        case Some(at) => index := at;
        case None =>
          match FirstOn(c.sources, a.volume) {
            case None => return Err(NoSource(a.name, a.volume));
            case Some(model) =>
              sources := sources + [NewSource(c, a, model)];
              index := |sources| - 1;
          }
      }
      var name := UniqueName(NameBase(a), taken);
      match name {
        case None => return Err(NamesExhausted(NameBase(a)));
        case Some(n) =>
          taken := taken + {n};
          sources := Appended(sources, index, NewEntry(a, n, today));
      }
    }
    return Ok(Progress(sources, taken));
  }

  method ApplyPlan(c: Config, plan: Plan, today: string) returns (r: Result<Config, ApplyError>)
    ensures r == Applied(c, plan, today)
  {
    var retired := MarkEntries(c, plan.retire, Some(today));
    if retired.Err? { return retired; }
    var marked := MarkEntries(retired.value, plan.revive, None);
    if marked.Err? { return marked; }
    var taken := TakenNames(marked.value.sources);
    var adopted := AdoptEntries(c, marked.value.sources, taken, plan.adopt, today);
    match adopted {
      case Err(e) => return Err(e);
      case Ok(p) => return Ok(marked.value.(sources := p.sources));
    }
  }
}
