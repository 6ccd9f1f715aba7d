// Listing the source volumes (`list_volumes`, indexer/src/adopt.rs). What
// asking one device for its subvolumes answers is an input.
module VolumeListing {
  import opened Base
  import opened Config
  import opened Glob
  import opened Sync

  /** What mounting checks and `btrfs subvolume list` answer for a volume and
      the device a source names for it. */
  type Probe = (string, string) -> Result<seq<string>, string>

  /** An empty answer is a failed one; a good one gains the top level. */
  function ListVolume(volume: string, answer: Result<seq<string>, string>): Result<seq<string>, string> {
    match answer
    case Err(why) => Err(why)
    case Ok(found) =>
      if found == [] then Err("'" + volume + "' listed no subvolumes — treating the volume as unreadable")
      else Ok([TOP_LEVEL] + found)
  }

  function ListDevice(probe: Probe, s: Source): Result<seq<string>, string> {
    match ListVolume(s.volume, probe(s.volume, s.device))
    case Ok(found) => Ok(found)
    case Err(why) => Err("source '" + s.tag + "' names device '" + s.device + "': " + why)
  }

  predicate SameDevice(s: Source, t: Source) { s.volume == t.volume && s.device == t.device }

  /** The first source on `volume` whose device does not verify. */
  function FirstFailing(probe: Probe, sources: seq<Source>, volume: string): Option<Source> {
    if sources == [] then None
    else
      var last := sources[|sources| - 1];
      var before := FirstFailing(probe, sources[..|sources| - 1], volume);
      if before.Some? then before
      else if last.volume == volume && ListDevice(probe, last).Err? then Some(last)
      else None
  }

  /** The source that first names the device last heard of. */
  function LatestNew(sources: seq<Source>, volume: string): Option<Source> {
    if sources == [] then None
    else
      var last := sources[|sources| - 1];
      var before := sources[..|sources| - 1];
      if last.volume == volume && !(exists j :: 0 <= j < |before| && SameDevice(before[j], last)) then Some(last)
      else LatestNew(before, volume)
  }

  /** What is concluded about a volume. */
  function Verdict(probe: Probe, sources: seq<Source>, volume: string): Result<seq<string>, string> {
    match FirstFailing(probe, sources, volume)
    case Some(s) => ListDevice(probe, s)
    case None =>
      match LatestNew(sources, volume)
      case Some(s) => ListDevice(probe, s)
      case None => Err("")
  }

  ghost predicate Concludes(probe: Probe, sources: seq<Source>, listings: seq<Listing>) {
    (forall k :: 0 <= k < |listings| ==> listings[k].subvolumes == Verdict(probe, sources, listings[k].volume)) &&
    VolumesOf(listings) == VolumesFrom([], sources)
  }

  function VolumesOf(listings: seq<Listing>): seq<string> {
    seq(|listings|, k requires 0 <= k < |listings| => listings[k].volume)
  }

  function IndexOfVolume(listings: seq<Listing>, volume: string): (i: nat)
    ensures i <= |listings|
    ensures i < |listings| ==> listings[i].volume == volume
    ensures forall j :: 0 <= j < i ==> listings[j].volume != volume
  {
    if listings == [] || listings[0].volume == volume then 0 else 1 + IndexOfVolume(listings[1..], volume)
  }

  lemma {:induction false} VolumesFromSnoc(seen: seq<string>, sources: seq<Source>, s: Source)
    ensures VolumesFrom(seen, sources + [s]) ==
            var v := VolumesFrom(seen, sources); if s.volume in v then v else v + [s.volume]
    decreases |sources|
  {
    if sources == [] {
      assert sources + [s] == [s] && [s][1..] == [];
    } else {
      assert (sources + [s])[1..] == sources[1..] + [s];
      if sources[0].volume in seen {
        VolumesFromSnoc(seen, sources[1..], s);
      } else {
        VolumesFromSnoc(seen + [sources[0].volume], sources[1..], s);
      }
    }
  }

  lemma {:induction false} FirstFailingMeans(probe: Probe, sources: seq<Source>, volume: string)
    ensures match FirstFailing(probe, sources, volume)
            case Some(s) =>
              exists i :: 0 <= i < |sources| && sources[i] == s && s.volume == volume && ListDevice(probe, s).Err? &&
                          forall j :: 0 <= j < i && sources[j].volume == volume ==> ListDevice(probe, sources[j]).Ok?
            case None =>
              forall j :: 0 <= j < |sources| && sources[j].volume == volume ==> ListDevice(probe, sources[j]).Ok?
  {
    hide ListDevice;
    if sources != [] {
      var before := sources[..|sources| - 1];
      FirstFailingMeans(probe, before, volume);
      assert forall j :: 0 <= j < |before| ==> before[j] == sources[j];
    }
  }

  lemma {:induction false} LatestNewMeans(sources: seq<Source>, volume: string)
    ensures match LatestNew(sources, volume)
            case Some(s) => s in sources && s.volume == volume
            case None => forall j :: 0 <= j < |sources| ==> sources[j].volume != volume
  {
    if sources != [] {
      var before := sources[..|sources| - 1];
      LatestNewMeans(before, volume);
      assert forall j :: 0 <= j < |before| ==> before[j] == sources[j];
      assert sources == before + [sources[|sources| - 1]];
    }
  }

  /** What one more source does to the verdict on a volume. */
  lemma VerdictStep(probe: Probe, sources: seq<Source>, s: Source, volume: string)
    ensures (s.volume != volume || exists j :: 0 <= j < |sources| && SameDevice(sources[j], s)) ==>
              Verdict(probe, sources + [s], volume) == Verdict(probe, sources, volume)
    ensures s.volume == volume && !(exists j :: 0 <= j < |sources| && SameDevice(sources[j], s)) ==>
              Verdict(probe, sources + [s], volume) ==
              if Verdict(probe, sources, volume).Err? && volume in VolumesFrom([], sources)
              then Verdict(probe, sources, volume) else ListDevice(probe, s)
  {
    hide ListDevice, VolumesFrom;
    var all := sources + [s];
    assert all[..|all| - 1] == sources;
    FirstFailingMeans(probe, sources, volume);
    LatestNewMeans(sources, volume);
    VolumesFromHolds([], sources);
    if exists j :: 0 <= j < |sources| && SameDevice(sources[j], s) {
      var j :| 0 <= j < |sources| && SameDevice(sources[j], s);
      SameDeviceSameAnswer(probe, sources[j], s);
    }
  }

  lemma SameDeviceSameAnswer(probe: Probe, s: Source, t: Source)
    requires SameDevice(s, t)
    ensures ListDevice(probe, s).Ok? <==> ListDevice(probe, t).Ok?
  {
  }

  /** One listing per volume, in first-seen order; every distinct device named
      for it is asked, the first failure stands. */
  method ListVolumes(probe: Probe, sources: seq<Source>) returns (listings: seq<Listing>)
    ensures Concludes(probe, sources, listings)
  {
    hide Verdict, ListDevice, SameDevice;
    listings := [];
    var checked: seq<(string, string)> := [];
    for i := 0 to |sources|
      invariant Concludes(probe, sources[..i], listings)
      invariant forall key :: key in checked <==>
                exists j :: 0 <= j < i && (sources[j].volume, sources[j].device) == key
    {
      var s := sources[i];
      var key := (s.volume, s.device);
      assert sources[..i + 1] == sources[..i] + [s];
      AnotherSource(probe, sources[..i], s, listings);
      assert key in checked <==> exists j :: 0 <= j < i && SameDevice(sources[..i][j], s) by {
        KeysAreDevices(sources[..i], s);
        assert forall j :: 0 <= j < i ==> sources[..i][j] == sources[j];
      }
      if key in checked { continue; }
      checked := checked + [key];
      var answer := ListDevice(probe, s);
      var at := IndexOfVolume(listings, s.volume);
      if at == |listings| {
        listings := listings + [Listing(s.volume, answer)];
      } else if listings[at].subvolumes.Ok? {
        listings := listings[at := Listing(s.volume, answer)];
      }
    }
    assert sources[..|sources|] == sources;
  }

  lemma KeysAreDevices(sources: seq<Source>, s: Source)
    ensures (exists j :: 0 <= j < |sources| && (sources[j].volume, sources[j].device) == (s.volume, s.device)) <==>
            exists j :: 0 <= j < |sources| && SameDevice(sources[j], s)
  {
    if exists j :: 0 <= j < |sources| && (sources[j].volume, sources[j].device) == (s.volume, s.device) {
      var j :| 0 <= j < |sources| && (sources[j].volume, sources[j].device) == (s.volume, s.device);
      assert SameDevice(sources[j], s);
    }
  }

  function AfterSource(probe: Probe, sources: seq<Source>, s: Source, listings: seq<Listing>): seq<Listing> {
    var at := IndexOfVolume(listings, s.volume);
    if exists j :: 0 <= j < |sources| && SameDevice(sources[j], s) then listings
    else if at == |listings| then listings + [Listing(s.volume, ListDevice(probe, s))]
    else if listings[at].subvolumes.Ok? then listings[at := Listing(s.volume, ListDevice(probe, s))]
    else listings
  }

  lemma AnotherSource(probe: Probe, sources: seq<Source>, s: Source, listings: seq<Listing>)
    requires Concludes(probe, sources, listings)
    ensures Concludes(probe, sources + [s], AfterSource(probe, sources, s, listings))
  {
    hide Verdict, ListDevice, VolumesFrom;
    var after := AfterSource(probe, sources, s, listings);
    var vs := VolumesFrom([], sources);
    VolumesFromSnoc([], sources, s);
    var at := IndexOfVolume(listings, s.volume);
    VolumesAreListed(listings, s.volume, at);
    NewDeviceSeen(sources, s);
    ListedOnce(sources, listings, at);
    forall k | 0 <= k < |after| ensures after[k].subvolumes == Verdict(probe, sources + [s], after[k].volume) {
      VerdictStep(probe, sources, s, after[k].volume);
    }
  }

  lemma VolumesAreListed(listings: seq<Listing>, volume: string, at: nat)
    requires at == IndexOfVolume(listings, volume)
    ensures volume in VolumesOf(listings) <==> at < |listings|
  {
    if volume in VolumesOf(listings) {
      var k :| 0 <= k < |VolumesOf(listings)| && VolumesOf(listings)[k] == volume;
      assert listings[k].volume == volume;
    }
    if at < |listings| { assert VolumesOf(listings)[at] == volume; }
  }

  lemma NewDeviceSeen(sources: seq<Source>, s: Source)
    ensures (exists j :: 0 <= j < |sources| && SameDevice(sources[j], s)) ==> s.volume in VolumesFrom([], sources)
  {
    VolumesFromHolds([], sources);
  }

  lemma ListedOnce(sources: seq<Source>, listings: seq<Listing>, at: nat)
    requires VolumesOf(listings) == VolumesFrom([], sources) && at < |listings| + 1
    ensures forall k :: 0 <= k < |listings| && k != at && at < |listings| ==> listings[k].volume != listings[at].volume
  {
    VolumesFromDistinct([], sources);
    assert forall k :: 0 <= k < |listings| ==> VolumesOf(listings)[k] == listings[k].volume;
  }

  /** A volume is believed exactly when every device any source names for it
      verifies; otherwise the error names the first source whose device does
      not. A believed listing begins with the top level and holds more. */
  lemma BelievedIffAllVerify(probe: Probe, sources: seq<Source>, listings: seq<Listing>, volume: string)
    requires Concludes(probe, sources, listings)
    requires exists i :: 0 <= i < |sources| && sources[i].volume == volume
    ensures OnDisk(listings, volume).Ok? <==>
            forall i :: 0 <= i < |sources| && sources[i].volume == volume ==> ListDevice(probe, sources[i]).Ok?
    ensures OnDisk(listings, volume).Err? ==>
            exists i :: 0 <= i < |sources| && sources[i].volume == volume &&
                        OnDisk(listings, volume) == ListDevice(probe, sources[i]) &&
                        forall j :: 0 <= j < i && sources[j].volume == volume ==> ListDevice(probe, sources[j]).Ok?
    ensures match OnDisk(listings, volume)
            case Ok(found) => |found| >= 2 && found[0] == TOP_LEVEL
            case Err(_) => true
  {
    hide ListDevice;
    VolumesFromHolds([], sources);
    FirstFailingMeans(probe, sources, volume);
    LatestNewMeans(sources, volume);
    assert volume in VolumesFrom([], sources);
    assert volume in VolumesOf(listings);
    var k :| 0 <= k < |VolumesOf(listings)| && VolumesOf(listings)[k] == volume;
    OnDiskIsListed(listings, volume, k);
    var j :| 0 <= j < |listings| && listings[j].volume == volume &&
                        OnDisk(listings, volume) == listings[j].subvolumes;
    assert OnDisk(listings, volume) == Verdict(probe, sources, volume);
    forall s | s in sources && ListDevice(probe, s).Ok?
      ensures |ListDevice(probe, s).value| >= 2 && ListDevice(probe, s).value[0] == TOP_LEVEL
    {
      GoodListing(probe, s);
    }
  }

  lemma GoodListing(probe: Probe, s: Source)
    requires ListDevice(probe, s).Ok?
    ensures |ListDevice(probe, s).value| >= 2 && ListDevice(probe, s).value[0] == TOP_LEVEL
  {
  }

  lemma {:induction false} OnDiskIsListed(listings: seq<Listing>, volume: string, k: nat)
    requires k < |listings| && listings[k].volume == volume
    ensures exists j :: 0 <= j < |listings| && listings[j].volume == volume &&
                        OnDisk(listings, volume) == listings[j].subvolumes
  {
    if listings[0].volume != volume {
      OnDiskIsListed(listings[1..], volume, k - 1);
      var j :| 0 <= j < |listings[1..]| && listings[1..][j].volume == volume &&
               OnDisk(listings[1..], volume) == listings[1..][j].subvolumes;
      assert listings[j + 1] == listings[1..][j];
    }
  }

  /** The device a source names answers, and with something. */
  ghost predicate Verifies(probe: Probe, s: Source) {
    probe(s.volume, s.device).Ok? && probe(s.volume, s.device).value != []
  }

  /** A device that verifies is believed as it answers, with the top level put
      first; one that does not is named, with its source and the reason. */
  lemma DeviceMeans(probe: Probe, s: Source)
    ensures Verifies(probe, s) ==> ListDevice(probe, s) == Ok(["."] + probe(s.volume, s.device).value)
    ensures ListDevice(probe, s).Err? <==> !Verifies(probe, s)
    ensures probe(s.volume, s.device).Err? ==>
              ListDevice(probe, s).error ==
              "source '" + s.tag + "' names device '" + s.device + "': " + probe(s.volume, s.device).error
  {
  }

  /** Source `i` is the last on the volume to name a device no earlier source
      there names. */
  ghost predicate LastNewDevice(sources: seq<Source>, volume: string, i: nat) {
    NewDevice(sources, volume, i) && forall j: nat :: NewDevice(sources, volume, j) ==> j <= i
  }

  ghost predicate NewDevice(sources: seq<Source>, volume: string, i: nat) {
    i < |sources| && sources[i].volume == volume &&
    forall j :: 0 <= j < i ==> sources[j].volume != volume || sources[j].device != sources[i].device
  }

  lemma NewDevicesWith(before: seq<Source>, s: Source, v: string)
    ensures forall i: nat :: NewDevice(before, v, i) ==> i < |before| && NewDevice(before + [s], v, i)
    ensures forall i: nat :: NewDevice(before + [s], v, i) && i != |before| ==> NewDevice(before, v, i)
    ensures NewDevice(before + [s], v, |before|) <==>
            s.volume == v && !(exists j :: 0 <= j < |before| && SameDevice(before[j], s))
  {
    var all := before + [s];
    assert forall j :: 0 <= j < |before| ==> all[j] == before[j];
    assert all[|before|] == s;
    if NewDevice(all, v, |before|) {
      forall j | 0 <= j < |before| ensures !SameDevice(before[j], s) { assert all[j] == before[j]; }
    }
    if s.volume == v && !(exists j :: 0 <= j < |before| && SameDevice(before[j], s)) {
      forall j | 0 <= j < |before| ensures before[j].volume != v || before[j].device != s.device {
        assert !SameDevice(before[j], s);
      }
    }
  }

  lemma {:induction false} LatestNewIs(sources: seq<Source>, volume: string)
    ensures match LatestNew(sources, volume)
            case Some(s) => exists i: nat :: LastNewDevice(sources, volume, i) && s == sources[i]
            case None => forall i: nat :: !NewDevice(sources, volume, i)
  {
    if sources != [] {
      var before, s := sources[..|sources| - 1], sources[|sources| - 1];
      LatestNewIs(before, volume);
      assert sources == before + [s];
      NewDevicesWith(before, s, volume);
      hide NewDevice, SameDevice;
      assert forall i :: 0 <= i < |before| ==> before[i] == sources[i];
      NewDevicesAreIn(sources, volume);
      if NewDevice(sources, volume, |before|) { assert LastNewDevice(sources, volume, |before|); }
    }
  }

  lemma NewDevicesAreIn(sources: seq<Source>, volume: string)
    ensures forall i: nat :: NewDevice(sources, volume, i) ==> i < |sources|
  {
  }

  /** What is believed of a volume, word for word: the answer of the device
      last heard of for the first time, the top level first; and it is
      believed exactly when no device any source names for it fails. */
  lemma ListingIs(probe: Probe, sources: seq<Source>, listings: seq<Listing>, volume: string)
    requires Concludes(probe, sources, listings)
    requires exists i :: 0 <= i < |sources| && sources[i].volume == volume
    ensures OnDisk(listings, volume).Ok? <==>
            forall i :: 0 <= i < |sources| && sources[i].volume == volume ==> Verifies(probe, sources[i])
    ensures OnDisk(listings, volume).Ok? ==>
              exists i: nat :: LastNewDevice(sources, volume, i) && i < |sources| && Verifies(probe, sources[i]) &&
                OnDisk(listings, volume).value == ["."] + probe(volume, sources[i].device).value
  {
    hide ListDevice, NewDevice, SameDevice, LastNewDevice, Verifies;
    BelievedIffAllVerify(probe, sources, listings, volume);
    forall s ensures ListDevice(probe, s).Ok? <==> Verifies(probe, s) { DeviceMeans(probe, s); }
    if OnDisk(listings, volume).Ok? {
      LatestNewIs(sources, volume);
      VerdictIsListed(probe, sources, listings, volume);
      BelievedIsLatest(probe, sources, volume);
    }
  }

  lemma VerdictIsListed(probe: Probe, sources: seq<Source>, listings: seq<Listing>, volume: string)
    requires Concludes(probe, sources, listings)
    requires exists i :: 0 <= i < |sources| && sources[i].volume == volume
    ensures OnDisk(listings, volume) == Verdict(probe, sources, volume)
  {
    hide Verdict;
    VolumesFromHolds([], sources);
    assert volume in VolumesOf(listings);
    var k :| 0 <= k < |VolumesOf(listings)| && VolumesOf(listings)[k] == volume;
    OnDiskIsListed(listings, volume, k);
  }

  lemma BelievedIsLatest(probe: Probe, sources: seq<Source>, volume: string)
    requires Verdict(probe, sources, volume).Ok?
    ensures exists i: nat :: LastNewDevice(sources, volume, i) && i < |sources| && Verifies(probe, sources[i]) &&
              Verdict(probe, sources, volume).value == ["."] + probe(volume, sources[i].device).value
  {
    FirstFailingMeans(probe, sources, volume);
    LatestNewIs(sources, volume);
    hide ListDevice, SameDevice;
    var s := LatestNew(sources, volume).value;
    var i: nat :| LastNewDevice(sources, volume, i) && s == sources[i];
    DeviceMeans(probe, s);
  }
}
