/** The older library interface (`src/lib.rs`): a device with a boolean status,
    discovery that reports vanished entries as errors, and `find_device`. */
module Legacy {
  import opened Results
  import opened Text
  import opened Registry
  import opened Sequences
  import Devices

  datatype LegacyDevice = LegacyDevice(port: string, name: string, online: bool)

  /** The same device as a record of the newer library. */
  function Modern(d: LegacyDevice): Devices.Device {
    Devices.Device(d.port, d.name, Devices.FromBool(d.online))
  }

  /** Whether the port or the name equals (`exact`) or contains `search`:
      the same test as the newer library's. */
  function Matches(d: LegacyDevice, search: string, exact: bool): (r: bool)
    ensures r == Devices.Matches(Modern(d), search, exact)
  {
    if exact then d.port == search || d.name == search
    else Contains(d.port, search) || Contains(d.name, search)
  }

  function ActiveLabel(online: bool): (r: string)
    ensures |r| == 8
    ensures r == " active " <==> online
    ensures r == "inactive" <==> !online
  {
    if online then " active " else "inactive"
  }

  /** `Display`: both labels are eight characters wide, so for ports of up to
      five characters the name always starts at column 18. */
  function Render(d: LegacyDevice): (r: string)
    ensures Devices.LaidOut(r, d.port, ActiveLabel(d.online), d.name)
    ensures |d.port| <= 5 ==> |r| == 18 + |d.name| && r[18..] == d.name
  {
    Devices.Line(d.port, ActiveLabel(d.online), d.name)
  }

  /** What one listed entry contributes: any metadata failure, "not found"
      included, is an error element. */
  function DiscoverEntry(e: Entry, drivers: set<string>): (r: Option<Result<LegacyDevice, DiscoveryError>>)
    ensures e.FetchFailed? ==> r == Some(Err(FetchEntry(e.cause)))
    ensures e.Listed? && e.metadata.Err? ==> r == Some(Err(Metadata(e.name, e.metadata.error)))
    ensures e.Listed? && e.metadata == Ok(NotDirectory) ==> r.None?
    ensures e.Listed? && e.metadata == Ok(Directory) && e.product.NoProduct? ==> r.None?
    ensures e.Listed? && e.metadata == Ok(Directory) && e.product.ProductText? ==> r.Some? && r.value.Ok?
    ensures e.Listed? && e.metadata == Ok(Directory) && e.product.ProductUnreadable?
            ==> r == Some(Err(ReadFile(e.name, e.product.cause)))
    ensures r.Some? && r.value.Ok? ==> Devices.BuiltFrom(Modern(r.value.value), e, drivers)
  {
    match e
    case FetchFailed(cause) => Some(Err(FetchEntry(cause)))
    case Listed(name, metadata, product) =>
      match metadata
      case Err(cause) => Some(Err(Metadata(name, cause)))
      case Ok(NotDirectory) => None
      case Ok(Directory) =>
        match product
        case NoProduct => None
        case ProductUnreadable(cause) => Some(Err(ReadFile(name, cause)))
        case ProductText(text) =>
          var d := LegacyDevice(name, Trim(text), name in drivers);
          assert Modern(d) == Devices.Device(name, Trim(text), Devices.FromBool(name in drivers));
          Some(Ok(d))
  }

  /** `DiscoverEntry` for a fixed driver registry, as `filter_map` is given it. */
  function Entrywise(drivers: set<string>): Entry -> Option<Result<LegacyDevice, DiscoveryError>> {
    e => DiscoverEntry(e, drivers)
  }

  /** The discovery sequence over a listing: `filter_map` of `DiscoverEntry`. */
  function Elements(entries: seq<Entry>, drivers: set<string>): (r: seq<Result<LegacyDevice, DiscoveryError>>)
    ensures |r| <= |entries|
    ensures forall i :: 0 <= i < |entries| && DiscoverEntry(entries[i], drivers).Some? ==>
              DiscoverEntry(entries[i], drivers).value in r
  {
    FilterMap(entries, Entrywise(drivers))
  }

  /** For each element of the older discovery sequence, the listing position
      it comes from: vanished entries included, elements follow the listing
      order, and every entry that yields something is represented. */
  function Origins(entries: seq<Entry>, drivers: set<string>): (idx: seq<nat>)
    ensures var xs := Elements(entries, drivers);
            && |idx| == |xs|
            && forall k :: 0 <= k < |idx| ==> idx[k] < |entries| && DiscoverEntry(entries[idx[k]], drivers) == Some(xs[k])
    ensures Increasing(idx)
    ensures forall i :: 0 <= i < |entries| && DiscoverEntry(entries[i], drivers).Some? ==> i in idx
  {
    Sequences.Origins(entries, Entrywise(drivers))
  }

  /** `discover_devices`. */
  function DiscoverDevices(s: Snapshot): (r: Result<seq<Result<LegacyDevice, DiscoveryError>>, OpenError>)
    ensures s.root.OpenFailed? <==> r.Err?
    ensures r.Err? ==> r.error == OpenDir(s.root.cause)
    ensures r.Ok? ==> r.value == Elements(s.root.entries, s.drivers)
  {
    match s.root
    case OpenFailed(cause) => Err(OpenDir(cause))
    case Opened(entries) => Ok(Elements(entries, s.drivers))
  }

  /** One discovery element of the older version, in the newer version's terms. */
  function Lift(y: Result<LegacyDevice, DiscoveryError>): Result<Devices.Device, DiscoveryError> {
    if y.Ok? then Ok(Modern(y.value)) else Err(y.error)
  }

  function Upgrade(xs: seq<Result<LegacyDevice, DiscoveryError>>): (r: seq<Result<Devices.Device, DiscoveryError>>)
    ensures |r| == |xs|
    ensures forall i :: 0 <= i < |xs| ==> r[i] == Lift(xs[i])
  {
    seq(|xs|, i requires 0 <= i < |xs| => Lift(xs[i]))
  }

  lemma UpgradeCons(y: Result<LegacyDevice, DiscoveryError>, xs: seq<Result<LegacyDevice, DiscoveryError>>)
    ensures Upgrade([y] + xs) == [Lift(y)] + Upgrade(xs)
  {
    assert forall i :: 1 <= i <= |xs| ==> ([y] + xs)[i] == xs[i - 1];
  }

  /** On an entry that has not vanished, both versions yield the same element. */
  lemma EntryAgrees(e: Entry, drivers: set<string>)
    requires !Vanished(e)
    ensures Devices.DiscoverEntry(e, drivers).Some? <==> DiscoverEntry(e, drivers).Some?
    ensures DiscoverEntry(e, drivers).Some? ==>
              Devices.DiscoverEntry(e, drivers).value == Lift(DiscoverEntry(e, drivers).value)
  {
  }

  function Present(entries: seq<Entry>): (r: seq<Entry>)
    ensures |r| <= |entries|
    ensures forall e :: e in r <==> e in entries && !Vanished(e)
  {
    if |entries| == 0 then []
    else if Vanished(entries[0]) then Present(entries[1..])
    else [entries[0]] + Present(entries[1..])
  }

  /** The two discovery versions agree except on vanished entries: the newer
      one leaves them out, the older one reports them as errors. */
  lemma {:induction false} NewerDiscoverySkipsVanished(entries: seq<Entry>, drivers: set<string>)
    ensures Devices.Elements(entries, drivers) == Upgrade(Elements(Present(entries), drivers))
    decreases |entries|
  {
    if |entries| > 0 {
      var e := entries[0];
      NewerDiscoverySkipsVanished(entries[1..], drivers);
      if !Vanished(e) {
        var p := Present(entries);
        assert p[0] == e && p[1..] == Present(entries[1..]);
        EntryAgrees(e, drivers);
        var y := DiscoverEntry(e, drivers);
        if y.Some? {
          UpgradeCons(y.value, Elements(Present(entries[1..]), drivers));
        }
      }
    }
  }

  /** Without vanished entries, both versions discover the same devices. */
  lemma SameDiscoveryWithoutVanished(entries: seq<Entry>, drivers: set<string>)
    requires forall i :: 0 <= i < |entries| ==> !Vanished(entries[i])
    ensures Devices.Elements(entries, drivers) == Upgrade(Elements(entries, drivers))
  {
    PresentKeepsAll(entries);
    NewerDiscoverySkipsVanished(entries, drivers);
  }

  lemma {:induction false} PresentKeepsAll(entries: seq<Entry>)
    requires forall i :: 0 <= i < |entries| ==> !Vanished(entries[i])
    ensures Present(entries) == entries
    decreases |entries|
  {
    if |entries| > 0 {
      PresentKeepsAll(entries[1..]);
    }
  }

  /** An element `find_device` stops at: an error, or a matching device. */
  predicate Stops(x: Result<LegacyDevice, DiscoveryError>, search: string, exact: bool) {
    x.Err? || Matches(x.value, search, exact)
  }

  /** The position of the first element `find_device` stops at, or `|xs|`. */
  function StopIndex(xs: seq<Result<LegacyDevice, DiscoveryError>>, search: string, exact: bool): (k: nat)
    ensures k <= |xs|
    ensures forall i :: 0 <= i < k ==> xs[i].Ok? && !Matches(xs[i].value, search, exact)
    ensures k < |xs| ==> xs[k].Err? || Matches(xs[k].value, search, exact)
  {
    if |xs| == 0 then 0
    else if Stops(xs[0], search, exact) then 0
    else 1 + StopIndex(xs[1..], search, exact)
  }

  /** The loop of `find_device` over the discovery sequence. */
  function FindIn(xs: seq<Result<LegacyDevice, DiscoveryError>>, search: string, exact: bool): (r: Result<Option<LegacyDevice>, DiscoveryError>)
    ensures r.Ok? && r.value.Some? ==> Ok(r.value.value) in xs && Matches(r.value.value, search, exact)
    ensures r.Err? ==> Err(r.error) in xs
    ensures r == Ok(None) ==> forall i :: 0 <= i < |xs| ==> xs[i].Ok? && !Matches(xs[i].value, search, exact)
  {
    if |xs| == 0 then Ok(None)
    else match xs[0]
      case Err(e) => Err(e)
      case Ok(d) =>
        if Matches(d, search, exact) then Ok(Some(d))
        else
          assert forall i :: 1 <= i < |xs| ==> xs[i] == xs[1..][i - 1];
          FindIn(xs[1..], search, exact)
  }

  /** `find_device` answers with the first element that is an error or a
      match, and with `None` exactly when there is no such element. */
  lemma {:induction false} FindStopsAtFirst(xs: seq<Result<LegacyDevice, DiscoveryError>>, search: string, exact: bool)
    ensures var k := StopIndex(xs, search, exact);
            FindIn(xs, search, exact) ==
              if k == |xs| then Ok(None)
              else if xs[k].Err? then Err(xs[k].error)
              else Ok(Some(xs[k].value))
    decreases |xs|
  {
    if |xs| > 0 && !Stops(xs[0], search, exact) {
      FindStopsAtFirst(xs[1..], search, exact);
    }
  }

  /** Elements after the one `find_device` stops at are never examined. */
  lemma {:induction false} FindIgnoresRest(xs: seq<Result<LegacyDevice, DiscoveryError>>, ys: seq<Result<LegacyDevice, DiscoveryError>>, search: string, exact: bool)
    requires StopIndex(xs, search, exact) < |xs|
    ensures FindIn(xs + ys, search, exact) == FindIn(xs, search, exact)
    decreases |xs|
  {
    assert (xs + ys)[0] == xs[0];
    if !Stops(xs[0], search, exact) {
      assert (xs + ys)[1..] == xs[1..] + ys;
      FindIgnoresRest(xs[1..], ys, search, exact);
    }
  }

  /** The loop answers `None` exactly when every element is a non-matching
      device; otherwise it answers the element it stops at. */
  lemma FindInStops(xs: seq<Result<LegacyDevice, DiscoveryError>>, search: string, exact: bool)
    ensures var r := FindIn(xs, search, exact);
            var k := StopIndex(xs, search, exact);
            && (r == Ok(None) <==> forall i :: 0 <= i < |xs| ==> xs[i].Ok? && !Matches(xs[i].value, search, exact))
            && (r.Ok? && r.value.Some? ==> k < |xs| && xs[k] == Ok(r.value.value) && Matches(r.value.value, search, exact))
            && (r.Err? ==> k < |xs| && xs[k] == Err(r.error))
  {
    FindStopsAtFirst(xs, search, exact);
    var k := StopIndex(xs, search, exact);
    if k < |xs| {
      assert !(xs[k].Ok? && !Matches(xs[k].value, search, exact));
    }
  }

  datatype LookupError = CannotOpen(open: OpenError) | BadEntry(entry: DiscoveryError)

  /** `find_device`: the first discovered device that matches. */
  function FindDevice(s: Snapshot, search: string, exact: bool): (r: Result<Option<LegacyDevice>, LookupError>)
    ensures s.root.OpenFailed? ==> r == Err(CannotOpen(OpenDir(s.root.cause)))
    ensures r.Ok? && r.value.Some? ==> Matches(r.value.value, search, exact)
    ensures s.root.Opened? ==>
              var xs := Elements(s.root.entries, s.drivers);
              var k := StopIndex(xs, search, exact);
              && (r == Ok(None) <==> forall i :: 0 <= i < |xs| ==> xs[i].Ok? && !Matches(xs[i].value, search, exact))
              && (r.Ok? && r.value.Some? ==> k < |xs| && xs[k] == Ok(r.value.value))
              && (r.Err? ==> r.error.BadEntry? && k < |xs| && xs[k] == Err(r.error.entry))
  {
    match DiscoverDevices(s)
    case Err(e) => Err(CannotOpen(e))
    case Ok(xs) =>
      assert xs == Elements(s.root.entries, s.drivers);
      FindInStops(xs, search, exact);
      match FindIn(xs, search, exact)
      case Ok(found) => Ok(found)
      case Err(e) => Err(BadEntry(e))
  }

  /** A vanished entry listed before the device searched for makes
      `find_device` fail, although a later entry matches. */
  lemma VanishedEntryStopsFind()
    ensures var s := Snapshot(Opened([Listed("1-0", Err(NotFound), NoProduct),
                                      Listed("1-1", Ok(Directory), ProductText("Mouse"))]), {});
            FindDevice(s, "1-1", true) == Err(BadEntry(Metadata("1-0", NotFound)))
  {
    var e0 := Listed("1-0", Err(NotFound), NoProduct);
    var entries := [e0, Listed("1-1", Ok(Directory), ProductText("Mouse"))];
    var xs := Elements(entries, {});
    assert Entrywise({})(e0) == Some(Err(Metadata("1-0", NotFound)));
    assert xs == [Err(Metadata("1-0", NotFound))] + FilterMap(entries[1..], Entrywise({}));
    assert FindIn(xs, "1-1", true) == Err(Metadata("1-0", NotFound));
    assert DiscoverDevices(Snapshot(Opened(entries), {})) == Ok(xs);
  }
}
