/** Device records, matching, display and discovery (the newer library, `src/device.rs`). */
module Devices {
  import opened Results
  import opened Text
  import opened Registry
  import opened Sequences

  datatype Status = Online | Offline

  function FromBool(online: bool): (s: Status)
    ensures s.Online? <==> online
  {
    if online then Online else Offline
  }

  /** `Display` of a status. */
  function StatusLabel(s: Status): (r: string)
    ensures r == "online" <==> s.Online?
    ensures r == "offline" <==> s.Offline?
  {
    match s
    case Online => "online"
    case Offline => "offline"
  }

  datatype Device = Device(port: string, name: string, status: Status)

  /** Whether the port or the name equals (`exact`) or contains `search`. */
  function Matches(d: Device, search: string, exact: bool): (r: bool)
    ensures exact ==> (r <==> d.port == search || d.name == search)
    ensures !exact ==> (r <==> Occurs(d.port, search) || Occurs(d.name, search))
  {
    if exact then d.port == search || d.name == search
    else Contains(d.port, search) || Contains(d.name, search)
  }

  lemma ExactMatchImpliesSubstring(d: Device, search: string)
    ensures Matches(d, search, true) ==> Matches(d, search, false)
  {
    if d.port == search {
      assert OccursAt(d.port, search, 0);
    }
    if d.name == search {
      assert OccursAt(d.name, search, 0);
    }
  }

  lemma EmptySearchMatchesAll(d: Device)
    ensures Matches(d, "", false)
  {
    assert OccursAt(d.port, "", 0);
  }

  /** The `{port:<5} ({tag}): {name}` layout, position by position. */
  ghost predicate LaidOut(r: string, port: string, tag: string, name: string) {
    var w := if |port| < 5 then 5 else |port|;
    && |r| == w + |tag| + 5 + |name|
    && r[..|port|] == port
    && (forall i :: |port| <= i < w ==> r[i] == ' ')
    && r[w..w + 2] == " ("
    && r[w + 2..w + 2 + |tag|] == tag
    && r[w + 2 + |tag|..w + 5 + |tag|] == "): "
    && r[w + 5 + |tag|..] == name
  }

  function Line(port: string, tag: string, name: string): (r: string)
    ensures LaidOut(r, port, tag, name)
  {
    var p := PadRight(port, 5);
    var w := |p|;
    var r := p + " (" + tag + "): " + name;
    assert r[..w] == p;
    assert r[..|port|] == p[..|port|];
    assert forall i :: |port| <= i < w ==> r[i] == p[i];
    assert r[w..w + 2] == " (";
    assert r[w + 2..w + 2 + |tag|] == tag;
    assert r[w + 2 + |tag|..w + 5 + |tag|] == "): ";
    assert r[w + 5 + |tag|..] == name;
    r
  }

  /** `Display` of a device. */
  function Render(d: Device): (r: string)
    ensures LaidOut(r, d.port, StatusLabel(d.status), d.name)
  {
    Line(d.port, StatusLabel(d.status), d.name)
  }

  /** `d` is the record discovery builds for entry `e`. */
  ghost predicate BuiltFrom(d: Device, e: Entry, drivers: set<string>) {
    && e.Listed? && e.metadata == Ok(Directory) && e.product.ProductText?
    && d.port == e.name
    && d.name == Trim(e.product.text)
    && (d.status == Online <==> e.name in drivers)
  }

  /** What one listed entry contributes to discovery: nothing, a device, or an error. */
  function DiscoverEntry(e: Entry, drivers: set<string>): (r: Option<Result<Device, DiscoveryError>>)
    ensures e.FetchFailed? ==> r == Some(Err(FetchEntry(e.cause)))
    ensures Vanished(e) ==> r.None?
    ensures e.Listed? && e.metadata.Err? && e.metadata.error != NotFound
            ==> r == Some(Err(Metadata(e.name, e.metadata.error)))
    ensures e.Listed? && e.metadata == Ok(NotDirectory) ==> r.None?
    ensures e.Listed? && e.metadata == Ok(Directory) && e.product.NoProduct? ==> r.None?
    ensures e.Listed? && e.metadata == Ok(Directory) && e.product.ProductText? ==> r.Some? && r.value.Ok?
    ensures e.Listed? && e.metadata == Ok(Directory) && e.product.ProductUnreadable?
            ==> r == Some(Err(ReadFile(e.name, e.product.cause)))
    ensures r.Some? && r.value.Ok? ==> BuiltFrom(r.value.value, e, drivers)
  {
    match e
    case FetchFailed(cause) => Some(Err(FetchEntry(cause)))
    case Listed(name, metadata, product) =>
      match metadata
      case Err(NotFound) => None
      case Err(cause) => Some(Err(Metadata(name, cause)))
      case Ok(NotDirectory) => None
      case Ok(Directory) =>
        match product
        case NoProduct => None
        case ProductUnreadable(cause) => Some(Err(ReadFile(name, cause)))
        case ProductText(text) => Some(Ok(Device(name, Trim(text), FromBool(name in drivers))))
  }

  /** `DiscoverEntry` for a fixed driver registry, as `filter_map` is given it. */
  function Entrywise(drivers: set<string>): Entry -> Option<Result<Device, DiscoveryError>> {
    e => DiscoverEntry(e, drivers)
  }

  /** The discovery sequence over a listing: `filter_map` of `DiscoverEntry`. */
  function Elements(entries: seq<Entry>, drivers: set<string>): (r: seq<Result<Device, DiscoveryError>>)
    ensures |r| <= |entries|
    ensures forall i :: 0 <= i < |entries| && DiscoverEntry(entries[i], drivers).Some? ==>
              DiscoverEntry(entries[i], drivers).value in r
  {
    FilterMap(entries, Entrywise(drivers))
  }

  /** For each element of the discovery sequence, the listing position it
      comes from: positions increase, so elements follow the listing order,
      and every entry that yields something is represented. */
  function Origins(entries: seq<Entry>, drivers: set<string>): (idx: seq<nat>)
    ensures var xs := Elements(entries, drivers);
            && |idx| == |xs|
            && forall k :: 0 <= k < |idx| ==> idx[k] < |entries| && DiscoverEntry(entries[idx[k]], drivers) == Some(xs[k])
    ensures Increasing(idx)
    ensures forall i :: 0 <= i < |entries| && DiscoverEntry(entries[i], drivers).Some? ==> i in idx
  {
    Sequences.Origins(entries, Entrywise(drivers))
  }

  /** `discover`: an error when the root cannot be opened, otherwise the discovery sequence. */
  function Discover(s: Snapshot): (r: Result<seq<Result<Device, DiscoveryError>>, OpenError>)
    ensures s.root.OpenFailed? <==> r.Err?
    ensures r.Err? ==> r.error == OpenDir(s.root.cause)
    ensures r.Ok? ==> r.value == Elements(s.root.entries, s.drivers)
  {
    match s.root
    case OpenFailed(cause) => Err(OpenDir(cause))
    case Opened(entries) => Ok(Elements(entries, s.drivers))
  }

  /** A directory `1-1` whose product file reads "Example Mouse\n", with no driver bound. */
  lemma DiscoverSingleMouse()
    ensures Discover(Snapshot(Opened([Listed("1-1", Ok(Directory), ProductText("Example Mouse\n"))]), {}))
            == Ok([Ok(Device("1-1", "Example Mouse", Offline))])
  {
    var e := Listed("1-1", Ok(Directory), ProductText("Example Mouse\n"));
    var text := "Example Mouse\n";
    var name := "Example Mouse";
    assert text[0..|name|] == name;
    assert IsWhitespace(text[13]);
    assert FramedBy(text, 0, name);
    TrimUnique(text, 0, name);
    assert DiscoverEntry(e, {}) == Some(Ok(Device("1-1", name, Offline)));
    assert [e][1..] == [];
    assert Elements([e], {}) == [Ok(Device("1-1", name, Offline))] + Elements([], {});
    assert Discover(Snapshot(Opened([e]), {})) == Ok(Elements([e], {}));
    assert Elements([], {}) == [];
    assert Elements([e], {}) == [Ok(Device("1-1", name, Offline))];
  }

  /** An entry that vanished before its metadata could be read is left out without an error. */
  lemma DiscoverSkipsVanished(entries: seq<Entry>, drivers: set<string>, i: nat)
    requires i < |entries| && Vanished(entries[i])
    ensures i !in Origins(entries, drivers)
  {
  }
}
