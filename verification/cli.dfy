/** The newer front-end (`cli/src/main.rs`): the `DeviceMatch` filter, the
    privilege step, `list`, and `on`/`off`/`toggle` through the action
    pipeline. */
module Cli {
  import opened Results
  import opened Text
  import opened Registry
  import opened Devices
  import opened Filters
  import opened Effects
  import opened Actions
  import opened Privileges
  import opened Sequences

  /** Host controllers and hubs: a name containing "Host" or "host" (only those two spellings). */
  function IsHostName(name: string): (r: bool)
    ensures r <==> Occurs(name, "Host") || Occurs(name, "host")
  {
    Contains(name, "Host") || Contains(name, "host")
  }

  datatype DeviceMatch = DeviceMatch(search: seq<string>, exact: bool, allowHost: bool)

  function AnyMatches(d: Device, searches: seq<string>, exact: bool): (r: bool)
    ensures r <==> exists i :: 0 <= i < |searches| && Matches(d, searches[i], exact)
  {
    if |searches| == 0 then false
    else if Matches(d, searches[0], exact) then true
    else
      assert forall i :: 1 <= i < |searches| ==> searches[i] == searches[1..][i - 1];
      AnyMatches(d, searches[1..], exact)
  }

  /** `DeviceMatch::filter`: no search string selects nothing, a host device is
      never selected unless allowed, and otherwise some search string must match. */
  function Selects(m: DeviceMatch, d: Device): (r: bool)
    ensures r <==> && |m.search| > 0
                   && (m.allowHost || !(Occurs(d.name, "Host") || Occurs(d.name, "host")))
                   && exists i :: 0 <= i < |m.search| && Matches(d, m.search[i], m.exact)
  {
    if |m.search| == 0 || (!m.allowHost && IsHostName(d.name)) then false
    else AnyMatches(d, m.search, m.exact)
  }

  /** `DeviceMatch` handed to the pipeline as a filter. */
  function AsFilter(m: DeviceMatch): (f: Filter)
    ensures forall d :: Accepts(f, d) == Selects(m, d)
  {
    Closure(d => Selects(m, d), 0)
  }

  /** A name spelled "HOST" does not count as a host device. */
  lemma UppercaseHostIsSelectable()
    ensures Selects(DeviceMatch(["USB"], false, false), Device("1-1", "USB HOST", Online))
  {
    var name := "USB HOST";
    assert OccursAt(name, "USB", 0);
    assert !Occurs(name, "Host") && !Occurs(name, "host") by {
      forall i ensures !OccursAt(name, "Host", i) && !OccursAt(name, "host", i) {
        if 0 <= i <= 4 {
          assert name[i..i + 4][0] == name[i];
          assert name[i..i + 4][1] == name[i + 1];
        }
      }
    }
  }

  datatype Command = List | Act(action: Action, search: seq<string>, exact: bool)

  datatype Options = Options(rootIsOk: bool, uid: Option<nat>, gid: Option<nat>, allowHost: bool, command: Command)

  datatype Failure =
    | Privilege(step: StepFailure)
    | LookingForDevices(open: OpenError)
    | CollectingDevices(entry: DiscoveryError)
    | Pipeline(run: RunError)

  /** The `list` output: the count it announces and the devices it prints. */
  datatype Listing = Listing(count: nat, shown: seq<Device>)

  datatype Outcome = Outcome(listing: Option<Listing>, events: seq<Event<Device>>, failure: Option<Failure>)

  /** `list` leaves a host device out unless hosts are allowed. */
  function Hidden(d: Device, allowHost: bool): (r: bool)
    ensures r <==> !allowHost && (Occurs(d.name, "Host") || Occurs(d.name, "host"))
  {
    !allowHost && IsHostName(d.name)
  }

  /** Whether `list` prints a device, as `filter_map` is given it. */
  function Shown(allowHost: bool): Device -> Option<Device> {
    d => if Hidden(d, allowHost) then None else Some(d)
  }

  /** The devices `list` prints, in discovery order. */
  function Visible(ds: seq<Device>, allowHost: bool): (r: seq<Device>)
    ensures |r| <= |ds|
    ensures forall d :: d in r <==> d in ds && !Hidden(d, allowHost)
    ensures allowHost ==> r == ds
    ensures (exists i :: 0 <= i < |ds| && Hidden(ds[i], allowHost)) ==> |r| < |ds|
  {
    var r := FilterMap(ds, Shown(allowHost));
    assert forall d :: d in r <==> d in ds && !Hidden(d, allowHost) by {
      forall d ensures d in r <==> d in ds && !Hidden(d, allowHost) {
        Members(ds, Shown(allowHost), d);
      }
    }
    if allowHost then KeepsAll(ds, Shown(allowHost)); r else r
  }

  /** For each printed device, its position in the discovered list: `list`
      prints the visible devices in discovery order, each once. */
  function VisibleOrigins(ds: seq<Device>, allowHost: bool): (idx: seq<nat>)
    ensures var r := Visible(ds, allowHost);
            && |idx| == |r|
            && forall k :: 0 <= k < |idx| ==> idx[k] < |ds| && r[k] == ds[idx[k]]
    ensures Increasing(idx)
    ensures forall i :: 0 <= i < |ds| && !Hidden(ds[i], allowHost) ==> i in idx
  {
    Sequences.Origins(ds, Shown(allowHost))
  }

  /** The devices collected from a discovery sequence are exactly its Ok values. */
  lemma CollectedDevices(xs: seq<Result<Device, DiscoveryError>>, ds: seq<Device>, allowHost: bool)
    requires Collect(xs) == Ok(ds)
    ensures |ds| == |xs|
    ensures forall d :: d in ds <==> Ok(d) in xs
    ensures (exists d :: Ok(d) in xs && Hidden(d, allowHost)) ==> exists i :: 0 <= i < |ds| && Hidden(ds[i], allowHost)
  {
    forall d ensures d in ds <==> Ok(d) in xs {
      if Ok(d) in xs {
        var i :| 0 <= i < |xs| && xs[i] == Ok(d);
        assert ds[i] == d;
      }
    }
    if exists d :: Ok(d) in xs && Hidden(d, allowHost) {
      var d :| Ok(d) in xs && Hidden(d, allowHost);
      var i :| 0 <= i < |xs| && xs[i] == Ok(d);
      assert ds[i] == d;
    }
  }

  /** `list`: fails on the first discovery error before printing anything;
      otherwise announces every device, hidden ones included, and prints the
      ones that are not hidden. */
  function ListDevices(s: Snapshot, allowHost: bool): (r: Result<Listing, Failure>)
    ensures s.root.OpenFailed? ==> r == Err(LookingForDevices(OpenDir(s.root.cause)))
    ensures s.root.Opened? ==>
              var xs := Elements(s.root.entries, s.drivers);
              && (r.Ok? <==> forall i :: 0 <= i < |xs| ==> xs[i].Ok?)
              && (r.Ok? ==> r.value.count == |xs|)
              && (r.Ok? ==> forall d :: d in r.value.shown <==> Ok(d) in xs && !Hidden(d, allowHost))
              && (r.Ok? ==> |r.value.shown| <= r.value.count)
              && (r.Ok? && (exists d :: Ok(d) in xs && Hidden(d, allowHost)) ==> |r.value.shown| < r.value.count)
              && (r.Err? ==> FirstErr(xs) < |xs| && r.error == CollectingDevices(xs[FirstErr(xs)].error))
              && (r.Ok? ==> Collect(xs).Ok? && r.value.shown == Visible(Collect(xs).value, allowHost))
  {
    match Discover(s)
    case Err(e) => Err(LookingForDevices(e))
    case Ok(xs) =>
      match Collect(xs)
      case Err(e) => Err(CollectingDevices(e))
      case Ok(ds) =>
        assert xs == Elements(s.root.entries, s.drivers);
        CollectedDevices(xs, ds, allowHost);
        Ok(Listing(|ds|, Visible(ds, allowHost)))
  }

  /** `on`, `off` and `toggle`: the pipeline over the discovered devices,
      filtered by the search strings. */
  function ActOn(action: Action, m: DeviceMatch, s: Snapshot, ok: Write -> bool): (r: Outcome)
    ensures r.listing.None?
    ensures s.root.OpenFailed? ==> r == Outcome(None, [], Some(LookingForDevices(OpenDir(s.root.cause))))
    ensures s.root.Opened? ==>
              var xs := Elements(s.root.entries, s.drivers);
              var run := Run(Apply(xs, AsFilter(m)), action, ok);
              && |r.events| <= |xs|
              && r.events == run.events
              && (r.failure.None? <==> run.error.None?)
              && (run.error.Some? ==> r.failure == Some(Pipeline(run.error.value)))
  {
    match Discover(s)
    case Err(e) => Outcome(None, [], Some(LookingForDevices(e)))
    case Ok(xs) =>
      var r := Run(WithFilter(New(xs), AsFilter(m)), action, ok);
      Outcome(None, r.events, if r.error.Some? then Some(Pipeline(r.error.value)) else None)
  }

  function Execute(o: Options, h: Host): Outcome {
    match o.command
    case List =>
      (match ListDevices(h.registry, o.allowHost)
       case Ok(l) => Outcome(Some(l), [], None)
       case Err(f) => Outcome(None, [], Some(f)))
    case Act(action, search, exact) =>
      ActOn(action, DeviceMatch(search, exact, o.allowHost), h.registry, h.writeOk)
  }

  /** `run`: the privilege step, then the command. */
  function RunCli(o: Options, h: Host): (r: Outcome)
    ensures var p := PrivilegeStep(o.rootIsOk, h.isRoot, o.uid, o.gid);
            && (p.Rejected? ==> r == Outcome(None, [], Some(Privilege(Denied(p.reason)))))
            && (p.DropTo? && !h.dropSucceeds ==> r == Outcome(None, [], Some(Privilege(DropFailed))))
            && ((p.Unchanged? || h.dropSucceeds) && !p.Rejected? ==> r == Execute(o, h))
  {
    match Gate(o.rootIsOk, h.isRoot, o.uid, o.gid, h.dropSucceeds)
    case Some(stop) => Outcome(None, [], Some(Privilege(stop)))
    case None => Execute(o, h)
  }

  /** A root run without usable ids writes nothing and lists nothing. */
  lemma DeniedRunTouchesNothing(o: Options, h: Host)
    requires PrivilegeStep(o.rootIsOk, h.isRoot, o.uid, o.gid).Rejected?
    ensures RunCli(o, h).events == [] && RunCli(o, h).listing.None?
  {
  }

  /** Because the pipeline skips the devices its filter answers `true` for,
      `on`/`off`/`toggle` leave exactly the devices matching the search alone
      and act on all the others. */
  lemma ActLeavesMatchesAlone(action: Action, m: DeviceMatch, s: Snapshot, ok: Write -> bool)
    requires s.root.Opened?
    ensures var xs := Elements(s.root.entries, s.drivers);
            var events := ActOn(action, m, s, ok).events;
            forall i :: 0 <= i < |events| ==>
              && xs[i].Ok?
              && (events[i].Skipped? <==> Selects(m, xs[i].value))
              && (events[i].Skipped? ==> events[i].device == xs[i].value)
  {
    var xs := Elements(s.root.entries, s.drivers);
    var a := WithFilter(New(xs), AsFilter(m));
    forall i | 0 <= i < |Run(a, action, ok).events|
      ensures xs[i].Ok? && (Run(a, action, ok).events[i].Skipped? <==> Selects(m, xs[i].value))
      ensures Run(a, action, ok).events[i].Skipped? ==> Run(a, action, ok).events[i].device == xs[i].value
    {
      SelectedDevicesAreSkipped(a, action, ok, i);
    }
  }

  /** With no search string every device the run reaches goes to the action table. */
  lemma EmptySearchActsOnEveryDevice(action: Action, exact: bool, allowHost: bool, s: Snapshot, ok: Write -> bool)
    requires s.root.Opened?
    ensures var events := ActOn(action, DeviceMatch([], exact, allowHost), s, ok).events;
            forall i :: 0 <= i < |events| ==> !events[i].Skipped?
  {
    ActLeavesMatchesAlone(action, DeviceMatch([], exact, allowHost), s, ok);
  }
}
