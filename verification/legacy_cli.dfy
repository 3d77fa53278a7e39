/** The older front-end (`src/main.rs`): `list`, and `on`/`off` of the first
    device that matches one search string. */
module LegacyCli {
  import opened Results
  import opened Registry
  import opened Effects
  import opened Privileges
  import opened Legacy
  import Devices
  import Actions

  datatype Command = List | On(search: string, exact: bool) | Off(search: string, exact: bool)

  datatype Options = Options(rootIsOk: bool, uid: Option<nat>, gid: Option<nat>, command: Command)

  datatype Failure =
    | Privilege(step: StepFailure)
    | LookingForDevices(open: OpenError)
    | CollectingDevices(entry: DiscoveryError)
    | LookingForDevice(lookup: LookupError)
    | NoSuchDevice(search: string)
    | CannotTurnOn(search: string)
    | CannotTurnOff(search: string)

  datatype Outcome = Outcome(listing: Option<seq<LegacyDevice>>, events: seq<Event<LegacyDevice>>, failure: Option<Failure>)

  /** The event concerns device `d`. */
  predicate Concerns(e: Event<LegacyDevice>, d: LegacyDevice) {
    match e
    case Wrote(w) => w.port == d.port
    case Skipped(x) => x == d
    case Refused(x) => x == d
    case Confirmed(x) => x == d
  }

  /** `on` (`turnOn`) or `off` for the device found: the action table
      decides between a refusal and a write, and a successful write is
      confirmed. */
  function SwitchDevice(turnOn: bool, search: string, d: LegacyDevice, ok: Write -> bool): (r: Outcome)
    ensures r.listing.None?
    ensures forall i :: 0 <= i < |r.events| ==> Concerns(r.events[i], d)
    ensures match Actions.Decide(if turnOn then Actions.On else Actions.Off, Devices.FromBool(d.online))
            case Refuse => r == Outcome(None, [Refused(d)], None)
            case DoBind =>
              && r.events == [Wrote(Bind(d.port))] + (if ok(Bind(d.port)) then [Confirmed(d)] else [])
              && (r.failure.None? <==> ok(Bind(d.port)))
              && (r.failure.Some? ==> r.failure.value == CannotTurnOn(search))
            case DoUnbind =>
              && r.events == [Wrote(Unbind(d.port))] + (if ok(Unbind(d.port)) then [Confirmed(d)] else [])
              && (r.failure.None? <==> ok(Unbind(d.port)))
              && (r.failure.Some? ==> r.failure.value == CannotTurnOff(search))
  {
    if turnOn then
      if d.online then Outcome(None, [Refused(d)], None)
      else if ok(Bind(d.port)) then Outcome(None, [Wrote(Bind(d.port)), Confirmed(d)], None)
      else Outcome(None, [Wrote(Bind(d.port))], Some(CannotTurnOn(search)))
    else
      if !d.online then Outcome(None, [Refused(d)], None)
      else if ok(Unbind(d.port)) then Outcome(None, [Wrote(Unbind(d.port)), Confirmed(d)], None)
      else Outcome(None, [Wrote(Unbind(d.port))], Some(CannotTurnOff(search)))
  }

  /** `on` (`turnOn`) or `off` for the first device matching `search`: a
      failed lookup or no match writes nothing; otherwise only the device
      found is acted on. */
  function Switch(turnOn: bool, search: string, exact: bool, s: Snapshot, ok: Write -> bool): (r: Outcome)
    ensures var found := FindDevice(s, search, exact);
            && r.listing.None?
            && (found.Err? ==> r == Outcome(None, [], Some(LookingForDevice(found.error))))
            && (found == Ok(None) ==> r == Outcome(None, [], Some(NoSuchDevice(search))))
            && (found.Ok? && found.value.Some? ==> r == SwitchDevice(turnOn, search, found.value.value, ok))
            && (|r.events| > 0 ==> found.Ok? && found.value.Some?)
  {
    match FindDevice(s, search, exact)
    case Err(e) => Outcome(None, [], Some(LookingForDevice(e)))
    case Ok(None) => Outcome(None, [], Some(NoSuchDevice(search)))
    case Ok(Some(d)) => SwitchDevice(turnOn, search, d, ok)
  }

  /** Only the first matching device is acted on, even when later ones match too. */
  lemma SwitchActsOnFirstMatch(turnOn: bool, search: string, exact: bool, s: Snapshot, ok: Write -> bool)
    ensures var r := Switch(turnOn, search, exact, s, ok);
            |r.events| > 0 ==>
            && s.root.Opened?
            && var xs := Elements(s.root.entries, s.drivers);
            var k := StopIndex(xs, search, exact);
            && k < |xs| && xs[k].Ok? && Matches(xs[k].value, search, exact)
            && (forall j :: 0 <= j < k ==> xs[j].Ok? && !Matches(xs[j].value, search, exact))
            && (forall i :: 0 <= i < |r.events| ==> Concerns(r.events[i], xs[k].value))
  {
  }

  /** `list`: every discovered device, with no host hiding; any discovery error ends it. */
  function ListDevices(s: Snapshot): (r: Result<seq<LegacyDevice>, Failure>)
    ensures s.root.OpenFailed? ==> r == Err(LookingForDevices(OpenDir(s.root.cause)))
    ensures s.root.Opened? ==>
              var xs := Elements(s.root.entries, s.drivers);
              && (r.Ok? <==> forall i :: 0 <= i < |xs| ==> xs[i].Ok?)
              && (r.Ok? ==> |r.value| == |xs| && forall i :: 0 <= i < |xs| ==> xs[i] == Ok(r.value[i]))
              && (r.Err? ==> FirstErr(xs) < |xs| && r.error == CollectingDevices(xs[FirstErr(xs)].error))
  {
    match DiscoverDevices(s)
    case Err(e) => Err(LookingForDevices(e))
    case Ok(xs) =>
      assert xs == Elements(s.root.entries, s.drivers);
      match Collect(xs)
      case Err(e) => Err(CollectingDevices(e))
      case Ok(ds) => Ok(ds)
  }

  function Execute(o: Options, h: Host): Outcome {
    match o.command
    case List =>
      (match ListDevices(h.registry)
       case Ok(ds) => Outcome(Some(ds), [], None)
       case Err(f) => Outcome(None, [], Some(f)))
    case On(search, exact) => Switch(true, search, exact, h.registry, h.writeOk)
    case Off(search, exact) => Switch(false, search, exact, h.registry, h.writeOk)
  }

  /** `run`: the privilege step, then the command. */
  function RunMain(o: Options, h: Host): (r: Outcome)
    ensures var p := PrivilegeStep(o.rootIsOk, h.isRoot, o.uid, o.gid);
            && (p.Rejected? ==> r == Outcome(None, [], Some(Privilege(Denied(p.reason)))))
            && (p.DropTo? && !h.dropSucceeds ==> r == Outcome(None, [], Some(Privilege(DropFailed))))
            && ((p.Unchanged? || h.dropSucceeds) && !p.Rejected? ==> r == Execute(o, h))
  {
    match Gate(o.rootIsOk, h.isRoot, o.uid, o.gid, h.dropSucceeds)
    case Some(stop) => Outcome(None, [], Some(Privilege(stop)))
    case None => Execute(o, h)
  }
}
