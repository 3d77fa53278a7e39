/** The action pipeline `Apply` of `src/actions.rs`. */
module Actions {
  import opened Results
  import opened Registry
  import opened Devices
  import opened Filters
  import opened Effects

  datatype Action = On | Off | Toggle

  /** What the pipeline does with one device that reaches the action table. */
  datatype Decision = Refuse | DoBind | DoUnbind

  /** The (action, status) table. */
  function Decide(action: Action, status: Status): (r: Decision)
    ensures r == Refuse <==> (action == On && status == Online) || (action == Off && status == Offline)
    ensures r == DoBind <==> status == Offline && action != Off
    ensures r == DoUnbind <==> status == Online && action != On
  {
    match (action, status)
    case (On, Online) => Refuse
    case (On, Offline) => DoBind
    case (Off, Online) => DoUnbind
    case (Off, Offline) => Refuse
    case (Toggle, Online) => DoUnbind
    case (Toggle, Offline) => DoBind
  }

  /** The status an action asks for. */
  function Target(action: Action, status: Status): Status {
    match action
    case On => Online
    case Off => Offline
    case Toggle => if status == Online then Offline else Online
  }

  /** The status a device has once a decision is carried out successfully. */
  function StatusAfter(status: Status, d: Decision): Status {
    match d
    case Refuse => status
    case DoBind => Online
    case DoUnbind => Offline
  }

  /** Every decision brings the device to the status its action asks for, and
      a refusal happens exactly when the device is already there. */
  lemma DecisionReachesTarget(action: Action, status: Status)
    ensures StatusAfter(status, Decide(action, status)) == Target(action, status)
    ensures Decide(action, status) == Refuse <==> Target(action, status) == status
  {
  }

  /** `Toggle` always changes the status (the opposite of what its doc comment says). */
  lemma ToggleFlips(status: Status)
    ensures StatusAfter(status, Decide(Toggle, status)) != status
  {
  }

  /** An `Apply` value: the device sequence and the filter. */
  datatype Apply = Apply(devices: seq<Result<Device, DiscoveryError>>, filter: Filter)

  /** `Apply::new` installs the no-op filter. */
  function New(devices: seq<Result<Device, DiscoveryError>>): (a: Apply)
    ensures a.devices == devices && a.filter == NoOp
  {
    Apply(devices, NoOp)
  }

  /** `Apply::filter` replaces the filter and keeps the devices. */
  function WithFilter(a: Apply, f: Filter): (a': Apply)
    ensures a'.devices == a.devices && a'.filter == f
  {
    Apply(a.devices, f)
  }

  datatype RunError = Fetch(source: DiscoveryError) | TurnOn(device: Device) | TurnOff(device: Device)

  /** The events of a run in order, and the error that ended it, if any. */
  datatype Report = Report(events: seq<Event<Device>>, error: Option<RunError>)

  function Continue(e: Event<Device>, r: Report): Report {
    Report([e] + r.events, r.error)
  }

  /** Issues write `w` for device `d`: continue with `rest` when it succeeds,
      stop with `failure` when it does not. */
  function Attempt(w: Write, failure: RunError, ok: Write -> bool, rest: Report): Report {
    if ok(w) then Continue(Wrote(w), rest) else Report([Wrote(w)], Some(failure))
  }

  /** The loop of `Apply::run` over the remaining devices `ds`, with the filter
      `f` in its current state. A device for which the filter answers `true`
      is skipped. */
  function RunFrom(ds: seq<Result<Device, DiscoveryError>>, f: Filter, action: Action, ok: Write -> bool): (r: Report)
    ensures |r.events| <= |ds|
    ensures r.error.None? ==> |r.events| == |ds|
    decreases |ds|
  {
    if |ds| == 0 then Report([], None)
    else match ds[0]
      case Err(e) => Report([], Some(Fetch(e)))
      case Ok(d) =>
        var (skip, f') := Call(f, d);
        var rest := RunFrom(ds[1..], f', action, ok);
        if skip then Continue(Skipped(d), rest)
        else match Decide(action, d.status)
          case Refuse => Continue(Refused(d), rest)
          case DoBind => Attempt(Bind(d.port), TurnOn(d), ok, rest)
          case DoUnbind => Attempt(Unbind(d.port), TurnOff(d), ok, rest)
  }

  /** `Apply::run`. */
  function Run(a: Apply, action: Action, ok: Write -> bool): (r: Report)
    ensures |a.devices| == 0 ==> r == Report([], None)
    ensures |r.events| <= |a.devices|
  {
    RunFrom(a.devices, a.filter, action, ok)
  }

  /** The event the run produces for a device it reaches. */
  function Expected(f: Filter, action: Action, d: Device): Event<Device> {
    if Accepts(f, d) then Skipped(d)
    else match Decide(action, d.status)
      case Refuse => Refused(d)
      case DoBind => Wrote(Bind(d.port))
      case DoUnbind => Wrote(Unbind(d.port))
  }

  /** A filter call does not change what the run expects for any device. */
  lemma ExpectedIgnoresHistory(f: Filter, d: Device, action: Action, x: Device)
    ensures Expected(Call(f, d).1, action, x) == Expected(f, action, x)
  {
    CallDecidesAccepts(f, x);
    CallDecidesAccepts(Call(f, d).1, x);
    VerdictIgnoresHistory(f, Call(f, d).1, x);
  }

  /** The first event of a run whose first element is a device is the table's event for it. */
  lemma FirstEventFollowsTable(ds: seq<Result<Device, DiscoveryError>>, f: Filter, action: Action, ok: Write -> bool)
    requires |ds| > 0 && ds[0].Ok?
    ensures var r := RunFrom(ds, f, action, ok);
            |r.events| > 0 && r.events[0] == Expected(f, action, ds[0].value)
  {
    CallDecidesAccepts(f, ds[0].value);
  }

  /** Event `i` is about device `i`: the run handles devices in input order,
      one event (so at most one write) per device, as the table says. */
  lemma {:induction false} RunFollowsTable(ds: seq<Result<Device, DiscoveryError>>, f: Filter, action: Action, ok: Write -> bool)
    ensures var r := RunFrom(ds, f, action, ok);
            forall i :: 0 <= i < |r.events| ==> ds[i].Ok? && r.events[i] == Expected(f, action, ds[i].value)
    decreases |ds|
  {
    if |ds| > 0 && ds[0].Ok? {
      var d := ds[0].value;
      var f' := Call(f, d).1;
      RunFromOk(ds, f, action, ok);
      FirstEventFollowsTable(ds, f, action, ok);
      RunFollowsTable(ds[1..], f', action, ok);
      var rest := RunFrom(ds[1..], f', action, ok);
      var r := RunFrom(ds, f, action, ok);
      forall i | 1 <= i < |r.events|
        ensures ds[i].Ok? && r.events[i] == Expected(f, action, ds[i].value)
      {
        assert r.events[i] == rest.events[i - 1];
        assert ds[i] == ds[1..][i - 1];
        ExpectedIgnoresHistory(f, d, action, ds[i].value);
      }
    }
  }

  /** The run for a non-empty input whose first element is a device: the
      event for that device, then the run over the rest. */
  lemma RunFromOk(ds: seq<Result<Device, DiscoveryError>>, f: Filter, action: Action, ok: Write -> bool)
    requires |ds| > 0 && ds[0].Ok?
    ensures |RunFrom(ds, f, action, ok).events| > 0
    ensures var r := RunFrom(ds, f, action, ok);
            var rest := RunFrom(ds[1..], Call(f, ds[0].value).1, action, ok);
            || (r.events == [r.events[0]] + rest.events && r.error == rest.error
                && (r.events[0].Wrote? ==> ok(r.events[0].write)))
            || (r.events == [r.events[0]] && r.events[0].Wrote? && !ok(r.events[0].write)
                && r.error == Some(if r.events[0].write.Bind? then TurnOn(ds[0].value) else TurnOff(ds[0].value))
                && r.events[0].write.port == ds[0].value.port)
  {
    var d := ds[0].value;
    var (skip, f') := Call(f, d);
    var rest := RunFrom(ds[1..], f', action, ok);
    var r := RunFrom(ds, f, action, ok);
    if skip {
      assert r == Continue(Skipped(d), rest);
    } else {
      match Decide(action, d.status)
      case Refuse => assert r == Continue(Refused(d), rest);
      case DoBind => assert r == Attempt(Bind(d.port), TurnOn(d), ok, rest);
      case DoUnbind => assert r == Attempt(Unbind(d.port), TurnOff(d), ok, rest);
    }
  }

  /** A run that ends without an error has met no erroneous element. */
  lemma {:induction false} CompleteRunSawNoError(ds: seq<Result<Device, DiscoveryError>>, f: Filter, action: Action, ok: Write -> bool)
    requires RunFrom(ds, f, action, ok).error.None?
    ensures forall i :: 0 <= i < |ds| ==> ds[i].Ok?
    decreases |ds|
  {
    if |ds| > 0 {
      RunFromOk(ds, f, action, ok);
      CompleteRunSawNoError(ds[1..], Call(f, ds[0].value).1, action, ok);
      forall i | 1 <= i < |ds| ensures ds[i].Ok? {
        assert ds[i] == ds[1..][i - 1];
      }
    }
  }

  /** A run stopped by a discovery error stops at the first erroneous element:
      the elements before it were all handled, and none after it is examined. */
  lemma {:induction false} FetchErrorStopsAtElement(ds: seq<Result<Device, DiscoveryError>>, f: Filter, action: Action, ok: Write -> bool)
    requires RunFrom(ds, f, action, ok).error.Some?
    requires RunFrom(ds, f, action, ok).error.value.Fetch?
    ensures var r := RunFrom(ds, f, action, ok);
            |r.events| < |ds| && ds[|r.events|] == Err(r.error.value.source)
    decreases |ds|
  {
    if ds[0].Ok? {
      RunFromOk(ds, f, action, ok);
      FetchErrorStopsAtElement(ds[1..], Call(f, ds[0].value).1, action, ok);
    }
  }

  /** The step of a run whose first event is not a failed write: that event,
      then the rest of the run, which also decides the error. */
  lemma RunFromContinues(ds: seq<Result<Device, DiscoveryError>>, f: Filter, action: Action, ok: Write -> bool)
    requires |ds| > 0 && ds[0].Ok?
    requires var e := RunFrom(ds, f, action, ok).events[0]; !(e.Wrote? && !ok(e.write))
    ensures var r := RunFrom(ds, f, action, ok);
            var rest := RunFrom(ds[1..], Call(f, ds[0].value).1, action, ok);
            |r.events| == |rest.events| + 1 && r.error == rest.error
            && forall i :: 1 <= i < |r.events| ==> r.events[i] == rest.events[i - 1]
  {
    RunFromOk(ds, f, action, ok);
    var r := RunFrom(ds, f, action, ok);
    var rest := RunFrom(ds[1..], Call(f, ds[0].value).1, action, ok);
    assert r.events == [r.events[0]] + rest.events && r.error == rest.error;
  }

  /** The step of a run whose first event is a failed write: the run stops there. */
  lemma RunFromStops(ds: seq<Result<Device, DiscoveryError>>, f: Filter, action: Action, ok: Write -> bool)
    requires |ds| > 0 && ds[0].Ok?
    requires var e := RunFrom(ds, f, action, ok).events[0]; e.Wrote? && !ok(e.write)
    ensures var r := RunFrom(ds, f, action, ok);
            var d := ds[0].value;
            && |r.events| == 1 && r.error.Some? && !r.error.value.Fetch? && r.error.value.device == d
            && r.events[0] == Wrote(if r.error.value.TurnOn? then Bind(d.port) else Unbind(d.port))
  {
    RunFromOk(ds, f, action, ok);
    var r := RunFrom(ds, f, action, ok);
    var d := ds[0].value;
    assert r.events[0].write == if r.error.value.TurnOn? then Bind(d.port) else Unbind(d.port);
  }

  /** A run stopped by a failed write stops right after issuing it: the write
      is the last event, and the error carries the device it was for. */
  lemma {:induction false} WriteErrorStopsAtDevice(ds: seq<Result<Device, DiscoveryError>>, f: Filter, action: Action, ok: Write -> bool)
    requires RunFrom(ds, f, action, ok).error.Some?
    requires !RunFrom(ds, f, action, ok).error.value.Fetch?
    ensures var r := RunFrom(ds, f, action, ok);
            var n := |r.events|;
            var d := r.error.value.device;
            && n > 0 && ds[n - 1] == Ok(d)
            && r.events[n - 1] == Wrote(if r.error.value.TurnOn? then Bind(d.port) else Unbind(d.port))
            && !ok(r.events[n - 1].write)
    decreases |ds|
  {
    if ds[0].Ok? {
      var f' := Call(f, ds[0].value).1;
      RunFromOk(ds, f, action, ok);
      var r := RunFrom(ds, f, action, ok);
      var e := r.events[0];
      if e.Wrote? && !ok(e.write) {
        RunFromStops(ds, f, action, ok);
      } else {
        RunFromContinues(ds, f, action, ok);
        var rest := RunFrom(ds[1..], f', action, ok);
        WriteErrorStopsAtDevice(ds[1..], f', action, ok);
        var n := |r.events|;
        assert r.events[n - 1] == rest.events[n - 2];
        assert ds[n - 1] == ds[1..][n - 2];
      }
    }
  }

  /** Every write the run issues succeeds, except possibly the last event of a
      run that a write failure stopped. */
  lemma {:induction false} WritesSucceedUntilFailure(ds: seq<Result<Device, DiscoveryError>>, f: Filter, action: Action, ok: Write -> bool)
    ensures var r := RunFrom(ds, f, action, ok);
            forall i :: 0 <= i < |r.events| && r.events[i].Wrote? && !ok(r.events[i].write) ==>
              i == |r.events| - 1 && r.error.Some? && !r.error.value.Fetch?
    decreases |ds|
  {
    if |ds| > 0 && ds[0].Ok? {
      RunFromOk(ds, f, action, ok);
      var f' := Call(f, ds[0].value).1;
      WritesSucceedUntilFailure(ds[1..], f', action, ok);
      var rest := RunFrom(ds[1..], f', action, ok);
      var r := RunFrom(ds, f, action, ok);
      forall i | 0 <= i < |r.events| && r.events[i].Wrote? && !ok(r.events[i].write)
        ensures i == |r.events| - 1 && r.error.Some? && !r.error.value.Fetch?
      {
        if i > 0 {
          assert r.events[i] == rest.events[i - 1];
        }
      }
    }
  }

  /** Once a run has stopped on an error, devices after the stopping point
      change nothing: they are never examined or written. */
  lemma {:induction false} AbortIgnoresRest(ds: seq<Result<Device, DiscoveryError>>, more: seq<Result<Device, DiscoveryError>>, f: Filter, action: Action, ok: Write -> bool)
    requires RunFrom(ds, f, action, ok).error.Some?
    ensures RunFrom(ds + more, f, action, ok) == RunFrom(ds, f, action, ok)
    decreases |ds|
  {
    assert (ds + more)[0] == ds[0];
    if ds[0].Ok? {
      var d := ds[0].value;
      var (skip, f') := Call(f, d);
      assert (ds + more)[1..] == ds[1..] + more;
      if RunFrom(ds[1..], f', action, ok).error.Some? {
        AbortIgnoresRest(ds[1..], more, f', action, ok);
      }
    }
  }

  /** A device the filter answers `true` for is left alone; only devices it
      answers `false` for reach the table. */
  lemma SelectedDevicesAreSkipped(a: Apply, action: Action, ok: Write -> bool, i: nat)
    requires i < |Run(a, action, ok).events|
    ensures a.devices[i].Ok?
    ensures Accepts(a.filter, a.devices[i].value) <==> Run(a, action, ok).events[i].Skipped?
    ensures Run(a, action, ok).events[i].Skipped? ==> Run(a, action, ok).events[i].device == a.devices[i].value
  {
    RunFollowsTable(a.devices, a.filter, action, ok);
  }

  /** With the filter `Apply::new` installs, every device is skipped and nothing is written. */
  lemma NewSkipsEverything(ds: seq<Result<Device, DiscoveryError>>, action: Action, ok: Write -> bool)
    ensures forall i :: 0 <= i < |Run(New(ds), action, ok).events| ==>
              ds[i].Ok? && Run(New(ds), action, ok).events[i] == Skipped(ds[i].value)
  {
    RunFollowsTable(ds, NoOp, action, ok);
  }

  /** `On` for an offline device `1-1`, with a filter that rejects it and every write succeeding, binds `1-1`. */
  lemma OnBindsOfflineDevice()
    ensures var d := Device("1-1", "Example Mouse", Offline);
            Run(Apply([Ok(d)], Closure(_ => false, 0)), On, _ => true) == Report([Wrote(Bind("1-1"))], None)
  {
  }

  /** `Off` for a device that is already offline writes nothing, warns, and moves on without an error. */
  lemma OffRefusesOfflineDevice(next: Device)
    ensures var d := Device("1-1", "Example Mouse", Offline);
            var r := Run(Apply([Ok(d), Ok(next)], Closure(_ => false, 0)), Off, _ => true);
            r.error.None? && |r.events| == 2 && r.events[0] == Refused(d)
  {
    var d := Device("1-1", "Example Mouse", Offline);
    var f := Closure(_ => false, 0);
    var ds: seq<Result<Device, DiscoveryError>> := [Ok(d), Ok(next)];
    var f' := Call(f, d).1;
    assert ds[1..] == [Ok(next)];
    var one := ds[1..];
    assert one[1..] == [];
    var f'' := Call(f', next).1;
    assert RunFrom(one[1..], f'', Off, _ => true) == Report([], None);
    var tail := RunFrom(one, f', Off, _ => true);
    assert tail.error.None? && |tail.events| == 1;
    assert RunFrom(ds, f, Off, _ => true) == Continue(Refused(d), tail);
  }
}
