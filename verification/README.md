# usbctl decision logic in Dafny

usbctl lists the USB devices under `/sys/bus/usb/devices/`. It matches them
against search strings and binds or unbinds their driver by writing a port
name to `/sys/bus/usb/drivers/usb/bind` or `.../unbind`. This project models
the logic that decides what happens, with the filesystem abstracted away:

- **Registry** (`registry.dfy`): a read-only snapshot of the registry. It
  records the root-open outcome, and for each listed entry its fetch outcome,
  metadata outcome and product file, plus the set of names in the driver
  directory.
- **Devices** (`devices.dfy`, `src/device.rs`): `Status`, `Device`,
  `matches`, the `Display` layout, and `discover` as a pure function of the
  snapshot.
- **Legacy** (`legacy.dfy`, `src/lib.rs`): the older device record with a
  boolean status, `discover_devices` (which also reports vanished entries as
  errors) and `find_device`.
- **Filters** (`filters.dfy`, `src/actions/filter.rs` and the duplicate trait
  in `src/actions.rs`): no-op, closure and chained filters. A filter call can
  change the filter's state, so each closure carries a call counter, and a
  call returns the verdict together with the updated filter.
- **Actions** (`actions.dfy`, `src/actions.rs`): `Apply::new`,
  `Apply::filter` and `Apply::run` with its (action, status) table and abort
  rules. Writes and log lines become an event trace. A write-outcome oracle
  `Write -> bool` says which writes succeed.
- **Privileges**, **Cli**, **LegacyCli** (`cli/src/main.rs`, `src/main.rs`):
  the uid/gid decision, the `DeviceMatch` filter, `list` with host hiding,
  and the older single-device `on`/`off`.

Supporting modules:

- `Results`: Option, Result and `collect`.
- `Sequences`: `filter_map`, together with the position each result comes from. Both discoveries and the `list` output are instances of it.
- `Text`: `trim`, `contains` and `{:<5}` padding.
- `Effects`: writes, events and the host environment.

Where the documentation and the code disagree, the model follows the code:

- `Apply::run` skips a device when the filter returns `true`
  (src/actions.rs:113). The trait's doc says `true` means "yield". The model
  reproduces the code. `Actions.SelectedDevicesAreSkipped`,
  `Actions.NewSkipsEverything`, `Cli.ActLeavesMatchesAlone` and
  `Cli.EmptySearchActsOnEveryDevice` spell out what follows: the newer CLI
  acts on the devices that do NOT match, and with no search strings it acts
  on every device.
- The doc of `Action::Toggle` (src/actions.rs:14) says it turns an off device
  off. The code unbinds an online device and binds an offline one
  (lines 134-135). `Actions.ToggleFlips` states the code's behaviour.
- Host hiding tests only the spellings "Host" and "host"
  (cli/src/main.rs:183, 235). A name containing "HOST" is not hidden
  (`Cli.UppercaseHostIsSelectable`).
- The pipeline in `src/actions.rs` logs no confirmation after a successful
  write and has no dry-run mode. The older `src/main.rs` does log one
  (`Confirmed` events).
- `src/actions.rs` declares no `mod filter;`, so `src/actions/filter.rs` is
  not compiled into the crate. Nothing implements its `FilterExt` trait
  (filter.rs:46-58), so `chain` cannot be called on any type, and
  `Apply::run` never receives a chained filter. The model keeps `Chain` as a
  filter value so that the chaining semantics of filter.rs:66-74 can be
  stated.

## Model

| member | source | states |
|---|---|---|
| Results.Collect | cli/src/main.rs:176-179 | collecting succeeds iff every element is Ok, keeps all values in order, and otherwise yields the first error |
| Sequences.FilterMap | src/device.rs:198 | `filter_map` keeps at most one result per element, is strictly shorter when some element gives none, and contains every result given |
| Sequences.Origins | src/device.rs:198 | each result comes from one element, positions increase (so the input order is kept), and every element that gives a result is represented |
| Sequences.Members | src/device.rs:198 | a value is in the `filter_map` exactly when some element gives it |
| Sequences.KeepsAll | src/device.rs:198 | a `filter_map` that keeps every element unchanged is the identity |
| Text.Trim | src/device.rs:194 | the trimmed name is a slice of the contents with only whitespace around it, and it neither starts nor ends with whitespace |
| Text.TrimUnique | src/device.rs:194 | any whitespace-framed slice that does not start or end with whitespace is the trimmed string |
| Text.TrimIdempotent | src/device.rs:194 | trimming twice is trimming once |
| Text.Contains | src/device.rs:93 | `contains` holds iff the needle occurs at some position of the haystack (the empty needle always occurs) |
| Text.PadRight | src/device.rs:103 | `{:<5}` keeps the port as a prefix, pads with spaces only, and reaches max(len, 5) characters |
| Devices.FromBool | src/device.rs:31-37 | `from_bool` maps true to Online and false to Offline, a bijection |
| Devices.StatusLabel | src/device.rs:21-28 | a status displays as "online" exactly when it is Online and as "offline" exactly when it is Offline |
| Devices.Matches | src/device.rs:88-95 | exact mode: port or name equals the search; substring mode: the search occurs in port or name |
| Devices.ExactMatchImpliesSubstring | src/device.rs:90-93 | an exact match is also a substring match |
| Devices.EmptySearchMatchesAll | src/device.rs:92-93 | the empty search string matches every device in substring mode |
| Devices.Render | src/device.rs:98-108 | the display line is the port padded to 5, " (", online/offline, "): ", then the name |
| Devices.DiscoverEntry | src/device.rs:164-197 | fetch failure and non-NotFound metadata failure give an error; NotFound, non-directories and missing product files give nothing; an unreadable product gives an error; a device has port = entry name, name = trimmed product, and is Online iff its port is in the driver registry |
| Devices.Elements | src/device.rs:162-198 | at most one element per listed entry, and every element an entry yields is in the sequence (`Devices.Origins` fixes positions and order) |
| Devices.Origins | src/device.rs:162-198 | each discovered element comes from one listed entry, in listing order, and every entry that yields something is represented |
| Devices.Discover | src/device.rs:159-199 | an unopenable root is an error before any element; otherwise the per-entry results in listing order |
| Devices.DiscoverSingleMouse | src/device.rs:185-196 | a directory "1-1" with product "Example Mouse\n" and no driver entry gives the device ("1-1", "Example Mouse", Offline) |
| Devices.DiscoverSkipsVanished | src/device.rs:168-173 | an entry whose metadata lookup reports NotFound contributes no element |
| Filters.Call | src/actions/filter.rs:8 | a filter call changes only the filter's call history and never lowers a call count |
| Filters.ChainWith | src/actions/filter.rs:48-57 | `chain` builds a filter that selects exactly what both parts select and carries over both parts' call history |
| Filters.CallDecidesAccepts | src/actions/filter.rs:15-74 | a call answers exactly the conjunction of the wrapped predicates, whatever the filter's history |
| Filters.VerdictIgnoresHistory | src/actions/filter.rs:8 | two filters that differ only in call history give the same verdict |
| Filters.NoOpAcceptsAll | src/actions/filter.rs:17-19 | the no-op filter returns true for every device and keeps no state |
| Filters.ClosureForwards | src/actions/filter.rs:40-42 | a closure filter returns the closure's result and counts the call |
| Filters.ChainIsConjunction | src/actions/filter.rs:71-73 | a chain selects a device iff both parts select it |
| Filters.ChainShortCircuits | src/actions/filter.rs:72 | when the first filter rejects, the second is not called and its counters do not move; otherwise it is called once |
| Filters.ChainAssociative | src/actions/filter.rs:66-74 | regrouping a chain of three changes neither the verdict nor which closures are called |
| Filters.NoOpIsIdentity | src/actions/filter.rs:15-19 | the no-op filter is a left and right identity of chaining |
| Actions.Decide | src/actions.rs:117-136 | refuse exactly On+Online and Off+Offline; bind an offline device unless the action is Off; unbind an online device unless it is On |
| Actions.DecisionReachesTarget | src/actions.rs:117-136 | every decision brings the device to the status its action asks for, and it refuses exactly when the device already has that status |
| Actions.ToggleFlips | src/actions.rs:134-135 | Toggle always changes the status |
| Actions.New | src/actions.rs:56-61 | `Apply::new` keeps the devices and installs the no-op filter |
| Actions.WithFilter | src/actions.rs:64-72 | `Apply::filter` replaces the filter and keeps the devices |
| Actions.RunFrom | src/actions.rs:111-138 | at most one event per input element, and an error-free run handles every element |
| Actions.Run | src/actions.rs:110-139 | an empty input gives no events and no error |
| Actions.RunFromOk | src/actions.rs:113-136 | a device yields one event and the run continues, unless its write fails, in which case that write is the last event and the error names the device |
| Actions.RunFromContinues | src/actions.rs:113-136 | a device whose event is not a failed write adds exactly that event in front of the rest of the run, and the rest decides the error |
| Actions.RunFromStops | src/actions.rs:125-135 | a failed bind/unbind write ends the run after that single event, with a TurnOn/TurnOff error naming the device whose port was written |
| Actions.FirstEventFollowsTable | src/actions.rs:113-136 | the first event for a device is the skip, refusal or write the filter and the table prescribe |
| Actions.ExpectedIgnoresHistory | src/actions.rs:113-116 | a filter call leaves what the run does with every later device unchanged |
| Actions.RunFollowsTable | src/actions.rs:111-137 | event i is about input element i, which is a device: skipped if the filter answers true, else the table's refusal or write |
| Actions.CompleteRunSawNoError | src/actions.rs:111-112 | a run without error met no erroneous element |
| Actions.FetchErrorStopsAtElement | src/actions.rs:111-112 | a Fetch error is the first erroneous element and stops the run right there |
| Actions.WriteErrorStopsAtDevice | src/actions.rs:125-135 | a TurnOn/TurnOff error carries the device whose bind/unbind write failed, and that write is the last event |
| Actions.WritesSucceedUntilFailure | src/actions.rs:125-135 | every write but the last of a write-failed run succeeded |
| Actions.AbortIgnoresRest | src/actions.rs:111-138 | after a run stops on an error, later elements change nothing: they are never examined or written |
| Actions.SelectedDevicesAreSkipped | src/actions.rs:113-116 | a device is skipped iff the filter returns true for it |
| Actions.NewSkipsEverything | src/actions.rs:56-61 | with the no-op filter installed by `new`, every device is skipped and nothing is written |
| Actions.OnBindsOfflineDevice | src/actions.rs:125 | On for an offline "1-1" whose filter answers false writes "1-1" to bind and ends without error |
| Actions.OffRefusesOfflineDevice | src/actions.rs:127-133 | Off for an already offline device writes nothing, warns, and continues with the next device |
| Legacy.Matches | src/lib.rs:27-35 | the older `matches` agrees with the newer one on the same device |
| Legacy.ActiveLabel | src/lib.rs:40 | the older status labels are " active " exactly when online and "inactive" exactly when not, both eight characters wide |
| Legacy.Render | src/lib.rs:38-50 | the older display line uses " active "/"inactive", so for ports up to 5 characters the name starts at column 18 |
| Legacy.DiscoverEntry | src/lib.rs:68-93 | any metadata failure, NotFound included, is an error element; otherwise as the newer discovery |
| Legacy.Elements | src/lib.rs:66-94 | at most one element per listed entry, and every element an entry yields is in the sequence |
| Legacy.DiscoverDevices | src/lib.rs:64-95 | an unopenable root is an error; otherwise the per-entry results in listing order, as `Legacy.Origins` characterises them |
| Legacy.Origins | src/lib.rs:66-94 | each element of the older discovery comes from one listed entry, vanished ones included; positions increase with the listing, and every entry that yields something is represented |
| Legacy.VanishedEntryStopsFind | src/lib.rs:53-61 | a vanished entry listed before the matching device "1-1" makes `find_device` fail with that entry's metadata error |
| Legacy.NewerDiscoverySkipsVanished | src/lib.rs:72-74 | the newer discovery equals the older one run on the listing without vanished entries |
| Legacy.SameDiscoveryWithoutVanished | src/lib.rs:68-94 | with no vanished entries, both discoveries yield the same devices and errors |
| Legacy.StopIndex | src/lib.rs:54-58 | the first element that is an error or a match; everything before it is a non-matching device |
| Legacy.FindIn | src/lib.rs:54-60 | the loop's device is a matching device of the sequence, its error is an error element of the sequence, and None means every element is a non-matching device |
| Legacy.FindStopsAtFirst | src/lib.rs:53-61 | `find_device` returns the first match, or the error met before any match, or None |
| Legacy.FindInStops | src/lib.rs:54-60 | None iff every element is a non-matching device; a found device matches and is the stop element |
| Legacy.FindIgnoresRest | src/lib.rs:56-57 | elements after the one `find_device` stops at are never examined |
| Legacy.FindDevice | src/lib.rs:53-61 | an unopenable root is an error; the result is the first match or the error met first, and None iff nothing matches and nothing failed |
| Privileges.PrivilegeStep | cli/src/main.rs:153-172 | nothing happens unless running as root without the override; then both ids drop privileges, exactly one is "Both uid and gid must be set", none is an error |
| Privileges.Gate | cli/src/main.rs:153-173 | the command runs exactly when nothing changes or the privilege drop succeeds; a failed drop and each refusal reason stop the program first |
| Cli.AnyMatches | cli/src/main.rs:239-241 | some search string matches the device |
| Cli.IsHostName | cli/src/main.rs:235 | a name counts as a host name exactly when "Host" or "host" occurs in it |
| Cli.Hidden | cli/src/main.rs:182-186 | `list` hides a device exactly when hosts are not allowed and its name contains "Host" or "host" |
| Cli.Selects | cli/src/main.rs:233-243 | selected iff the search list is non-empty, the device is not a hidden host device, and some search string matches |
| Cli.AsFilter | cli/src/main.rs:208 | the filter handed to the pipeline accepts exactly what `DeviceMatch` selects |
| Cli.UppercaseHostIsSelectable | cli/src/main.rs:235 | a device named "USB HOST" is not treated as a host device |
| Cli.Visible | cli/src/main.rs:181-188 | `list` prints exactly the non-hidden devices, all of them when hosts are allowed, fewer when one is hidden |
| Cli.VisibleOrigins | cli/src/main.rs:181-188 | printed device k is discovered device idx[k], the positions increase, and every non-hidden position appears: `list` prints the visible devices in discovery order, each once |
| Cli.ListDevices | cli/src/main.rs:175-189 | the count covers all devices including hidden ones; the printed list is `Visible` of the collected devices (order and once-each from `Cli.VisibleOrigins`); any discovery error aborts before output, with the first erroneous element |
| Cli.RunCli | cli/src/main.rs:152-195 | a refused or failed privilege step ends the run before any command |
| Cli.ActOn | cli/src/main.rs:198-212 | an unopenable registry fails with no events; otherwise the events are those of the pipeline run over the discovered devices with the `DeviceMatch` filter, and its error, if any, is the failure |
| Cli.DeniedRunTouchesNothing | cli/src/main.rs:168-171 | a refused privilege step writes and lists nothing |
| Cli.ActLeavesMatchesAlone | cli/src/main.rs:207-210 | on/off/toggle leave exactly the matching devices alone |
| Cli.EmptySearchActsOnEveryDevice | cli/src/main.rs:234 | with no search strings no device is skipped |
| LegacyCli.SwitchDevice | src/main.rs:139-171 | for the device found: the action table decides refusal or write; the events are exactly the write followed by a confirmation when it succeeds, and a failed write is "Unable to turn on/off" |
| LegacyCli.Switch | src/main.rs:135-172 | a lookup error or no match writes nothing and fails ("Looking for device", "Unable to find device"); otherwise only the device found is acted on |
| LegacyCli.SwitchActsOnFirstMatch | src/main.rs:136-138 | all events concern the first matching device, and every earlier device does not match |
| LegacyCli.ListDevices | src/main.rs:125-133 | `list` shows every device in discovery order, with no host hiding; it fails exactly when some element is an error, with the first such error under "Collecting devices" |
| LegacyCli.RunMain | src/main.rs:106-175 | the same privilege decision as the newer CLI (`Privileges.Gate`) precedes every command |

## Left out

- Filesystem access: `read_dir`, `metadata`, `exists`, `read_to_string` and the control-file writes are replaced by the snapshot and the write oracle. I/O errors other than NotFound are opaque codes.
- `Path::exists`: it answers false on any error. So a product file that cannot be inspected is `NoProduct`, and the driver check is set membership.
- The "There must be a name" expectation: listed entries always carry a base name.
- `OsString` and `to_string_lossy`: ports are Unicode strings, so lossy replacement never happens.
- Laziness: discovery is a materialised sequence. `Actions.AbortIgnoresRest` and `Legacy.FindIgnoresRest` show that elements after the stopping point do not matter.
- Interleaving of discovery and writes: in the program, discovery runs lazily between the pipeline's writes. A bind or unbind can change what later entries read; for example, the children of an unbound hub vanish, which is what the NotFound skip at src/device.rs:170-172 is for. The fixed snapshot cannot show this.
- Privilege system calls (`caps::set`, `setegid`, `seteuid`, `getuid`): they are the inputs `isRoot` and `dropSucceeds`. The `debug_assert_ne!` on the ids is a debug-build check and is not modelled.
- Argument parsing: the `conflicts_with` and `requires` constraints of the options are not modelled. `Privileges.PrivilegeStep` accepts every combination of ids.
- Logging setup and message text: log lines are `Skipped`, `Refused` and `Confirmed` events. The `list` header is its count.
- Error context strings: errors keep only their variant and payload.
- Dry-run: `cli/src/main.rs:209` calls `dry_run`, which `src/actions.rs` does not define, so no dry-run is modelled.
- Type bounds: `Apply::run` requires a closure filter. `NoOpFilter` and `DeviceMatch` implement only the `Filter` trait, so `cli/src/main.rs` and `src/actions.rs` as written do not compile together. The model composes them as filter values anyway.
- Filters.Call: closures are pure predicates plus a call counter. A closure whose answer depends on its own mutable state is not modelled.
- Concurrency and the race between reading a status and writing the control file.
