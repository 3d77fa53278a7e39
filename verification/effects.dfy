/** The observable effects of a run: control-file writes and log events. */
module Effects {
  import opened Registry

  /** A write of a port to `/sys/bus/usb/drivers/usb/bind` or `.../unbind`. */
  datatype Write = Bind(port: string) | Unbind(port: string)

  /** `Wrote` records a write that was issued; whether it succeeded is the
      answer of the write oracle `Write -> bool` the run is given.
      `Skipped` is the debug log line, `Refused` the warning, `Confirmed` the
      informational line after a successful write. */
  datatype Event<D> = Skipped(device: D) | Refused(device: D) | Wrote(write: Write) | Confirmed(device: D)

  /** What a front-end gets from its surroundings: whether it runs as root,
      whether dropping privileges succeeds, the registry, and which writes
      succeed. */
  datatype Host = Host(isRoot: bool, dropSucceeds: bool, registry: Snapshot, writeOk: Write -> bool)
}
