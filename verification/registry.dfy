/** The USB device registry (`/sys/bus/usb/devices/` and the driver directory
    `/sys/bus/usb/drivers/usb/`) as a read-only snapshot: the outcome of every
    filesystem call discovery makes is recorded here instead of performed. */
module Registry {
  import opened Results

  /** An I/O failure; only "not found" is told apart by the code. */
  datatype IoError = NotFound | OtherIo(code: nat)

  datatype FileKind = Directory | NotDirectory

  /** The `product` file of a registry entry. `Path::exists` answers false on
      any error, so an entry whose file cannot even be inspected is `NoProduct`. */
  datatype ProductFile = NoProduct | ProductText(text: string) | ProductUnreadable(cause: IoError)

  /** One item of the directory listing: either the listing failed to yield it,
      or it has a base name, a metadata outcome and a product file. */
  datatype Entry =
    | FetchFailed(cause: IoError)
    | Listed(name: string, metadata: Result<FileKind, IoError>, product: ProductFile)

  datatype Root = OpenFailed(cause: IoError) | Opened(entries: seq<Entry>)

  /** The registry root in listing order, and the names present under the driver directory. */
  datatype Snapshot = Snapshot(root: Root, drivers: set<string>)

  datatype OpenError = OpenDir(cause: IoError)

  datatype DiscoveryError =
    | FetchEntry(cause: IoError)
    | Metadata(entry: string, cause: IoError)
    | ReadFile(entry: string, cause: IoError)

  /** An entry that disappeared between the listing and the metadata lookup. */
  predicate Vanished(e: Entry) {
    e.Listed? && e.metadata == Err(NotFound)
  }
}
