/**
 What the lifecycle code sees of the serial library: an opaque open handle,
 the port configuration, and the outcomes of opening and closing. The library
 itself is not part of this model; its outcomes are inputs.
 */
module Transport {
  import opened Errors

  /** An open port (Go's non-nil `io.ReadWriteCloser`); only its identity
      matters here. */
  datatype Handle = Handle(id: nat)

  /** `serial.Config`: the port name and baud rate to open. */
  datatype Config = Config(name: string, baud: int)

  /** What `serial.OpenPort` returns: a handle, or an error and no handle. */
  datatype OpenResult = Opened(handle: Handle) | OpenFailed(failure: Error)

  /** A connection (of state type `S`) after a lifecycle call, and the
      errors the call returned. */
  datatype Step<S> = Step(state: S, errors: seq<Error>)

  /** One lifecycle call together with the outcomes of the library calls it
      may make: the error `Close` would report on the current handle, and
      what opening a given configuration would produce. */
  datatype Event =
    | ConnectCall(closeErr: Option<Error>, open: Config -> OpenResult)
    | FinalizeCall(closeErr: Option<Error>)
}
