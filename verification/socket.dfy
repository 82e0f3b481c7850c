/**
 The serial package's socket connection: a named port configuration with zero
 or one open handle, the same closed/open lifecycle as the roomba Adaptor, and
 single-byte DigitalWrite / DigitalRead that refuse to touch a closed port.
 */
module Socket {
  import opened Bytes
  import opened Errors
  import opened Transport
  import Adaptor

  datatype State = State(name: string, config: Config, sp: Option<Handle>)

  /** `NewSocketConnection`: a closed socket for `port` at `baud`. */
  function New(name: string, port: string, baud: int): (s: State)
    ensures s.sp.None? && Name(s) == name && Port(s) == port && s.config.baud == baud
  {
    State(name, Config(port, baud), None)
  }

  function Name(s: State): string
  {
    s.name
  }

  /** The configured port name. */
  function Port(s: State): string
  {
    s.config.name
  }

  /** Closes and forgets the handle, if any; the close failure, if any, is
      the only error. A closed socket is left as it is. */
  function Finalize(s: State, closeErr: Option<Error>): (r: Step<State>)
    ensures r.state == s.(sp := None)
    ensures s.sp.None? ==> r.errors == []
    ensures s.sp.Some? && closeErr.None? ==> r.errors == []
    ensures s.sp.Some? && closeErr.Some? ==> r.errors == [closeErr.value]
  {
    if s.sp.Some? then
      var closed := s.(sp := None);
      if closeErr.Some? then Step(closed, [closeErr.value]) else Step(closed, [])
    else
      Step(s, [])
  }

  /** Opens the configured port, finalizing an open handle first and
      skipping the open when that close failed; at most one error. */
  function Connect(s: State, closeErr: Option<Error>, open: Config -> OpenResult): (r: Step<State>)
    ensures r.state.name == s.name && r.state.config == s.config
    ensures |r.errors| <= 1
    ensures s.sp.Some? && closeErr.Some? ==> r.errors == [closeErr.value] && r.state.sp.None?
    ensures s.sp.None? || closeErr.None? ==>
      match open(s.config)
      case Opened(h) => r.errors == [] && r.state.sp == Some(h)
      case OpenFailed(e) => r.errors == [e] && r.state.sp.None?
  {
    var fin := if s.sp.Some? then Finalize(s, closeErr) else Step(s, []);
    if fin.errors == [] then
      match open(s.config)
      case Opened(h) => Step(fin.state.(sp := Some(h)), fin.errors)
      case OpenFailed(e) => Step(fin.state.(sp := None), fin.errors + [e])
    else
      fin
  }

  /** The socket after a sequence of lifecycle calls. */
  function Run(s: State, events: seq<Event>): State
    decreases |events|
  {
    if |events| == 0 then s
    else
      var next := match events[0]
        case ConnectCall(closeErr, open) => Connect(s, closeErr, open).state
        case FinalizeCall(closeErr) => Finalize(s, closeErr).state;
      Run(next, events[1..])
  }

  /** Name and Port never change, whatever lifecycle calls are made. */
  lemma {:induction false} IdentityStable(s: State, events: seq<Event>)
    ensures Name(Run(s, events)) == Name(s) && Port(Run(s, events)) == Port(s)
    decreases |events|
  {
    if |events| > 0 {
      var next := match events[0]
        case ConnectCall(closeErr, open) => Connect(s, closeErr, open).state
        case FinalizeCall(closeErr) => Finalize(s, closeErr).state;
      IdentityStable(next, events[1..]);
    }
  }

  /** Name returns the given name and Port the given port name for the
      socket's whole lifetime. */
  lemma NewIdentity(name: string, port: string, baud: int, events: seq<Event>)
    ensures Name(Run(New(name, port, baud), events)) == name
    ensures Port(Run(New(name, port, baud), events)) == port
  {
    IdentityStable(New(name, port, baud), events);
  }

  /** The bytes a write put on the port, and the error it returned. */
  datatype Written = Written(bytes: seq<byte>, err: Option<Error>)

  /** Writes one byte through the open handle, `writeErr` being what the
      handle's Write reports; a closed socket writes nothing and reports
      ErrNotInitialized. */
  function DigitalWrite(s: State, bits: byte, writeErr: Option<Error>): (r: Written)
    ensures s.sp.None? ==> r == Written([], Some(NotInitialized))
    ensures s.sp.Some? ==> r.bytes == [bits] && r.err == writeErr
  {
    if s.sp.None? then Written([], Some(NotInitialized))
    else Written([bits], writeErr)
  }

  /** What the handle's Read leaves in the one-byte buffer (zero if it
      stored nothing) and the error it reports. */
  datatype ReadResult = ReadResult(first: byte, err: Option<Error>)

  /** Reads one byte through the open handle; a closed socket returns
      `(0, ErrNotInitialized)` without reading. */
  function DigitalRead(s: State, read: ReadResult): (r: (int, Option<Error>))
    ensures s.sp.None? ==> r == (0, Some(NotInitialized))
    ensures s.sp.Some? ==> 0 <= r.0 < 256 && r == (read.first, read.err)
  {
    if s.sp.None? then (0, Some(NotInitialized))
    else (read.first as int, read.err)
  }

  /** After Finalize, whatever its outcome, the socket refuses to write or
      read until it is connected again. */
  lemma ClosedAfterFinalize(s: State, closeErr: Option<Error>, bits: byte, writeErr: Option<Error>, read: ReadResult)
    ensures DigitalWrite(Finalize(s, closeErr).state, bits, writeErr) == Written([], Some(NotInitialized))
    ensures DigitalRead(Finalize(s, closeErr).state, read) == (0, Some(NotInitialized))
  {
  }

  /** A Connect that returns no error leaves a socket that writes exactly the
      byte it is given. */
  lemma WritableAfterConnect(s: State, closeErr: Option<Error>, open: Config -> OpenResult, bits: byte, writeErr: Option<Error>)
    requires Connect(s, closeErr, open).errors == []
    ensures DigitalWrite(Connect(s, closeErr, open).state, bits, writeErr).bytes == [bits]
  {
    if s.sp.Some? && closeErr.Some? {
      assert false;
    }
    match open(s.config)
    case Opened(h) =>
    case OpenFailed(e) =>
  }

  /** The roomba Adaptor and a socket configured for the same port at BAUD
      go through the same lifecycle: on every close and open outcome they
      return the same errors and hold the same handle afterwards. */
  lemma AgreesWithAdaptor(a: Adaptor.State, s: State, closeErr: Option<Error>, open: Config -> OpenResult)
    requires s.config == Config(a.port, Adaptor.BAUD) && s.sp == a.sp
    ensures Connect(s, closeErr, open).errors == Adaptor.Connect(a, closeErr, open).errors
    ensures Connect(s, closeErr, open).state.sp == Adaptor.Connect(a, closeErr, open).state.sp
    ensures Finalize(s, closeErr).errors == Adaptor.Finalize(a, closeErr).errors
    ensures Finalize(s, closeErr).state.sp == Adaptor.Finalize(a, closeErr).state.sp
  {
  }
}
