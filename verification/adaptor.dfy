/**
 The roomba Adaptor: a named serial port that is either closed (no handle) or
 open (one handle). Connect and Finalize move between the two; the outcomes of
 the library's open and close calls are parameters.
 */
module Adaptor {
  import opened Errors
  import opened Transport

  /** The rate the roomba communicates at; Connect opens the port at it. */
  const BAUD: int := 115200

  datatype State = State(name: string, port: string, sp: Option<Handle>)

  /** `NewAdaptor`: a closed adaptor with the given identity. */
  function New(name: string, port: string): (a: State)
    ensures a.sp.None? && Name(a) == name && Port(a) == port
  {
    State(name, port, None)
  }

  function Name(a: State): string
  {
    a.name
  }

  function Port(a: State): string
  {
    a.port
  }

  /** Closes the handle, if any, and always forgets it, even when closing
      fails; the only error it can return is that close failure. A closed
      adaptor is left as it is. */
  function Finalize(a: State, closeErr: Option<Error>): (r: Step<State>)
    ensures r.state == a.(sp := None)
    ensures a.sp.None? ==> r.errors == []
    ensures a.sp.Some? && closeErr.None? ==> r.errors == []
    ensures a.sp.Some? && closeErr.Some? ==> r.errors == [closeErr.value]
  {
    if a.sp.Some? then
      Step(a.(sp := None), Push(Some([]), closeErr))
    else
      Step(a, [])
  }

  /** Opens the adaptor's port at BAUD, finalizing an open handle first. A
      failed close is returned on its own: the open is then not attempted
      and the adaptor ends closed. So at most one error comes back, and an
      old handle never survives the call. */
  function Connect(a: State, closeErr: Option<Error>, open: Config -> OpenResult): (r: Step<State>)
    ensures r.state.name == a.name && r.state.port == a.port
    ensures |r.errors| <= 1
    ensures a.sp.Some? && closeErr.Some? ==> r.errors == [closeErr.value] && r.state.sp.None?
    ensures a.sp.None? || closeErr.None? ==>
      match open(Config(a.port, BAUD))
      case Opened(h) => r.errors == [] && r.state.sp == Some(h)
      case OpenFailed(e) => r.errors == [e] && r.state.sp.None?
  {
    var fin := if a.sp.Some? then Finalize(a, closeErr) else Step(a, []);
    if fin.errors == [] then
      match open(Config(a.port, BAUD))
      case Opened(h) => Step(fin.state.(sp := Some(h)), Push(Some(fin.errors), None))
      case OpenFailed(e) => Step(fin.state.(sp := None), Push(Some(fin.errors), Some(e)))
    else
      fin
  }

  /** The adaptor after a sequence of lifecycle calls. */
  function Run(a: State, events: seq<Event>): State
    decreases |events|
  {
    if |events| == 0 then a
    else
      var next := match events[0]
        case ConnectCall(closeErr, open) => Connect(a, closeErr, open).state
        case FinalizeCall(closeErr) => Finalize(a, closeErr).state;
      Run(next, events[1..])
  }

  /** Name and Port never change, whatever lifecycle calls are made. */
  lemma {:induction false} IdentityStable(a: State, events: seq<Event>)
    ensures Name(Run(a, events)) == Name(a) && Port(Run(a, events)) == Port(a)
    decreases |events|
  {
    if |events| > 0 {
      var next := match events[0]
        case ConnectCall(closeErr, open) => Connect(a, closeErr, open).state
        case FinalizeCall(closeErr) => Finalize(a, closeErr).state;
      IdentityStable(next, events[1..]);
    }
  }

  /** Name and Port return the constructor's arguments for the adaptor's
      whole lifetime. */
  lemma NewIdentity(name: string, port: string, events: seq<Event>)
    ensures Name(Run(New(name, port), events)) == name
    ensures Port(Run(New(name, port), events)) == port
  {
    IdentityStable(New(name, port), events);
  }

  /** Finalize leaves the adaptor closed, so a second Finalize is a silent
      no-op whatever its close outcome would have been. */
  lemma FinalizeTwice(a: State, first: Option<Error>, second: Option<Error>)
    ensures Finalize(Finalize(a, first).state, second) == Step(Finalize(a, first).state, [])
  {
  }
}
