/**
 Error values and the error-list helper every Driver and Adaptor call returns
 through. Go returns `[]error`; here a list of tagged errors, where Go's nil
 slice is the empty list (nothing in this code builds a non-nil empty slice).
 */
module Errors {
  import opened Bytes

  datatype Option<+T> = None | Some(value: T)

  /** The errors the roomba and serial packages can return. Messages are
      reduced to a tag and the offending argument; failures of the serial
      library are carried as an opaque code. */
  datatype Error =
    | InvalidBaudCode(code: byte)
    | InvalidVelocity(velocity: int16)
    | InvalidRadius(radius: int16)
    | InvalidVacuumPwm(vacuumPwm: byte)
    | InvalidRightVelocity(rightVelocity: int16)
    | InvalidLeftVelocity(leftVelocity: int16)
    | InvalidRightPwm(rightPwm: int16)
    | InvalidLeftPwm(leftPwm: int16)
    | NotInitialized
    | Io(ioCode: nat)

  /** What a command's validation decides: the frame to send, or every
      violation found (never both, never a partial frame). */
  datatype Checked<+T> = Accepted(value: T) | Rejected(errors: seq<Error>)

  /** The list a possibly-nil `*[]error` designates: nil designates no list. */
  function Target(target: Option<seq<Error>>): seq<Error>
  {
    match target
    case Some(l) => l
    case None => []
  }

  /** `push(e, err)`: appends a non-nil `err` to the list `e` points at and
      returns that list; with a nil `e` it returns a fresh list holding just
      `err`, or nil. When `e` is non-nil the caller's list becomes the result,
      so callers here simply continue with the returned list. */
  function Push(target: Option<seq<Error>>, err: Option<Error>): (r: seq<Error>)
    ensures |r| == |Target(target)| + (if err.Some? then 1 else 0)
    ensures r[..|Target(target)|] == Target(target)
    ensures err.Some? ==> r[|r| - 1] == err.value
  {
    if target.None? then
      if err.Some? then [err.value] else []
    else
      if err.Some? then target.value + [err.value] else target.value
  }

  /** The four cases of the package's push test, with `sample` any error. */
  lemma PushTestCases(l: seq<Error>, sample: Error)
    ensures Push(None, None) == []
    ensures Push(Some(l), None) == l
    ensures Push(None, Some(sample)) == [sample]
    ensures Push(Some([]), Some(sample)) == [sample]
  {
  }

  /** The second `push` the roomba package declares next to the adaptor. It
      dereferences its pointer unconditionally, so it has no nil-pointer case:
      the caller must pass a list. */
  function PushUnchecked(target: seq<Error>, err: Option<Error>): (r: seq<Error>)
    ensures |r| == |target| + (if err.Some? then 1 else 0)
    ensures r[..|target|] == target
    ensures err.Some? ==> r[|target|] == err.value
  {
    if err.Some? then target + [err.value] else target
  }

  /** On every input both declarations accept, the two `push` helpers agree,
      so which one the adaptor uses does not change its behaviour. */
  lemma PushDeclarationsAgree(target: seq<Error>, err: Option<Error>)
    ensures PushUnchecked(target, err) == Push(Some(target), err)
  {
  }
}
