/** Bytes, the error type of the native core, and the result type its parsers return. */
module Bytes {

  type byte = n: nat | n < 256

  type bytes = seq<byte>

  type u16 = n: nat | n <= 0xffff
  type u32 = n: nat | n <= 0xffff_ffff
  type u64 = n: nat | n <= 0xffff_ffff_ffff_ffff

  const U8_MAX: nat := 0xff
  const U16_MAX: nat := 0xffff
  const U32_MAX: nat := 0xffff_ffff
  const U64_MAX: nat := 0xffff_ffff_ffff_ffff

  /** `MAX_INPUT_BYTES` of bounds.rs. */
  const MAX_INPUT_BYTES: nat := 1_048_576

  /** `APPLICATION_MAX_IO_BYTES` of application.rs. */
  const MAX_IO_BYTES: nat := 262_144

  datatype Error =
    | MalformedInput
    | InputTooLarge
    | InvalidArgument
    | UnsupportedVersion
    | UnsupportedOperation
    | AuthenticationFailed
    | StateViolation
    | ResourceExhausted
    | InvalidHandle
    | WrongHandleType
    | InternalFailure

  datatype Result<+T> = Ok(value: T) | Err(error: Error) {
    predicate IsFailure() {
      Err?
    }

    function PropagateFailure<U>(): Result<U>
      requires Err?
    {
      Err(error)
    }

    function Extract(): T
      requires Ok?
    {
      value
    }
  }

  datatype Option<+T> = None | Some(value: T)

  /** `Ok(())` when the condition holds, the given error otherwise. */
  function Check(condition: bool, error: Error): Result<()> {
    if condition then Ok(()) else Err(error)
  }

  /** A parser's answer: the value read and the bytes that are left. */
  type Parsed<+T> = Result<(T, bytes)>

  /** Fixed-size arrays of the source. */
  type Bytes16 = b: bytes | |b| == 16 witness seq(16, i => 0)
  type Bytes24 = b: bytes | |b| == 24 witness seq(24, i => 0)
  type Bytes32 = b: bytes | |b| == 32 witness seq(32, i => 0)
  type Bytes64 = b: bytes | |b| == 64 witness seq(64, i => 0)
  type Bytes66 = b: bytes | |b| == 66 witness seq(66, i => 0)

  predicate AllZero(b: bytes) {
    forall i :: 0 <= i < |b| ==> b[i] == 0
  }
}
