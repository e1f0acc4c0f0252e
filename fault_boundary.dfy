/**
 * Status codes, the outcome of a call into the hosted file system, and the
 * fault boundary that every callback of FileSystemHost applies around such
 * a call: a returned status passes through, an escaping exception becomes
 * the hosted file system's ExceptionHandler verdict, and an ExceptionHandler
 * that itself throws becomes STATUS_UNEXPECTED_IO_ERROR.
 */
module FaultBoundary {

  /** The native interface's Int32 status codes. */
  newtype int32 = x: int | -0x8000_0000 <= x < 0x8000_0000

  /** The native interface's UInt32 values. */
  newtype uint32 = x: int | 0 <= x < 0x1_0000_0000

  /** C#'s `unchecked((Int32)u)`: the same 32 bits read as two's complement. */
  function Unchecked(u: uint32): (r: int32)
    ensures (u as int - r as int) % 0x1_0000_0000 == 0
    ensures r < 0 <==> u >= 0x8000_0000
  {
    if u < 0x8000_0000 then u as int as int32 else (u as int - 0x1_0000_0000) as int32
  }

  const STATUS_SUCCESS: int32 := 0
  /** The non-negative status with which a by-name lookup reports a reparse point. */
  const STATUS_REPARSE: int32 := 260
  const STATUS_UNEXPECTED_IO_ERROR: int32 := Unchecked(0xC000_00E9)

  /** The source's success test, `0 <= Result`. */
  predicate Succeeded(status: int32) {
    0 <= status
  }

  lemma UnexpectedIoErrorIsFailure()
    ensures STATUS_UNEXPECTED_IO_ERROR as int == 0xC000_00E9 - 0x1_0000_0000
    ensures !Succeeded(STATUS_UNEXPECTED_IO_ERROR)
  {
  }

  datatype Option<T> = None | Some(value: T)

  type Bytes = seq<bv8>

  /** The identity of one exception raised by the hosted file system. */
  type Fault = nat

  /** What a call into the hosted file system does: return a value, or throw. */
  datatype Outcome<T> = Ret(value: T) | Throw(fault: Fault)

  /** What the hosted file system's ExceptionHandler override does with one exception. */
  datatype HandlerResult = Handled(status: int32) | HandlerThrows

  /**
   * The hosted file system (a FileSystemBase) as far as the boundary itself
   * depends on it: its ExceptionHandler override. Every other hook is called
   * through an Outcome supplied with the call.
   */
  datatype FileSystemBase = FileSystemBase(exceptionHandler: Fault -> HandlerResult)

  /**
   * FileSystemHost.ExceptionHandler: the hosted file system's verdict on the
   * fault, or the fixed unexpected-I/O-error status when that verdict is
   * itself a throw.
   */
  function ExceptionHandler(fileSystem: FileSystemBase, fault: Fault): (status: int32)
    ensures fileSystem.exceptionHandler(fault).Handled? ==>
              status == fileSystem.exceptionHandler(fault).status
    ensures fileSystem.exceptionHandler(fault).HandlerThrows? ==>
              status == STATUS_UNEXPECTED_IO_ERROR
  {
    match fileSystem.exceptionHandler(fault)
    case Handled(s) => s
    case HandlerThrows => STATUS_UNEXPECTED_IO_ERROR
  }

  /** A faulted call reports success only when the hosted file system's own handler says so. */
  lemma FaultSucceedsOnlyByHandlerVerdict(fileSystem: FileSystemBase, fault: Fault)
    ensures Succeeded(ExceptionHandler(fileSystem, fault)) ==>
              fileSystem.exceptionHandler(fault) == Handled(ExceptionHandler(fileSystem, fault))
  {
    UnexpectedIoErrorIsFailure();
  }

  /**
   * The status of a hook guarded by `try { Result = hook } catch { Result =
   * ExceptionHandler(...) }`, as Mount does for Init and Mounted.
   */
  function HookStatus(fileSystem: FileSystemBase, call: Outcome<int32>): (status: int32)
    ensures call.Ret? ==> status == call.value
    ensures call.Throw? ==> status == ExceptionHandler(fileSystem, call.fault)
  {
    match call
    case Ret(s) => s
    case Throw(f) => ExceptionHandler(fileSystem, f)
  }

  /** The status an adapter returns together with its out-records. */
  datatype Reply<R> = Reply(status: int32, out: R)

  /**
   * The catch arm shared by the adapters: a reply the hook returned passes
   * through unchanged, business errors included; a fault becomes the
   * ExceptionHandler status, with every out-record reset to `zero` (the
   * source's `default(T)`).
   */
  function Guard<R>(fileSystem: FileSystemBase, call: Outcome<Reply<R>>, zero: R): (r: Reply<R>)
    ensures call.Ret? ==> r == call.value
    ensures call.Throw? ==> r.status == ExceptionHandler(fileSystem, call.fault) && r.out == zero
  {
    match call
    case Ret(reply) => reply
    case Throw(f) => Reply(ExceptionHandler(fileSystem, f), zero)
  }

  /**
   * At the native boundary a fault cannot be told apart from a declared
   * error: a hook that throws a fault the handler maps to `s` yields the same
   * reply as a hook that returns `s` with default out-records.
   */
  lemma FaultIndistinguishableFromDeclaredError<R>(fileSystem: FileSystemBase, fault: Fault, zero: R)
    ensures Guard(fileSystem, Throw(fault), zero) ==
            Guard(fileSystem, Ret(Reply(ExceptionHandler(fileSystem, fault), zero)), zero)
  {
  }
}
