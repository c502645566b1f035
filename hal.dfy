/**
 * The vendor I2C driver that the register-access layer sits on, seen as an
 * abstract bus. Each blocking primitive records its arguments in a log and
 * succeeds or fails nondeterministically; the sticky error code it leaves
 * behind is equally unconstrained. No timing, retries, interrupts or DMA.
 */
module Hal {

  type U8 = x: int | 0 <= x < 0x100
  type U16 = x: int | 0 <= x < 0x1_0000
  type U32 = x: int | 0 <= x < 0x1_0000_0000

  /** The driver's status return; every value but HalOk means the call failed. */
  datatype HalStatus = HalOk | HalError | HalBusy | HalTimeout

  // Error codes reported by the driver's GetError, one bit per cause.
  const ErrorNone: U32 := 0x00
  const ErrorBerr: U32 := 0x01
  const ErrorArlo: U32 := 0x02
  const ErrorAf: U32 := 0x04
  const ErrorOvr: U32 := 0x08
  const ErrorDma: U32 := 0x10
  const ErrorTimeout: U32 := 0x20
  const ErrorSize: U32 := 0x40

  /** Width of the memory (register) address sent by a memory write. */
  datatype MemAddSize = MemAdd8Bit | MemAdd16Bit

  /** The arguments of one call into the driver. */
  datatype Request =
    | Transmit(devAddress: U16, bytes: seq<U8>, timeout: U32)
    | Receive(devAddress: U16, count: U16, timeout: U32)
    | MemoryWrite(devAddress: U16, memAddress: U16, memAddSize: MemAddSize, bytes: seq<U8>, timeout: U32)
    | ReadyProbe(devAddress: U16, trials: U32, timeout: U32)

  /** One logged call: what was asked, how it ended, and what a receive delivered. */
  datatype Call = Call(request: Request, status: HalStatus, reply: seq<U8>)

  predicate Succeeded(c: Call) {
    c.status == HalOk
  }

  predicate AllSucceeded(calls: seq<Call>) {
    forall i :: 0 <= i < |calls| ==> Succeeded(calls[i])
  }

  /**
   * `calls` is what running `plan` on the bus produced: the planned requests
   * are issued in order and the run stops right after the first one that
   * fails.
   */
  predicate Executes(calls: seq<Call>, plan: seq<Request>)
    decreases plan
  {
    if plan == [] then calls == []
    else
      && calls != []
      && calls[0].request == plan[0]
      && if Succeeded(calls[0]) then Executes(calls[1..], plan[1..]) else |calls| == 1
  }

  /**
   * What a run of a plan looks like from outside: a prefix of the plan is
   * issued, every call but the last one succeeded, and when all of them
   * succeeded the whole plan was issued.
   */
  lemma {:induction false} ExecutesShape(calls: seq<Call>, plan: seq<Request>)
    requires Executes(calls, plan)
    ensures plan != [] ==> calls != []
    ensures |calls| <= |plan|
    ensures forall i :: 0 <= i < |calls| ==> calls[i].request == plan[i]
    ensures forall i :: 0 <= i < |calls| - 1 ==> Succeeded(calls[i])
    ensures AllSucceeded(calls) ==> |calls| == |plan|
    ensures !AllSucceeded(calls) ==> !Succeeded(calls[|calls| - 1])
  {
    if plan != [] && Succeeded(calls[0]) {
      ExecutesShape(calls[1..], plan[1..]);
      assert forall i :: 1 <= i < |calls| ==> calls[i] == calls[1..][i - 1];
    }
  }

  /** The bus handle: the driver's log of calls and its last error code. */
  class I2cBus {
    var log: seq<Call>
    var lastError: U32

    constructor ()
      ensures log == [] && lastError == ErrorNone
    {
      log := [];
      lastError := ErrorNone;
    }

    /** The driver's GetError: the error code left by the last failed call. */
    function GetError(): U32
      reads this
    {
      lastError
    }

    /** Blocking transmit of `bytes` to the device. */
    method MasterTransmit(devAddress: U16, bytes: seq<U8>, timeout: U32) returns (status: HalStatus)
      modifies this
      ensures log == old(log) + [Call(Transmit(devAddress, bytes, timeout), status, [])]
    {
      status := *;
      lastError := *;
      log := log + [Call(Transmit(devAddress, bytes, timeout), status, [])];
    }

    /**
     * Blocking receive of `count` bytes into `buffer`. On success the first
     * `count` elements hold the logged reply; on failure they may hold
     * anything. Elements past `count` are never touched.
     */
    method MasterReceive(devAddress: U16, buffer: array<U8>, count: U16, timeout: U32) returns (status: HalStatus)
      requires count <= buffer.Length
      modifies this, buffer
      ensures |log| == |old(log)| + 1 && log[..|old(log)|] == old(log)
      ensures log[|old(log)|].request == Receive(devAddress, count, timeout)
      ensures status == log[|old(log)|].status
      ensures status == HalOk ==> buffer[..count] == log[|old(log)|].reply
      ensures buffer[count..] == old(buffer[count..])
    {
      status := *;
      lastError := *;
      var reply: seq<U8> := *;
      if |reply| != count {
        reply := seq(count, _ => 0);
      }
      forall i | 0 <= i < count {
        buffer[i] := reply[i];
      }
      log := log + [Call(Receive(devAddress, count, timeout), status, reply)];
    }

    /** Blocking write of `bytes` to the device's memory at `memAddress`. */
    method MemWrite(devAddress: U16, memAddress: U16, memAddSize: MemAddSize, bytes: seq<U8>, timeout: U32)
      returns (status: HalStatus)
      modifies this
      ensures log == old(log) + [Call(MemoryWrite(devAddress, memAddress, memAddSize, bytes, timeout), status, [])]
    {
      status := *;
      lastError := *;
      log := log + [Call(MemoryWrite(devAddress, memAddress, memAddSize, bytes, timeout), status, [])];
    }

    /** Readiness probe: up to `trials` attempts, each bounded by `timeout`. */
    method IsDeviceReady(devAddress: U16, trials: U32, timeout: U32) returns (status: HalStatus)
      modifies this
      ensures log == old(log) + [Call(ReadyProbe(devAddress, trials, timeout), status, [])]
    {
      status := *;
      lastError := *;
      log := log + [Call(ReadyProbe(devAddress, trials, timeout), status, [])];
    }
  }
}
