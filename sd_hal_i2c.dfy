/**
 * The register-access layer: result codes, the error classifier, the frames
 * sent for 8-bit, 16-bit and absent register addresses, and the entry points
 * that issue those frames on a bus handle and translate the driver's status
 * into a result code.
 *
 * Every entry point follows one pattern: it issues a fixed plan of driver
 * calls in order, returns as soon as one of them fails, and then answers
 * Ok when every call it issued succeeded and the classifier's verdict on the
 * bus's last error code otherwise. Its postconditions say which plan it runs
 * (`Executes`), what it returns (`Outcome`) and what it does to the caller's
 * buffer.
 */
module SdHalI2c {
  import opened Hal

  /** Timeout passed to every transmit, receive and memory write. */
  const TransferTimeout: U32 := 1000
  /** Attempts and per-attempt timeout of the presence probe. */
  const ProbeTrials: U32 := 2
  const ProbeTimeout: U32 := 5

  /** The result enumeration returned by every entry point. */
  datatype Result = Ok | Error | Busy | Berr | Arlo | Af | Ovr | Dma | Timeout | Size
  {
    /** The enumerator's numeric value. */
    function Code(): (c: U8)
      ensures c < 10
      ensures c == 0 <==> this == Ok
    {
      match this
      case Ok => 0x00
      case Error => 0x01
      case Busy => 0x02
      case Berr => 0x03
      case Arlo => 0x04
      case Af => 0x05
      case Ovr => 0x06
      case Dma => 0x07
      case Timeout => 0x08
      case Size => 0x09
    }
  }

  /** The ten enumerators have ten different values, so a code names one result. */
  lemma CodeInjective()
    ensures forall a: Result, b: Result :: a.Code() == b.Code() ==> a == b
  {
  }

  /**
   * The classifier, applied to the driver's last error code. Each test asks
   * whether the code is DIFFERENT from one error constant, so the first test
   * already decides every code but the bus-error one, and the second decides
   * that one. Nothing after the second test is ever reached.
   */
  function CheckError(errorCode: U32): (r: Result)
    ensures errorCode != ErrorBerr ==> r == Berr
    ensures errorCode == ErrorBerr ==> r == Arlo
    ensures r != Ok
  {
    if errorCode != ErrorBerr then Berr
    else if errorCode != ErrorArlo then Arlo
    else if errorCode != ErrorAf then Af
    else if errorCode != ErrorOvr then Ovr
    else if errorCode != ErrorDma then Dma
    else if errorCode != ErrorTimeout then Timeout
    else if errorCode != ErrorSize then Size
    else Error
  }

  /** Whether some 32-bit error code makes the classifier answer `r`. */
  ghost predicate Classifiable(r: Result) {
    exists code: U32 :: CheckError(code) == r
  }

  /**
   * Over all 32-bit error codes the classifier produces exactly Berr and
   * Arlo: never Ok, the generic Error, Busy, Af, Ovr, Dma, Timeout or Size.
   */
  lemma CheckErrorRange()
    ensures forall r: Result :: Classifiable(r) <==> r == Berr || r == Arlo
  {
    assert CheckError(ErrorNone) == Berr;
    assert CheckError(ErrorBerr) == Arlo;
  }

  /**
   * The answer every entry point gives after issuing `calls`: Ok exactly
   * when each of them succeeded, otherwise the classified last error.
   */
  function Outcome(calls: seq<Call>, errorCode: U32): (r: Result)
    ensures r == Ok <==> AllSucceeded(calls)
    ensures r != Ok ==> r == CheckError(errorCode)
  {
    if AllSucceeded(calls) then Ok else CheckError(errorCode)
  }

  /** Whether a memory write of the given size can carry `memAddress`. */
  predicate Fits(memAddress: U16, size: MemAddSize) {
    match size
    case MemAdd8Bit => memAddress <= 0xFF
    case MemAdd16Bit => memAddress <= 0xFFFF
  }

  /**
   * The address size chosen for a memory write: the narrowest size that
   * carries the register address.
   */
  function MemAddSizeFor(registerAddress: U16): (size: MemAddSize)
    ensures Fits(registerAddress, size)
    ensures Fits(registerAddress, MemAdd8Bit) ==> size == MemAdd8Bit
  {
    if registerAddress > 0xFF then MemAdd16Bit else MemAdd8Bit
  }

  lemma MemAddSizeBoundary()
    ensures MemAddSizeFor(0xFF) == MemAdd8Bit
    ensures MemAddSizeFor(0x100) == MemAdd16Bit
    ensures forall a: U16 :: MemAddSizeFor(a) == MemAdd16Bit <==> a > 0xFF
  {
  }

  /** `(w >> 8) & 0xFF`: the most significant byte of a 16-bit word. */
  function HighByte(w: U16): U8 {
    (w / 0x100) % 0x100
  }

  /** `w & 0xFF`: the least significant byte of a 16-bit word. */
  function LowByte(w: U16): U8 {
    w % 0x100
  }

  /** The 16-bit word whose bytes, most significant first, are `high` and `low`. */
  function Join16(high: U8, low: U8): U16 {
    high * 0x100 + low
  }

  /** Splitting a word into bytes and joining them back are inverse to each other. */
  lemma SplitJoin(w: U16, high: U8, low: U8)
    ensures Join16(HighByte(w), LowByte(w)) == w
    ensures HighByte(Join16(high, low)) == high && LowByte(Join16(high, low)) == low
  {
  }

  /** The two address bytes sent before a 16-bit register read, MSB first. */
  function AddressFrame16(registerAddress: U16): (f: seq<U8>)
    ensures |f| == 2 && Join16(f[0], f[1]) == registerAddress
  {
    [HighByte(registerAddress), LowByte(registerAddress)]
  }

  /** The frame of a 16-bit register write: address MSB first, then the data byte. */
  function WriteFrame16(registerAddress: U16, data: U8): (f: seq<U8>)
    ensures |f| == 3 && Join16(f[0], f[1]) == registerAddress && f[2] == data
    ensures f[..2] == AddressFrame16(registerAddress)
  {
    AddressFrame16(registerAddress) + [data]
  }

  /** Probes the device with a readiness check of 2 trials, 5 time units each. */
  method IsDeviceConnected(i2c: I2cBus, deviceAddress: U8) returns (r: Result)
    modifies i2c
    ensures old(i2c.log) <= i2c.log
    ensures Executes(i2c.log[|old(i2c.log)|..], [ReadyProbe(deviceAddress, ProbeTrials, ProbeTimeout)])
    ensures r == Outcome(i2c.log[|old(i2c.log)|..], i2c.lastError)
  {
    var status := i2c.IsDeviceReady(deviceAddress, ProbeTrials, ProbeTimeout);
    assert i2c.log[|old(i2c.log)|..] == [i2c.log[|old(i2c.log)|]];
    if status != HalOk {
      return CheckError(i2c.GetError());
    }
    return Ok;
  }

  /** Writes one byte to an 8-bit register: one transmit of `[register, data]`. */
  method Write(i2c: I2cBus, deviceAddress: U8, registerAddress: U8, data: U8) returns (r: Result)
    modifies i2c
    ensures old(i2c.log) <= i2c.log
    ensures Executes(i2c.log[|old(i2c.log)|..], [Transmit(deviceAddress, [registerAddress, data], TransferTimeout)])
    ensures r == Outcome(i2c.log[|old(i2c.log)|..], i2c.lastError)
  {
    var d := new U8[2];
    d[0] := registerAddress;
    d[1] := data;
    var status := i2c.MasterTransmit(deviceAddress, d[..], TransferTimeout);
    assert i2c.log[|old(i2c.log)|..] == [i2c.log[|old(i2c.log)|]];
    if status != HalOk {
      return CheckError(i2c.GetError());
    }
    return Ok;
  }

  /**
   * Writes `count` bytes starting at a register through one memory write,
   * whose address size is chosen from the register address.
   */
  method WriteSome(i2c: I2cBus, deviceAddress: U8, registerAddress: U16, data: array<U8>, count: U16) returns (r: Result)
    requires count <= data.Length
    modifies i2c
    ensures old(i2c.log) <= i2c.log
    ensures Executes(i2c.log[|old(i2c.log)|..],
      [MemoryWrite(deviceAddress, registerAddress, MemAddSizeFor(registerAddress), data[..count], TransferTimeout)])
    ensures r == Outcome(i2c.log[|old(i2c.log)|..], i2c.lastError)
  {
    var size := if registerAddress > 0xFF then MemAdd16Bit else MemAdd8Bit;
    var status := i2c.MemWrite(deviceAddress, registerAddress, size, data[..count], TransferTimeout);
    assert i2c.log[|old(i2c.log)|..] == [i2c.log[|old(i2c.log)|]];
    if status != HalOk {
      return CheckError(i2c.GetError());
    }
    return Ok;
  }

  /** Writes one byte with no register address, as a command: one transmit of `[data]`. */
  method WriteWithNoRegisterAddress(i2c: I2cBus, deviceAddress: U8, data: U8) returns (r: Result)
    modifies i2c
    ensures old(i2c.log) <= i2c.log
    ensures Executes(i2c.log[|old(i2c.log)|..], [Transmit(deviceAddress, [data], TransferTimeout)])
    ensures r == Outcome(i2c.log[|old(i2c.log)|..], i2c.lastError)
  {
    var status := i2c.MasterTransmit(deviceAddress, [data], TransferTimeout);
    assert i2c.log[|old(i2c.log)|..] == [i2c.log[|old(i2c.log)|]];
    if status != HalOk {
      return CheckError(i2c.GetError());
    }
    return Ok;
  }

  /** Writes the first `count` bytes of `data` with no register address, in one transmit. */
  method WriteSomeWithNoRegisterAddress(i2c: I2cBus, deviceAddress: U8, data: array<U8>, count: U16) returns (r: Result)
    requires count <= data.Length
    modifies i2c
    ensures old(i2c.log) <= i2c.log
    ensures Executes(i2c.log[|old(i2c.log)|..], [Transmit(deviceAddress, data[..count], TransferTimeout)])
    ensures r == Outcome(i2c.log[|old(i2c.log)|..], i2c.lastError)
  {
    var status := i2c.MasterTransmit(deviceAddress, data[..count], TransferTimeout);
    assert i2c.log[|old(i2c.log)|..] == [i2c.log[|old(i2c.log)|]];
    if status != HalOk {
      return CheckError(i2c.GetError());
    }
    return Ok;
  }

  /** Writes one byte to a 16-bit register: one transmit of `[high, low, data]`. */
  method WriteWith16BitRegisterAddress(i2c: I2cBus, deviceAddress: U8, registerAddress: U16, data: U8) returns (r: Result)
    modifies i2c
    ensures old(i2c.log) <= i2c.log
    ensures Executes(i2c.log[|old(i2c.log)|..],
      [Transmit(deviceAddress, WriteFrame16(registerAddress, data), TransferTimeout)])
    ensures r == Outcome(i2c.log[|old(i2c.log)|..], i2c.lastError)
  {
    var d := new U8[3];
    d[0] := (registerAddress / 0x100) % 0x100;
    d[1] := registerAddress % 0x100;
    d[2] := data;
    var status := i2c.MasterTransmit(deviceAddress, d[..], TransferTimeout);
    assert i2c.log[|old(i2c.log)|..] == [i2c.log[|old(i2c.log)|]];
    if status != HalOk {
      return CheckError(i2c.GetError());
    }
    return Ok;
  }

  /**
   * Reads one byte from an 8-bit register: transmits the register address,
   * then receives one byte into `data[0]`. When the address transmit fails
   * nothing is received and `data` is untouched.
   */
  method Read(i2c: I2cBus, deviceAddress: U8, registerAddress: U8, data: array<U8>) returns (r: Result)
    requires 1 <= data.Length
    modifies i2c, data
    ensures old(i2c.log) <= i2c.log
    ensures Executes(i2c.log[|old(i2c.log)|..],
      [Transmit(deviceAddress, [registerAddress], TransferTimeout), Receive(deviceAddress, 1, TransferTimeout)])
    ensures r == Outcome(i2c.log[|old(i2c.log)|..], i2c.lastError)
    ensures !Succeeded(i2c.log[|old(i2c.log)|]) ==> data[..] == old(data[..])
    ensures r == Ok ==> data[..1] == i2c.log[|i2c.log| - 1].reply
    ensures data[1..] == old(data[1..])
  {
    var status := i2c.MasterTransmit(deviceAddress, [registerAddress], TransferTimeout);
    assert i2c.log[|old(i2c.log)|..] == [i2c.log[|old(i2c.log)|]];
    if status != HalOk {
      return CheckError(i2c.GetError());
    }
    ghost var sent := i2c.log;
    status := i2c.MasterReceive(deviceAddress, data, 1, TransferTimeout);
    assert i2c.log[|old(i2c.log)|..] == [sent[|old(i2c.log)|], i2c.log[|sent|]];
    if status != HalOk {
      return CheckError(i2c.GetError());
    }
    return Ok;
  }

  /**
   * Reads `count` bytes starting at an 8-bit register: transmits the
   * register address, then receives `count` bytes into `data`.
   */
  method ReadSome(i2c: I2cBus, deviceAddress: U8, registerAddress: U8, data: array<U8>, count: U16) returns (r: Result)
    requires count <= data.Length
    modifies i2c, data
    ensures old(i2c.log) <= i2c.log
    ensures Executes(i2c.log[|old(i2c.log)|..],
      [Transmit(deviceAddress, [registerAddress], TransferTimeout), Receive(deviceAddress, count, TransferTimeout)])
    ensures r == Outcome(i2c.log[|old(i2c.log)|..], i2c.lastError)
    ensures !Succeeded(i2c.log[|old(i2c.log)|]) ==> data[..] == old(data[..])
    ensures r == Ok ==> data[..count] == i2c.log[|i2c.log| - 1].reply
    ensures data[count..] == old(data[count..])
  {
    var status := i2c.MasterTransmit(deviceAddress, [registerAddress], TransferTimeout);
    assert i2c.log[|old(i2c.log)|..] == [i2c.log[|old(i2c.log)|]];
    if status != HalOk {
      return CheckError(i2c.GetError());
    }
    ghost var sent := i2c.log;
    status := i2c.MasterReceive(deviceAddress, data, count, TransferTimeout);
    assert i2c.log[|old(i2c.log)|..] == [sent[|old(i2c.log)|], i2c.log[|sent|]];
    if status != HalOk {
      return CheckError(i2c.GetError());
    }
    return Ok;
  }

  /** Receives one byte into `data[0]` with no register address sent first. */
  method ReadWithNoRegisterAddress(i2c: I2cBus, deviceAddress: U8, data: array<U8>) returns (r: Result)
    requires 1 <= data.Length
    modifies i2c, data
    ensures old(i2c.log) <= i2c.log
    ensures Executes(i2c.log[|old(i2c.log)|..], [Receive(deviceAddress, 1, TransferTimeout)])
    ensures r == Outcome(i2c.log[|old(i2c.log)|..], i2c.lastError)
    ensures r == Ok ==> data[..1] == i2c.log[|i2c.log| - 1].reply
    ensures data[1..] == old(data[1..])
  {
    var status := i2c.MasterReceive(deviceAddress, data, 1, TransferTimeout);
    assert i2c.log[|old(i2c.log)|..] == [i2c.log[|old(i2c.log)|]];
    if status != HalOk {
      return CheckError(i2c.GetError());
    }
    return Ok;
  }

  /** Receives `count` bytes into `data` with no register address sent first. */
  method ReadSomeWithNoRegisterAddress(i2c: I2cBus, deviceAddress: U8, data: array<U8>, count: U16) returns (r: Result)
    requires count <= data.Length
    modifies i2c, data
    ensures old(i2c.log) <= i2c.log
    ensures Executes(i2c.log[|old(i2c.log)|..], [Receive(deviceAddress, count, TransferTimeout)])
    ensures r == Outcome(i2c.log[|old(i2c.log)|..], i2c.lastError)
    ensures r == Ok ==> data[..count] == i2c.log[|i2c.log| - 1].reply
    ensures data[count..] == old(data[count..])
  {
    var status := i2c.MasterReceive(deviceAddress, data, count, TransferTimeout);
    assert i2c.log[|old(i2c.log)|..] == [i2c.log[|old(i2c.log)|]];
    if status != HalOk {
      return CheckError(i2c.GetError());
    }
    return Ok;
  }

  /**
   * Reads one byte from a 16-bit register: transmits the two address bytes
   * MSB first, then receives one byte into `data[0]`.
   */
  method ReadWith16BitRegisterAddress(i2c: I2cBus, deviceAddress: U8, registerAddress: U16, data: array<U8>) returns (r: Result)
    requires 1 <= data.Length
    modifies i2c, data
    ensures old(i2c.log) <= i2c.log
    ensures Executes(i2c.log[|old(i2c.log)|..],
      [Transmit(deviceAddress, AddressFrame16(registerAddress), TransferTimeout), Receive(deviceAddress, 1, TransferTimeout)])
    ensures r == Outcome(i2c.log[|old(i2c.log)|..], i2c.lastError)
    ensures !Succeeded(i2c.log[|old(i2c.log)|]) ==> data[..] == old(data[..])
    ensures r == Ok ==> data[..1] == i2c.log[|i2c.log| - 1].reply
    ensures data[1..] == old(data[1..])
  {
    var adr := new U8[2];
    adr[0] := (registerAddress / 0x100) % 0x100;
    adr[1] := registerAddress % 0x100;
    var status := i2c.MasterTransmit(deviceAddress, adr[..], TransferTimeout);
    assert i2c.log[|old(i2c.log)|..] == [i2c.log[|old(i2c.log)|]];
    if status != HalOk {
      return CheckError(i2c.GetError());
    }
    ghost var sent := i2c.log;
    status := i2c.MasterReceive(deviceAddress, data, 1, TransferTimeout);
    assert i2c.log[|old(i2c.log)|..] == [sent[|old(i2c.log)|], i2c.log[|sent|]];
    if status != HalOk {
      return CheckError(i2c.GetError());
    }
    return Ok;
  }
}
