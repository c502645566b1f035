# SD_HAL_I2C register-access layer, modelled in Dafny

This project models `sd_hal_i2c.c`, a thin layer over the STM32 HAL I2C
driver. The layer has four parts:

- `SD_I2C_CheckError` turns the driver's last error code into a
  `SD_I2C_Result`.
- `SD_I2C_IsDeviceConnected` probes a device for readiness.
- Five write helpers send bytes to a device. The address can be an 8-bit
  register, a 16-bit register, an address whose size is chosen from its
  value, or no register at all.
- Five read helpers send the register address first, when there is one, and
  then receive into the caller's buffer.

Two modules:

- `Hal` (hal.dfy) stands in for the vendor driver. `I2cBus` is the bus
  handle. It holds a log of every driver call and the `lastError` code.
  Each primitive records its arguments and succeeds or fails
  nondeterministically:
  - `MasterTransmit`
  - `MasterReceive`
  - `MemWrite`
  - `IsDeviceReady`

  After a call, `lastError` may hold any code, and a receive may leave
  anything in the part of the buffer it was given. `Executes(calls, plan)`
  says that `calls` come from issuing `plan` in order and stopping right
  after the first failure. `ExecutesShape` proves what that implies.
- `SdHalI2c` (sd_hal_i2c.dfy) holds the result enumeration, the classifier,
  the 16-bit address split and the twelve entry points. Each entry point is
  a method that takes the bus handle, as the C functions take `I2Cx`. Its
  postconditions state three things:
  - the exact plan of driver calls it runs, with the device address passed
    through unchanged and the frame bytes it builds;
  - that it returns `Outcome(issued calls, lastError)`: `Ok` exactly when
    every call it issued succeeded, and otherwise the classifier's verdict,
    which is never `Ok`;
  - for reads, what happens to the caller's buffer. A failed address
    transmit leaves it untouched. A successful read holds the received
    bytes. Elements past `count` are never written.

The classifier compares the error code with each driver constant using `!=`
(sd_hal_i2c.c:14-33). So it answers `BERR` for every code except the
bus-error constant, and answers `ARLO` for that one. Its later branches and
its final `return SD_I2C_Result_Error` are unreachable. `CheckErrorRange`
proves that over all 32-bit codes the only answers are `Berr` and `Arlo`.
The model follows the code as written.

No entry point shifts the device address. Every driver call receives
`device_address` unchanged, widened to 16 bits.

`SD_I2C_WriteSome` issues one `HAL_I2C_Mem_Write` call with the register
address, an address size, the data pointer and the count.

The driver's error constants (`ErrorBerr` = 0x01 … `ErrorSize` = 0x40) take
the values of the STM32F0 HAL header. That header is not part of this model.
The proofs rely only on the constants being distinct.

## Model

| member | source | states |
|---|---|---|
| SdHalI2c.Result.Code | sd_hal_i2c.h:34-45 | the enumerators' values lie in 0x00..0x09, and 0 is exactly `Ok` |
| SdHalI2c.CodeInjective | sd_hal_i2c.h:34-45 | different enumerators have different values, so every code names exactly one result |
| SdHalI2c.CheckError | sd_hal_i2c.c:10-38 | the answer is `Berr` whenever the code differs from the bus-error constant, `Arlo` when it equals it, and never `Ok` |
| SdHalI2c.CheckErrorRange | sd_hal_i2c.c:14-36 | over all 32-bit codes the classifier reaches exactly `Berr` and `Arlo`; `Ok`, `Error`, `Busy`, `Af`, `Ovr`, `Dma`, `Timeout` and `Size` are unreachable |
| SdHalI2c.Outcome | sd_hal_i2c.c:44-48 | the shared result rule: `Ok` iff every issued driver call returned `HAL_OK`, otherwise the classifier's answer on the last error code |
| Hal.ExecutesShape | sd_hal_i2c.c:121-129 | a run of a plan issues a prefix of the plan in order; every call but the last succeeded; if all succeeded, the whole plan was issued; if one failed, it is the last issued |
| SdHalI2c.MemAddSizeFor | sd_hal_i2c.c:71 | the chosen address size carries the register address, and it is the 8-bit size whenever the address fits in 8 bits |
| SdHalI2c.MemAddSizeBoundary | sd_hal_i2c.c:71 | 0xFF selects the 8-bit size, 0x100 the 16-bit size, and the 16-bit size is chosen iff the address exceeds 0xFF |
| SdHalI2c.SplitJoin | sd_hal_i2c.c:105-106 | splitting a 16-bit address into high and low bytes and joining them gives the address back, and joining then splitting gives the bytes back |
| SdHalI2c.AddressFrame16 | sd_hal_i2c.c:170-174 | the 16-bit read address frame has two bytes, and high·256 + low is the register address |
| SdHalI2c.WriteFrame16 | sd_hal_i2c.c:102-107 | the 16-bit write frame has three bytes: the address frame (high·256 + low = register address), then the data byte |
| Hal.I2cBus.MasterTransmit | sd_hal_i2c.c:60 | a transmit appends exactly one call, holding its device address, bytes and timeout, to the log |
| Hal.I2cBus.MasterReceive | sd_hal_i2c.c:125 | a receive appends one call; on success the first `count` buffer elements are the reply; elements past `count` are untouched |
| Hal.I2cBus.MemWrite | sd_hal_i2c.c:71 | a memory write appends exactly one call with its device address, memory address, address size, bytes and timeout |
| Hal.I2cBus.IsDeviceReady | sd_hal_i2c.c:44 | a readiness probe appends exactly one call with its device address, trials and timeout |
| SdHalI2c.IsDeviceConnected | sd_hal_i2c.c:41-49 | one readiness probe to the unchanged device address with 2 trials and timeout 5; `Ok` iff it succeeded, otherwise the classified error |
| SdHalI2c.Write | sd_hal_i2c.c:51-65 | one transmit of the 2-byte frame `[register_address, data]` to the unchanged device address with timeout 1000; `Ok` iff it succeeded, otherwise the classified error |
| SdHalI2c.WriteSome | sd_hal_i2c.c:67-76 | one memory write of the first `count` data bytes at the register address, with the 16-bit size iff the address exceeds 0xFF and timeout 1000; `Ok` iff it succeeded |
| SdHalI2c.WriteWithNoRegisterAddress | sd_hal_i2c.c:78-87 | one transmit of `[data]` with no address byte, timeout 1000; `Ok` iff it succeeded |
| SdHalI2c.WriteSomeWithNoRegisterAddress | sd_hal_i2c.c:89-98 | one transmit of the first `count` data bytes with no address byte, timeout 1000; `Ok` iff it succeeded |
| SdHalI2c.WriteWith16BitRegisterAddress | sd_hal_i2c.c:100-115 | one transmit of `[high, low, data]`, with the address split MSB first, timeout 1000; `Ok` iff it succeeded |
| SdHalI2c.Read | sd_hal_i2c.c:117-130 | transmit `[register_address]`, then, only if that succeeded, receive 1 byte; a failed transmit leaves `data` untouched; on `Ok`, `data[0]` is the received byte; otherwise the classified error of the failing step |
| SdHalI2c.ReadSome | sd_hal_i2c.c:132-145 | transmit `[register_address]`, then, only if that succeeded, receive `count` bytes; a failed transmit leaves `data` untouched; on `Ok`, `data[..count]` is the reply; nothing past `count` is written |
| SdHalI2c.ReadWithNoRegisterAddress | sd_hal_i2c.c:147-156 | one receive of 1 byte with no address transmit; on `Ok`, `data[0]` is the received byte |
| SdHalI2c.ReadSomeWithNoRegisterAddress | sd_hal_i2c.c:158-167 | one receive of `count` bytes with no address transmit; on `Ok`, `data[..count]` is the reply; nothing past `count` is written |
| SdHalI2c.ReadWith16BitRegisterAddress | sd_hal_i2c.c:169-187 | transmit the 2-byte MSB-first address frame, then, only if that succeeded, receive 1 byte; a failed transmit leaves `data` untouched; `Ok` iff both calls succeeded |

## Left out

- The STM32 HAL driver itself (`HAL_I2C_Master_Transmit`, `HAL_I2C_Master_Receive`, `HAL_I2C_Mem_Write`, `HAL_I2C_IsDeviceReady`, `HAL_I2C_GetError`): vendor code that is not part of this model. It is reduced to logging methods whose success, reply bytes and error code are unconstrained.
- The bytes that `HAL_I2C_Mem_Write` puts on the wire: not visible in sd_hal_i2c.c. Only its parameters are logged.
- Timing, timeouts taking effect, retries inside the readiness probe, clocking, interrupts and DMA: all internal to the driver.
- Concurrency and sharing a bus between masters: the layer does no locking.
- Hal.I2cBus.MasterReceive: on failure the first `count` buffer elements may hold anything, since the driver may have filled part of them. So a read whose receive step fails promises nothing about those elements.
- SdHalI2c.CheckError: takes the error code as a value rather than the bus handle. The entry points pass it `i2c.GetError()`, which is the same read the C code makes through `HAL_I2C_GetError`.
- The C pointer parameters `data` are arrays. A write helper's buffer is only read, and in this model it cannot alias the bus handle.
- The header declares `SD_I2C_WriteMultiWithNoRegisterAddress` (sd_hal_i2c.h:111), but the source defines `SD_I2C_WriteSomeWithNoRegisterAddress`. The defined function is the one modelled.
- `SD_I2C_Result_Busy` exists in the enumeration but no path produces it.
- The C++ linkage guards and the include of the vendor header.
