# I2C-Tiny-USB in Dafny

I2C-Tiny-USB is firmware for small AVR microcontrollers that turns the chip
into a USB-to-I2C adapter. The host sends vendor control requests on
endpoint 0 that:

- echo two bytes;
- report the adapter's I2C capability word;
- set the I2C clock delay;
- read the status of the last address phase;
- start an I2C transfer.

The data stage of a transfer request carries the bytes that are read from
or written to the bus. The firmware drives its I2C lines by bit-banging two
port pins.

This project models three parts of that firmware:

- **The bridge and the I2C master of firmware/main.c** (USBTINY build).
  - Module `I2c` (`i2c.dfy`) holds the pin-level master. It is a `Master`
    object that appends the pin actions it makes (`pins`) and the bus events
    they stand for (`events`). The slave's SDA level is an oracle over the
    pin trace.
  - A small I2C line decoder (`Decode`) is the independent reference. It
    shows that the waves the master produces are the START, byte,
    acknowledge and STOP conditions of the I2C-bus specification (NXP
    UM10204, sections 3.1.4 to 3.1.6).
  - Module `Bridge` (`bridge.dfy`) models the bridge state: `status`,
    `expected`, `saved_cmd`, `clock_delay` and `clock_delay2`. It also
    models the request handler `usb_setup`, the transfer start `i2c_do`, and
    the data-stage callbacks `usb_in` and `usb_out`. Each method is proved
    against a two-state predicate over a `BridgeView` snapshot:
    `SetupPost`, `I2cDoPost`, `ReadPost` and `WritePost`.
  - One class serves both builds, through a `Variant`. The Digispark build
    (digispark/main.c) differs in its clock scaling. It also hands both
    transfer directions to its callbacks and keeps a static reply buffer.
- **The usbtiny USB engine of firmware/usbtiny/usb.c** (module `UsbTiny`,
  `usbtiny.dfy`).
  - The driver state is a `Driver` object: the double receive buffer, the
    transmit buffer, and the length, PID, address and transmit-state
    variables.
  - `usb_receive` answers the standard requests itself and passes the
    others to the bridge.
  - `usb_transmit` cuts a reply into packets: full 8-byte packets followed
    by one short packet, with the DATA0/DATA1 toggle and the CRC.
  - `usb_poll` stores received packets, refills the transmit buffer, applies
    a pending address and detects a bus reset.
  - The descriptor tables lie in a modelled program memory (`Rom`).
  - `Driver.ServeRead` puts the pieces together. It follows a 16-byte I2C
    read from its SETUP packet to the three IN packets of its data stage.
- **The Digispark additions of digispark/main.c** (module `Digispark`,
  `calibration.dfy`):
  - oscillator calibration: a binary search over OSCCAL, then a search of
    its neighbourhood;
  - storing the calibrated trim in EEPROM, and restoring it at boot;
  - the serial number taken from EEPROM.

`Bytes` (`bytes.dfy`) holds the machine integers and the most-significant-first
bit lists the other modules share.

## Model

| member | source | states |
|---|---|---|
| Bytes.ToBitsAt | firmware/main.c:265-271 | element 7-i of a byte's wire bit list is the bit that the test `b & (1<<i)` selects, for i = 7 down to 0 |
| Bytes.ByteBitsRoundTrip | firmware/main.c:263-304 | the bits i2c_put_u08 shifts out, when assembled MSB first the way i2c_get_u08 does it, give the byte back |
| Bytes.BitsByteRoundTrip | firmware/main.c:288-294 | any 8 sampled bits assemble into a byte below 256 whose wire bits are exactly those samples |
| I2c.StartDecodes | firmware/main.c:240-243 | on an idle bus, the i2c_start wave decodes as one START condition and leaves SCL low |
| I2c.RepStartDecodes | firmware/main.c:246-255 | with SCL low, the i2c_repstart wave (release SDA, then SCL, then pull SDA) decodes as exactly one repeated START |
| I2c.StopDecodes | firmware/main.c:257-261 | with SCL low, the i2c_stop wave decodes as one STOP and leaves both lines released (idle) |
| I2c.BitDecodes | firmware/main.c:266-269 | a level set on SDA while SCL is low, followed by i2c_scl_toggle, is clocked as exactly that data bit |
| I2c.DriveBitsDecodes | firmware/main.c:265-270 | driving a list of bits this way clocks each bit once, in order, with no START or STOP in between |
| I2c.SampleBitsDecodes | firmware/main.c:288-294 | the read loop's clock pulses are clocks with SDA released, one per bit |
| I2c.PutWaveDecodes | firmware/main.c:263-280 | a slave sees the 8 data bits MSB first, then a ninth clock with SDA released for its acknowledge |
| I2c.GetWaveDecodes | firmware/main.c:282-304 | a slave sees 8 clocks with SDA released for its data, then the master's acknowledge bit, which is released (a NAK) exactly for the last byte |
| I2c.AddressOnlyTransaction | firmware/main.c:336-367 | START, an address byte, its acknowledge clock and STOP decode as exactly that transaction, and the bus is idle again afterwards |
| I2c.Master.constructor | firmware/main.c:218-231 | i2c_init: the trace is empty and the slave oracle is the given one |
| I2c.Master.SetSda | firmware/main.c:182-190 | i2c_io_set_sda appends one SDA action and no bus event |
| I2c.Master.SetScl | firmware/main.c:196-216 | i2c_io_set_scl appends one SCL action |
| I2c.Master.GetSda | firmware/main.c:192-194 | i2c_io_get_sda returns the slave's level for the trace so far and records the sample |
| I2c.Master.SclToggle | firmware/main.c:234-237 | i2c_scl_toggle: one clock pulse, SCL high and then low |
| I2c.Master.Start | firmware/main.c:240-243 | appends the START wave and a Start event |
| I2c.Master.RepStart | firmware/main.c:246-255 | appends the repeated-START wave and a RepStart event |
| I2c.Master.Stop | firmware/main.c:257-261 | appends the STOP wave and a Stop event |
| I2c.Master.ShiftOut | firmware/main.c:265-271 | the bit loop of i2c_put_u08 drives the byte's 8 bits MSB first, one clock each |
| I2c.Master.PutU08 | firmware/main.c:263-280 | i2c_put_u08 sends the byte and releases SDA for the ninth clock; it returns ACK exactly when the slave holds SDA low during that clock, and records a Write event |
| I2c.Master.ClockIn | firmware/main.c:289-294 | one read clock: raise SCL, sample SDA while it is high, lower SCL |
| I2c.Master.ShiftIn | firmware/main.c:288-295 | the read loop returns the byte whose wire bits are the SDA levels sampled on each of its 8 clocks |
| I2c.Master.GetU08 | firmware/main.c:282-304 | i2c_get_u08 releases SDA, reads 8 sampled bits, then sends ACK, or NAK when `last`, and records a Read event |
| Bridge.FuncBytesValue | firmware/main.c:93-140 | the capability word is I2C_FUNC_I2C plus the SMBus emulation flags (0x8EFF0001), and CMD_GET_FUNC sends its bytes 01 00 FF 8E |
| Bridge.ParseCmdBytes | firmware/main.c:322-328 | reading `struct i2c_cmd` from the packet a host builds for a command gives that command back |
| Bridge.CmdBytesParse | firmware/main.c:322-328 | every 8-byte SETUP packet is the encoding of what `struct i2c_cmd` reads from it |
| Bridge.AddressOnWire | firmware/main.c:341-345 | the address byte carries the 7 low address bits MSB first, then the R/W bit (1 for a read); higher address bits are dropped |
| Bridge.ReplyFitsLength | firmware/main.c:389-436 | every request except an I2C transfer returns exactly the number of bytes it wrote; an I2C transfer writes none and returns 0 or 0xff |
| Bridge.NoMsgExactly | firmware/main.c:369-374 | the handler returns 0xff (data stage to the callbacks) exactly for an I2C transfer with a non-zero length; USBTINY needs the read flag too, while the Digispark build at digispark/main.c:401 does not |
| Bridge.Half | firmware/main.c:411-412 | clock_delay2 is half of clock_delay, never 0 |
| Bridge.DelayFor | firmware/main.c:409-412 | after CMD_SET_DELAY, clock_delay is the requested value, or 1 for 0; on the Digispark it is the scaled value; it is always at least 1 |
| Bridge.ScaledDelay | digispark/main.c:517-528 | the Digispark delay scaled from 12 MHz to 16.5 MHz and truncated to 16 bits, minus the overhead, is never below 1 |
| Bridge.ScaledDelayMonotone | digispark/main.c:517-525 | a longer requested delay never gives a shorter clock delay, as long as the scaled value fits in 16 bits (requests up to 47662) |
| Bridge.ScaledDelayWraps | digispark/main.c:517-520 | the 16-bit truncation makes request 47662 give 65528 cycles and request 47663 give 1 cycle |
| Bridge.DefaultDelayDiffers | digispark/main.c:173-181 | the Digispark power-up delay is 6 cycles, while SET_DELAY with the host's default of 10 us gives 7 |
| Bridge.ReadsLast | firmware/main.c:461-466 | in a read, exactly the byte that brings `expected` to 0 is NAKed; every other byte is ACKed |
| Bridge.ReadsSplit | firmware/main.c:454-470 | a read split over several data packets produces the same bus bytes and acknowledges as one packet |
| Bridge.WritesSplit | firmware/main.c:500-505 | a write split over several data packets produces the same bus writes as one packet |
| Bridge.ZeroFill | firmware/main.c:472-475 | the memset: the given range becomes zero and every other byte is unchanged |
| Bridge.Bridge.constructor | firmware/main.c:161-166 | power-up state: status idle, nothing expected, the variant's default delay and half of it, no bus events |
| Bridge.Bridge.I2cDo | firmware/main.c:336-375 | i2c_do sends START (first message) or repeated START, then the address byte. On a NAK: STOP, status NAK, nothing expected. On an ACK: status ACK, the length expected, the command saved, and STOP at once for a final zero-length message. Returns 0xff exactly when a data stage follows |
| Bridge.Bridge.UsbSetup | firmware/main.c:382-437 | usb_setup (and usbFunctionSetup, digispark/main.c:487-554) returns the reply length for every request. It writes the echo, capability or status reply, applies SET_DELAY, starts I2C transfers, and changes nothing for unknown requests |
| Bridge.Bridge.Answer | firmware/main.c:389-436 | the requests other than I2C transfers: the reply bytes written, the returned length, and the state change |
| Bridge.Bridge.UsbIn | firmware/main.c:447-477 | usb_in after an ACKed address reads min(len, expected) bytes into the buffer, NAKs the last one and stops when the message ends. After a NAK it returns len zeros and leaves the bus alone. Other buffer bytes are unchanged |
| Bridge.Bridge.GetBytes | firmware/main.c:460-466 | the read loop: n bytes read from the bus into the buffer, with `expected` counted down |
| Bridge.Bridge.UsbOut | firmware/main.c:486-524 | usb_out after an ACKed address writes min(len, expected) host bytes to the bus, fails exactly when one of them is not ACKed, and stops when the message ends. After a NAK it zeroes the buffer range and leaves the bus alone |
| Bridge.Bridge.PutBytes | firmware/main.c:499-505 | the write loop: n bytes written with their acknowledges, `expected` counted down, failure exactly when a NAK was seen |
| UsbTiny.FlipPidAlternates | firmware/usbtiny/usb.c:321 | XOR with DATA0^DATA1 turns DATA0 into DATA1 and DATA1 into DATA0 |
| UsbTiny.StringDescriptor | firmware/usbtiny/usb.c:80-112 | a string descriptor's length byte is twice the C array size (the NUL counted), so it equals the table size |
| UsbTiny.DescriptorInRom | firmware/usbtiny/usb.c:228-272 | every table that GET_DESCRIPTOR selects lies in program memory at the offset it starts from |
| UsbTiny.DescriptorsSelfDescribing | firmware/usbtiny/usb.c:131-191 | bLength of each table is its size, the configuration's wTotalLength covers the interface after it, and bMaxPacketSize0 is 8 |
| UsbTiny.SetupTotalWithinRequest | firmware/usbtiny/usb.c:206-298 | the queued length is the reply length cut to wLength, or to 255 when wLength's high byte is set; it never exceeds wLength; a long enough wLength gets the whole reply |
| UsbTiny.RawLengthIsReply | firmware/usbtiny/usb.c:212-293 | unless the callbacks serve the data stage, the computed length is the length of the reply (at most 26 bytes) |
| UsbTiny.CallbackExactly | firmware/usbtiny/usb.c:284-292 | the callback state is chosen exactly for a class or vendor I2C transfer that reads a non-zero length |
| UsbTiny.ChunksShape | firmware/usbtiny/usb.c:321-364 | a reply of b bytes goes out as b/8 + 1 packets: all 8 bytes long except the last, which has b mod 8 bytes |
| UsbTiny.Load | firmware/usbtiny/usb.c:338-356 | the copy loop puts the n source bytes right behind the PID byte and leaves the rest of the buffer alone |
| UsbTiny.QueuedReply | firmware/usbtiny/usb.c:204-307 | after a SETUP, the memory the transmitter reads from holds the request's reply, cut to the queued total, at the queued position |
| UsbTiny.Driver.constructor | firmware/usbtiny/usb.c:53-78 | the static initial state: empty buffers, transmitter idle, address 0 |
| UsbTiny.Driver.Setup | firmware/usbtiny/usb.c:204-299 | the SETUP half of usb_receive: the data source and length it queues, the recorded SET_ADDRESS, the answer written over the packet, and the bridge's state change |
| UsbTiny.Driver.Vendor | firmware/usbtiny/usb.c:284-293 | class and vendor requests go to usb_setup; a 0xff answer selects the callback state |
| UsbTiny.Driver.Standard | firmware/usbtiny/usb.c:212-283 | GET_STATUS, SET_ADDRESS, GET_DESCRIPTOR, GET_CONFIGURATION and GET_INTERFACE, with their answer bytes and lengths; other standard requests answer with zero length |
| UsbTiny.Driver.Answer | firmware/usbtiny/usb.c:214-282 | a standard answer overwrites the first bytes of the packet, and nothing else |
| UsbTiny.Driver.Receive | firmware/usbtiny/usb.c:196-308 | usb_receive, from the state before to the state after (`Received`). After SETUP, the data stage is queued as `SetupEffect` says. After OUT, the bytes go to usb_out and an empty status reply is queued (`OutEffect`). The transmit buffer holds DATA0, so the next packet flips to DATA1 |
| UsbTiny.Driver.ReceiveSetup | firmware/usbtiny/usb.c:204-307 | the queued data stage is the reply to the SETUP packet, cut to the queued total |
| UsbTiny.Driver.Queue | firmware/usbtiny/usb.c:298-306 | arms the transmitter; the pending bytes are those of the named memory |
| UsbTiny.Driver.ReceiveOut | firmware/usbtiny/usb.c:300-306 | the OUT data stage goes to usb_out when it is not empty, and an empty RAM reply is queued |
| UsbTiny.Driver.Transmit | firmware/usbtiny/usb.c:313-365 | usb_transmit sends the next packet: the flipped PID, the first Chunks packet of what was pending (or what usb_in delivered), and its CRC; the length is data + 3; the state goes idle after a short packet; the rest stays pending |
| UsbTiny.Driver.CopyOut | firmware/usbtiny/usb.c:337-357 | the RAM or ROM copy loop sends the first n pending bytes and advances past them |
| UsbTiny.Driver.CallIn | firmware/usbtiny/usb.c:330-334 | in the callback state, usb_in fills the packet and the total is reduced by what it delivered |
| UsbTiny.Driver.Seal | firmware/usbtiny/usb.c:359-364 | the CRC goes behind the data, the length becomes data + 3, and a short packet ends the transfer |
| UsbTiny.Driver.StreamRead | firmware/usbtiny/usb.c:313-365 | the data stage of a 16-byte read is two full packets and a zero-length packet, sent as DATA1, DATA0 and DATA1. After an ACKed address the bus reads 16 bytes, NAKs the last one and stops; otherwise the host gets zeros |
| UsbTiny.Driver.ServeRead | firmware/usbtiny/usb.c:196-365 | end to end, for a 16-byte I2C read request: the host gets DATA1, DATA0 and DATA1 packets of 8, 8 and 0 bytes. On the bus: START and the address byte; on a NAK, STOP and 16 zeros; on an ACK, 16 reads with only the last NAKed, then STOP |
| UsbTiny.Driver.Poll | firmware/usbtiny/usb.c:383-418 | usb_poll, as three chained snapshots. (1) A stored packet is received from rxBuf[BufSize - rxOff + 1..] with rxLen - 3 data bytes (`Received`), and both buffers are emptied. (2) An empty transmit buffer gets the next packet of an active transfer (`Transmitted`: the flipped PID, the next `Chunks` packet or what usb_in read, the CRC and the new total). When the transmitter is idle, the pending address takes effect instead. (3) On SE0 the packet lengths and the pending address are cleared, and nothing else changes |
| UsbTiny.Driver.TakePacket | firmware/usbtiny/usb.c:388-393 | usb_receive of the stored packet at rxBuf[BufSize - rxOff + 1..], with its PID and CRC dropped (rxLen - 3 data bytes), does what `Received` says: after SETUP the `SetupEffect`, after OUT the `OutEffect`. Both buffers are then marked empty, and rxOff, the token and the address stay as they were |
| UsbTiny.PollReplies | firmware/usbtiny/usb.c:388-405 | a packet that usb_poll takes and then answers goes out as DATA1 with length data + 3. After a SETUP answered from memory, it carries the first min(total, 8) bytes of the reply cut to wLength, and the rest of the reply stays pending as the following packets. After OUT it is the empty status packet, which ends the transfer |
| UsbTiny.ReadRequestQueued | firmware/usbtiny/usb.c:284-307 | the SETUP packet of a 16-byte I2C read queues a 16-byte callback stage behind DATA0, after START and the address. On an ACK, 16 bytes are expected and the message ends; on a NAK, the bus is stopped |
| UsbTiny.Driver.Refill | firmware/usbtiny/usb.c:395-405 | with the transmit buffer empty and a transfer active, usb_transmit runs, with everything `Transmitted` states about the PID, data, CRC, total and state. When idle, only the address changes, to the pending one |
| UsbTiny.Driver.CheckReset | firmware/usbtiny/usb.c:407-417 | SE0 on all ten D- samples clears both packet lengths and the pending address; otherwise nothing changes |
| UsbTiny.SampleBusReset | firmware/usbtiny/usb.c:407-410 | the countdown reaches 0 exactly when all ten D- samples are low (SE0); otherwise it stops at the first high sample |
| Digispark.AsWrittenNeverEnds | digispark/main.c:589 | with the 8-bit OSCCAL, the loop test never fails after a binary-search result of 254 or 255, so the loop runs forever |
| Digispark.AsWrittenSkipsZero | digispark/main.c:589 | after a binary-search result of 0, the start value wraps to 255, the loop body never runs, and trims 0 and 1 are not measured |
| Digispark.AsWrittenAgrees | digispark/main.c:589-597 | for results 1 to 253 the loop as written visits exactly trialValue-1, trialValue and trialValue+1 |
| Digispark.SignedDigit | digispark/main.c:655-689 | the signed-char digit test on a stored serial byte accepts exactly '0' to '9' |
| Digispark.TrimSurvivesReset | digispark/main.c:601-620 | a trim stored at reset is restored at the next boot exactly when it is not 0xFF (unless OSCCAL already was 0xFF) |
| Digispark.Board.constructor | digispark/main.c:80-84 | the serial descriptor header for 3 characters; the EEPROM, the OSCCAL trim and the frame-length oracle as given |
| Digispark.Board.BinarySearch | digispark/main.c:577-584 | 8 probes; the result is 0 or a trim measured below the target; for a monotone oscillator, every trim from 1 up that is below the target is at most the result |
| Digispark.Board.PassStep | digispark/main.c:590-596 | one turn of the neighbourhood loop keeps the best deviation seen so far and its trim |
| Digispark.Board.Neighbourhood | digispark/main.c:586-598 | the corrected neighbourhood search measures trialValue-1..trialValue+1 (those that are trims) and picks the first one with the smallest deviation from the target, provided that deviation is below the last binary-search measurement, which is its starting value; otherwise it keeps trialValue |
| Digispark.Board.CalibrateOscillator | digispark/main.c:571-599 | calibrateOscillator: the binary search, then the corrected neighbourhood pass (see Findings: it measures trims 0 and 1 after a result of 0, and ends after 254 or 255, unlike the loop as written). OSCCAL ends at the chosen trim |
| Digispark.Board.UsbEventResetReady | digispark/main.c:601-605 | calibrates, using the corrected neighbourhood pass (see Findings), and stores the chosen trim in EEPROM cell 0 |
| Digispark.Board.LoadCalibration | digispark/main.c:617-620 | at boot, OSCCAL takes the stored trim unless it is 0xFF |
| Digispark.Board.InitSerialNumber | digispark/main.c:655-689 | the three serial digits are kept when all are digits, and replaced by the default "113" otherwise; the descriptor then carries the three EEPROM bytes |

## Findings

| source | as written | input that shows it | evidently intended | confidence | as-written member | corrected member |
|---|---|---|---|---|---|---|
| digispark/main.c:589 | `OSCCAL <= trialValue + 1` compares the 8-bit OSCCAL, which wraps at 255, with an int that can be 256 or 255 | a binary search ending at trialValue 254 or 255 (an oscillator that reads below the target up to trim 254): the loop never ends. The watchdog, enabled with a 1 s timeout at digispark/main.c:634 and reset only in the main loop at line 648, then resets the chip about every second, so the device reboots over and over and never enumerates | measure trialValue-1, trialValue, trialValue+1 where they are trims, then stop | not executed | Digispark.AsWrittenNeverEnds | Digispark.Board.Neighbourhood |
| digispark/main.c:589 | `OSCCAL = trialValue - 1` stores 255 for trialValue 0, and 255 <= 1 fails at once | a binary search ending at trialValue 0 (every probe reads at or above the target): trims 0 and 1 are never measured and OSCCAL ends at 0 | measure trims 0 and 1 | not executed | Digispark.AsWrittenSkipsZero | Digispark.Board.Neighbourhood |

## Left out

- Pin timing: the `_delay_loop_2` waits, the clock-stretch spin of i2c_io_set_scl and the pull-up settling are left out. Only the order of the pin actions is modelled; the loop that waits for SCL is a single SCL action.
- I2C slave behaviour is an oracle parameter (`sda` over the pin trace).
- The USB interrupt handler is assembly code: NRZI decoding, bit stuffing, and the filling of the receive buffer with `usb_rx_len` and `usb_rx_token`. It is not part of this model. The driver takes its results as state, including that a stored packet has at least 3 bytes.
- CRC16 is assembly code and a parameter (`crc`).
- The ten D- samples that usb_poll's reset check reads are a parameter (`dMinus`).
- `cli`/`sei`, the watchdog, the LED, port set-up and the main loops of both builds are left out as hardware plumbing.
- Digispark.Board.BinarySearch: the targetValue computed in floating point is a parameter. `usbMeasureFrameLength` is a parameter (`frameLength`). The 16-bit `int` of `x - targetValue` is unbounded, so a measurement far from the target does not overflow in the model.
- UsbTiny.Utf16Le: only the length of the encoded string is stated, not the character bytes.
- UsbTiny.Descriptor: only the size and the length fields of the descriptor tables are stated, not every byte.
- Bridge.Bridge.UsbOut: returns the number of bytes written and a failure flag. The USBTINY usb_out returns nothing; the Digispark usbFunctionWrite returns the length.
- The V-USB driver that the Digispark build links against is not part of this model. Its usbFunctionRead, usbFunctionWrite and usbFunctionSetup are modelled through the shared bridge.
- The Digispark serial length of 3 characters comes from its usbconfig.h, which is not part of this model.
- UsbTiny.Driver.StreamRead: calls usb_transmit directly for each IN packet, instead of going through usb_poll and the interrupt handler. The interrupt handler that empties the transmit buffer between polls is not part of this model.
- UsbTiny.Driver.ServeRead: calls usb_receive directly, instead of through usb_poll. Its data stage goes through StreamRead. `Driver.Poll` and `PollReplies` state what usb_poll adds: the offset and length of the taken packet, and the refill.
- The `i2c_scan` debug routine, the kernel driver and the host test program are outside the firmware core.
- The V-USB build of firmware/main.c (`#ifndef USBTINY`) is only covered through the Digispark variant. Its clock scaling is not modelled separately.
