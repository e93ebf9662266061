# MeteoStation in Dafny

A model of the core of MeteoStation, a weather station built on an
STM32F407 board. The station reads a DS1307 real-time clock and stores
readings in an AT24C32 EEPROM, both over I2C. It shows the time on a
character LCD and logs samples to an SD card in per-day CSV files. Three
small web back-ends collect readings posted by the station and serve
statistics, trends, charts and tables.

The model follows the repository's own structure:

- **Register-level drivers.** These are `I2cDriver`, `Spi`, `Usart`, `Gpio`, `Nvic`, `Rcc` and `Lcd`. Peripheral registers are `bv32` fields of classes, and driver handles are classes whose methods update them in place. Every bus-level step is appended to a ghost trace of events, and each method states the exact trace it leaves. A busy-wait on a status flag is one "flag observed" event.
  - I2C: the CCR/TRISE/FREQ arithmetic of `I2C_Init`, the order of register actions in the blocking transfers, and the interrupt-driven transfer state machine.
  - USART: the BRR arithmetic and the control-register composition.
  - SPI: the CR1 composition.
  - GPIO: the field-wise register updates.
  - RCC: the clock decoding.
  - LCD: the 4-bit nibble protocol, seen as the nibbles the controller latches.
- **Device adapters.** These are `Ds1307`, `Ds1307Driver`, `Ds1307Hal`, `At24c32` and `At24c32Hal`. The BCD conversions, the time-register packing, the transfer framing and the EEPROM page chunking are each specified once. Each of the two adapter copies (the register-level one and the vendor-HAL one) is proved to follow that specification over `I2cBus`, a log of whole transfers with scripted slave replies and HAL statuses.
- **Applications.** These are `Text`, `RtcLcdApp` and `LoggerMain`.
  - `Text`: the two-digit, time and date formatting and C strings.
  - `RtcLcdApp`: the SysTick reload, the day names, and the EEPROM traffic of the SysTick handler.
  - `LoggerMain`: the SD logger's directory and daily-file rotation.
- **Web back-ends.** These are `Dashboard`, `JsServer`, `PhpDashboard` and `Esp32Dashboard`. They cover:
  - the capped histories and what any run of posts leaves in them;
  - the trend, status and colour classifiers;
  - the statistics;
  - the chart columns;
  - the table selection.

  Lemmas relate the JavaScript and PHP versions of the same classifier.

The helper modules `Bits` (read-modify-write of register bits) and `Seqs`
(regrouping appended sequences) carry no source behaviour of their own.

## Model

| member | source | states |
|---|---|---|
| I2cDriver.AddressPhaseWrite | drivers/Src/stm32f407xx_i2c_driver.c:47-52 | the write address byte has R/W bit 0 clear and carries the 7-bit address in bits 7..1 (the shift truncated to 8 bits) |
| I2cDriver.AddressPhaseRead | drivers/Src/stm32f407xx_i2c_driver.c:69-74 | the read address byte has R/W bit 0 set and carries the 7-bit address in bits 7..1 |
| I2cDriver.Cr1InitRegister | drivers/Src/stm32f407xx_i2c_driver.c:336-339 | I2C_Init's CR1 has ACK set iff the configured ACK control is 1, and PE, START and STOP clear |
| I2cDriver.FreqField | drivers/Src/stm32f407xx_i2c_driver.c:341-344 | the CR2 FREQ field is PCLK1 in whole MHz kept to 6 bits |
| I2cDriver.CcrRegister | drivers/Src/stm32f407xx_i2c_driver.c:350-379 | CCR[11:0] is PCLK1 divided by 2·speed (standard) or 3·speed / 25·speed (fast, by duty), truncated through the 16-bit `ccr_val`; FS is set iff speed exceeds 100 kHz; DUTY is the duty bit in fast mode |
| I2cDriver.TriseRegister | drivers/Src/stm32f407xx_i2c_driver.c:382-395 | TRISE is PCLK1/1e6 + 1 (standard) or (PCLK1·300 mod 2^32)/1e9 + 1 (fast), masked to 6 bits |
| I2cDriver.Oar1Register | drivers/Src/stm32f407xx_i2c_driver.c:346-350 | OAR1 holds the device address from bit 1 and has bit 14 set and bit 0 clear |
| I2cDriver.StandardModeAt16MHz | drivers/Src/stm32f407xx_i2c_driver.c:350-395 | at 16 MHz and 100 kHz: CCR 80, TRISE 17, FREQ 16 |
| I2cDriver.FastModeTriseWrapsAt16MHz | drivers/Src/stm32f407xx_i2c_driver.c:392 | at 16 MHz in fast mode the 32-bit product wraps and TRISE is 1, where the unwrapped formula gives 5 |
| I2cDriver.FastModeCcrAt16MHz | drivers/Src/stm32f407xx_i2c_driver.c:363-378 | at 16 MHz and 400 kHz: CCR is FS plus 13 for duty 2 and FS, DUTY plus 1 for duty 16/9 |
| I2cDriver.ClearAddrSteps | drivers/Src/stm32f407xx_i2c_driver.c:91-127 | clearing ADDR is skipped iff the master is receiving with RxSize other than 1; ACK is disabled first iff the master is receiving exactly one byte |
| I2cDriver.AckStaysOff | drivers/Src/stm32f407xx_i2c_driver.c:663-674 | once ACK is cleared in CR1 it stays clear through any events that cannot set it |
| I2cDriver.WriteStepsCarryData | drivers/Src/stm32f407xx_i2c_driver.c:540-546 | the bytes the send loop writes to DR are exactly the buffer, in order |
| I2cDriver.WriteStepsAwaitTxe | drivers/Src/stm32f407xx_i2c_driver.c:540-546 | every DR write of the send loop directly follows a wait for TXE |
| I2cDriver.SendCarriesBuffer | drivers/Src/stm32f407xx_i2c_driver.c:522-554 | a blocking send puts exactly the Len buffer bytes on DR, whatever the ADDR-clear path |
| I2cDriver.SendStopsIffRequested | drivers/Src/stm32f407xx_i2c_driver.c:548-553 | a blocking send generates STOP iff it was requested, and then as its last event |
| I2cDriver.SendRequestsStop | drivers/Src/stm32f407xx_i2c_driver.c:553 | a send with STOP requested leaves the STOP bit set in CR1 |
| I2cDriver.PlainIteration | drivers/Src/stm32f407xx_i2c_driver.c:615-638 | with more than two bytes left, a receive iteration neither disables ACK nor generates STOP |
| I2cDriver.ReadLoopSplit | drivers/Src/stm32f407xx_i2c_driver.c:615-638 | all iterations before the last two of the receive loop are plain waits and reads |
| I2cDriver.ReadLoopLastTwo | drivers/Src/stm32f407xx_i2c_driver.c:615-638 | ACK is disabled in the two-remaining iteration and STOP generated in the one-remaining iteration, each before that iteration's DR read |
| I2cDriver.ReadLoopCarries | drivers/Src/stm32f407xx_i2c_driver.c:615-638 | the receive loop reads exactly its bytes from DR, in order |
| I2cDriver.ReceiveCarriesBytes | drivers/Src/stm32f407xx_i2c_driver.c:573-646 | a blocking receive stores exactly the bytes read from DR, in order, for every length |
| I2cDriver.ReadLoopAckOff | drivers/Src/stm32f407xx_i2c_driver.c:615-638 | a receive loop over two or more bytes ends with ACK off, whatever CR1 held before |
| I2cDriver.ReceiveOneAckOff | drivers/Src/stm32f407xx_i2c_driver.c:588-607 | the single-byte receive ends with ACK off |
| I2cDriver.ReceiveRestoresAck | drivers/Src/stm32f407xx_i2c_driver.c:641-645 | a blocking receive with ACK enabled in the configuration ends with ACK on |
| I2cDriver.ReceiveKeepsAckOff | drivers/Src/stm32f407xx_i2c_driver.c:588-645 | with ACK disabled in the configuration, a receive of at least one byte ends with ACK off |
| I2cDriver.ErrorCallbacksExact | drivers/Src/stm32f407xx_i2c_driver.c:1063-1138 | the error handler reports a code iff it is an error code whose SR1 flag is set, and reports nothing else |
| I2cDriver.ErrorCallbacksOrdered | drivers/Src/stm32f407xx_i2c_driver.c:1063-1138 | error codes are reported at most once each, in increasing order BERR, ARLO, AF, OVR, TIMEOUT |
| I2cDriver.NoErrorCallbacks | drivers/Src/stm32f407xx_i2c_driver.c:1063-1138 | the error handler reports nothing iff no error flag is set |
| I2cDriver.ErrorPassCallbacks | drivers/Src/stm32f407xx_i2c_driver.c:1071-1137 | the five clear-and-report steps in sequence give exactly the callbacks of the original SR1 |
| I2cDriver.ErrorPassClears | drivers/Src/stm32f407xx_i2c_driver.c:1071-1137 | after the five steps every error flag is clear and every other SR1 bit is kept |
| I2cDriver.I2cHandle.Init | drivers/Src/stm32f407xx_i2c_driver.c:329-396 | I2C_Init loads CR1, CR2, OAR1, CCR and TRISE with the values of the register functions above |
| I2cDriver.I2cHandle.PeripheralControl | drivers/Src/stm32f407xx_i2c_driver.c:444-454 | PE is set for ENABLE and cleared otherwise; nothing else in CR1 changes |
| I2cDriver.I2cHandle.GenerateStart | drivers/Src/stm32f407xx_i2c_driver.c:27-30 | sets CR1.START |
| I2cDriver.I2cHandle.GenerateStop | drivers/Src/stm32f407xx_i2c_driver.c:144-147 | sets CR1.STOP |
| I2cDriver.I2cHandle.ManageAcking | drivers/Src/stm32f407xx_i2c_driver.c:663-674 | sets ACK for I2C_ACK_ENABLE and clears it for any other value |
| I2cDriver.I2cHandle.ExecuteAddressPhaseWrite | drivers/Src/stm32f407xx_i2c_driver.c:47-52 | writes the write address byte to DR |
| I2cDriver.I2cHandle.ExecuteAddressPhaseRead | drivers/Src/stm32f407xx_i2c_driver.c:69-74 | writes the read address byte to DR |
| I2cDriver.I2cHandle.ClearAddrFlag | drivers/Src/stm32f407xx_i2c_driver.c:91-127 | performs exactly the ClearAddrSteps of the current mode, state and RxSize |
| I2cDriver.I2cHandle.SendBytes | drivers/Src/stm32f407xx_i2c_driver.c:540-546 | the send loop writes the Len buffer bytes to DR in order, each after TXE; its loop invariant ties the trace to the bytes sent so far |
| I2cDriver.I2cHandle.MasterSendData | drivers/Src/stm32f407xx_i2c_driver.c:522-554 | a blocking send is START, write address, ADDR clear, the data bytes, TXE and BTF, then STOP iff requested |
| I2cDriver.I2cHandle.ReceiveSingle | drivers/Src/stm32f407xx_i2c_driver.c:588-607 | one-byte receive: ACK off before the ADDR clear, RXNE, STOP if requested, then the DR read |
| I2cDriver.I2cHandle.ReceiveLoop | drivers/Src/stm32f407xx_i2c_driver.c:609-639 | the Len-byte receive loop stores exactly the incoming bytes, counting down with ACK off at 2 and STOP at 1 |
| I2cDriver.I2cHandle.MasterReceiveData | drivers/Src/stm32f407xx_i2c_driver.c:573-646 | a blocking receive fills the buffer with the incoming bytes, leaves the rest of it alone, and restores ACK iff the configuration enables it |
| I2cDriver.I2cHandle.MasterSendDataIT | drivers/Src/stm32f407xx_i2c_driver.c:730-760 | returns the old state; when busy nothing changes; otherwise stores buffer, length, address and STOP, enters BUSY_IN_TX, clears STOP, sets START and enables the three interrupts |
| I2cDriver.I2cHandle.MasterReceiveDataIT | drivers/Src/stm32f407xx_i2c_driver.c:779-809 | as the send entry point, with RxLen = RxSize = Len and BUSY_IN_RX |
| I2cDriver.I2cHandle.CloseSendData | drivers/Src/stm32f407xx_i2c_driver.c:266-278 | disables ITBUFEN and ITEVTEN and resets the transmit state to READY with no buffer and zero length |
| I2cDriver.I2cHandle.CloseReceiveData | drivers/Src/stm32f407xx_i2c_driver.c:295-312 | as CloseSendData for reception, and re-enables ACK iff the configuration enables it |
| I2cDriver.I2cHandle.MasterHandleTxe | drivers/Src/stm32f407xx_i2c_driver.c:164-181 | while transmitting with bytes left, writes the next byte and advances; at TxLen 0 does nothing |
| I2cDriver.I2cHandle.MasterHandleRxne | drivers/Src/stm32f407xx_i2c_driver.c:198-249 | acts only in BUSY_IN_RX; one RXNE reads one byte with ACK off for RxSize 1 or two bytes left, stores it at the buffer position, and at RxLen 0 does STOP, close, then RX_CMPLT and leaves the handle READY; otherwise it stays BUSY_IN_RX |
| I2cDriver.I2cHandle.RxneReceive | drivers/Src/stm32f407xx_i2c_driver.c:198-249 | the byte is stored at the buffer position; the reception ends iff RxLen reaches 0, and then the handle is READY with interrupts off |
| I2cDriver.I2cHandle.EvStartBit | drivers/Src/stm32f407xx_i2c_driver.c:915-929 | on SB, sends the write or read address byte by the busy state, nothing when not busy; the trace and DR are StartBitSteps and StartBitDr of the state |
| I2cDriver.I2cHandle.EvAddressMatched | drivers/Src/stm32f407xx_i2c_driver.c:931-940 | on ADDR, clears the flag as I2C_ClearADDRFlag does |
| I2cDriver.I2cHandle.EvByteTransferFinished | drivers/Src/stm32f407xx_i2c_driver.c:952-984 | on BTF in BUSY_IN_TX with TXE set and TxLen 0: STOP if requested, close, TX_CMPLT; otherwise nothing |
| I2cDriver.I2cHandle.EvStopDetected | drivers/Src/stm32f407xx_i2c_driver.c:986-998 | on STOPF, CR1 is unchanged and the STOP event is reported |
| I2cDriver.I2cHandle.EvTransmitEmpty | drivers/Src/stm32f407xx_i2c_driver.c:1000-1023 | on TXE a master in BUSY_IN_TX with bytes left writes the byte at its buffer position to DR and advances by one; a master otherwise changes nothing; a slave transmitter is asked for data, a slave receiver gets nothing, and a slave moves no byte |
| I2cDriver.I2cHandle.EvReceiveNotEmpty | drivers/Src/stm32f407xx_i2c_driver.c:1025-1046 | on RXNE a master in BUSY_IN_RX performs MasterHandleRxne (RxneSteps, the byte stored, READY iff the reception ends); a master otherwise changes nothing; a slave receiver is told data arrived and a slave leaves the reception and registers alone |
| I2cDriver.I2cHandle.EvIrqHandling | drivers/Src/stm32f407xx_i2c_driver.c:904-1047 | with ITEVTEN off nothing changes; with it on the trace grows by EvSteps and the state becomes EvState of the SR1 flags, master bit, SR2.TRA, ITBUFEN and the transfer at entry: steps 1 to 5, then 6 and 7 on what 1 to 5 left |
| I2cDriver.I2cHandle.EvPhaseFlags | drivers/Src/stm32f407xx_i2c_driver.c:915-998 | steps 1 to 5 gated by SB, ADDR, BTF and STOPF: the trace grows by PhaseSteps, DR and the transfer become DrAfterPhase and AfterPhase; a BTF that closes the send disables the interrupts and drops the buffer |
| I2cDriver.I2cHandle.SbStep | drivers/Src/stm32f407xx_i2c_driver.c:915-929 | step 1 runs iff SB is set, adding StartBitSteps and setting DR by StartBitDr |
| I2cDriver.I2cHandle.AddrStep | drivers/Src/stm32f407xx_i2c_driver.c:931-940 | step 2 runs iff ADDR is set, adding the ADDR-clear events |
| I2cDriver.I2cHandle.BtfStep | drivers/Src/stm32f407xx_i2c_driver.c:952-984 | step 4 closes the send iff BtfCloses (BTF and TXE, BUSY_IN_TX, TxLen 0), and otherwise leaves the transfer as it was |
| I2cDriver.I2cHandle.StopfStep | drivers/Src/stm32f407xx_i2c_driver.c:986-998 | step 5 reports EV_STOP iff STOPF is set |
| I2cDriver.I2cHandle.EvDataFlags | drivers/Src/stm32f407xx_i2c_driver.c:1000-1046 | with ITBUFEN off nothing changes; with it on the trace grows by DataSteps (TXE step, then RXNE step) and the state becomes READY iff the RXNE step ends a master reception, with the TX byte and RX buffer moves of steps 6 and 7 |
| I2cDriver.I2cHandle.TxeStep | drivers/Src/stm32f407xx_i2c_driver.c:1000-1023 | step 6 runs iff ITBUFEN and TXE are set; a master sending with bytes left writes its next byte and advances |
| I2cDriver.I2cHandle.RxneStep | drivers/Src/stm32f407xx_i2c_driver.c:1025-1046 | step 7 runs iff ITBUFEN and RXNE are set; a master reception stores the byte and ends READY iff RxneCloses |
| I2cDriver.RxneDataFrame | drivers/Src/stm32f407xx_i2c_driver.c:1025-1046 | step 7 sees only the reception fields of the transfer, and DR only during a master reception |
| I2cDriver.EvCompletesSend | drivers/Src/stm32f407xx_i2c_driver.c:952-1023 | the interrupt with BTF and TXE at TxLen 0 only sends STOP if requested and TX_CMPLT, and ends READY; step 6 writes nothing after the close |
| I2cDriver.EvSendsNextByte | drivers/Src/stm32f407xx_i2c_driver.c:952-1023 | while bytes remain, a TXE interrupt of a master send writes exactly the next byte and stays BUSY_IN_TX, even with BTF set |
| I2cDriver.EvReceivesByte | drivers/Src/stm32f407xx_i2c_driver.c:198-249 | an RXNE interrupt with more than two bytes left reads exactly one byte and stays BUSY_IN_RX |
| I2cDriver.EvReceivesLastByte | drivers/Src/stm32f407xx_i2c_driver.c:198-249 | the RXNE interrupt of the last byte reads it, then STOP, close and RX_CMPLT, and ends READY |
| I2cDriver.EvBufferOffMovesNoData | drivers/Src/stm32f407xx_i2c_driver.c:1000-1046 | with ITBUFEN off the handler logs no DR write or read |
| I2cDriver.SlaveDataEvents | drivers/Src/stm32f407xx_i2c_driver.c:1000-1046 | a slave transmitter is only asked for data on TXE, a slave receiver only told data arrived on RXNE |
| I2cDriver.I2cHandle.ReportError | drivers/Src/stm32f407xx_i2c_driver.c:1072-1082 | an enabled error step clears exactly its SR1 flag and reports it if it was set |
| I2cDriver.I2cHandle.ErIrqHandling | drivers/Src/stm32f407xx_i2c_driver.c:1063-1138 | with ITERREN on, SR1 loses exactly the error flags and the callbacks are ErrorCallbacks of the old SR1; with it off nothing changes |
| Nvic.NvicRegs.IrqInterruptConfig | drivers/Src/stm32f407xx_gpio_driver.c:409-447 | ENABLE ORs the IRQ's bit into ISER0..2 and leaves ICER alone; any other value ORs it into ICER0..2 and leaves ISER alone |
| Nvic.NvicRegs.PriorityConfig | drivers/Src/stm32f407xx_gpio_driver.c:463-471 | the priority, shifted to the upper nibble of the IRQ's byte, is ORed into IPR word IRQ/4; no other word changes |
| Nvic.PriorityShift | drivers/Src/stm32f407xx_gpio_driver.c:467-468 | the shift is 8·(IRQ mod 4) + 4: below 32 and always at bit 4 of a byte |
| Nvic.IrqWords | drivers/Src/stm32f407xx_gpio_driver.c:411-428 | IRQ 0..31 sets bit n of word 0, 32..63 bit n mod 32 of word 1, 64..95 bit n mod 64 of word 2, and a larger IRQ changes nothing |
| Nvic.SetIrqBitExact | drivers/Src/stm32f407xx_gpio_driver.c:411-428 | for IRQ below 96 exactly bit n mod 32 of word n/32 becomes set; every other bit and word is kept |
| Nvic.SetIrqBitOutOfRange | drivers/Src/stm32f407xx_gpio_driver.c:411-428 | an IRQ above 95 writes no enable or disable bit |
| Nvic.DisableOnNvicWritesIcer | drivers/Src/stm32f407xx_gpio_driver.c:433-446 | on the NVIC the disable writes back the enabled word with the IRQ's bit added, the value IrqInterruptConfig stores in ICER |
| Nvic.DisableClearsWord | drivers/Src/stm32f407xx_gpio_driver.c:433-446 | disabling an IRQ below 96 disables every IRQ of its ICER word; the other words keep their enables |
| Nvic.DisableOutOfRange | drivers/Src/stm32f407xx_gpio_driver.c:433-446 | disabling an IRQ above 95 disables nothing |
| Nvic.PriorityOnlyAdds | drivers/Src/stm32f407xx_gpio_driver.c:470 | the priority write only sets bits: every bit already set in the IPR word stays set |
| Nvic.PriorityNibble | drivers/Src/stm32f407xx_gpio_driver.c:467-470 | a priority below 16 lands entirely in the implemented upper nibble of the IRQ's byte and can be read back from it |
| Rcc.ClockSource | drivers/Src/stm32f407xx_rcc_driver.c:17 | the SWS field of CFGR (bits 3..2) is below 4 |
| Rcc.Hpre | drivers/Src/stm32f407xx_rcc_driver.c:36 | the HPRE field of CFGR (bits 7..4) is below 16 |
| Rcc.Ppre1 | drivers/Src/stm32f407xx_rcc_driver.c:48 | the PPRE1 field of CFGR (bits 12..10) is below 8 |
| Rcc.Ppre2 | drivers/Src/stm32f407xx_rcc_driver.c:99 | the PPRE2 field of CFGR (bits 15..13) is below 8 |
| Rcc.SystemClock | drivers/Src/stm32f407xx_rcc_driver.c:19-33 | the system clock is the 16 MHz HSI iff the clock source is 0, and 8 MHz otherwise (HSE, or the PLL stub's 8 MHz) |
| Rcc.GetPclk1Value | drivers/Src/stm32f407xx_rcc_driver.c:11-62 | PCLK1 is positive and at most the system clock |
| Rcc.GetPclk2Value | drivers/Src/stm32f407xx_rcc_driver.c:64-115 | PCLK2 is positive and at most the system clock |
| Rcc.AhbDivisorMatchesManual | drivers/Src/stm32f407xx_rcc_driver.c:38-45 | for HPRE below 14 the driver's AHB divisor is the reference manual's (1, 2, 4, …, 128); for 14 and 15 the `uint8_t` divisor is 0 where the manual says 256 and 512 |
| Rcc.ApbDivisorMatchesManual | drivers/Src/stm32f407xx_rcc_driver.c:50-57 | the driver's APB divisor is the reference manual's (1, 2, 4, 8, 16) for every PPRE value |
| Rcc.Pclk1Exact | drivers/Src/stm32f407xx_rcc_driver.c:59 | PCLK1 equals the system clock divided by the product of the manual's AHB and APB1 divisors |
| Rcc.Pclk2Exact | drivers/Src/stm32f407xx_rcc_driver.c:110 | PCLK2 equals the system clock divided by the product of the manual's AHB and APB2 divisors |
| Rcc.ResetClocks | drivers/Src/stm32f407xx_rcc_driver.c:11-115 | with CFGR at its reset value both buses run at 16 MHz |
| Rcc.BusesAgree | drivers/Src/stm32f407xx_rcc_driver.c:11-115 | equal APB divisors give equal bus clocks, and a larger divided APB2 prescaler gives a slower APB2 |
| Gpio.PortCode | drivers/Inc/stm32f407xx.h:381-389 | the port code is at most 8 and is 0 exactly for GPIOA |
| Gpio.PortCodeInjective | drivers/Inc/stm32f407xx.h:381-389 | different ports have different codes |
| Gpio.PinSplits | drivers/Src/stm32f407xx_gpio_driver.c:71-72 | a pin number is 4·(EXTICR word) + its nibble and 8·(AFR word) + its nibble |
| Gpio.PairField | drivers/Src/stm32f407xx_gpio_driver.c:37-39 | a 2-bit field written with a value below 4 reads back as that value |
| Gpio.OtherPairs | drivers/Src/stm32f407xx_gpio_driver.c:37-39 | writing one pin's 2-bit field leaves every other pin's field unchanged |
| Gpio.BitField | drivers/Src/stm32f407xx_gpio_driver.c:103-105 | a 1-bit field written with 0 or 1 reads back as that value and no other bit changes |
| Gpio.NibbleField | drivers/Src/stm32f407xx_gpio_driver.c:117-120 | a 4-bit field written with a value below 16 reads back as that value and the rest of the word is kept |
| Gpio.WideValueSpills | drivers/Src/stm32f407xx_gpio_driver.c:37-39 | the field write does not mask the value: mode 4 for pin 0 leaves pin 0's field 0 and sets pin 1's field to 1 |
| Gpio.GpioRegs.ReadFromInputPin | drivers/Src/stm32f407xx_gpio_driver.c:293-298 | the result is 0 or 1, and 1 iff the pin's IDR bit is set |
| Gpio.GpioRegs.ReadFromInputPort | drivers/Src/stm32f407xx_gpio_driver.c:316-323 | the result is the low 16 bits of IDR, so each pin reads as its IDR bit |
| Gpio.GpioRegs.WriteToOutputPin | drivers/Src/stm32f407xx_gpio_driver.c:340-352 | GPIO_PIN_SET sets the pin's ODR bit and any other value clears it |
| Gpio.GpioRegs.WriteToOutputPort | drivers/Src/stm32f407xx_gpio_driver.c:369-372 | ODR becomes the 16-bit value, upper half zero |
| Gpio.GpioRegs.ToggleOutputPin | drivers/Src/stm32f407xx_gpio_driver.c:389-392 | ODR becomes its old value with the pin's bit toggled |
| Gpio.OutputPinWritten | drivers/Src/stm32f407xx_gpio_driver.c:340-352 | after a pin write the pin reads 1 iff the value was GPIO_PIN_SET, and every other ODR bit is kept |
| Gpio.SingleBit | drivers/Src/stm32f407xx_gpio_driver.c:296 | the shifted-and-masked pin value is 0 or 1, and 1 iff the pin's bit is set |
| Gpio.ToggleExact | drivers/Src/stm32f407xx_gpio_driver.c:389-392 | a toggle flips the pin's bit, keeps every other bit, and two toggles restore ODR |
| Gpio.ExtiRegs.IrqHandling | drivers/Src/stm32f407xx_gpio_driver.c:488-496 | a pending pin's PR bit is written back as 1 with the rest of PR (write-one-to-clear); a pin not pending leaves PR alone |
| Gpio.IrqHandlingClearsAll | drivers/Src/stm32f407xx_gpio_driver.c:491-495 | because the driver ORs into PR, the write-one-to-clear write clears every pending line, not only this pin's |
| Gpio.IrqHandlingIdle | drivers/Src/stm32f407xx_gpio_driver.c:491 | with the pin not pending, PR is unchanged |
| Gpio.ModerAfterPin | drivers/Src/stm32f407xx_gpio_driver.c:33-42 | a non-interrupt mode is written into the pin's MODER field; an interrupt mode leaves MODER unchanged |
| Gpio.ModerAfterOthers | drivers/Src/stm32f407xx_gpio_driver.c:33-42 | a mode write changes no other pin's MODER field |
| Gpio.PinBitSet | drivers/Src/stm32f407xx_gpio_driver.c:49 | the mask of a pin below 16 is nonzero |
| Gpio.EdgesFalling | drivers/Src/stm32f407xx_gpio_driver.c:46-52 | falling-edge mode sets the pin in FTSR and clears it in RTSR |
| Gpio.EdgesRising | drivers/Src/stm32f407xx_gpio_driver.c:53-59 | rising-edge mode sets the pin in RTSR and clears it in FTSR |
| Gpio.EdgesBoth | drivers/Src/stm32f407xx_gpio_driver.c:60-66 | rising-and-falling mode sets the pin in both RTSR and FTSR |
| Gpio.EdgesNone | drivers/Src/stm32f407xx_gpio_driver.c:44-81 | an interrupt mode above RFT leaves both edge registers alone and still unmasks the line in IMR |
| Gpio.ExticrAfterExact | drivers/Src/stm32f407xx_gpio_driver.c:69-77 | in interrupt mode the pin's EXTICR nibble holds the port code and the other three EXTICR words are unchanged |
| Gpio.AfrAfterExact | drivers/Src/stm32f407xx_gpio_driver.c:109-122 | in alternate-function mode the pin's AFR nibble holds the function number and the other AFR word is unchanged |
| Gpio.GpioHandle.Init | drivers/Src/stm32f407xx_gpio_driver.c:26-123 | GPIO_Init leaves MODER, FTSR, RTSR, EXTICR, IMR, OSPEEDR, PUPDR, OTYPER and AFR as the field functions give them, each from its old value |
| Gpio.GpioHandle.ConfigureMode | drivers/Src/stm32f407xx_gpio_driver.c:33-82 | step 1 of GPIO_Init writes MODER, or the edge registers, EXTICR and IMR, as the field functions give them |
| Gpio.GpioHandle.ConfigureOutput | drivers/Src/stm32f407xx_gpio_driver.c:84-105 | steps 2 to 4 write the speed and pull fields and the output-type bit of the pin |
| Gpio.GpioHandle.ConfigureAltFn | drivers/Src/stm32f407xx_gpio_driver.c:107-122 | step 5 writes the pin's AFR nibble in alternate-function mode and nothing otherwise |
| Spi.BusBitsExact | drivers/Src/stm32f407xx_spi_driver.c:157-176 | the bus step sets BIDIMODE iff half duplex, RXONLY iff simplex receive-only, MSTR iff master mode, and touches no other bit |
| Spi.Cr1ConfigFormat | drivers/Src/stm32f407xx_spi_driver.c:178-193 | SPI_Init's CR1 holds the baud-rate code in BR[5:3] and has DFF, CPOL, CPHA and SSM set iff configured to 1 |
| Spi.Cr1ConfigRole | drivers/Src/stm32f407xx_spi_driver.c:157-193 | SPI_Init's CR1 has MSTR, BIDIMODE and RXONLY as the device mode and bus configuration demand, and SPE and SSI clear |
| Spi.Cr1Assembled | drivers/Src/stm32f407xx_spi_driver.c:155-193 | ORing the bus bits with the five shifted fields yields each field in its position, with SPE and SSI clear |
| Spi.WordsOverlap | drivers/Src/stm32f407xx_spi_driver.c:398-401 | since the 16-bit pointer advances by one byte, the high byte of each frame is the low byte of the next |
| Spi.SendLoop | drivers/Src/stm32f407xx_spi_driver.c:386-412 | n iterations of the blocking send are n waits for TXE, each followed by one DR write |
| Spi.WrittenConcat | drivers/Src/stm32f407xx_spi_driver.c:386-412 | the DR writes of two traces in sequence are the writes of the first, then those of the second |
| Spi.Frames | drivers/Src/stm32f407xx_spi_driver.c:393-411 | frame k of a blocking send is the byte, or the little-endian word, at buffer position k |
| Spi.SendLoopWrites | drivers/Src/stm32f407xx_spi_driver.c:384-413 | the blocking send writes exactly the frames at positions 0, 1, …, in order |
| Spi.SendDataFrames | drivers/Src/stm32f407xx_spi_driver.c:384-413 | an 8-bit send of Len bytes writes exactly the first Len bytes; a 16-bit send writes Len/2 overlapping words starting at bytes 0, 1, … |
| Spi.OddLengthNeverEnds | drivers/Src/stm32f407xx_spi_driver.c:399-400 | in 16-bit mode an odd Len stays odd and nonzero after any number of double decrements, so the loop never ends |
| Spi.ReceiveSixteen | drivers/Src/stm32f407xx_spi_driver.c:440-448 | the 16-bit receive leaves each frame's low byte at its own position and the last frame's high byte after them, and nothing beyond |
| Spi.ReceiveEight | drivers/Src/stm32f407xx_spi_driver.c:450-458 | the 8-bit receive stores the low byte of each frame at its position and leaves the rest of the buffer alone |
| Spi.TxeRunFrom | drivers/Src/stm32f407xx_spi_driver.c:24-54 | k TXE interrupts over k frames' worth of length close the transmission, leaving the handle ready with no buffer and length 0 |
| Spi.TxeRunWrites | drivers/Src/stm32f407xx_spi_driver.c:24-54 | the TXE interrupts write exactly the frames at successive buffer positions |
| Spi.TxeEventsWrite | drivers/Src/stm32f407xx_spi_driver.c:32-44 | one TXE interrupt writes exactly one frame, the one at the buffer position |
| Spi.TxeStepMoves | drivers/Src/stm32f407xx_spi_driver.c:32-44 | with more than one frame left, one TXE interrupt advances the buffer position by one byte, lowers TxLen by the frame size and stays BUSY_IN_TX |
| Spi.FramesFrom | drivers/Src/stm32f407xx_spi_driver.c:32-44 | frame i of an interrupt send that starts at position p is the frame at p + i |
| Spi.SendItMatchesBlocking | drivers/Src/stm32f407xx_spi_driver.c:477-502 | an interrupt-driven send of a length the frame size divides ends ready and writes the same frames as the blocking send |
| Spi.OddTxLenNeverCloses | drivers/Src/stm32f407xx_spi_driver.c:33-34 | in 16-bit mode an odd TxLen never reaches 0, so the transmission stays busy through any number of TXE interrupts |
| Spi.RxneRunMatchesBlocking | drivers/Src/stm32f407xx_spi_driver.c:71-101 | RXNE interrupts over the remaining frames store the same bytes as the blocking receive and end ready |
| Spi.SpiRegs.PeripheralControl | drivers/Src/stm32f407xx_spi_driver.c:246-256 | SPE is set for ENABLE and cleared otherwise; the rest of CR1 is kept |
| Spi.SpiRegs.SsiConfig | drivers/Src/stm32f407xx_spi_driver.c:273-283 | SSI is set for ENABLE and cleared otherwise; the rest of CR1 is kept |
| Spi.SpiRegs.SsoeConfig | drivers/Src/stm32f407xx_spi_driver.c:300-310 | SSOE is set in CR2 for ENABLE and cleared otherwise; the rest of CR2 is kept |
| Spi.SpiRegs.GetFlagStatus | drivers/Src/stm32f407xx_spi_driver.c:761-768 | the flag reads set iff SR and the flag mask share a bit |
| Spi.SpiHandle.Init | drivers/Src/stm32f407xx_spi_driver.c:148-194 | CR1 is written once with the configuration word whose fields Cr1ConfigFormat and Cr1ConfigRole describe |
| Spi.SpiHandle.SendData | drivers/Src/stm32f407xx_spi_driver.c:384-413 | the blocking send appends exactly the SendLoop events for Len's frames to the trace |
| Spi.SpiHandle.ReceiveData | drivers/Src/stm32f407xx_spi_driver.c:431-460 | the blocking receive returns the buffer with the incoming frames stored as ReceiveLoop gives them, and records a wait and a DR read per frame |
| Spi.SpiHandle.SendDataIT | drivers/Src/stm32f407xx_spi_driver.c:477-502 | returns the old TX state; when busy nothing changes, otherwise the buffer and length are armed, the state is busy and TXEIE is set |
| Spi.SpiHandle.ReceiveDataIT | drivers/Src/stm32f407xx_spi_driver.c:520-545 | returns the old RX state; when busy nothing changes, otherwise the buffer and length are armed, the state is busy and RXNEIE is set |
| Spi.SpiHandle.CloseTransmission | drivers/Src/stm32f407xx_spi_driver.c:715-721 | TXEIE is cleared and the TX buffer, length and state are reset to empty, 0 and ready |
| Spi.SpiHandle.CloseReception | drivers/Src/stm32f407xx_spi_driver.c:738-744 | RXNEIE is cleared and the RX length and state are reset to 0 and ready |
| Spi.SpiHandle.TxeInterrupt | drivers/Src/stm32f407xx_spi_driver.c:24-54 | one TXE step: one frame written, the length decremented by the frame size in 32 bits, and the transmission closed with TX_CMPLT when it reaches 0 |
| Spi.SpiHandle.RxneInterrupt | drivers/Src/stm32f407xx_spi_driver.c:71-101 | one RXNE step: the frame stored, the length decremented, and the reception closed with RX_CMPLT when it reaches 0 |
| Spi.SpiHandle.OvrInterrupt | drivers/Src/stm32f407xx_spi_driver.c:118-131 | reads DR and SR unless transmitting, then reports OVR_ERR |
| Spi.SpiHandle.ClearOvrFlag | drivers/Src/stm32f407xx_spi_driver.c:692-698 | reads DR, then SR |
| Spi.SpiHandle.IrqHandling | drivers/Src/stm32f407xx_spi_driver.c:641-674 | runs the TXE, RXNE and OVR handlers, in that order, each iff its flag and its enable bit are set |
| Spi.OvrAlwaysReported | drivers/Src/stm32f407xx_spi_driver.c:118-131 | the OVR handler always ends with the OVR_ERR callback, and it clears the flag iff no transmission is in progress |
| Spi.TxeKeepsEnables | drivers/Src/stm32f407xx_spi_driver.c:641-663 | the TXE handler leaves RXNEIE and ERRIE as they were, so the RXNE and OVR tests see the enables from before |
| Spi.RxneKeepsErrie | drivers/Src/stm32f407xx_spi_driver.c:655-673 | the RXNE handler leaves ERRIE as it was |
| Usart.ModeBitsExact | drivers/Src/stm32f407xx_usart_driver.c:29-44 | RE is set unless the mode is TX only, TE is set unless the mode is RX only, and no other bit is set |
| Usart.ParityBitsExact | drivers/Src/stm32f407xx_usart_driver.c:50-60 | PCE is set iff parity is odd or even, PS iff odd, and no other bit is set |
| Usart.WordBits | drivers/Src/stm32f407xx_usart_driver.c:47 | the word-length field sets M iff the length is 9 bits and nothing else |
| Usart.Cr1ConfigClearsOver8 | drivers/Src/stm32f407xx_usart_driver.c:21-62 | the CR1 USART_Init writes has OVER8 and UE clear |
| Usart.Cr2ConfigField | drivers/Src/stm32f407xx_usart_driver.c:69-72 | CR2 holds the stop-bit code in STOP[13:12] and nothing else |
| Usart.Cr3ConfigExact | drivers/Src/stm32f407xx_usart_driver.c:79-97 | CR3 has CTSE iff flow control is CTS or CTS+RTS, RTSE iff RTS or CTS+RTS, and nothing else |
| Usart.Fraction | drivers/Src/stm32f407xx_usart_driver.c:308-315 | F_part is below 8 with OVER8 and below 16 without |
| Usart.HundredthsPart | drivers/Src/stm32f407xx_usart_driver.c:305 | `usartdiv - M_part*100` is usartdiv mod 100 |
| Usart.BrrFields | drivers/Src/stm32f407xx_usart_driver.c:299-322 | BRR's mantissa field is usartdiv/100 and its fraction field is F_part |
| Usart.BrrRounds | drivers/Src/stm32f407xx_usart_driver.c:299-322 | without OVER8 and with hundredths below 97, BRR is 16·usartdiv/100 rounded to within half a unit |
| Usart.FractionNotCarried | drivers/Src/stm32f407xx_usart_driver.c:314 | hundredths of 97 or more round to 16, which the 4-bit mask turns into 0 with no carry, so BRR falls almost a whole mantissa unit short |
| Usart.Baud115200At16MHz | drivers/Src/stm32f407xx_usart_driver.c:264-323 | at 16 MHz and 115200 baud usartdiv is 868 and BRR is 0x8B |
| Usart.FractionLostAt507614 | drivers/Src/stm32f407xx_usart_driver.c:264-323 | at 16 MHz and 507614 baud usartdiv 197 is encoded as BRR 0x10 |
| Usart.FrameAdvance | drivers/Src/stm32f407xx_usart_driver.c:394-420 | each frame moves the buffer position by two bytes for 9 bits without parity and one otherwise, so frame k starts at 2k or k |
| Usart.FrameReadsOwnBytes | drivers/Src/stm32f407xx_usart_driver.c:394-420 | except for 9 bits with parity, two buffers that agree on the bytes a frame's step consumes send the same DR value |
| Usart.ParityFrameOverlaps | drivers/Src/stm32f407xx_usart_driver.c:397-416 | with 9 bits and parity the pointer moves one byte but bit 8 of the frame is taken from the next frame's byte |
| Usart.FramesCons | drivers/Src/stm32f407xx_usart_driver.c:388-422 | k + 1 frames from a position are its frame followed by the k frames from the next position |
| Usart.TxFrameNineBits | drivers/Src/stm32f407xx_usart_driver.c:397-398 | a 9-bit frame carries the byte at the position in its low 8 bits and bit 0 of the next byte in bit 8 |
| Usart.FrameRoundTrip | drivers/Src/stm32f407xx_usart_driver.c:383-493 | a frame sent and received with the same settings gives back both 9-bit bytes (the second as its bit 0), the byte for 8 bits, and the byte's low 7 bits for 8 bits with parity |
| Usart.SendLoop | drivers/Src/stm32f407xx_usart_driver.c:388-422 | n iterations of the blocking send are n TXE waits, each followed by one DR write |
| Usart.WrittenConcat | drivers/Src/stm32f407xx_usart_driver.c:388-422 | the DR writes of two traces in sequence are those of the first, then those of the second |
| Usart.SendLoopEightBits | drivers/Src/stm32f407xx_usart_driver.c:413-420 | an 8-bit blocking send of n frames writes exactly the first n buffer bytes, in order |
| Usart.StoredEightBits | drivers/Src/stm32f407xx_usart_driver.c:473-490 | with 8 bits and no parity, received DR values below 256 are stored unchanged |
| Usart.TxeConsumes | drivers/Src/stm32f407xx_usart_driver.c:716-767 | one TXE interrupt with bytes left moves the buffer and length by a frame's bytes, and disables TXEIE iff that was the last frame |
| Usart.TxeOddLengthWraps | drivers/Src/stm32f407xx_usart_driver.c:736 | with 9 bits and no parity, a TxLen of 1 wraps to 0xFFFFFFFF and the transmission never stops |
| Usart.TxeRunCompletes | drivers/Src/stm32f407xx_usart_driver.c:703-767 | k TXE interrupts over k frames' bytes bring TxLen to 0 and write the same frames as the blocking send |
| Usart.TxeRunFrom | drivers/Src/stm32f407xx_usart_driver.c:703-767 | from any buffer position, k TXE interrupts bring TxLen to 0 and write the k frames from that position |
| Usart.SendLoopFrom | drivers/Src/stm32f407xx_usart_driver.c:388-422 | the blocking send writes the frames from position 0 |
| Usart.FramesSnoc | drivers/Src/stm32f407xx_usart_driver.c:388-422 | k + 1 frames are the first k frames followed by the frame at the next position |
| Usart.RxneRunCompletes | drivers/Src/stm32f407xx_usart_driver.c:772-856 | RXNE interrupts over the whole length store every frame's bytes in order and end ready with RxLen 0 |
| Usart.NoiseFollowsFraming | drivers/Src/stm32f407xx_usart_driver.c:928-951 | with EIE set, the noise callback is made exactly when the framing one is, on the FE flag |
| Usart.OverrunOnParityError | drivers/Src/stm32f407xx_usart_driver.c:906-917 | the overrun test masks SR and CR1 with bit positions, so a parity error with the receiver on is reported as an overrun |
| Usart.OverrunMissed | drivers/Src/stm32f407xx_usart_driver.c:906-917 | a real overrun with RXNEIE set is not reported as an overrun event |
| Usart.UsartHandle.Init | drivers/Src/stm32f407xx_usart_driver.c:18-104 | CR1, CR2 and CR3 get the configuration words and BRR the baud value for the port's APB clock |
| Usart.UsartHandle.SetBaudRate | drivers/Src/stm32f407xx_usart_driver.c:264-323 | BRR is the mantissa-and-fraction value of usartdiv for the port's clock (PCLK2 for USART1 and USART6) and the OVER8 setting |
| Usart.UsartHandle.PeripheralControl | drivers/Src/stm32f407xx_usart_driver.c:164-174 | UE is set for ENABLE and cleared otherwise; the rest of CR1 is kept |
| Usart.UsartHandle.GetFlagStatus | drivers/Src/stm32f407xx_usart_driver.c:340-347 | the flag reads set iff SR and the mask share a bit |
| Usart.UsartHandle.ClearFlag | drivers/Src/stm32f407xx_usart_driver.c:364-367 | the flag's bits are cleared in SR and the rest is kept |
| Usart.UsartHandle.SendData | drivers/Src/stm32f407xx_usart_driver.c:383-425 | the blocking send appends the SendLoop events for Len frames, then the wait on TC |
| Usart.UsartHandle.ReceiveData | drivers/Src/stm32f407xx_usart_driver.c:441-493 | the blocking receive records a wait and a DR read per frame and stores the frames as RxStore gives them |
| Usart.UsartHandle.SendDataIT | drivers/Src/stm32f407xx_usart_driver.c:509-527 | returns the old TX state; when busy nothing changes, otherwise the transfer is armed and TXEIE and TCIE are set |
| Usart.UsartHandle.ReceiveDataIT | drivers/Src/stm32f407xx_usart_driver.c:543-560 | returns the old RX state; when busy nothing changes, otherwise the transfer is armed, DR is read once and RXNEIE is set |
| Usart.UsartHandle.HandleTc | drivers/Src/stm32f407xx_usart_driver.c:665-699 | with TC and TCIE set, a busy transmission with nothing left closes, clears TC and reports TX_CMPLT; otherwise nothing changes |
| Usart.UsartHandle.HandleTxe | drivers/Src/stm32f407xx_usart_driver.c:703-768 | with TXE and TXEIE set, one frame is sent and TXEIE cleared when the length reaches 0; otherwise nothing changes |
| Usart.UsartHandle.HandleRxne | drivers/Src/stm32f407xx_usart_driver.c:772-856 | with RXNE and RXNEIE set, one frame is stored, and at length 0 RXNEIE is cleared, the state made ready and RX_CMPLT reported |
| Usart.UsartHandle.HandleCtsIdle | drivers/Src/stm32f407xx_usart_driver.c:863-902 | CTS and IDLE, each gated by CTSE, clear their SR flag and report their event |
| Usart.UsartHandle.HandleOverrunErrors | drivers/Src/stm32f407xx_usart_driver.c:906-957 | reports the overrun event and then, with EIE set, FE and NE on FE and ORE on ORE |
| Usart.UsartHandle.HandleOthers | drivers/Src/stm32f407xx_usart_driver.c:863-957 | the CTS, IDLE, overrun and error parts report the callbacks of the tests on the SR from before them |
| Usart.UsartHandle.HandleTxSide | drivers/Src/stm32f407xx_usart_driver.c:665-768 | the TC part, then the TXE part, on the flags from before either runs |
| Usart.UsartHandle.IrqHandling | drivers/Src/stm32f407xx_usart_driver.c:655-958 | the handler's parts run in source order, each deciding on the SR and CR1 the handler was entered with |
| Usart.TcKeepsFlags | drivers/Src/stm32f407xx_usart_driver.c:681 | clearing TC leaves the TXE and RXNE flags as they were |
| Usart.TxeKeepsEnables | drivers/Src/stm32f407xx_usart_driver.c:765 | clearing TXEIE leaves RXNEIE and the bits the overrun test reads as they were |
| Usart.RxneKeepsLowBits | drivers/Src/stm32f407xx_usart_driver.c:851 | clearing RXNEIE leaves the CR1 bits the overrun test reads as they were |
| Usart.TestsAfterTc | drivers/Src/stm32f407xx_usart_driver.c:665-957 | the later tests give the same outcome after the TC and TXE parts as before them |
| Usart.TestsAfterCtsIdle | drivers/Src/stm32f407xx_usart_driver.c:863-957 | clearing CTS and IDLE does not change what the overrun and error parts report |
| Usart.IdleUntouched | drivers/Src/stm32f407xx_usart_driver.c:875-890 | clearing CTS leaves the IDLE flag as it was |
| Usart.KeepsTestedBits | drivers/Src/stm32f407xx_usart_driver.c:875-933 | clearing CTS and IDLE leaves the bits the overrun and error tests read |
| Lcd.DataLinesNibble | bsp/lcd.c:21-26 | after write_4_bits(num) the data lines hold num mod 16 |
| Lcd.NibbleBits | bsp/lcd.c:23-26 | the four `(num >> k) & 1` bits make up num mod 16 |
| Lcd.DriveData | bsp/lcd.c:23-26 | the four pin writes D4, D5, D6, D7 in order put the low nibble of num on the data lines |
| Lcd.NibbleSplit | bsp/lcd.c:217-220 | the high and low nibbles of a byte are each below 16 and unchanged by the `& 0x0F` mask |
| Lcd.AssembleByte | bsp/lcd.c:208-251 | the two nibbles of one byte assemble into that byte with its register-select line |
| Lcd.AssembleAppend | bsp/lcd.c:208-251 | transfers assembled from two nibble sequences in a row are those of each, in order |
| Lcd.AssembleChars | bsp/lcd.c:268-275 | the display receives the printed characters as data transfers, one per character, in order |
| Lcd.NulFrom | bsp/lcd.c:270-274 | the loop stops at the first NUL at or after the given position |
| Lcd.PrintsNonEmptyString | bsp/lcd.c:268-275 | for a non-empty string the do-while prints exactly the characters before its NUL |
| Lcd.PrintsPastEmptyString | bsp/lcd.c:268-275 | for an empty string the do-while prints the NUL itself and then the bytes after it, up to the next NUL |
| Lcd.CursorCommand | bsp/lcd.c:344-360 | a cursor command is sent iff the row is 1 or 2 |
| Lcd.CursorAddress | bsp/lcd.c:344-360 | for rows 1 and 2 and columns 1 to 16 the command is 0x80 plus the DDRAM address (column − 1, or 0x40 + column − 1 on row 2) |
| Lcd.CursorColumnZero | bsp/lcd.c:346-355 | column 0 on row 1 and column 64 on row 2 both wrap to the command 0xFF |
| Lcd.InitCommands | bsp/lcd.c:165-191 | lcd_init sends the mode nibbles 3, 3, 3, 2, then function set, display on, clear and entry mode, in that order |
| Lcd.LcdBus.WritePin | bsp/lcd.c:23-53 | a pin write drives that line only, and a falling EN edge latches the nibble on the data lines with RS and RW |
| Lcd.LcdBus.Enable | bsp/lcd.c:46-55 | the EN pulse latches the current nibble once and leaves EN low |
| Lcd.LcdBus.WriteFourBits | bsp/lcd.c:21-29 | the display latches num mod 16 and the data lines hold it with EN low |
| Lcd.LcdBus.SendByte | bsp/lcd.c:208-251 | the high nibble then the low nibble of the byte are latched with the given RS |
| Lcd.LcdBus.SendCommand | bsp/lcd.c:208-221 | the command's two nibbles are latched with RS low |
| Lcd.LcdBus.PrintChar | bsp/lcd.c:238-251 | the character's two nibbles are latched with RS high |
| Lcd.LcdBus.PrintString | bsp/lcd.c:268-275 | the display receives the character nibbles of the bytes from the first one up to the first NUL after it; the loop invariant ties each printed prefix to the latches |
| Lcd.LcdBus.DisplayClear | bsp/lcd.c:292-297 | sends the clear-display command |
| Lcd.LcdBus.ReturnHome | bsp/lcd.c:314-323 | sends the return-home command |
| Lcd.LcdBus.SetCursor | bsp/lcd.c:344-360 | rows 1 and 2 send the cursor command; any other row sends nothing and leaves the lines alone |
| Lcd.LcdBus.ResetLines | bsp/lcd.c:145-153 | all seven lines end low; lowering EN while high latches one nibble |
| Lcd.LcdBus.Init | bsp/lcd.c:112-192 | after the line reset the display receives exactly the InitLatches sequence |
| Lcd.CharLatchesSnoc | bsp/lcd.c:268-275 | printing one more character appends its two nibbles |
| I2cBus.Reply | drivers/Src/stm32f407xx_i2c_driver.c:624-628 | the i-th byte the slave answers is the i-th scripted reply |
| I2cBus.Take | drivers/Src/stm32f407xx_i2c_driver.c:573-646 | a receive of n bytes takes the next n replies, in order |
| I2cBus.Drop | drivers/Src/stm32f407xx_i2c_driver.c:573-646 | after a receive of n bytes the remaining replies are those after the first n |
| I2cBus.DropReply | drivers/Src/stm32f407xx_i2c_driver.c:573-646 | reply i after dropping n is reply n + i |
| I2cBus.DriverRunSnocTx | bsp/ds1307.c:96-103 | appending a transmit to a plan appends its Send to the log |
| I2cBus.HaltsLast | Drivers/bsp/ds1307.c:109-121 | a HAL plan stops in Error_Handler iff its log ends with the halt |
| I2cBus.SkipSkip | Drivers/bsp/ds1307.c:109-184 | skipping m statuses and then n skips m + n |
| I2cBus.DropDrop | drivers/Src/stm32f407xx_i2c_driver.c:573-646 | dropping m replies and then n drops m + n |
| I2cBus.TakeDrop | drivers/Src/stm32f407xx_i2c_driver.c:573-646 | m replies, then n from what is left, are the first m + n replies |
| I2cBus.ReceivedConcat | bsp/ds1307.c:120-130 | the bytes two plans in a row receive add up |
| I2cBus.DriverRunConcat | bsp/ds1307.c:96-130 | running two register-level plans in a row logs the first, then the second against the replies the first left |
| I2cBus.HalRunConcat | Drivers/bsp/ds1307.c:101-185 | two HAL plans in a row, the first not halting, log the first, then the second against the statuses and replies left |
| I2cBus.HalRunCons | Drivers/bsp/ds1307.c:109-121 | a HAL plan whose first call does not fail logs that call, then the rest |
| I2cBus.HaltsConcat | Drivers/bsp/ds1307.c:109-121 | after a first plan that does not halt, the whole halts iff the second does |
| I2cBus.LeftThenRest | drivers/Src/stm32f407xx_i2c_driver.c:573-646 | the replies left after the first step and then the rest are those left after the whole plan |
| I2cBus.HalRunLength | Drivers/bsp/ds1307.c:109-121 | a HAL plan that does not halt logs one entry per call; one that halts logs at most one more entry than it has calls |
| I2cBus.HalStep | Drivers/bsp/ds1307.c:109-121 | one HAL call logs that call, followed by the halt iff its status is HAL_ERROR |
| I2cBus.HalThen | Drivers/bsp/ds1307.c:101-185 | logging two HAL plans one after the other is logging their concatenation |
| I2cBus.HalRunHalted | Drivers/bsp/ds1307.c:120 | once a plan has halted, nothing after it runs |
| I2cBus.Bus.Transmit | drivers/Src/stm32f407xx_i2c_driver.c:522-554 | a blocking send logs one Send of the data with its STOP choice |
| I2cBus.Bus.Receive | drivers/Src/stm32f407xx_i2c_driver.c:573-646 | a blocking receive returns the next n replies, uses them up and logs the transfer |
| I2cBus.Bus.HalTransmit | Drivers/bsp/ds1307.c:109 | a HAL transmit returns the next scripted status and logs the call with it |
| I2cBus.Bus.HalReceive | Drivers/bsp/ds1307.c:167 | a HAL receive returns the next status and the next n replies and logs the call |
| I2cBus.Bus.AwaitReady | Drivers/bsp/at24c32.c:37 | waiting for the device to be ready logs one readiness poll |
| I2cBus.Bus.Stop | Drivers/bsp/ds1307.c:120 | Error_Handler halts the bus after logging the halt |
| Ds1307.WithBit | bsp/ds1307.c:264 | setting bit 5, 6 or 7 leaves it set |
| Ds1307.WithoutBit | bsp/ds1307.c:259 | clearing bit 5, 6 or 7 leaves it clear |
| Ds1307.BcdDigits | bsp/ds1307.c:147-162 | for 0 to 99 the BCD byte has the tens in its high nibble and the units in its low one, and below 10 it is the number itself |
| Ds1307.BcdRoundTrip | bsp/ds1307.c:147-188 | bcd_to_binary undoes binary_to_bcd for 0 to 99 |
| Ds1307.BcdInjective | bsp/ds1307.c:147-162 | different numbers from 0 to 99 have different BCD bytes |
| Ds1307.SecondsByte | bsp/ds1307.c:245-249 | the seconds register is written with CH (bit 7) clear, so the clock runs |
| Ds1307.Bit6Kept | bsp/ds1307.c:267-268 | setting or clearing the PM bit keeps the 12-hour bit |
| Ds1307.HoursByteBits | bsp/ds1307.c:256-269 | the hours register has bit 6 set iff the format is 12-hour, and then bit 5 set iff PM |
| Ds1307.DecodeTime | bsp/ds1307.c:289-319 | the decoded format is 24-hour iff bit 6 of the hours register is clear, and otherwise PM iff bit 5 is set |
| Ds1307.HoursFields | bsp/ds1307.c:256-269 | a valid hour is stored as its BCD in 24-hour mode, and as its BCD with bits 5 and 6 added in 12-hour mode |
| Ds1307.TimeRoundTrip | bsp/ds1307.c:240-319 | reading back the registers a valid time was written as gives the same time |
| Ds1307.DateRoundTrip | bsp/ds1307.c:336-373 | reading back the registers a date was written as gives the same date |
| Ds1307.ClockHalt | bsp/ds1307.c:222 | ds1307_init returns 0 or 1, and 1 iff CH (bit 7) of the seconds register is set |
| Ds1307.PlanReplies | bsp/ds1307.c:96-130 | a register read receives one byte and a register write none |
| Ds1307.SetTimeFraming | bsp/ds1307.c:240-272 | setting the time is three two-byte writes to the seconds, minutes and hours registers, the seconds one with CH clear |
| Ds1307Driver.Write | bsp/ds1307.c:96-103 | ds1307_write logs one Send of the register address and value, with STOP |
| Ds1307Driver.Read | bsp/ds1307.c:120-130 | ds1307_read sends the register address, receives one byte, and returns the next reply |
| Ds1307Driver.Then | bsp/ds1307.c:96-130 | two transfer plans run one after the other log the same as their concatenation |
| Ds1307Driver.Init | bsp/ds1307.c:205-223 | ds1307_init writes 0 to the seconds register, reads it back and returns its CH bit |
| Ds1307Driver.SetCurrentTime | bsp/ds1307.c:240-272 | logs the three register writes of the encoded time |
| Ds1307Driver.GetCurrentTime | bsp/ds1307.c:289-319 | reads the seconds, minutes and hours registers in order and returns their decoding |
| Ds1307Driver.ThreeReads | bsp/ds1307.c:289-319 | three register reads in a row take the first three replies and log the same as one three-read plan |
| Ds1307Driver.SetCurrentDate | bsp/ds1307.c:336-346 | logs the four register writes of the encoded date |
| Ds1307Driver.GetCurrentDate | bsp/ds1307.c:363-373 | reads the day, date, month and year registers in order and returns their BCD decoding |
| Ds1307Driver.ReadsReceived | bsp/ds1307.c:289-319 | three register reads receive three bytes |
| Ds1307Hal.ReadAddr | Drivers/bsp/ds1307.c:167 | the read address is the write address with the R/W bit set |
| Ds1307Hal.Write | Drivers/bsp/ds1307.c:101-125 | ds1307_write makes one HAL transmit and halts iff it returns HAL_ERROR |
| Ds1307Hal.Read | Drivers/bsp/ds1307.c:142-185 | ds1307_read transmits the register address and receives one byte at the read address, halting on HAL_ERROR; if it returns, the byte is the next reply |
| Ds1307Hal.RanThen | Drivers/bsp/ds1307.c:101-185 | a plan that does not halt, followed by one that runs, runs as their concatenation |
| Ds1307Hal.RanHalted | Drivers/bsp/ds1307.c:120 | a halted run stays halted whatever follows |
| Ds1307Hal.Init | Drivers/bsp/ds1307.c:260-275 | runs the init plan and, unless halted, returns the CH bit of the byte read back |
| Ds1307Hal.SetCurrentTime | Drivers/bsp/ds1307.c:292-324 | runs the three register writes of the encoded time, stopping at the first HAL_ERROR |
| Ds1307Hal.GetCurrentTime | Drivers/bsp/ds1307.c:341-371 | runs the three register reads and, unless halted, returns the decoded time |
| Ds1307Hal.SetCurrentDate | Drivers/bsp/ds1307.c:388-398 | runs the four register writes of the encoded date, stopping at the first HAL_ERROR |
| Ds1307Hal.GetCurrentDate | Drivers/bsp/ds1307.c:415-425 | runs the four register reads and, unless halted, returns the decoded date |
| At24c32.PageSpace | bsp/at24c32.c:126 | the room left in the cursor's page is between 1 and 32 bytes |
| At24c32.ChunkLen | bsp/at24c32.c:128 | a chunk is the rest of the data or the room left in the page, whichever is smaller, and is not empty while data remains |
| At24c32.Pointer | bsp/at24c32.c:132-133 | the two address bytes are the high and the low byte of the address |
| At24c32.ChunksInPage | bsp/at24c32.c:123-145 | every chunk written holds 1 to 32 bytes and never crosses a 32-byte page boundary |
| At24c32.ChunksCoverData | bsp/at24c32.c:123-145 | the chunk payloads, in order, are exactly the data |
| At24c32.ChunksContiguous | bsp/at24c32.c:123-145 | the first chunk starts at the cursor and each next chunk starts where the previous one ended |
| At24c32.PlanFramesChunks | bsp/at24c32.c:131-138 | one STOP-terminated send per chunk, carrying the chunk's address and payload |
| At24c32.AdvanceTwice | bsp/at24c32.c:144 | advancing the 16-bit cursor by m and then n advances it by m + n |
| At24c32.CursorStaysInRange | bsp/at24c32.c:147 | a write that ends before 0x10000 leaves the cursor below the end address; an empty write sends nothing and keeps the cursor |
| At24c32.ScenarioTwoPages | bsp/at24c32.c:121-148 | 40 bytes from address 20 go out as 12 bytes at 20 and 28 bytes at 32, and the cursor ends at 60 |
| At24c32.ScenarioPastEnd | bsp/at24c32.c:121-148 | 32 bytes from 0x0FF0 go out as 16 bytes at 0x0FF0 and 16 at 0x1000, past the memory, before the cursor wraps to 0 |
| At24c32.GetDataSnoc | bsp/at24c32.c:169-184 | one more byte read appends one pointer send and one single-byte receive at the next address |
| At24c32.GetDataReceives | bsp/at24c32.c:169-184 | reading len bytes receives exactly len bytes |
| At24c32.Eeprom.SetData | bsp/at24c32.c:121-148 | at24c32_set_data logs the send of every chunk, in order, and leaves the cursor advanced by the length and wrapped to 0 once past the end address |
| At24c32.Eeprom.GetData | bsp/at24c32.c:165-185 | at24c32_get_data returns the next len replies and logs, for each byte, the address send with a repeated start and the one-byte receive |
| At24c32.WriteStep | bsp/at24c32.c:123-145 | one loop iteration sends the next chunk and moves the cursor and the data position by its length |
| At24c32.WriteStepLog | bsp/at24c32.c:138 | the send of one iteration extends the logged plan by one step |
| At24c32.WriteDone | bsp/at24c32.c:123 | when the loop ends, every chunk of the plan has been sent |
| At24c32.ReadOpsRun | bsp/at24c32.c:176-179 | one read iteration sends the address with a repeated start and receives the next reply with STOP |
| At24c32.ReadStepLog | bsp/at24c32.c:169-184 | k + 1 read iterations log the k before and then one more |
| At24c32.ReadStepReplies | bsp/at24c32.c:179-182 | the bytes received so far plus one more are the first k + 1 replies, and the address advances by one |
| At24c32Hal.HalSetAllOk | Drivers/bsp/at24c32.c:20-51 | when every transmit returns HAL_OK, each chunk is a readiness poll and a send, the result is HAL_OK (the uninitialised value for no data), and the cursor moves as in the register-level adapter |
| At24c32Hal.HalSetFailure | Drivers/bsp/at24c32.c:40-41 | a non-empty write returns a status other than HAL_OK iff some transmit fails, and then that is the status of the last transfer logged |
| At24c32Hal.ShiftAllOk | Drivers/bsp/at24c32.c:23-46 | after one HAL_OK, k + 1 successes are the same as k successes from the next status |
| At24c32Hal.HalGetOutcome | Drivers/bsp/at24c32.c:68-87 | a failed pointer transmit returns its status after one transfer with no data; otherwise a receive of len bytes follows and its status is returned |
| At24c32Hal.EepromHal.SetData | Drivers/bsp/at24c32.c:20-51 | at24c32_set_data's log, return value, cursor and remaining statuses are those of HalSet |
| At24c32Hal.EepromHal.GetData | Drivers/bsp/at24c32.c:68-87 | at24c32_get_data's log, return value and data are those of HalGet |
| At24c32Hal.SetStep | Drivers/bsp/at24c32.c:23-46 | one iteration polls, sends the chunk and returns its status at once unless it is HAL_OK, in which case the loop goes on from the advanced cursor |
| Text.Bytes | Core/Src/main.c:728 | a string literal is its ASCII characters, one byte each, in order |
| Text.TwoDigitsValue | Core/Src/main.c:563-574 | the two characters written for a number up to 99 are digits whose value, tens then units, is the number, and two different numbers never get the same two characters |
| Text.Written | Core/Src/main.c:705 | after a copy of src at position at, those bytes hold src and every byte outside them is unchanged |
| Text.WrittenOver | Core/Src/main.c:689-691 | a second copy at the same place that is at least as long hides the first completely |
| Text.WrittenUnder | Core/Src/main.c:689-691 | a shorter second copy at the same place leaves the tail of the first one behind it |
| Text.Copy | Core/Src/main.c:719 | memcpy leaves the buffer as Written describes |
| Text.NumberToString | Src/016rtc_lcd.c:50-61 | both copies of number_to_string change only buf[at] and buf[at + 1], writing the digits PutNumber gives |
| Text.Field | Core/Src/main.c:582-584 | the two bytes a number occupies are its digits, or the old bytes when it is above 99 |
| Text.ClockLayout | Src/016rtc_lcd.c:69-100 | the first nine bytes are three two-byte fields with the separator after the first two and the terminator last, and nothing from byte 9 on changes |
| Text.ClockParsesBack | Core/Src/main.c:577-600 | for fields up to 99, the six digit positions are digits that read back as hours/minutes/seconds or date/month/year |
| Text.ClockTwice | Src/016rtc_lcd.c:69-100 | formatting the same time into the same buffer twice leaves what one formatting leaves |
| Text.PutClock | Src/016rtc_lcd.c:69-100 | the buffer ends up exactly as Clock describes |
| Text.ClockCString | Src/016rtc_lcd.c:80-82 | a time or date with fields up to 99 and a NUL after it reads as a C string of exactly those eight characters |
| Text.ClockTextNoNul | Src/016rtc_lcd.c:69-100 | the formatted text holds no NUL as long as the separator is not NUL |
| Text.ClockTextPad | Core/Src/main.c:611-615 | the eight characters are the three numbers printed as %02d with the separator between them |
| Text.CString | Src/016rtc_lcd.c:167 | the C string of a buffer is its longest NUL-free prefix and is followed by a NUL when it is shorter than the buffer |
| Text.CStringOf | Src/016rtc_lcd.c:167 | a NUL-free prefix that is followed by a NUL is the C string |
| Text.DecimalValue | Core/Src/main.c:611 | the digits of %d read back as the number |
| Text.DecimalLength | Core/Src/main.c:611 | below 10^w a number takes at most w digits, and from 10^(w-1) on it takes at least w |
| Text.ValueLeadingZeros | Core/Src/main.c:611-615 | zeros in front of a digit string do not change its value |
| Text.PadValue | Core/Src/main.c:611-615 | %0Nd reads back as the number and is exactly N characters when the number is below 10^N |
| Text.TwoDigitsPad | Core/Src/main.c:563-574 | number_to_string's two characters are %02d of the number |
| Text.DigitsNotNul | Core/Src/main.c:611-615 | a string of digits holds no NUL |
| RtcLcdApp.ReloadPeriod | Src/016rtc_lcd.c:26 | for a tick rate up to 16 MHz the reload value gives ticks of whole periods closest to the rate from below; above 16 MHz the uint32 subtraction wraps to 0xFFFFFFFF |
| RtcLcdApp.QuotientBounds | Src/016rtc_lcd.c:26 | the integer quotient times the divisor is at most the dividend and falls short by less than the divisor |
| RtcLcdApp.ReloadOneHertz | Src/016rtc_lcd.c:137 | the 1 Hz tick main asks for reloads SysTick with 15999999 |
| RtcLcdApp.ScsrEnabledBits | Src/016rtc_lcd.c:35-39 | the three writes leave SCSR with TICKINT, CLKSOURCE and ENABLE set and every other bit unchanged |
| RtcLcdApp.SysTick.constructor | Src/016rtc_lcd.c:22-23 | SRVR and SCSR start at zero and nothing has been written to SCSR |
| RtcLcdApp.SysTick.InitSystickTimer | Src/016rtc_lcd.c:20-40 | init_systick_timer clears SRVR and loads it with the reload value, then sets TICKINT, CLKSOURCE and ENABLE in three writes, in that order |
| RtcLcdApp.DayNamesDistinct | Src/016rtc_lcd.c:45-47 | the seven day codes name seven different days, from "Sun" for 1 to "Sat" for 7 |
| RtcLcdApp.App.constructor | Src/016rtc_lcd.c:7-13 | the static buffers start zeroed, cuur_data starts at 0 and the EEPROM write cursor at the start address |
| RtcLcdApp.App.TimeToString | Src/016rtc_lcd.c:69-83 | time_to_string leaves its static buffer as Clock with ':' and a closing NUL |
| RtcLcdApp.App.DateToString | Src/016rtc_lcd.c:86-100 | date_to_string leaves its static buffer as Clock with '.' and a closing NUL |
| RtcLcdApp.App.SaveDataIntoEeprom | Src/016rtc_lcd.c:160-169 | saveDataIntoEEPROM reads the time and the date from the clock, formats both, and writes the time's then the date's C string through the EEPROM cursor, which advances by both lengths |
| RtcLcdApp.App.GetData | Src/016rtc_lcd.c:171-180 | get_data reads the next eight bytes at cuur_data into rx_buf, ends them with a NUL and advances cuur_data by 8 with uint16 wrap-around |
| RtcLcdApp.App.SysTickHandler | Src/016rtc_lcd.c:182-208 | each tick stores the time and the date, then reads two eight-byte blocks back, so cuur_data moves by 16 and rx_buf ends with the second block |
| RtcLcdApp.StoreLogParts | Src/016rtc_lcd.c:160-169 | the four bus steps of saveDataIntoEEPROM put together make up StoreLog |
| RtcLcdApp.StoresSixteenBytes | Src/016rtc_lcd.c:167-168 | with fields up to 99, the time and the date are each stored as their eight characters, sixteen bytes per tick, the amount the two reads fetch back |
| LoggerMain.DirPaths | Core/Src/main.c:602-619 | the year directory starts with "/LOGS" and reads back as the year plus 2000; the month directory extends it and reads back as the month; neither holds a NUL |
| LoggerMain.TimeToString | Core/Src/main.c:577-587 | time_to_string leaves the buffer as Clock with ':' and a closing ';' |
| LoggerMain.DateToString | Core/Src/main.c:590-600 | date_to_string leaves the buffer as Clock with '.' and a closing NUL |
| LoggerMain.TimeFieldParses | Core/Src/main.c:577-587 | the record's first nine bytes are "HH:MM:SS;", and its digits read back as the time |
| LoggerMain.Measurement | Core/Src/main.c:685-692 | the sixteen bytes update_data leaves hold a NUL, because snprintf truncates to 15 characters |
| LoggerMain.Record | Core/Src/main.c:730-731 | the record buffer keeps 26 bytes and ends in CR LF |
| LoggerMain.Logger.constructor | Core/Src/main.c:118-231 | the statics start zeroed, curr_day and curr_month at 0, and nothing has been sent to the card |
| LoggerMain.Logger.CreateDirLogs | Core/Src/main.c:602-619 | sd_create_dir_logs mounts, creates /LOGS, the year and the month directories, unmounts, and leaves the month path with its NUL in path |
| LoggerMain.Logger.UpdateData | Core/Src/main.c:685-692 | update_data changes only rx_buf[9..25), to Measurement of the formatted reading |
| LoggerMain.Logger.GetData | Core/Src/main.c:674-683 | get_data formats the time into rx_buf and the date into date |
| LoggerMain.Logger.NewMonth | Core/Src/main.c:700-707 | a new month is remembered, its directories are created, and the month path is copied into file_path with '/' at 13 |
| LoggerMain.Logger.NewDay | Core/Src/main.c:714-729 | a new date is remembered, file_path gets "D" + date + ".csv" after the directory, and the CSV header is appended to that file |
| LoggerMain.Logger.SdLogs | Core/Src/main.c:694-736 | sd_logs builds the record, creates directories only when the month changed and writes the header only when the date changed, then appends the record to the daily file between mount and unmount |
| LoggerMain.LogOpsParts | Core/Src/main.c:694-736 | the card operations of sd_logs, step by step, are LogOps |
| LoggerMain.DailyPath | Core/Src/main.c:705-726 | after the month and day steps, file_path read as a C string is "/LOGS/YYYY/MM/D" + date + ".csv" |
| LoggerMain.FirstSample | Core/Src/main.c:694-736 | the first sample after start writes to "/LOGS/YYYY/MM/DDD.MM.YY.csv" for its own date |
| Dashboard.Capped | js_website/server.js:31-35 | the new entry is always last; below the cap it is simply appended, at the cap the single oldest entry goes, so a history within the cap stays within it |
| Dashboard.Last | js_website/server.js:1418 | slice(-n) keeps the newest n elements (all of them if fewer), in order |
| Dashboard.ReplayKeepsNewest | python_website/index.php:92-101 | any run of capped appends to a history within the cap leaves exactly the newest cap readings of all of them, oldest first |
| Dashboard.LastOfSuffix | python_website/index.php:99-101 | keeping only a long enough suffix of the history does not change which newest entries survive later appends |
| Dashboard.Reverse | python_website/index.php:929 | array_reverse and reverse() put element i at position n - 1 - i |
| Dashboard.NewestFirst | python_website/index.php:929-930 | reversing then taking the first n is the same as taking the last n then reversing |
| Dashboard.Column | js_website/server.js:56-58 | a column (map, array_column) has one value per entry, in history order |
| Dashboard.Times | python_website/index.php:156 | the time column has one time stamp per entry, in history order |
| Dashboard.ColumnCapped | js_website/server.js:31-35 | the column of a capped history is the capped column, so charts follow the same cap as the history |
| Dashboard.ChartsOf | python_website/index.php:156-159 | the four chart arrays have one element per entry, each the entry's own field |
| Dashboard.Min | js_website/server.js:77 | Math.min of a non-empty column is one of its values and no value is smaller |
| Dashboard.Max | js_website/server.js:78 | Math.max of a non-empty column is one of its values and no value is larger |
| Dashboard.SumBetween | js_website/server.js:76 | n values between lo and hi sum to between n times lo and n times hi |
| Dashboard.AverageBetween | js_website/server.js:76 | the average of values between lo and hi is between lo and hi |
| Dashboard.QuotientBetween | python_website/index.php:29 | dividing a total between n times lo and n times hi by n lands between lo and hi |
| Dashboard.Summary | js_website/server.js:74-80 | the figures of a column are its newest value, its extremes (both taken from the column and bounding every value), and its sum over its count, which lies between them |
| Dashboard.ColorByValue | js_website/server.js:1300-1316 | each quantity is drawn in a colour from its own palette |
| Dashboard.BandMonotone | js_website/server.js:1300-1316 | a larger value never reaches fewer band edges |
| Dashboard.ColorIsBand | python_website/index.php:63-79 | the colour of a value is the palette entry of its band, with one more colour than edges |
| Dashboard.BandOf2 | js_website/server.js:1313-1315 | with two ascending edges the band is 0 below the first, 1 below the second, 2 above |
| Dashboard.BandOf3 | js_website/server.js:1308-1311 | with three ascending edges the band counts the edges reached |
| Dashboard.BandOf4 | js_website/server.js:1302-1306 | with four ascending edges the band counts the edges reached |
| Dashboard.ColorMonotone | js_website/server.js:1300-1316 | a larger value never gets a colour earlier in its palette |
| Dashboard.PaletteDistinct | js_website/server.js:1300-1316 | the colours of a palette are pairwise different, so a colour names one band |
| JsServer.Server.constructor | js_website/server.js:8 | the history starts empty |
| JsServer.Server.PostData | js_website/server.js:12-39 | POST /api/data answers 400 and changes nothing unless temperature, pressure and humidity are all numbers; otherwise it answers 200 and appends the entry through the cap of 10000 |
| JsServer.Server.Clear | js_website/server.js:113-116 | POST /api/clear empties the history |
| JsServer.GetTrend | js_website/server.js:61-71 | the trend is up iff there are at least five values and the newest exceeds the fifth newest by more than 1, down iff it falls short by more than 1, stable otherwise |
| JsServer.TrendMirrors | js_website/server.js:66-70 | mirroring every value swaps up and down and keeps stable |
| JsServer.StatsOf | js_website/server.js:45-97 | with no data every figure is 0, the trend stable and lastUpdate the request time; otherwise count and lastUpdate come from the history, current is the newest value, min and max bound every value and the average, and the trend is getTrend of the column |
| JsServer.CsvRows | js_website/server.js:103-105 | one CSV line per entry, in history order |
| JsServer.ExportLines | js_website/server.js:100-106 | the export is the header line followed by one line per entry, and the header appears only first |
| JsServer.GetStatus | js_website/server.js:1321-1334 | status-bad iff a temperature above 30; status-warn iff a temperature below 15, a humidity outside 30..70 or a pressure outside 990..1030; otherwise good, labelled Optimal for humidity and Normal for the rest |
| JsServer.OverallStatus | js_website/server.js:1448-1458 | a row is Alert iff its temperature is above 30, Warning iff not that but some quantity is out of range, and Normal otherwise |
| JsServer.RowTrend | js_website/server.js:1461-1468 | a row's arrow is up iff its temperature exceeds the newer row's by more than 0.5, down iff it is lower by more than 0.5 |
| JsServer.Rows | js_website/server.js:1434-1468 | one row per displayed entry with its overall status, and a trend against the row above it, stable for the first |
| JsServer.UpdateTable | js_website/server.js:1416-1418 | the table shows the newest 10 entries (50 when expanded), newest first, and the top row's trend is stable |
| PhpDashboard.Store.constructor | python_website/index.php:8-10 | a missing data file starts as an empty history |
| PhpDashboard.Store.Post | python_website/index.php:84-107 | a truthy decoded body appends one entry through the cap of 10000; a falsy one changes nothing |
| PhpDashboard.Store.Clear | python_website/index.php:145-149 | ?clear=1 rewrites the data file as an empty history |
| PhpDashboard.EntryOf | python_website/index.php:92-97 | the entry carries the request time and each reading given, or 0, 0 and 1013.25 for a missing temperature, humidity and pressure |
| PhpDashboard.CalculateTrend | python_website/index.php:51-61 | the trend is up iff there are at least five values and the newest exceeds the fifth newest by more than 0.5, down iff it falls short by more than 0.5 |
| PhpDashboard.TrendsAgree | python_website/index.php:51-61 | every up or down the JavaScript back-end reports, the PHP one reports too, and when PHP says stable so does JavaScript |
| PhpDashboard.CalculateStatistics | python_website/index.php:13-49 | with no data every figure is 0 and the trend stable; otherwise current is the newest value, min and max bound every value and the average, and the trend is calculateTrend of the column |
| PhpDashboard.Json | python_website/index.php:152-173 | the chart response has one element per entry in each array, each the entry's own field, and count is the history length |
| PhpDashboard.ColorBands | python_website/index.php:63-81 | the PHP colours are red from 30 degrees, light blue below 10, orange from 80% humidity and dark blue from 1020 hPa |
| PhpDashboard.RowStatus | python_website/index.php:932-944 | a table row is Hot and bad iff the temperature is above 30, Cold and warn iff it is below 15 |
| PhpDashboard.TableRows | python_website/index.php:929-952 | the table shows the newest 10 entries, newest first |
| PhpDashboard.TableMatchesJs | python_website/index.php:929-952 | the PHP table lists the same entries with the same trend arrows as the collapsed JavaScript table, and its status is the JavaScript temperature status |
| PhpDashboard.SameDisplay | python_website/index.php:929-931 | both tables are built row by row from the same newest-first selection |
| PhpDashboard.PhpDisplay | python_website/index.php:929-931 | the PHP table is its row function over the newest-first selection |
| PhpDashboard.JsDisplay | js_website/server.js:1418 | the JavaScript table is its row function over the same selection |
| PhpDashboard.RowAgrees | python_website/index.php:946-952 | row by row, the two pages show the same entry and trend, and the PHP status is the JavaScript temperature status |
| Esp32Dashboard.EntryOf | esp32_meteo/src/index.php:13-18 | the entry carries the request time and each reading given, 0 for any missing one |
| Esp32Dashboard.Session.constructor | esp32_meteo/src/index.php:2 | a new session holds no history |
| Esp32Dashboard.Session.Start | esp32_meteo/src/index.php:5-7 | an absent history is created empty, a present one is kept |
| Esp32Dashboard.Session.Post | esp32_meteo/src/index.php:10-26 | a truthy decoded body appends one entry, keeping at most 100; a falsy one changes nothing |
| Esp32Dashboard.Session.Json | esp32_meteo/src/index.php:30-41 | the four chart arrays have one element per stored entry, each the entry's own field |
| Esp32Dashboard.SessionKeepsNewest | esp32_meteo/src/index.php:19-23 | however many readings were posted, the session holds the newest 100 (all if fewer), oldest first |

## Left out

- Peripheral clock and reset dispatch (`*_PeriClockControl`, `*_DeInit`) in the I2C, SPI, USART and GPIO drivers. It only compares base addresses and sets RCC enable and reset bits; there is no logic in it beyond a table of bits.
- I2C slave mode: `I2C_SlaveSendData` and `I2C_SlaveReceiveData`. The slave branches of the event handler are modelled only as the callbacks they emit. Application callbacks are events in the trace, not code.
- Busy-wait delays (`mdelay`, `udelay`, `HAL_Delay`, `large_delay`). They are no-ops in the model.
- Status-flag spins (`while(!flag)`, the HAL readiness poll). Each is one event that is taken to happen; a device that never answers is not modelled, and nothing is claimed about termination there.
- Nvic.NvicRegs.IrqInterruptConfig: ICER0..2 are treated as plain memory, so the method stores the old word with the IRQ's bit ORed in. On the NVIC a read of ICERx returns the enabled IRQs and each 1 written disables one, so the same `|=` (repeated in the GPIO, I2C, SPI and USART drivers) disables every enabled IRQ of that word; `DisableOnNvic` and `DisableClearsWord` state that effect on an enable set.
- Bits.ByteAt (used by `Usart` and `Spi`): a read past the end of the buffer gives 0, where the C code reads whatever memory follows. A 9-bit send without parity reads 2·Len bytes from a Len-byte buffer, and an odd-length 16-bit SPI interrupt send reads past its end; the model does not say what those bytes are.
- Ds1307Hal.Write, Ds1307Hal.Read: on HAL_ERROR the `printf` of the HAL error code and the "I2C ERROR DS1307" message on the LCD, which come before `Error_Handler`, are not modelled; the model only marks the bus as halted.
- I2cDriver.I2cHandle.Init: requires a nonzero CCR divisor (`2·speed`, `3·speed` or `25·speed` in 32 bits), and so does `CcrRegister`. An SCL speed of 0 makes the source divide by zero, and that case is excluded.
- Usart.UsartHandle.Init, Usart.UsartHandle.SetBaudRate: require a nonzero `usartdiv` divisor (`2·baud` or `4·baud` in 32 bits), and so do `UsartDiv` and `Brr`. A baud rate of 0 makes the source divide by zero, and that case is excluded.
- I2cDriver.I2cHandle.Init: `I2C_Init` reads the APB1 clock through `RCC_GetPCLK1Value`, but the model takes that frequency as a parameter and proves the register values from it.
- Usart.UsartHandle.Init: the APB1 and APB2 clocks that `USART_SetBaudRate` reads through the RCC driver are parameters here. The RCC decoding itself is modelled in `Rcc`.
- Rcc.GetPclk1Value: requires CFGR clock source other than 3, which leaves `SystemClk` unassigned in the source, and an HPRE field below 14, where the table entries 256 and 512 truncate to 0 in the driver's `uint8_t` and the division is undefined.
- Rcc.GetPclk2Value: the same two requirements as for APB1.
- Spi.SpiHandle.SendData: for 16-bit frames it requires an even length, because an odd one underflows the `uint32_t` counter and the source loop never ends.
- Spi.SpiHandle.ReceiveData: the same even-length requirement for 16-bit frames.
- The USART CTS, IDLE, ORE and error-flag block of `USART_IRQHandling`. It is modelled only as the callbacks that its masked tests emit, with the bit-position masks kept as written.
- `ds1307.h` and `lcd.h` are not part of this model. The DS1307 register addresses and time-format codes are taken from the DS1307 register map, and the LCD command codes from the HD44780 instruction set.
- The GPIO set-up of the LCD and device pins inside `lcd_init`, `ds1307_init` and `at24c32_init`. It is plain `GPIO_Init` calls, which are modelled in `Gpio`.
- The `Error_Handler` halt loop and the HAL driver initialisation in `Core/Src/main.c` (`SystemClock_Config`, `MX_*_Init`). The halt is the bus's `halted` flag.
- The FatFs glue (`sd_mount`, `sd_unmount`, `sd_create_directory`, `sd_append_file`). Its source is not part of this model, so the calls are logged with their arguments. How many bytes of the record buffer `sd_append_file` writes is not modelled.
- LoggerMain.Logger.UpdateData: the BME280 reading and its `%.1f` floating-point formatting are a text parameter.
- The RTC readings in `Core/Src/main.c` are parameters of `GetData` and `SdLogs`.
- `main` of `Src/016rtc_lcd.c`, the LCD output of `SysTick_Handler` and the `printf` in `get_data`. The EEPROM and clock traffic of the handler is modelled; the LCD part is screen I/O over the driver already modelled in `Lcd`.
- The commented-out code in `Core/Src/main.c`, `Src/016rtc_lcd.c` and `Drivers/bsp/ds1307.c`.
- JsServer.Server.PostData: the `toFixed(1)` rounding of each reading is not modelled, and values are exact reals rather than doubles. A NaN or infinite number, which `typeof` accepts, is not distinguished either.
- JsServer.StatsOf: averages are the exact quotient, without `toFixed(1)` rounding.
- PhpDashboard.CalculateStatistics: averages are the exact quotient of `array_sum` and `count`, not floating point.
- Everything under `/api/history`, which only returns the history as it is.
- The unknown-type fallbacks of `getColorByValue` (`#495057`) and `getStatus` (`Normal`). Every call site passes one of the three quantities.
- The PHP CSV export (the byte-order mark, the `sep=;` line and `fputcsv` quoting), `date()` and `toLocaleString` formatting, `json_decode`/`floatval` parsing, and the file and session persistence. Request times are parameters, and decoded bodies are datatypes.
- The HTML, CSS and chart rendering of all three pages.
- The ESP32 firmware (FreeRTOS tasks, Wi-Fi, SNTP, HTTP and SPI slave). It is I/O and concurrency.
