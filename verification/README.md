# Verification model of the STM32F446 drivers

A Dafny model of the bare-metal drivers and the board bring-up of a NUCLEO-F446RE
project, with proofs of what they guarantee against hardware that moves on its
own. In-memory register structs show neither the order of accesses nor what the
hardware accepts; here every register block is an object whose hardware side may
take any number of steps before every access, and the proofs are over all of
those schedules and over all sequences of calls.

| Files | What they model |
|---|---|
| `Status`, `Polling` | the status codes, and one specification for all bounded poll loops |
| `ClockState`, `ClockHw` | RCC, PWR and flash interface as one clock tree; write protection; recorded histories |
| `ClockWords` | the 32-bit words behind the clock records |
| `Flash`, `Pwr`, `Rcc`, `ClockSafety` | the drivers, and what any sequence of their calls keeps |
| `ClockRuns` | runs built access by access, and what a timed-out disable call means |
| `Bsp`, `BringUpSafety` | the 180 MHz bring-up and its safety from reset |
| `BringUpEnds`, `LostLock` | when the bring-up succeeds, and runs in which it fails |
| `Baud`, `UartLine`, `Uart` | baud-rate divisor, the serial line, configuration and blocking transfers |
| `Wwdg`, `Iwdg` | the two watchdogs |
| `Bits`, `Gpio`, `PinDriving`, `Interleaving` | packed registers, pin records, atomic pin driving from two contexts |
| `Exti`, `ExtiRouting`, `Nvic` | interrupt lines, port routing, interrupt sets and priorities |
| `SysTick` | tick timing |

`dafny verify dfyconfig.toml` checks everything.

## How the model is built

- A register block is a class. Each access first lets the hardware move: ready
  flags rise only if enabled, SWS moves only to a requested source that is on and
  ready, bytes leave and frames arrive, counters count, updates end, edges arrive.
  Where timing is the property (watchdog counts, SysTick clocks) the object
  carries an arbitrary schedule of how much passes before each access.
- The drivers are methods that make the same accesses in the same order as the C
  code, with the same branches, limits and poll budgets. Their contracts name the
  stores (`ws`) and loads (`rs`) they made; properties of runs are lemmas over
  those sequences.
- Facts about the hardware come from the sections the code cites: RM0390
  sections 3.4.1, 5.1.3, 5.4, 6.3, 7.4, 8.2, 10.3, 20.4, 21.6 and 25.6, and PM0214.
  Assumed of it: SWS moves only to a path that is on; an SR read followed by a DR
  write clears TC; ORE clears only by a DR read after an SR read that showed it;
  EWIF is set by counting down to 0x40; PR and RLR of the independent watchdog
  drop writes while locked or updating; clearing the enable bit of a clock in use is
  ignored (the constant `protects` switches this off, and the safety of call
  sequences is proved for both settings); SWIER pends a line only on a 0-to-1 write
  while it is unmasked; with CLKSOURCE clear SysTick counts every eighth clock.
- What a contract says a register holds goes by bit numbers and literal values of the
  manuals rather than by the masks and limits of the driver: the frame in CR1 and CR2,
  the fields of the clock words, the lane of an EXTI line, the byte of a priority, the
  ready flag of a clock source, the wait states of a frequency.
- Pointers to ports and interrupt numbers are values; a null pointer is a null
  array or a flag.

## Where the code and its documentation differ

The model follows the code.

- `bsp.h` says that after a failure SYSCLK is still HSI. If the switch itself
  timed out, the request for the PLL stays in CFGR.SW and may complete later:
  `BringUpEnds.SwitchCanBeLate` builds such a run from every reset state, and
  `BringUpEnds.StillHsiIff` shows that no other failure does this. It is safe: all
  limits hold in that case too (`BringUpSafety.InitFromReset`).
- `bsp.h` says NOT_INITIALIZED cannot occur. It can if PLLRDY is lost between the
  wait and the switch's own look at CR: `LostLock.LockCanBeLost` builds such a run
  from every reset state. With ready flags that stay set it cannot
  (`BringUpSafety.InitFromReset`).
- `rcc.h` says that after TIMEOUT of a disable function HSION, HSEON or PLLON is
  cleared. The guard looks at CFGR.SWS only; if a switch onto that clock is pending
  and completes after the guard, the hardware ignores the clear, as the comment on
  the guard cites from RM0390, and the call times out with the clock on. That is
  exactly when the statement fails (`ClockRuns.TimeoutMeansClearedIff`,
  `ClockRuns.PllTimeoutMeansClearedIff`). The clock itself is never stopped
  (`ClockRuns.ProtectionSparesTheClock`, `ClockSafety.MakeCalls`).
- `uart.h` says a baud rate above pclk / 16 is rejected. Rounding lets rates up to
  2 pclk / 31 through (`Baud.AboveLimitIff`).
- `wwdgStart()` accepts start values 0x40 and 0x41, with which the documented
  early-wakeup pattern cannot be relied on (`Wwdg.WakeupComesIff`).
- `DESIGN.md` lists `extiClearPending()` among the calls that are safe on distinct
  bits. Between the load and the store of another context's
  `extiTriggerSoftware()` it is undone if the cleared line is unmasked with its
  SWIER bit set: the stale bit pends the line again (`Exti.ClearIsUndoneIff`).
- `exti.c` calls a repeated software trigger harmless. A trigger made while the
  line is masked leaves SWIER set, and in any run blocks all later ones until the
  line is cleared or configured (`Exti.MaskedTriggerBlocksLaterOnes`;
  `Exti.FirstTriggerDecides` has the exact condition).

## Model

| member | source | states |
|---|---|---|
| `Polling.PollIsDetermined` | drivers/src/rcc.c:207-224 | for any register behaviour and any budget the poll specification admits one outcome only: number of reads and status are determined, so loops that meet it agree |
| `Polling.Poll` | drivers/src/pwr.c:23-40 | a poll of any register behaviour ends within budget + 2 reads and meets the specification; only the last read decides |
| `Polling.MonotoneFlagIsFound` | drivers/src/rcc.c:195-206 | a flag that stays set once set is reported iff it is set by read budget + 2 |
| `Polling.GlitchIsATimeout` | drivers/src/rcc.c:195-206 | a flag seen set inside the loop and clear on the re-read is reported by the re-read alone |
| `ClockState.PathOn` | drivers/src/rcc.c:160-171 | a SYSCLK source is on iff it, or the PLL and the oscillator PLLSRC selects, is switched on |
| `ClockState.EnvStep` | docs/DESIGN.md:54-62 | every single hardware step is inside the closed form of what the hardware may do |
| `ClockState.RunIsReach` | docs/DESIGN.md:120-123 | any schedule of flag changes and switch completions stays inside the closed form |
| `ClockState.ReachIsRun` | docs/DESIGN.md:120-123 | the closed form is exact: whatever it allows, some schedule does, so nothing is proved about impossible hardware only |
| `ClockState.ChainKeeps` | docs/DESIGN.md:77-78 | a property that hardware steps and every write of a run keep holds before and after every write and at the end |
| `ClockState.PlaceOf` | docs/DESIGN.md:77-78 | every read of a history was made between two of its writes |
| `ClockState.HistoryKeeps` | docs/DESIGN.md:77-78 | the same property holds at every read, each of which saw a state the hardware passed through between two writes |
| `ClockState.HistoryReads` | docs/DESIGN.md:120-123 | a read extends a history: it saw the present, which the hardware reached from what every earlier read since the last write saw |
| `ClockState.HistoryWeakens` | docs/DESIGN.md:120-123 | what steady hardware does, hardware that need not be steady may do |
| `ClockState.PerformsAppend` | bsp/src/bsp.c:12-66 | two stretches of planned writes, the second starting where the first ends, are one stretch of the joined plan |
| `ClockHw.ClockRegisters.constructor` | docs/DESIGN.md:112-123 | a register block starts with an empty history |
| `ClockHw.ClockRegisters.Drift` | docs/DESIGN.md:120-123 | between two accesses the hardware takes any number of steps and the recorded history stays a history |
| `ClockHw.ClockRegisters.Store` | docs/DESIGN.md:120-123 | a store lands in the state the hardware left, subject to RM0390's write protection and, if the chip protects them, to the clocks in use staying on, and is recorded with the reads made before it |
| `ClockHw.ClockRegisters.WriteAcr` | drivers/src/flash.c:22-33 | a flash store is taken, or taken except for LATENCY, which then keeps its old value |
| `ClockWords.MergedKeepsTheRest` | drivers/src/rcc.c:316-317 | clearing a field and or-ing in a value changes no bit outside the mask, for all 32-bit words |
| `ClockWords.TurnedKeepsTheRest` | drivers/src/rcc.c:228-240 | setting or clearing one bit changes no other |
| `ClockWords.CrHsion` | drivers/src/rcc.c:228-240 | setting or clearing HSION in the word is the record update, and every other bit of the word is kept, reserved ones included |
| `ClockWords.CrHseon` | drivers/src/rcc.c:263-278 | the same for HSEON |
| `ClockWords.CrPllon` | drivers/src/rcc.c:325-340 | the same for PLLON |
| `ClockWords.CrHsebyp` | drivers/src/rcc.c:262 | the bypass store sets HSEBYP to the parameter, and every other bit of the word is kept |
| `ClockWords.PllcfgrWrite` | drivers/src/rcc.c:312-317 | the one PLLCFGR store puts M, N, P and the source in their fields, and PLLQ and the reserved bits are kept |
| `ClockWords.PrescalerWrite` | drivers/src/rcc.c:404-407 | the prescaler store sets the three fields and keeps every other bit, the switch request and its status included |
| `ClockWords.SwWrite` | drivers/src/rcc.c:460 | the switch request sets SW and keeps every other bit, the prescalers and SWS included |
| `ClockWords.VosWrite` | drivers/src/pwr.c:52 | the scale store sets VOS and keeps every other bit, ODEN and ODSWEN included |
| `ClockWords.OdenWrite` | drivers/src/pwr.c:67-68 | setting ODEN keeps every other bit, VOS and ODSWEN included |
| `ClockWords.OdswenWrite` | drivers/src/pwr.c:73 | setting ODSWEN keeps every other bit, VOS and ODEN included |
| `ClockWords.LatencyWrite` | drivers/src/flash.c:22 | the latency store sets LATENCY and keeps every other bit, prefetch and both caches included |
| `ClockWords.LatencyReadBack` | drivers/src/flash.c:30-33 | comparing the field in place is comparing the latency |
| `ClockWords.CachesWrite` | drivers/src/flash.c:42 | prefetch and both caches on, every other bit kept, the latency included |
| `Flash.SetLatency` | drivers/src/flash.c:12-38 | OK iff the register holds the requested latency afterwards; a refused write is HW_FAULT and leaves every bit; above 15 is INVALID_PARAM with no access |
| `Flash.EnableCaches` | drivers/src/flash.c:40-43 | one write, prefetch and both caches on, latency kept |
| `Pwr.WaitCsrFlag` | drivers/src/pwr.c:23-40 | meets the poll specification with budget 100000; OK only if the flag was read set |
| `Pwr.SetVoltageScale` | drivers/src/pwr.c:42-56 | accepts scales 1 to 3; takes effect iff PWR is clocked and the PLL is off, otherwise every bit is as before |
| `Pwr.WaitVoltageScaleReady` | drivers/src/pwr.c:58-61 | OK only if VOSRDY was read set; writes nothing |
| `Pwr.EnableAndWait` | drivers/src/pwr.c:67-75 | one enable bit of over-drive is written, and OK only if its flag was read set after that write |
| `Pwr.EnableOverdrive` | drivers/src/pwr.c:63-78 | ODSWEN is written only after ODRDY was read set, and that after ODEN was written; OK only if ODSWRDY was read set after ODSWEN was; VOS is never touched |
| `Rcc.PwrClockEnable` | drivers/src/rcc.c:129-133 | PWREN is set, nothing else, and read back before return |
| `Rcc.WaitCrFlag` | drivers/src/rcc.c:207-224 | meets the poll specification for either polarity, with at most 100002 reads, against any hardware schedule |
| `Rcc.ActiveSysclkSource` | drivers/src/rcc.c:155-158 | returns SWS, the source in use, not the requested one |
| `Rcc.OscillatorDisableGuard` | drivers/src/rcc.c:172-193 | BUSY iff the oscillator fed SYSCLK, directly or through the PLL, when CFGR was read |
| `Rcc.HsiEnable` | drivers/src/rcc.c:226-231 | one write, HSION set and nothing else, then the poll for HSIRDY |
| `Rcc.HsiDisable` | drivers/src/rcc.c:233-245 | BUSY exactly when the guard finds HSI in use, and then nothing is written; otherwise the clear is asked for once, and a protected HSI that came into use after the guard stays on |
| `Rcc.HseEnable` | drivers/src/rcc.c:247-269 | HSEBYP is written before HSEON and only with HSE off; BUSY iff HSE was on, with nothing written; OK only if HSERDY was read set after HSEON was written |
| `Rcc.HseDisable` | drivers/src/rcc.c:271-283 | BUSY exactly when the guard finds HSE in use, and then nothing is written; otherwise the clear is asked for once, and a protected HSE that came into use after the guard stays on |
| `Rcc.PllConfig` | drivers/src/rcc.c:285-321 | accepted exactly for the documented ranges with the PLL off, and then all four fields are as asked |
| `Rcc.PllEnable` | drivers/src/rcc.c:323-328 | one write; OK only if PLLRDY was read set |
| `Rcc.PllDisable` | drivers/src/rcc.c:330-345 | BUSY iff SWS showed the PLL, and then nothing is written; otherwise the clear is asked for once, and a protected PLL that came into use after the guard stays on |
| `Rcc.ValidateHpre` | drivers/src/rcc.c:353-366 | accepts exactly 0 and 8 to 15 |
| `Rcc.ValidatePpre` | drivers/src/rcc.c:374-385 | accepts exactly 0 and 4 to 7 |
| `Rcc.BusPrescalerConfig` | drivers/src/rcc.c:387-411 | all three prescalers in one write, or none if any is invalid |
| `Rcc.WaitSws` | drivers/src/rcc.c:458-471 | meets the poll specification on CFGR.SWS; done iff the last read shows the source |
| `Rcc.ReadyIsPath` | drivers/src/rcc.c:433-455 | the flag a switch asks for is that of the stage that drives SYSCLK: for HSI and HSE all the hardware asks for, for the PLL its lock |
| `Rcc.RequestSource` | drivers/src/rcc.c:433-472 | NOT_INITIALIZED iff CR was read without the flag of the source, HSIRDY, HSERDY or PLLRDY; SW is written only after it was read set; with steady flags a locked PLL is never reported missing |
| `Rcc.SysclkSwitch` | drivers/src/rcc.c:413-481 | sources 0 to 2 and latencies to 15; a higher latency is in force before SW is written, a lower one only after SWS reports the source; SW is written only after the ready flag of that source was read set; which writes each status implies; an out-of-range source or latency is rejected with nothing written |
| `Rcc.SwitchFrame` | drivers/src/rcc.c:413-481 | a switch changes SW and LATENCY and nothing else, whatever its outcome |
| `Rcc.TimedOutSwitch` | drivers/src/rcc.c:458-471 | a switch that times out has ended with a poll of SWS, made after the SW write, whose last read showed another source |
| `ClockSafety.EnvKeepsGood` | drivers/src/rcc.c:413-481 | no hardware step stops the running clock or starves flash: a switch that completes late is as safe as a prompt one |
| `ClockSafety.HistoryIsGood` | docs/DESIGN.md:77-78 | if each write of a history keeps safety then every moment of it is safe |
| `ClockSafety.PllConfigKeeps` | drivers/src/rcc.c:306-317 | PLLSRC changes only with the PLL off, so a PLL in use keeps its input |
| `ClockSafety.DisableKeeps` | drivers/src/rcc.c:160-193 | a disable call never stops the running source, if no switch is pending or the chip protects a clock in use |
| `ClockSafety.PllDisableKeeps` | drivers/src/rcc.c:330-345 | the same for the PLL |
| `ClockSafety.SwitchKeeps` | drivers/src/rcc.c:413-481 | every write of a switch keeps enough wait states for the source in use and the source requested, on every outcome |
| `ClockSafety.MadeKeeps` | drivers/src/rcc.c:226-481 | each call, succeeding or failing, keeps safety at each of its writes |
| `ClockSafety.MakeCall` | drivers/src/rcc.c:226-481 | the call is made: its status, stores and loads are those of its function |
| `ClockSafety.MakeDisable` | drivers/src/rcc.c:233-345 | the three disable calls, made at any time or, by careful callers, only after reading SW equal to SWS |
| `ClockSafety.MakeCalls` | drivers/src/rcc.c:160-481 | any sequence of oscillator, PLL, prescaler, switch and disable calls, on any hardware schedule: every call is made from where the one before left the hardware and does what its function does, and the running clock is never stopped and flash never has too few wait states, at every access and in between; with the protection of clocks in use, and without it if disable calls check for a pending switch |
| `ClockRuns.ProtectionSparesTheClock` | drivers/src/rcc.c:160-171 | with the protection, no disable write stops the running clock, guarded or not, on any schedule |
| `ClockRuns.ClearIsTakenIff` | drivers/src/rcc.c:160-193 | once the guard has passed, the clear is taken on every schedule iff no completable switch onto that oscillator is pending |
| `ClockRuns.PllClearIsTakenIff` | drivers/src/rcc.c:330-345 | the same for the PLL |
| `ClockRuns.StuckCall` | drivers/src/rcc.c:233-283 | from every such state there is a whole call that times out with the oscillator still on |
| `ClockRuns.TimeoutMeansClearedIff` | drivers/inc/rcc.h:156-178 | TIMEOUT with HSION or HSEON cleared holds of every call from a state iff the chip does not protect the clock or no completable switch onto it is pending |
| `ClockRuns.StuckPllCall` | drivers/src/rcc.c:330-345 | the same for the PLL |
| `ClockRuns.PllTimeoutMeansClearedIff` | drivers/inc/rcc.h:221 | TIMEOUT with PLLON cleared holds of every call from a state iff the chip does not protect the PLL or no completable switch onto it is pending |
| `Bsp.AfterSwitch` | bsp/src/bsp.c:55-58 | where each outcome of the switch leaves the bring-up |
| `Bsp.PowerAndHse` | bsp/src/bsp.c:16-25 | BUSY iff HSE was on, and then only PWREN changed; otherwise HSE with bypass, then the voltage scale; TIMEOUT only after a poll of HSERDY, made after HSEON was written, that gave up |
| `Bsp.LockPll` | bsp/src/bsp.c:33-42 | PLLON is written; OK only if PLLRDY and VOSRDY were read set after that write, TIMEOUT only if a poll of one of them after it gave up |
| `Bsp.StartPll` | bsp/src/bsp.c:27-42 | PLL configured while off, then locked, then VOSRDY read set; TIMEOUT with the same cause |
| `Bsp.RaisePower` | bsp/src/bsp.c:44-53 | over-drive in RM0390's order, then the prescalers; TIMEOUT only after a poll of ODRDY or ODSWRDY that gave up |
| `Bsp.RequestPll` | bsp/src/bsp.c:55-58 | latency, then the switch; TIMEOUT only after a poll of SWS that gave up, NOT_INITIALIZED only after a read of CR without PLLRDY |
| `Bsp.SwitchToPll` | bsp/src/bsp.c:55-63 | the same, and the caches only after SWS shows the PLL |
| `Bsp.ClockInit` | bsp/src/bsp.c:12-66 | the writes are a prefix of a fixed 12-step plan, in order, each taken by the hardware, the status says how long the prefix is, and a failure has its cause: the flag that the last write lets rise was polled to the end in vain |
| `BringUpSafety.PlanIsFull` | bsp/src/bsp.c:27-58 | from the latency write on VCO input and output decode to 1 and 360 MHz, HCLK, APB1 and APB2 to 180, 45 and 90 MHz with scale 1 and over-drive, and LATENCY is the wait states of that HCLK at 30 MHz each; SW is the PLL only after that |
| `BringUpSafety.WriteOfPlan` | bsp/src/bsp.c:12-66 | every write starts from the configuration the previous one left, and only LATENCY can be refused |
| `BringUpSafety.OutcomeIsConfirmed` | bsp/src/bsp.c:33-58 | the flag each step waits for was read set after the write that lets it rise and before the write that needs it |
| `BringUpSafety.PlanStep` | bsp/src/bsp.c:12-66 | what each step of the plan changes and what is in force when it does |
| `BringUpSafety.OutcomeIsLawful` | drivers/inc/rcc.h:6-30 | VOS and PLLCFGR change only with PLLON clear, HSEBYP only with HSEON clear, PLLON only once HSERDY confirms HSEON, ODSWEN only once ODRDY confirms ODEN, SW = PLL only once PLLRDY and VOSRDY confirm PLLON and ODSWRDY confirms ODSWEN |
| `BringUpSafety.BoundedIsSafe` | bsp/inc/bsp.h:88-90 | states of a bring-up respect every limit and no hardware step leaves them |
| `BringUpSafety.RunIsBounded` | bsp/src/bsp.c:12-66 | the limits hold at every write and every read of a bring-up and after it |
| `BringUpSafety.NeverOnPll` | bsp/inc/bsp.h:88-90 | a bring-up that stops before the switch has read SWS on HSI throughout |
| `BringUpSafety.StoppedShort` | bsp/inc/bsp.h:88-90 | a failed bring-up leaves the cache bits, and has requested the PLL iff it is the switch that timed out |
| `BringUpSafety.InitFromReset` | bsp/src/bsp.c:12-66 | from reset, on every hardware schedule: the plan followed as far as the status says, every failure with its cause, lawful writes, limits at every moment and after return, 180 MHz on OK, HSI unless the switch itself timed out, only TIMEOUT and HW_FAULT with steady flags, at most 6 x 100002 + 18 reads |
| `BringUpSafety.InitTwice` | bsp/inc/bsp.h:90 | a second call reports BUSY and changes no driver-owned bit, whatever the first did |
| `BringUpEnds.GaveUpSees` | drivers/src/rcc.c:195-224 | what a wait that gave up has seen: the flag clear at its last read, and set at the read before or clear at all 100002 |
| `BringUpEnds.ReadsAgree` | docs/DESIGN.md:120-123 | after the last write of a run, what one read shows of enabled flags and of the requested source every later read shows, on steady hardware |
| `BringUpEnds.PromptMeansOk` | bsp/inc/bsp.h:82-87 | from reset, with steady flags, every flag up and SWS on the PLL by the last of 100002 reads in a row, and the latency taken, the bring-up succeeds |
| `BringUpEnds.InitPromptly` | bsp/src/bsp.c:12-66 | so does the driver, at 180 MHz from the PLL |
| `BringUpEnds.InitCanSucceed` | bsp/inc/bsp.h:82-83 | from every reset state there is such a run on steady hardware |
| `BringUpEnds.SwitchCanBeLate` | bsp/inc/bsp.h:88-90 | from every reset state there is a bring-up that times out at the switch, every earlier wait answered and SWS polled in vain, after which SYSCLK still moves to the PLL |
| `BringUpEnds.StillHsiIff` | bsp/inc/bsp.h:88-90 | after a failed bring-up from reset SYSCLK stays on HSI on every later schedule iff it was not the switch that timed out, which CFGR.SW shows |
| `LostLock.LockCanBeLost` | bsp/inc/bsp.h:91 | from every reset state there is a bring-up that ends with NOT_INITIALIZED: a history of the hardware in which every wait reads its flag set, ten writes of the plan are made, and the switch's own read of CR misses PLLRDY |
| `Baud.AcceptedIff` | drivers/src/uart.c:31-58 | accepted exactly when baud > 0 and 31 baud <= 2 pclk < 131071 baud, for all 32-bit inputs, without overflow |
| `Baud.AboveLimitIff` | drivers/src/uart.c:12-13 | over all 32-bit inputs, which requests above the documented pclk / 16 are accepted, and that they get divisor 16 |
| `Baud.AboveLimitIsAccepted` | drivers/src/uart.c:12-13 | 2.9 Mbaud from 45 MHz is one of them |
| `Baud.DivisorIsNearest` | drivers/src/uart.c:15-24 | no other divisor brings the rate closer to what was asked |
| `Baud.RoundsToNearest` | drivers/src/uart.c:41 | the quotient is within half a unit, ties rounded up |
| `Baud.BaudErrorIsBounded` | drivers/src/uart.c:15-24 | the line rate is within 1 / (2 BRR) of the request, so within 1/32 |
| `Uart.InitFrames` | drivers/src/uart.c:99-122 | decoded bit by bit, the stored CR1 asks for eight data bits and 16x oversampling whatever the parity, and for parity and direction as requested, for every previous CR1 |
| `Uart.InitKeeps` | drivers/src/uart.c:104-122 | every CR1 bit the driver does not own is kept |
| `Uart.InitEnables` | drivers/src/uart.c:113-122 | UE is clear from the first store to the last but one and set by the last |
| `Uart.StopCr2Field` | drivers/src/uart.c:117 | CR2 decodes to the stop bits asked for, and the rest of it is kept |
| `Uart.Configure` | drivers/src/uart.c:113-122 | BRR and every format bit change only while UE is clear |
| `Uart.Init` | drivers/src/uart.c:60-126 | all or nothing: a rejected call stores nothing, an accepted one leaves exactly the requested frame, as CR1 and CR2 decode to it, and divisor |
| `Uart.Deinit` | drivers/src/uart.c:128-135 | all five registers zero, CR1 first |
| `UartLine.TxStepReaches` | drivers/src/uart.c:172-182 | no hardware step loses, reorders or duplicates a byte on its way out, and TC rises only when both registers are empty |
| `UartLine.ArrivalsIsAfter` | drivers/src/uart.c:208-211 | of several frames that arrive unread only the first is kept, and ORE says so |
| `UartLine.RxReachTrans` | drivers/src/uart.c:212-238 | arrivals compose |
| `Uart.WaitSrFlag` | drivers/src/uart.c:149-165 | meets the poll specification with the caller's budget; OK iff the flag holds at the last read |
| `Uart.Flush` | drivers/src/uart.c:167-170 | OK with TC clear beforehand means every byte has left and both registers are empty |
| `Uart.TransmitByte` | drivers/src/uart.c:172-182 | the byte joins the stream behind everything before it, nothing is overwritten, and TC no longer speaks for it; on TIMEOUT nothing is written |
| `Uart.Transmit` | drivers/src/uart.c:184-206 | exactly a prefix of the buffer follows what was on its way; OK with a non-empty buffer means all of it has left and both registers are empty, from any TC state |
| `Uart.SrSees` | drivers/src/uart.c:225-235 | an SR read that shows RXNE: the next unread frame is in DR, and the flags are exactly the losses and errors there are to report |
| `Uart.DrReads` | drivers/src/uart.c:227-229 | a frame that arrives between the SR and DR reads cannot replace the one read, and its loss stays flagged |
| `Uart.ReceiveByte` | drivers/src/uart.c:212-238 | OK and HW_FAULT both deliver the next unread frame and clear the flags, unless frames are lost between the two reads; it is HW_FAULT iff a loss or error was flagged, a frame was lost since or the frame is bad; TIMEOUT leaves the byte; what is on its way out only moves on |
| `Uart.ReceivedNext` | drivers/src/uart.c:240-255 | one more clean byte extends a run of consecutive frames only if nothing was lost |
| `Uart.Receive` | drivers/src/uart.c:240-255 | OK means consecutive frames without error from the first unread one; on HW_FAULT byte number got is delivered and has a fault to report, and entries after it are untouched; on TIMEOUT SR was read and DR is empty, and entries from got on are untouched; what is on its way out only moves on |
| `Uart.FaultAfter` | drivers/src/uart.c:225-235 | why a byte in the middle of a reception is reported as faulty |
| `Uart.TransmitTwice` | drivers/src/uart.c:184-206 | two transmissions in a row: what each sent follows everything before it |
| `Uart.ReceiveTwice` | drivers/src/uart.c:240-255 | two OK receptions are one: no frame is lost between them |
| `Uart.MakeCall` | drivers/src/uart.c:167-255 | what each transfer call, of whatever status, adds to the stream out and takes from the frames in, and why a receive stopped |
| `Uart.MakeCalls` | drivers/src/uart.c:167-255 | any mixed list of transfer calls: the line carries, in call order, a prefix of each call's data, all of it where the call returned OK; each receive took consecutive clean frames and stopped for a reason; if every receive returned OK they are one run of frames |
| `Uart.RoundTrip` | drivers/src/uart.c:184-255 | over a line without noise, what Transmit put on the wire is what an OK Receive delivers, byte for byte |
| `Wwdg.WwdgRegisters.Elapse` | drivers/inc/wwdg.h:46-49 | the counts of the schedule pass before each access |
| `Wwdg.Start` | drivers/src/wwdg.c:30-61 | CFR with EWI kept, then CR, then SR, with any counts between; a rejected call makes no access |
| `Wwdg.Refresh` | drivers/src/wwdg.c:63-73 | one store, or none if the value is out of range |
| `Wwdg.EnableEarlyWakeup` | drivers/src/wwdg.c:75-78 | EWI is set, window and timer base kept |
| `Wwdg.ClearEarlyWakeup` | drivers/src/wwdg.c:80-84 | EWIF cleared by one store |
| `Wwdg.Handler` | drivers/inc/wwdg.h:19 | clear, then refresh, before the next count |
| `Wwdg.CountsDown` | drivers/inc/wwdg.h:5-8 | an active counter reaches 0x40, sets EWIF there, and resets on the next count |
| `Wwdg.RefreshSurvivesIff` | drivers/inc/wwdg.h:53-60 | n counts after the counter was set to c a refresh survives iff c - W <= n <= c - 0x40, and without one the reset falls on count c - 0x3F |
| `Wwdg.StartIsExact` | drivers/src/wwdg.c:47-57 | the same exactness from the CR store of a start, whatever T and EWIF were: clearing EWIF afterwards hides nothing |
| `Wwdg.WakeupComesIff` | drivers/src/wwdg.c:51-57 | the first early wakeup can come iff at most c - 0x41 counts pass between the CR and SR stores |
| `Wwdg.PatternTickKeepsArmed` | drivers/inc/wwdg.h:11-20 | one count of the documented pattern: a wakeup comes exactly at 0x40, inside the window, and re-arms |
| `Wwdg.PatternNeverResets` | drivers/inc/wwdg.h:11-20 | over unboundedly many counts, for any refresh values from 0x41 up, no reset, and every wakeup at 0x40 inside the window |
| `Wwdg.NextWake` | drivers/inc/wwdg.h:78-79 | wakeups come at the refresh value less 0x40 counts |
| `Wwdg.StartEntersPattern` | drivers/src/wwdg.c:45-58 | from inactive with EWI clear, any T and EWIF, a start value from 0x42 and at most one count between the CR and SR stores, the start enters the pattern with no stale wakeup |
| `Wwdg.DocumentedPattern` | drivers/inc/wwdg.h:13-20 | start, enable, then one handler call per wakeup never resets the chip |
| `Wwdg.StaleFlagWouldReset` | drivers/src/wwdg.c:51-57 | without the SR store, or with it before CR, a stale flag can reset the chip: the order matters |
| `Wwdg.CfrWordFields` | drivers/src/wwdg.c:47-48 | the CFR word holds the window in bits 6:0 and the timer base in 8:7 and keeps EWI, bit 9 |
| `Wwdg.CrWordFields` | drivers/src/wwdg.c:49 | the CR word holds the counter and WDGA |
| `Iwdg.IwdgRegisters.Drift` | drivers/inc/iwdg.h:34-38 | updates end and the counter moves at any time while the LSI runs; written and effective values agree when no update is in progress |
| `Iwdg.IwdgRegisters.WritePr` | drivers/src/iwdg.c:56-63 | a PR write is dropped while locked or while its last update runs, and the drop is counted |
| `Iwdg.WaitUpdates` | drivers/src/iwdg.c:23-40 | meets the poll specification; OK iff neither update is in progress at the last read |
| `Iwdg.Start` | drivers/src/iwdg.c:42-76 | OK means the requested prescaler and reload are effective and the counter equals the reload, from any lock, running and update state; no write is ever dropped; a first-wait timeout leaves PR and RLR; running after every return but INVALID_PARAM |
| `Iwdg.Refresh` | drivers/src/iwdg.c:78-81 | the counter is the effective reload value, and PR and RLR are locked |
| `Iwdg.WaitsAreNeeded` | drivers/src/iwdg.c:56-67 | without the first wait a write may be lost, without the second the old value is loaded |
| `Iwdg.RefreshInBetweenLosesBoth` | docs/DESIGN.md:103-104 | a refresh between the unlock and the writes relocks PR and RLR and both writes are lost |
| `Iwdg.MakeCalls` | drivers/src/iwdg.c:42-81 | any sequence of starts and refreshes: nothing dropped, never stopped, and with no timeout the registers hold the last accepted request |
| `Bits.Put2Sets` | drivers/src/gpio.c:50-54 | a two-bit lane reads back what was put |
| `Bits.Put2Keeps` | drivers/src/gpio.c:50-54 | the fifteen other lanes are untouched |
| `Bits.Put1Sets` | drivers/src/gpio.c:49 | a single bit reads back what was put |
| `Bits.Put1Keeps` | drivers/src/gpio.c:49 | the other bits are untouched |
| `Bits.Put4Sets` | drivers/src/gpio.c:129-133 | a four-bit lane reads back what was put |
| `Bits.Put4Keeps` | drivers/src/gpio.c:129-133 | the seven other lanes are untouched |
| `Bits.Lanes2Decide` | drivers/src/gpio.c:95-98 | a word is its sixteen lanes |
| `Bits.ZeroLanes4` | drivers/src/gpio.c:100-107 | a word whose eight lanes are zero is zero |
| `Bits.PutHighSets` | drivers/src/nvic.c:234 | a byte holds the priority in its upper half |
| `Bits.PutHighKeeps` | drivers/src/nvic.c:234 | the other three bytes are untouched |
| `Bits.OrAdds` | drivers/src/nvic.c:97-135 | storing one bit in a write-1-to-set register adds that element only |
| `Bits.AndNotRemoves` | drivers/src/nvic.c:111-146 | storing one bit in a write-1-to-clear register removes that element only |
| `Gpio.InitPin` | drivers/src/gpio.c:30-58 | accepted exactly for valid parameters, and then four registers change in the addressed lane, MODER by the last store |
| `Gpio.SetPinAlternateFunction` | drivers/src/gpio.c:110-138 | accepted exactly for pin 0-15 and AF 0-15; AFRL for pins 0-7, AFRH for 8-15 |
| `Gpio.DeinitPinToReset` | drivers/src/gpio.c:88-108 | the mask-and-merge restore is putting the reset word's own lane |
| `Gpio.RestoreSettings` | drivers/src/gpio.c:95-98 | mode, type, speed and pull of the pin become the reset word's, MODER by the first store |
| `Gpio.Deinit` | drivers/src/gpio.c:83-86 | the same with the port's own reset words |
| `Gpio.ResetWordsDecode` | drivers/src/gpio.c:60-81 | per pin what the reset words mean: PA13-15, PB3 and PB4 in alternate function with their pulls and speed, every other pin a floating input |
| `Gpio.InitRefines` | drivers/src/gpio.c:44-55 | seen through the sixteen pin records, gpioInit() updates one record |
| `Gpio.AfRefines` | drivers/src/gpio.c:122-135 | gpioSetAlternateFunction() updates one field of one record, across AFRL and AFRH |
| `Gpio.CallRefines` | drivers/src/gpio.c:30-138 | each call, accepted or not, updates exactly the addressed pin record |
| `Gpio.MakeCall` | drivers/src/gpio.c:30-138 | the status is OK iff the parameters are accepted |
| `Gpio.MakeCalls` | drivers/src/gpio.c:30-138 | any sequence of calls refines sixteen independent pin records |
| `Gpio.LastSettingWins` | drivers/src/gpio.c:30-58 | a pin holds its last accepted setting, whatever happened to the other pins |
| `Gpio.LastAfWins` | drivers/src/gpio.c:110-138 | the same for its alternate function |
| `Gpio.DeinitAllIsReset` | drivers/src/gpio.c:88-108 | deinitialising all sixteen pins in any order, from any state, leaves the reset words, AFRL = AFRH = 0 and OTYPER's low half 0 |
| `PinDriving.StoreDrives` | drivers/src/gpio.c:140-152 | a BSRR store drives one pin and no other, both levels |
| `PinDriving.DrivenByBit` | drivers/src/gpio.c:140-152 | driving pin n sets bit n of ODR to the level and leaves every other bit |
| `PinDriving.HighIsBit` | drivers/src/gpio.c:167-179 | a pin is high iff its bit of ODR is 1 |
| `PinDriving.InverseInverts` | drivers/src/gpio.c:167-179 | storing the inverse of what was read inverts the pin and nothing else |
| `PinDriving.WritePin` | drivers/src/gpio.c:140-152 | drives its own pin in whatever ODR the store meets and changes no other, whatever other contexts do around it |
| `PinDriving.TogglePin` | drivers/src/gpio.c:167-179 | drives its own pin to the inverse of what it read and changes no other, which inverts the pin though others may store between the read and the store |
| `Interleaving.AloneIsMeaning` | drivers/src/gpio.c:140-179 | alone, the accesses of a list of calls do what the calls mean |
| `Interleaving.ScheduleIsNoninterfering` | docs/DESIGN.md:87-91 | wherever a schedule stops, each context's pins end as if it had run alone |
| `Interleaving.InterleavingIsSequential` | docs/DESIGN.md:87-108 | every complete interleaving of two contexts with disjoint pins ends in the same ODR as running one after the other |
| `Interleaving.WriteStep` | drivers/src/gpio.c:140-152 | gpioWritePin() is the Store access of the interleaving model |
| `Interleaving.ToggleSteps` | drivers/src/gpio.c:167-179 | gpioTogglePin() is its Sample and StoreInverse accesses, with others in between |
| `Interleaving.DriveAll` | docs/DESIGN.md:87-91 | any list of calls on a port that others drive too: the context's own pins end as the calls mean |
| `Exti.EdgeReaches` | drivers/src/exti.c:118-152 | edges only ever add pending bits, and only on lines with that edge selected |
| `Exti.LineIsBits` | drivers/src/exti.c:118-220 | line q is bit q of all five registers |
| `Exti.TriggerStore` | drivers/src/exti.c:184-185 | writing SWIER back with one bit added pends at most that line, even with other bits still set |
| `Exti.ClearStore` | drivers/src/exti.c:214-216 | the one-bit PR store clears that line alone |
| `Exti.ConfigureLine` | drivers/src/exti.c:118-152 | the two edge selections become what was asked, with edges arriving between the stores |
| `Exti.EnableInterruptLine` | drivers/src/exti.c:154-164 | unmasks one line |
| `Exti.DisableInterruptLine` | drivers/src/exti.c:166-176 | masks one line and leaves its pending bit |
| `Exti.TriggerSoftwareLine` | drivers/src/exti.c:178-189 | sets one SWIER bit and pends that line iff it is unmasked and the bit was clear |
| `Exti.ClearPendingLine` | drivers/src/exti.c:208-220 | clears one line's pending and SWIER bits |
| `Exti.MakeCalls` | drivers/src/exti.c:118-220 | any sequence of calls and edges refines 32 independent line records |
| `Exti.PendingIsNotLost` | drivers/inc/exti.h:123-134 | a pending interrupt survives everything except ClearPending on its own line |
| `Exti.OthersAreUntouched` | drivers/src/exti.c:118-220 | a line nobody addresses keeps its settings and, with no edge selected, never pends |
| `Exti.TriggerPendsIff` | drivers/inc/exti.h:98-104 | a software trigger pends exactly if the line is unmasked and its SWIER bit clear |
| `Exti.ClearStaysInSequence` | drivers/src/exti.c:178-220 | a clear and a software trigger of another line, one after the other in either order, leave the cleared line clear |
| `Exti.ClearIsUndoneIff` | docs/DESIGN.md:87-91 | a clear between the load and the store of another context's trigger: the cleared line is pending again iff a new edge came or it was unmasked with its SWIER bit set |
| `Exti.SetTriggerBlocks` | drivers/src/exti.c:178-189 | in any run, with SWIER set on a line with no edge selected and nothing pending, no call but ClearPending or Configure on that line ever pends it or clears SWIER |
| `Exti.MaskedTriggerBlocksLaterOnes` | drivers/src/exti.c:178-189 | so in any run a trigger made while the line is masked disables all later ones until one of those two calls |
| `Exti.FirstTriggerDecides` | drivers/src/exti.c:178-189 | a run of calls pends a quiet line iff SWIER was clear at the start and its first trigger finds the line unmasked |
| `ExtiRouting.PortSelector` | drivers/src/exti.c:42-84 | every known port has a selector and only GPIOH has 7 |
| `ExtiRouting.SelectorIsAddress` | drivers/src/exti.c:42-84 | the selectors count the ports in the order of their base addresses |
| `ExtiRouting.SelectorsAreDistinct` | drivers/src/exti.c:42-84 | no two ports share a selector |
| `ExtiRouting.PlaceIsUnique` | drivers/src/exti.c:108-109 | word and lane identify the line |
| `ExtiRouting.RouteIsField` | device/inc/syscfg_reg.h:34-37 | a line is the four bits from bit 4 (line % 4) of word line / 4 |
| `ExtiRouting.SelectPort` | drivers/src/exti.c:86-116 | accepted exactly for lines 0-15 and known ports, GPIOH on 0 and 1 only, and then only that line is re-routed, to the field value that gives the port's base address; bits 31 to 16 of every word are kept |
| `ExtiRouting.SelectPorts` | drivers/src/exti.c:86-116 | the four words decode to the last accepted port of each line; GPIOH never reaches a line above 1 |
| `Nvic.MaskIsReserved` | drivers/src/nvic.c:27-35 | the mask words are exactly the documented reserved positions |
| `Nvic.ValidatedIff` | drivers/src/nvic.c:25-53 | over all 2^32 values, accepted iff 0 to 96 and not reserved |
| `Nvic.PlaceIsUnique` | drivers/src/nvic.c:82-95 | word and bit identify the interrupt |
| `Nvic.HasIsBit` | drivers/src/nvic.c:82-95 | interrupt q is bit q % 32 of word q / 32 |
| `Nvic.OredInserts` | drivers/src/nvic.c:97-109 | the ISER store is set insertion |
| `Nvic.MaskedRemoves` | drivers/src/nvic.c:111-122 | the ICER store is set removal |
| `Nvic.EnableIrq` | drivers/src/nvic.c:97-109 | inserts one interrupt among all 256 positions of the bank, or nothing |
| `Nvic.DisableIrq` | drivers/src/nvic.c:111-122 | removes one, or nothing |
| `Nvic.SetPending` | drivers/src/nvic.c:124-134 | inserts one pending interrupt, or nothing |
| `Nvic.ClearPending` | drivers/src/nvic.c:136-146 | removes one, or nothing |
| `Nvic.SetPriority` | drivers/src/nvic.c:148-163 | IP[irqn] alone changes and holds the priority in bits 7:4; one priority changes, and reads back as set |
| `Nvic.GetPriority` | drivers/src/nvic.c:165-180 | bits 7:4 of IP[irqn], the priority as nvicSetPriority() takes it |
| `Nvic.PriorityReadsBack` | drivers/src/nvic.c:159-176 | shifting into the implemented bits and back loses nothing |
| `Nvic.NvicRegisters.Hardware` | docs/DESIGN.md:120-123 | devices raise interrupts and the core takes them any number of times, and the log says so |
| `Nvic.MakeCall` | drivers/src/nvic.c:97-163 | each call, accepted or not, is one set or map update |
| `Nvic.MakeCalls` | drivers/src/nvic.c:97-163 | any sequence of calls with any number of interrupts raised and taken around each: over all 256 positions the enabled set, the pending set and the priorities are what the accepted calls and the logged events say; all indexing is in bounds |
| `Nvic.ReservedStayDisabled` | drivers/src/nvic.c:25-53 | no sequence of calls enables a position without a vector |
| `Nvic.ReservedStayUnpended` | drivers/src/nvic.c:25-53 | ... nor pends one |
| `Nvic.PendingIsNotLost` | drivers/src/nvic.c:124-146 | a pending interrupt is lost only to nvicClearPending() on it or to the core taking it |
| `Nvic.PendingIsGained` | drivers/src/nvic.c:124-134 | a raised or pended interrupt is pending at once |
| `Nvic.OwnDecides` | docs/DESIGN.md:87-91 | whether an interrupt is enabled depends on the calls on it alone, in their order |
| `Nvic.InterleavingsAgree` | docs/DESIGN.md:87-91 | contexts that interleave their calls in any way end with the same enabled set and priorities, as long as each interrupt sees its own calls in order |
| `Nvic.PendingInterleavingsAgree` | docs/DESIGN.md:87-91 | the same for the pending set, interrupts raised and taken by the hardware included |
| `Nvic.PlaceIsArchitectural` | drivers/src/nvic.c:189-225 | the six handlers are exceptions 4, 5, 6, 11, 14 and 15, each in the byte of SHPR1 to SHPR3 that its exception number less four counts off |
| `Nvic.PlacesAreDistinct` | drivers/src/nvic.c:189-225 | no two handlers share a byte |
| `Nvic.SetSystemHandlerPriority` | drivers/src/nvic.c:182-238 | exactly the handler's byte changes and holds the priority in its upper half |
| `Nvic.SetTwoHandlers` | drivers/inc/nvic.h:108 | two handlers, even in the same word, do not disturb each other |
| `SysTick.AcceptedIff` | drivers/src/systick.c:17-39 | a request is accepted iff the period is 2 to 2^24 clocks, that is 2 tick <= core < (2^24 + 1) tick |
| `SysTick.Init` | drivers/src/systick.c:12-50 | from any running or stopped timer, on either clock, with clocks passing between the stores, the timer is left just enabled at zero, counting processor clocks with its exception on and the period in LOAD; a rejected call makes no access |
| `SysTick.StoresInOrder` | drivers/src/systick.c:43-46 | stopping first is what makes the later stores independent of the old count |
| `SysTick.Deinit` | drivers/src/systick.c:52-57 | stopped, LOAD and VAL zero, whatever passes between the stores |
| `SysTick.Down` | drivers/inc/systick.h:6-7 | no tick before zero, one on arrival |
| `SysTick.TicksByClock` | drivers/inc/systick.h:6-7 | exactly k ticks by clock k (LOAD + 1) + r of a period, for all k |
| `SysTick.TickIsOnTime` | drivers/inc/systick.h:30-32 | tick k comes at clock k (LOAD + 1): never late, and less than k clocks early against k core / tick |
| `SysTick.ExactIff` | drivers/inc/systick.h:30-32 | the ticks are exact iff the rate divides the clock |

## Left out

- ClockHw.ClockRegisters.Store: RCC, PWR and flash are one object because one environment moves all three; that they are three C pointers, which could alias, is not modelled
- ClockSafety.MakeDisable: on a chip taken not to protect a clock in use, disable calls are made only with SW equal to SWS; with the protection they are made at any time
- Wwdg.Start: the timer base WDGTB is recorded but time is in counts, so a change of timer base does not change the meaning of a schedule
- Iwdg.Start: a counter that reaches zero during the call resets the chip; such runs are not continued
- Uart.Transmit: the transmitter is enabled and no break or idle frame is sent, as the header requires
- Uart.ReceiveByte: NE, FE and PE are one error flag, and the receiver is enabled
- Exti.ConfigureLine: an edge that coincides with the store itself is not latched by the hardware; such edges are simply absent
- PinDriving.TogglePin: pins are owned by one context each, as the project's concurrency rules ask
- fault.c, reset-flag accessors, peripheral clock gating other than PWR, debug-freeze functions, gpioReadPin(), extiIsPending(): single reads or read-modify-writes
- memory and compiler barriers of nvic.c: no instruction reordering in the model
- startup code, linker script, application loop, build and CI tooling
- wall-clock time: waits are poll counts, as in the code
- read-modify-write functions interrupted by another context, which the project declares unsafe
- HSE at 8 MHz and RM0390's limits are constants; oscillator tolerance and voltages are not modelled
