# USB signal-test bring-up, modelled in Dafny

Two small Linux programs, `src/kl_usb_test.c` and `th_usb.c`, put an SoC's USB 3
controller and PHY into a USB electrical test mode. Each maps the controller's
0x40000-byte register window and then does the following:

- runs `usb_init`:
  - asserts PHY reset;
  - writes eight PHY control words, picked by PHY number. In `kl_usb_test.c`, CTRL4 is built from three tuning arguments. In `th_usb.c`, the words also depend on the clock source, with clock-enable requests alongside.
  - programs the controller NCR block and the PIPE control word;
  - releases PHY reset;
  - selects Device or Host mode. Each mode has bounded 1000-read handshake polls.
- pokes an xHCI / USB 2.0 test pattern into the port or device control registers.
  With the super flag, it instead toggles one PIPE control bit and stops.
- reports the link state read back from the controller.

The model covers the following:

- **`Bits`**: the value `RMWREG32` stores. It clears the span, then ORs in `val << start`, and does not mask `val`.
- **`RegisterFile`**: the register window as a class `UsbBlock`:
  - a map from byte offset to 32-bit word, accessed through `readl`, `writel` and `RMWREG32`;
  - a feed of values that hardware returns to polling reads;
  - a trace of clock requests and timeout messages.

  It also holds the countdown poll `i = 1000; while (i--) ...; if (i==0) printf(...)`.
- **`LinkInit`**: the `usb_init` steps shared by both programs. The variant decides the NCR base (0xD000 or 0xE000) and the NCR CTRL2 word. Each step is a method proved to make exactly the writes of a function on the register map. Lemmas then state what each step leaves in the registers.
- **`LinkState`**: `usb_check_link_state`, as a decoder on the five words it reads. It returns the printed fields as a `LinkReport`.
- **`TestPattern`**: the super-speed toggle and the test-pattern writes that `main` makes after `usb_init`.
- **`KlUsbTest`** and **`ThUsb`**: each program's PHY tables, its `usb_init` and the mapped part of its `main`. They include the end-state lemmas: PHY words, CTRL0, the NCR block, the mode words and the report branch.

Register offsets:

| offset | register |
|---|---|
| 0x20 | xHCI USBCMD (bit 0 is Run/Stop) |
| 0x24 | xHCI USBSTS (bit 11 is Controller Not Ready) |
| 0x420 | PORTSC of the USB2 port |
| 0x430 | PORTSC of the USB3 port |
| 0x424 | PORTPMSC (bits 31:28 are Port Test Control) |

These follow section 5.4 of the xHCI specification. Pattern codes 1 to 5 are the test selectors of section 9.4.9 of USB 2.0. The programs call selector 5 "SOF".

Hardware changes registers behind the program's back. The model sees these changes only through the poll feed, and never writes them back into the register map. So every register fact below describes the words the program stores when no read other than a poll sees a hardware change.

## Model

| member | source | states |
|---|---|---|
| Bits.Field | src/kl_usb_test.c:134-145 | `(x >> start) & ((1<<width)-1)` has no bit outside the low `width` bits |
| Bits.RmwValue | src/kl_usb_test.c:73 | RMWREG32's stored word: inside the span the bits of `val << start`; outside it the old bits ORed with whatever of `val` overflows the span |
| Bits.RmwBitFits | src/kl_usb_test.c:73 | a one-bit value keeps every other bit and reads back from its bit |
| Bits.RmwNibbleFits | src/kl_usb_test.c:73 | a value below 16 keeps every bit outside its 4-bit field and reads back from it |
| Bits.RmwBit30Examples | src/kl_usb_test.c:466-468 | clearing bit 30 of 0xFFFFFFFF gives 0xBFFFFFFF; setting it in 0 gives 0x40000000 |
| RegisterFile.CountdownPoll | src/kl_usb_test.c:242-245 | the `while (i--)` loop makes at most 1000 reads and stops at the first one with the bit clear; the counter ends at 1000 minus the reads when it breaks, -1 when it runs out |
| RegisterFile.PollOutcomeUnique | src/kl_usb_test.c:242-245 | the feed and the stored word determine the poll's outcome |
| RegisterFile.TimeoutMessageAsWritten | src/kl_usb_test.c:242-247 | the `i==0` message fires exactly when the bit is first seen clear on the 1000th read |
| RegisterFile.TimedOutIffNeverClear | src/kl_usb_test.c:242-247 | a poll times out exactly when none of its 1000 reads sees the bit clear |
| RegisterFile.TimeoutMessageIffClearsOnLastRead | src/kl_usb_test.c:242-247 | the timeout message fires exactly when the first 999 reads see the bit set and the 1000th sees it clear, the condition `PollTrace` turns into the traced message |
| RegisterFile.StuckBitGoesUnreported | src/kl_usb_test.c:257-262 | a bit stuck at 1 exhausts the poll with the counter at -1, and no message is printed |
| RegisterFile.LateClearIsReported | src/kl_usb_test.c:267-272 | a bit that clears on the 1000th read completes the poll, yet the timeout message prints |
| RegisterFile.StuckBitTracesNothing | src/kl_usb_test.c:257-262 | with the bit stuck at 1, the poll's trace is empty |
| RegisterFile.LateClearTracesMessage | src/kl_usb_test.c:242-247 | 999 reads with the bit set and one with it clear trace exactly one timeout message for the polled register |
| RegisterFile.PollReadsOfOutcome | src/kl_usb_test.c:242-245 | every outcome of a poll made exactly `PollReads` reads: all reads up to and including the first that sees the bit clear, 1000 at most; so the feed a poll leaves, `FeedAfterPoll`, is a function of the feed, the stored word and the bit |
| RegisterFile.UsbBlock.constructor | src/kl_usb_test.c:460 | the mapped window: every word of the 0x40000 bytes has a value; the trace starts empty |
| RegisterFile.UsbBlock.Readl | src/kl_usb_test.c:80 | `readl` returns the stored word |
| RegisterFile.UsbBlock.Writel | src/kl_usb_test.c:79 | `writel` changes that word and nothing else |
| RegisterFile.UsbBlock.Rmw32 | src/kl_usb_test.c:73 | `RMWREG32` stores `RmwValue` of the old word at that offset and nothing else |
| RegisterFile.UsbBlock.Record | th_usb.c:62-84 | a clock request is appended to the trace; no register changes |
| RegisterFile.UsbBlock.PollBitClear | src/kl_usb_test.c:242-247 | one poll: no write; the feed loses what was read; the message is appended exactly when the counter ends at 0 |
| LinkInit.ResetAssertedBits | src/kl_usb_test.c:164-167 | asserting reset sets CTRL0 bit 0, clears bit 18 and keeps every other bit |
| LinkInit.ResetReleasedBits | src/kl_usb_test.c:213-215 | releasing reset clears CTRL0 bit 0 and keeps every other bit |
| LinkInit.ResetCycle | src/kl_usb_test.c:164-215 | through assert and release, CTRL0 ends with bits 0 and 18 cleared and every other bit as it was |
| LinkInit.WithOpmode | src/kl_usb_test.c:220-223 | GCTL bits 13:12 read back the mode; every other bit is kept |
| LinkInit.SpeedCode | src/kl_usb_test.c:228-234 | the DCFG speed code is 1 exactly for speed 1, 4 exactly for speed 3, 0 otherwise |
| LinkInit.WithSpeed | src/kl_usb_test.c:226-235 | DCFG bits 2:0 read back the code; every other bit is kept |
| LinkInit.DeviceDctl | src/kl_usb_test.c:238-240 | DCTL bit 30 set, every other bit kept |
| LinkInit.HostGctl | src/kl_usb_test.c:253-278 | GCTL after Host mode: opmode 1, bit 11 clear whatever the polls saw, bits outside 13:11 kept |
| LinkInit.NcrKeeps | src/kl_usb_test.c:194-209 | the NCR step stores only its ten words; every other word, including block words 4, 8 and 0xC, is kept |
| LinkInit.NcrWrittenProgrammed | src/kl_usb_test.c:194-209 | after the NCR step, the block holds 3, 0x00210080, 0, the variant's CTRL2 word and zeros, and the PIPE control word holds 0x010C0002 |
| LinkInit.NcrKeepsPhy | src/kl_usb_test.c:194-209 | the NCR step leaves all eight PHY words alone |
| LinkInit.PhyWordsHold | src/kl_usb_test.c:172-179 | after the PHY word step each PHY word holds its word |
| LinkInit.ReleaseKeepsPhy | src/kl_usb_test.c:213-215 | the reset release changes CTRL0 only |
| LinkInit.PhyAndNcrProgrammed | src/kl_usb_test.c:164-215 | up to the mode step, whatever the PHY words, the NCR block and PIPE control word are programmed |
| LinkInit.PhyAndNcrWithWords | src/kl_usb_test.c:164-215 | with PHY words, the PHY holds them, with CTRL0 released from reset |
| LinkInit.PhyAndNcrWithoutWords | src/kl_usb_test.c:164-215 | without PHY words, CTRL1 to CTRL7 keep their old values and CTRL0 has been through reset |
| LinkInit.ModeKeeps | src/kl_usb_test.c:217-282 | the mode step writes only GCTL, DCFG, DCTL and both PORTSC words |
| LinkInit.DeviceModeWords | src/kl_usb_test.c:217-240 | Device mode leaves opmode 2, the speed code in DCFG and DCTL bit 30 set |
| LinkInit.HostModeWords | src/kl_usb_test.c:250-281 | Host mode leaves opmode 1, GCTL bit 11 clear and 0x2A0 in both PORTSC words |
| LinkInit.DeviceModeKeepsPhy | src/kl_usb_test.c:217-249 | Device mode leaves the PHY words alone |
| LinkInit.HostModeKeepsPhy | src/kl_usb_test.c:250-282 | Host mode leaves the PHY words alone |
| LinkInit.ModeKeepsPhy | src/kl_usb_test.c:217-282 | whatever the mode, the PHY words are kept |
| LinkInit.DeviceModeKeepsNcr | src/kl_usb_test.c:217-249 | Device mode leaves the NCR block alone |
| LinkInit.HostModeKeepsNcr | src/kl_usb_test.c:250-282 | Host mode leaves the NCR block alone |
| LinkInit.ModeKeepsNcr | src/kl_usb_test.c:217-282 | whatever the mode, the NCR block is kept |
| LinkInit.AssertPhyReset | src/kl_usb_test.c:164-167 | the reset-assert read-modify-write stores exactly `PhyResetAsserted`; USBSTS, GCTL and DCTL are kept |
| LinkInit.WritePhyWords | src/kl_usb_test.c:172-179 | the eight writes store exactly the eight words, CTRL0 first; USBSTS, GCTL and DCTL are kept |
| LinkInit.InitControllerNcr | src/kl_usb_test.c:194-209 | the ten writes store exactly the variant's NCR block and the PIPE control word; USBSTS, GCTL and DCTL are kept |
| LinkInit.ReleasePhyReset | src/kl_usb_test.c:213-215 | the reset-release read-modify-write stores exactly `PhyResetReleased`; USBSTS, GCTL and DCTL are kept |
| LinkInit.AwaitBitClear | src/kl_usb_test.c:242-247 | a handshake poll writes nothing; the feed loses exactly the reads the poll made (`FeedAfterPoll`); it appends exactly `PollTrace`, one timeout for that register when the bit is first seen clear on the 1000th read and nothing otherwise; `timedOut` holds exactly when all 1000 reads saw the bit set |
| LinkInit.WriteOpmode | src/kl_usb_test.c:220-223 | GCTL gets `WithOpmode` of its old value; nothing else changes |
| LinkInit.SpeedWord | src/kl_usb_test.c:226-234 | the if-chain on `usb_speed` computes `WithSpeed` with `SpeedCode(speed)` |
| LinkInit.WriteDeviceSpeed | src/kl_usb_test.c:226-235 | DCFG gets the speed code in bits 2:0; nothing else changes |
| LinkInit.SetRegBit | src/kl_usb_test.c:238-240 | one bit set in one register; nothing else changes |
| LinkInit.ClearRegBit | src/kl_usb_test.c:276-278 | one bit cleared in one register; nothing else changes |
| LinkInit.SetDeviceMode | src/kl_usb_test.c:217-249 | Device mode stores exactly `DeviceModeRegs`; the trace gains exactly the DCTL poll's `PollTrace` and the feed loses exactly that poll's reads |
| LinkInit.GctlBitHandshake | src/kl_usb_test.c:264-278 | GCTL bit 11 set, polled, then cleared: the other GCTL bits are kept; the trace gains exactly the GCTL poll's `PollTrace` on the word with bit 11 set |
| LinkInit.HostHandshake | src/kl_usb_test.c:253-278 | the four GCTL steps and two polls store exactly `HostGctl` of the old GCTL; the trace gains exactly `HostPollTrace`: the USBSTS poll's message, then the GCTL poll's, that poll reading the feed the first one leaves |
| LinkInit.HostTraceOrder | src/kl_usb_test.c:257-272 | Host mode prints no message, the USBSTS one, the GCTL one, or USBSTS then GCTL; never the other order and never one twice |
| LinkInit.HostBothLate | src/kl_usb_test.c:257-272 | two feeds that each clear on the 1000th read, one after the other, print both messages, USBSTS first |
| LinkInit.SetHostMode | src/kl_usb_test.c:250-282 | Host mode stores exactly `HostModeRegs`; the trace gains exactly `HostPollTrace` and the feed loses exactly the two polls' reads |
| LinkInit.ApplyMode | src/kl_usb_test.c:217-282 | mode 1 is Device, mode 2 Host, any other value writes, reads and traces nothing; the trace gains exactly `ModeTrace` of the feed and the USBSTS, GCTL and DCTL words the step starts from |
| LinkState.Opmode | src/kl_usb_test.c:134 | the GCTL operating mode is at most 3 |
| LinkState.DecodeLinkState | src/kl_usb_test.c:132-155 | device branch exactly when opmode is 2; every printed field is the word or a field within its width |
| LinkState.CheckLinkState | src/kl_usb_test.c:132-155 | five reads and no write; the report is the decoder on the stored words |
| LinkState.DeviceFieldsRoundTrip | src/kl_usb_test.c:141-145 | device fields stored with RMWREG32 come back unchanged in the report |
| LinkState.HostFieldsRoundTrip | src/kl_usb_test.c:137-142 | the U3 link state, both port speeds and the LTSSM link state and sub-state stored with RMWREG32 come back unchanged in the host report |
| LinkState.DeviceModeIsReportedAsDevice | src/kl_usb_test.c:217-223 | after Device mode the reporter takes its device branch |
| LinkState.HostModeIsReportedAsHost | src/kl_usb_test.c:250-281 | after Host mode the reporter takes its host branch: U3 link state 5, both speeds 0 |
| TestPattern.ToggledPipectl | src/kl_usb_test.c:467-468 | clear-then-set of PIPE control bit 30 leaves it set and every other bit kept |
| TestPattern.PipectlBit30Set | src/kl_usb_test.c:487 | PIPE control bit 30 set, nothing else changed |
| TestPattern.DctlBit31Set | src/kl_usb_test.c:480 | DCTL bit 31 set, nothing else changed |
| TestPattern.DevicePatternDctl | src/kl_usb_test.c:479-480 | bit 31 set; a pattern below 16 reads back from bits 4:1, and every bit outside 4:1 and 31 is kept |
| TestPattern.HostPatternPortpmsc | src/kl_usb_test.c:493 | PORTPMSC bits 31:28 get the pattern's low four bits, all other bits kept |
| TestPattern.UsbcmdRunSet | src/kl_usb_test.c:494-495 | USBCMD bit 0 set, nothing else changed |
| TestPattern.ToggledPortscU3 | src/kl_usb_test.c:505-507 | PORTSC U3 bit 9 ends set, every other bit kept |
| TestPattern.SuperToggle | src/kl_usb_test.c:466-471 | the two RMWREG32 store exactly `SuperToggleRegs` |
| TestPattern.WriteHostPattern | src/kl_usb_test.c:493-495 | the host pattern and, for SOF, USBCMD bit 0 |
| TestPattern.ApplyTestPattern | src/kl_usb_test.c:477-509 | the writes are exactly `TestPatternRegs`; a report is made exactly in the device branches for speeds 1 to 3 |
| TestPattern.SuperToggleEffect | src/kl_usb_test.c:466-471 | the toggle sets PIPE control bit 30, keeps its other bits and writes no other register |
| TestPattern.DevicePatternSpills | src/kl_usb_test.c:479 | pattern 16 is not masked: it sets DCTL bit 5 and leaves bits 4:1 zero |
| TestPattern.HostSofSetsRun | src/kl_usb_test.c:492-503 | host speeds 1 and 2 set USBCMD bit 0 exactly when the pattern is 5 |
| TestPattern.HostSuperSpeedEffect | src/kl_usb_test.c:504-508 | host speed 3: PORTSC U3 bit 9 and PIPE control bit 30 set, DCTL and PORTPMSC untouched |
| TestPattern.NoPatternWithoutBranch | src/kl_usb_test.c:477-509 | speed 0 ("low"), speeds above 3 and modes other than 1 and 2 write nothing |
| TestPattern.TestPatternFrame | src/kl_usb_test.c:477-509 | the pokes touch only DCTL, PIPE control, PORTPMSC, USBCMD and PORTSC U3 |
| KlUsbTest.TuningWord | src/kl_usb_test.c:177 | CTRL4 always has the bits of `PHY_NCR_REG_MASK` |
| KlUsbTest.PhyTable | src/kl_usb_test.c:172-179 | eight words, CTRL0 0x41000005, CTRL4 the tuning word |
| KlUsbTest.PhyWords | src/kl_usb_test.c:169-192 | PHY words exactly for PHY 1 and 2, the same table for both |
| KlUsbTest.UsbInitRegs | src/kl_usb_test.c:157-286 | the map `usb_init` leaves still has every named register |
| KlUsbTest.UsbInit | src/kl_usb_test.c:157-286 | returns 0; stores exactly `UsbInitRegs`; the trace gains exactly `ModeTrace` of the feed and the entry USBSTS, GCTL and DCTL words, which the PHY and NCR steps keep |
| KlUsbTest.BaseAddress | src/kl_usb_test.c:448-451 | 0x31220000 exactly for USB 1, 0x31260000 otherwise |
| KlUsbTest.RunTest | src/kl_usb_test.c:466-513 | super flag: toggle only, no `usb_init`; otherwise `usb_init`, the pattern, then one report of the stored words; the trace gains exactly `ModeTrace` of the entry words |
| KlUsbTest.UsbInitPhyTable | src/kl_usb_test.c:169-215 | PHY 1 and 2: the table in the PHY, CTRL0 ends 0x41000004, CTRL4 the tuning word, whatever the mode |
| KlUsbTest.UsbInitOtherPhy | src/kl_usb_test.c:164-215 | any other PHY number: CTRL1 to CTRL7 untouched, CTRL0 with bits 0 and 18 cleared |
| KlUsbTest.UsbInitNcr | src/kl_usb_test.c:194-209 | whatever PHY and mode, the NCR block at 0xD000 and PIPE control are programmed |
| KlUsbTest.UsbInitDevice | src/kl_usb_test.c:217-240 | Device mode: opmode 2, the speed code, DCTL bit 30, reported as a device |
| KlUsbTest.UsbInitHost | src/kl_usb_test.c:250-281 | Host mode: opmode 1, GCTL bit 11 clear, both PORTSC 0x2A0, reported as host with U3 link state 5 |
| KlUsbTest.UsbInitNoMode | src/kl_usb_test.c:217-285 | any other mode makes no mode write |
| KlUsbTest.TuningWordExample | src/kl_usb_test.c:177 | tuning arguments 1, 2, 3 give CTRL4 0x27273 |
| KlUsbTest.TuningFieldsOverlap | src/kl_usb_test.c:177 | the unmasked fields overlap: regs2 = 4 and regs3 = 1 give the same word |
| ThUsb.PhyWords | th_usb.c:99-155 | the four PHY/clock cases: CTRL2-4 shared, CTRL1 by clock, CTRL6 = 1 exactly with the internal clock, CTRL5 = 1 only for PHY 2 external, CTRL0 0x41140005 only for PHY 1 external; none for any other pair |
| ThUsb.ClockCalls | th_usb.c:99-143 | two requests exactly for PHY 1 external and both PHY 2 cases, external source first; exactly one source enabled, the one the selector names |
| ThUsb.UsbInitRegs | th_usb.c:87-250 | the map `usb_init` leaves still has every named register |
| ThUsb.SelectPhy | th_usb.c:99-155 | the case's clock requests are traced, then its PHY words stored; no match writes nothing; USBSTS, GCTL and DCTL are kept |
| ThUsb.UsbInit | th_usb.c:87-250 | returns 0; stores exactly `UsbInitRegs`; the trace gains the clock requests, then exactly `ModeTrace` of the feed and the entry USBSTS, GCTL and DCTL words |
| ThUsb.BaseAddress | th_usb.c:305-308 | 0x62320000 exactly for USB 1, 0x62360000 otherwise |
| ThUsb.RunTest | th_usb.c:323-371 | super flag: toggle only, no `usb_init`; otherwise `usb_init`, the pattern, then one report; the trace gains the clock requests, then exactly `ModeTrace` of the entry words |
| ThUsb.UsbInitPhyWords | th_usb.c:94-177 | each valid case leaves its words, CTRL0 0x41140004 for PHY 1 external and 0x41000004 otherwise |
| ThUsb.UsbInitOtherPhy | th_usb.c:94-177 | any other pair: CTRL1 to CTRL7 untouched, CTRL0 with bits 0 and 18 cleared |
| ThUsb.UsbInitNcr | th_usb.c:157-171 | the NCR block at 0xE000, CTRL2 0x80000000, and PIPE control are programmed whatever the mode |
| ThUsb.UsbInitDevice | th_usb.c:180-213 | Device mode: opmode 2, the speed code, DCTL bit 30, reported as a device |
| ThUsb.UsbInitHost | th_usb.c:214-246 | Host mode: opmode 1, GCTL bit 11 clear, both PORTSC 0x2A0, reported as host |
| ThUsb.UsbInitNoMode | th_usb.c:180-246 | any other mode makes no mode write |
| ThUsb.Phy1InternalRequestsNoClock | th_usb.c:113-115 | PHY 1 on the internal clock writes its words without any clock request |

## Left out

- Opening `/dev/mem` and the `mmap` of the window: the model starts from a mapped window (the `UsbBlock` constructor) whose every word has a value.
- The `ioctl` inside `enable_clk` and its missing return value on success: each call becomes an `EnableClk` event in the trace.
- `test_device`, and the libusb hub enumeration and control transfers in `kl_usb_test.c`: they drive a library outside the window.
- Command-line parsing, usage text, the `printf` output and its colours. The only message kept is the poll timeout, as an event naming the polled offset. The message text is not kept. (The Device poll of DCTL prints "read 0x24 timeout".)
- `usleep`, `sleep` and `getchar`, and `volatile` ordering: these are timing, not state.
- The `while (1)` reporting loop: `RunTest` returns the first report only.
- Hardware-side register changes: a poll reads values from the feed; they never change the stored map.
- `RunTest` takes `usb_mode` and the other arguments as integers. In `kl_usb_test.c`, `-device` and `-host` only ever set mode 1 or 2; the model accepts any value and handles all of them as the code does.
- C `int` arithmetic in `1<<31` and in the tuning shifts: all word arithmetic is 32-bit `bv32`. The tuning arguments are their 32-bit patterns.
- `RegisterFile.UsbBlock.PollBitClear` and `LinkInit.AwaitBitClear`: a poll that runs out of feed reads the stored word from then on. For the DCTL and GCTL polls that word is the one the program has just written, with the polled bit set, so such a poll sees the bit set on every remaining read and ends silently with the counter at -1. For USBSTS it is the word the window held.
- TestPattern.ApplyTestPattern, KlUsbTest.RunTest, ThUsb.RunTest: a hardware change seen by a read other than a poll is not modelled. If hardware clears DCTL bit 30 during the Device poll, `main`'s RMWREG32 of DCTL (src/kl_usb_test.c:479) would store it clear, while the model keeps it set. The same holds for the GCTL re-reads (src/kl_usb_test.c:264, 276) and the PORTSC U3 read-modify-writes (src/kl_usb_test.c:505-507).
- Bits.RmwBitFits, Bits.RmwNibbleFits: proved for widths 1 and 4 only, the only widths the programs pass to RMWREG32; no general-width statement is proved.

## Findings

| source | as written | input that shows it | evidently intended | confidence | as-written member | corrected member |
|---|---|---|---|---|---|---|
| src/kl_usb_test.c:242-247 (also 257-262, 267-272; th_usb.c:206-211, 221-236) | `i = 1000; while (i--) if (clear) break; if (i==0) printf("... timeout")`: the counter is 0 only when the bit is first seen clear on the 1000th read; a bit that never clears leaves `i` at -1 | 999 reads with the bit set, then one with it clear: the message prints for a poll that succeeded; a bit stuck at 1: nothing prints | report a timeout exactly when no read saw the bit clear | not executed | RegisterFile.LateClearIsReported | RegisterFile.TimedOutIffNeverClear |
