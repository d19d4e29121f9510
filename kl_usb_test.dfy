/**
 * src/kl_usb_test.c: `usb_init` with PHY tuning words taken from the command
 * line, and the part of `main` that runs once the register window is mapped.
 */
module KlUsbTest {
  import opened Bits
  import opened RegisterFile
  import opened LinkInit
  import opened LinkState
  import opened TestPattern

  /** The fixed bits of PHY CTRL4. */
  const PHY_NCR_REG_MASK: bv32 := 0x0002_0233

  /**
   * PHY CTRL4: `PHY_NCR_REG_MASK | (regs1<<6 | regs2<<11 | regs3<<13)` on the 32-bit
   * patterns of the three integer arguments. The fields are not masked, so a
   * value wider than the gap to the next field overlaps it.
   */
  function TuningWord(r1: bv32, r2: bv32, r3: bv32): (w: bv32)
    ensures w & PHY_NCR_REG_MASK == PHY_NCR_REG_MASK
  {
    PHY_NCR_REG_MASK | ((r1 << 6) | (r2 << 11) | (r3 << 13))
  }

  /** The eight PHY words `usb_init` writes for PHY 1 and for PHY 2, CTRL0 first. */
  function PhyTable(r1: bv32, r2: bv32, r3: bv32): (w: seq<bv32>)
    ensures |w| == 8 && w[0] == 0x4100_0005 && w[4] == TuningWord(r1, r2, r3)
  {
    [0x4100_0005, 0x6925_4000, 0x0E2C_7878, 0x3E70_0800, TuningWord(r1, r2, r3), 0, 0, 0]
  }

  /** The PHY words by `phy_num`: the same table for 1 and 2, none for any other value. */
  function PhyWords(phy: int, r1: bv32, r2: bv32, r3: bv32): (w: Option<seq<bv32>>)
    ensures w.Some? <==> phy == 1 || phy == 2
    ensures w.Some? ==> w.value == PhyTable(r1, r2, r3)
  {
    if phy == 1 || phy == 2 then Some(PhyTable(r1, r2, r3)) else None
  }

  /** The register map `usb_init` leaves, before hardware acts on it. */
  function UsbInitRegs(m: RegMap, phy: int, mode: int, speed: int, r1: bv32, r2: bv32, r3: bv32): (r: RegMap)
    requires HasRegs(m)
    ensures HasRegs(r)
  {
    PhyAndNcrProgrammed(Kl, m, PhyWords(phy, r1, r2, r3));
    ModeRegs(PhyAndNcrRegs(Kl, m, PhyWords(phy, r1, r2, r3)), mode, speed)
  }

  /** `usb_init(phy_num, base, usb_mode, usb_speed, regs1, regs2, regs3)`; it always returns 0. */
  method UsbInit(blk: UsbBlock, phy: int, mode: int, speed: int, r1: bv32, r2: bv32, r3: bv32) returns (ret: int)
    requires blk.Valid()
    modifies blk
    ensures blk.Valid()
    ensures ret == 0
    ensures blk.regs == UsbInitRegs(old(blk.regs), phy, mode, speed, r1, r2, r3)
    ensures FeedConsumed(old(blk.pollFeed), blk.pollFeed)
    ensures AppendsOnly(old(blk.events), blk.events, ModeTimeouts(mode), 2)
    ensures mode == 1 ==> blk.events == old(blk.events) + PollTrace(old(blk.pollFeed), blk.regs[DCTL], DCTL, 30)
    ensures mode != 1 && mode != 2 ==> blk.pollFeed == old(blk.pollFeed) && blk.events == old(blk.events)
    ensures blk.events == old(blk.events) + ModeTrace(old(blk.pollFeed), old(blk.regs)[USBSTS], old(blk.regs)[GCTL], old(blk.regs)[DCTL], mode)
    ensures blk.pollFeed == ModeFeedAfter(old(blk.pollFeed), old(blk.regs)[USBSTS], old(blk.regs)[GCTL], old(blk.regs)[DCTL], mode)
  {
    AssertPhyReset(blk);
    if phy == 1 {
      WritePhyWords(blk, PhyTable(r1, r2, r3));
    } else if phy == 2 {
      WritePhyWords(blk, PhyTable(r1, r2, r3));
    }
    InitControllerNcr(blk, Kl);
    ReleasePhyReset(blk);
    ApplyMode(blk, mode, speed);
    ret := 0;
  }

  /** The physical base `main` maps: USB 1 at 0x31220000, any other number at 0x31260000. */
  function BaseAddress(usbNum: int): (addr: nat)
    ensures addr == 0x3122_0000 <==> usbNum == 1
    ensures addr == 0x3126_0000 <==> usbNum != 1
  {
    if usbNum == 1 then 0x3122_0000 else 0x3126_0000
  }

  /**
   * `main` once the window is mapped. A nonzero super flag toggles PIPE control bit 30
   * and returns. Otherwise `usb_init` runs with the USB number as PHY number, the
   * test pattern is poked, and the first report of the monitor loop is returned.
   */
  method RunTest(blk: UsbBlock, usbNum: int, mode: int, speed: int, pattern: bv32,
                 r1: bv32, r2: bv32, r3: bv32, superFlag: int) returns (monitor: Option<LinkReport>)
    requires blk.Valid()
    modifies blk
    ensures blk.Valid()
    ensures superFlag != 0 ==> blk.regs == SuperToggleRegs(old(blk.regs)) && monitor.None?
    ensures superFlag != 0 ==> blk.pollFeed == old(blk.pollFeed) && blk.events == old(blk.events)
    ensures superFlag == 0 ==>
              blk.regs == TestPatternRegs(UsbInitRegs(old(blk.regs), usbNum, mode, speed, r1, r2, r3), mode, speed, pattern)
    ensures superFlag == 0 ==> monitor == Some(ReportOf(blk.regs))
    ensures superFlag == 0 ==> FeedConsumed(old(blk.pollFeed), blk.pollFeed)
    ensures superFlag == 0 ==> AppendsOnly(old(blk.events), blk.events, ModeTimeouts(mode), 2)
    ensures superFlag == 0 && mode == 1 ==>
              blk.events == old(blk.events)
                            + PollTrace(old(blk.pollFeed), UsbInitRegs(old(blk.regs), usbNum, mode, speed, r1, r2, r3)[DCTL], DCTL, 30)
    ensures superFlag == 0 ==> blk.events == old(blk.events) + ModeTrace(old(blk.pollFeed), old(blk.regs)[USBSTS], old(blk.regs)[GCTL], old(blk.regs)[DCTL], mode)
    ensures superFlag == 0 ==> blk.pollFeed == ModeFeedAfter(old(blk.pollFeed), old(blk.regs)[USBSTS], old(blk.regs)[GCTL], old(blk.regs)[DCTL], mode)
  {
    if superFlag != 0 {
      SuperToggle(blk);
      return None;
    }
    var _ := UsbInit(blk, usbNum, mode, speed, r1, r2, r3);
    var _ := ApplyTestPattern(blk, mode, speed, pattern);
    var r := CheckLinkState(blk);
    monitor := Some(r);
  }

  // What `usb_init` leaves behind.

  /**
   * PHY numbers 1 and 2 leave the table in the PHY words, CTRL0 released from reset
   * (0x41000004) and the tuning word in CTRL4, whatever the mode.
   */
  lemma {:induction false} UsbInitPhyTable(m: RegMap, phy: int, mode: int, speed: int, r1: bv32, r2: bv32, r3: bv32)
    requires HasRegs(m) && (phy == 1 || phy == 2)
    ensures PhyHolds(UsbInitRegs(m, phy, mode, speed, r1, r2, r3), 0x4100_0004, PhyTable(r1, r2, r3))
  {
    var w := PhyTable(r1, r2, r3);
    PhyAndNcrProgrammed(Kl, m, Some(w));
    PhyAndNcrWithWords(Kl, m, w);
    assert ResetReleased(0x4100_0005) == 0x4100_0004;
    ModeKeepsPhy(PhyAndNcrRegs(Kl, m, Some(w)), mode, speed, 0x4100_0004, w);
  }

  /** Any other PHY number writes no PHY word, and CTRL0 ends with bits 0 and 18 cleared. */
  lemma {:induction false} UsbInitOtherPhy(m: RegMap, phy: int, mode: int, speed: int, r1: bv32, r2: bv32, r3: bv32)
    requires HasRegs(m) && phy != 1 && phy != 2
    ensures PhyHolds(UsbInitRegs(m, phy, mode, speed, r1, r2, r3), m[PHY_CTRL0] & !0x4_0001, PhyWordsOf(m))
  {
    PhyAndNcrProgrammed(Kl, m, None);
    PhyAndNcrWithoutWords(Kl, m);
    ResetCycle(m[PHY_CTRL0]);
    ModeKeepsPhy(PhyAndNcrRegs(Kl, m, None), mode, speed, m[PHY_CTRL0] & !0x4_0001, PhyWordsOf(m));
  }

  /** Whatever the PHY number and the mode, the NCR block at 0xD000 and the PIPE control word are programmed. */
  lemma {:induction false} UsbInitNcr(m: RegMap, phy: int, mode: int, speed: int, r1: bv32, r2: bv32, r3: bv32)
    requires HasRegs(m)
    ensures NcrProgrammed(UsbInitRegs(m, phy, mode, speed, r1, r2, r3), Kl)
  {
    var w := PhyWords(phy, r1, r2, r3);
    PhyAndNcrProgrammed(Kl, m, w);
    ModeKeepsNcr(PhyAndNcrRegs(Kl, m, w), mode, speed, Kl);
  }

  /**
   * Device mode leaves opmode 2, the speed code and DCTL bit 30, so the reporter
   * takes its device branch.
   */
  lemma {:induction false} UsbInitDevice(m: RegMap, phy: int, speed: int, r1: bv32, r2: bv32, r3: bv32)
    requires HasRegs(m)
    ensures var r := UsbInitRegs(m, phy, 1, speed, r1, r2, r3);
            Field(r[GCTL], 12, 2) == 2 && Field(r[DCFG], 0, 3) == SpeedCode(speed)
            && Bit(r[DCTL], 30) && ReportOf(r).DeviceReport?
  {
    var w := PhyWords(phy, r1, r2, r3);
    PhyAndNcrProgrammed(Kl, m, w);
    var p := PhyAndNcrRegs(Kl, m, w);
    DeviceModeWords(p, speed);
    DeviceModeIsReportedAsDevice(p, speed);
  }

  /**
   * Host mode leaves opmode 1 with GCTL bit 11 clear and PORTSC 0x2A0, so the
   * reporter takes its host branch with U3 link state 5.
   */
  lemma {:induction false} UsbInitHost(m: RegMap, phy: int, speed: int, r1: bv32, r2: bv32, r3: bv32)
    requires HasRegs(m)
    ensures var r := UsbInitRegs(m, phy, 2, speed, r1, r2, r3);
            Field(r[GCTL], 12, 2) == 1 && !Bit(r[GCTL], 11)
            && r[PORTSC_U2] == PORTSC_INIT && r[PORTSC_U3] == PORTSC_INIT
            && ReportOf(r).HostReport? && ReportOf(r).u3Link == 5
  {
    var w := PhyWords(phy, r1, r2, r3);
    PhyAndNcrProgrammed(Kl, m, w);
    var p := PhyAndNcrRegs(Kl, m, w);
    HostModeWords(p, speed);
    HostModeIsReportedAsHost(p, speed);
  }

  /** Any other mode selects nothing: `usb_init` ends after the PHY and NCR steps. */
  lemma UsbInitNoMode(m: RegMap, phy: int, mode: int, speed: int, r1: bv32, r2: bv32, r3: bv32)
    requires HasRegs(m) && mode != 1 && mode != 2
    ensures UsbInitRegs(m, phy, mode, speed, r1, r2, r3) == PhyAndNcrRegs(Kl, m, PhyWords(phy, r1, r2, r3))
  {
  }

  /** The worked tuning value: regs 1, 2, 3 give 0x27273. */
  lemma TuningWordExample()
    ensures TuningWord(1, 2, 3) == 0x0002_7273
  {
  }

  /** The unmasked fields overlap: regs2 = 4 sets the bit regs3 = 1 sets. */
  lemma TuningFieldsOverlap()
    ensures TuningWord(0, 4, 0) == TuningWord(0, 0, 1)
  {
  }
}
