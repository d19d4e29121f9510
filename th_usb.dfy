/**
 * th_usb.c: `usb_init` with the PHY words chosen by PHY number and clock source
 * (1 internal, 2 external), the clock-enable requests that go with them, and the
 * part of `main` that runs once the register window is mapped.
 */
module ThUsb {
  import opened Bits
  import opened RegisterFile
  import opened LinkInit
  import opened LinkState
  import opened TestPattern

  /** The clock-source selector: 1 internal, 2 external. */
  const CLK_INTERNAL: int := 1
  const CLK_EXTERNAL: int := 2

  // The eight PHY words of each case, CTRL0 first.

  const PHY1_EXTERNAL: seq<bv32> := [0x4114_0005, 0x6924_E000, 0x0E2C_7878, 0x3E70_0800, 0x7002_6A33, 0, 0, 0]
  const PHY1_INTERNAL: seq<bv32> := [0x4100_0005, 0x6925_4000, 0x0E2C_7878, 0x3E70_0800, 0x7002_6A33, 0, 1, 0]
  const PHY2_EXTERNAL: seq<bv32> := [0x4100_0005, 0x6924_E000, 0x0E2C_7878, 0x3E70_0800, 0x7002_6A33, 1, 0, 0]
  const PHY2_INTERNAL: seq<bv32> := [0x4100_0005, 0x6925_4000, 0x0E2C_7878, 0x3E70_0800, 0x7002_6A33, 0, 1, 0]

  /**
   * The PHY words by PHY number and clock source; none unless the PHY is 1 or 2 and
   * the clock 1 or 2. Every case shares CTRL2 to CTRL4 and leaves CTRL7 0; CTRL1
   * follows the clock source, CTRL6 is 1 exactly with the internal clock, CTRL5 is 1
   * only for PHY 2 on the external clock, and only PHY 1 on the external clock sets
   * CTRL0 bit 20.
   */
  function PhyWords(phy: int, clk: int): (w: Option<seq<bv32>>)
    ensures w.Some? <==> (phy == 1 || phy == 2) && (clk == CLK_INTERNAL || clk == CLK_EXTERNAL)
    ensures w.Some? ==> |w.value| == 8
    ensures w.Some? ==> w.value[2] == 0x0E2C_7878 && w.value[3] == 0x3E70_0800 && w.value[4] == 0x7002_6A33
    ensures w.Some? ==> w.value[7] == 0
    ensures w.Some? ==> w.value[1] == (if clk == CLK_EXTERNAL then 0x6924_E000 else 0x6925_4000)
    ensures w.Some? ==> (w.value[6] == 1 <==> clk == CLK_INTERNAL) && w.value[6] <= 1
    ensures w.Some? ==> (w.value[5] == 1 <==> phy == 2 && clk == CLK_EXTERNAL) && w.value[5] <= 1
    ensures w.Some? ==> w.value[0] == (if phy == 1 && clk == CLK_EXTERNAL then 0x4114_0005 else 0x4100_0005)
  {
    if phy == 1 && clk == CLK_EXTERNAL then Some(PHY1_EXTERNAL)
    else if phy == 1 && clk == CLK_INTERNAL then Some(PHY1_INTERNAL)
    else if phy == 2 && clk == CLK_EXTERNAL then Some(PHY2_EXTERNAL)
    else if phy == 2 && clk == CLK_INTERNAL then Some(PHY2_INTERNAL)
    else None
  }

  /**
   * The clock-enable requests `usb_init` makes before the PHY words: two for PHY 2
   * and for PHY 1 on the external clock, none for PHY 1 on the internal clock or any
   * other case. The first request switches the external source, the second the
   * internal one; exactly one of them is enabled, the one the selector names.
   */
  function ClockCalls(phy: int, clk: int): (calls: seq<Event>)
    ensures |calls| == 0 || |calls| == 2
    ensures |calls| == 2 <==> (phy == 1 && clk == CLK_EXTERNAL) || (phy == 2 && (clk == CLK_INTERNAL || clk == CLK_EXTERNAL))
    ensures |calls| == 2 ==> calls[0] == EnableClk(phy, 0, clk - 1) && calls[1] == EnableClk(phy, 1, 2 - clk)
    ensures |calls| == 2 ==> calls[0].enable + calls[1].enable == 1
    ensures forall e :: e in calls ==> e.EnableClk? && e.port == phy && (e.enable == 1 <==> (e.internal == 1 <==> clk == CLK_INTERNAL))
  {
    if phy == 1 && clk == CLK_EXTERNAL then [EnableClk(1, 0, 1), EnableClk(1, 1, 0)]
    else if phy == 2 && clk == CLK_EXTERNAL then [EnableClk(2, 0, 1), EnableClk(2, 1, 0)]
    else if phy == 2 && clk == CLK_INTERNAL then [EnableClk(2, 0, 0), EnableClk(2, 1, 1)]
    else []
  }

  /** The register map `usb_init` leaves, before hardware acts on it. */
  function UsbInitRegs(m: RegMap, phy: int, mode: int, speed: int, clk: int): (r: RegMap)
    requires HasRegs(m)
    ensures HasRegs(r)
  {
    PhyAndNcrProgrammed(Th, m, PhyWords(phy, clk));
    ModeRegs(PhyAndNcrRegs(Th, m, PhyWords(phy, clk)), mode, speed)
  }

  /**
   * The PHY and clock branch of `usb_init`: the clock requests of the case, then its
   * eight PHY words; a case that matches none writes and requests nothing.
   */
  method SelectPhy(blk: UsbBlock, phy: int, clk: int)
    requires blk.Valid()
    modifies blk
    ensures blk.Valid()
    ensures PhyWords(phy, clk).Some? ==> blk.regs == PhyWordsWritten(old(blk.regs), PhyWords(phy, clk).value)
    ensures PhyWords(phy, clk).None? ==> blk.regs == old(blk.regs)
    ensures ModeInputsKept(old(blk.regs), blk.regs)
    ensures blk.pollFeed == old(blk.pollFeed) && blk.events == old(blk.events) + ClockCalls(phy, clk)
  {
    if phy == 1 && clk == CLK_EXTERNAL {
      blk.Record(EnableClk(1, 0, 1));
      blk.Record(EnableClk(1, 1, 0));
      WritePhyWords(blk, PHY1_EXTERNAL);
    } else if phy == 1 && clk == CLK_INTERNAL {
      WritePhyWords(blk, PHY1_INTERNAL);
    } else if phy == 2 && clk == CLK_EXTERNAL {
      blk.Record(EnableClk(2, 0, 1));
      blk.Record(EnableClk(2, 1, 0));
      WritePhyWords(blk, PHY2_EXTERNAL);
    } else if phy == 2 && clk == CLK_INTERNAL {
      blk.Record(EnableClk(2, 0, 0));
      blk.Record(EnableClk(2, 1, 1));
      WritePhyWords(blk, PHY2_INTERNAL);
    }
  }

  /**
   * `usb_init(phy_num, base, usb_mode, usb_speed, clk_select)`; it always returns 0.
   * The trace gains the clock requests, then exactly the messages of the mode step.
   */
  method UsbInit(blk: UsbBlock, phy: int, mode: int, speed: int, clk: int) returns (ret: int)
    requires blk.Valid()
    modifies blk
    ensures blk.Valid()
    ensures ret == 0
    ensures blk.regs == UsbInitRegs(old(blk.regs), phy, mode, speed, clk)
    ensures FeedConsumed(old(blk.pollFeed), blk.pollFeed)
    ensures AppendsOnly(old(blk.events) + ClockCalls(phy, clk), blk.events, ModeTimeouts(mode), 2)
    ensures mode == 1 ==>
              blk.events == old(blk.events) + ClockCalls(phy, clk) + PollTrace(old(blk.pollFeed), blk.regs[DCTL], DCTL, 30)
    ensures mode != 1 && mode != 2 ==> blk.pollFeed == old(blk.pollFeed) && blk.events == old(blk.events) + ClockCalls(phy, clk)
    ensures blk.events == old(blk.events) + ClockCalls(phy, clk) + ModeTrace(old(blk.pollFeed), old(blk.regs)[USBSTS], old(blk.regs)[GCTL], old(blk.regs)[DCTL], mode)
    ensures blk.pollFeed == ModeFeedAfter(old(blk.pollFeed), old(blk.regs)[USBSTS], old(blk.regs)[GCTL], old(blk.regs)[DCTL], mode)
  {
    AssertPhyReset(blk);
    SelectPhy(blk, phy, clk);
    InitControllerNcr(blk, Th);
    ReleasePhyReset(blk);
    ApplyMode(blk, mode, speed);
    ret := 0;
  }

  /** The physical base `main` maps: USB 1 at 0x62320000, any other number at 0x62360000. */
  function BaseAddress(usbNum: int): (addr: nat)
    ensures addr == 0x6232_0000 <==> usbNum == 1
    ensures addr == 0x6236_0000 <==> usbNum != 1
  {
    if usbNum == 1 then 0x6232_0000 else 0x6236_0000
  }

  /**
   * `main` once the window is mapped. A nonzero super flag toggles PIPE control bit 30
   * and returns. Otherwise `usb_init` runs with the USB number as PHY number, the
   * test pattern is poked, and the first report of the monitor loop is returned.
   */
  method RunTest(blk: UsbBlock, usbNum: int, mode: int, speed: int, clk: int, pattern: bv32,
                 superFlag: int) returns (monitor: Option<LinkReport>)
    requires blk.Valid()
    modifies blk
    ensures blk.Valid()
    ensures superFlag != 0 ==> blk.regs == SuperToggleRegs(old(blk.regs)) && monitor.None?
    ensures superFlag != 0 ==> blk.pollFeed == old(blk.pollFeed) && blk.events == old(blk.events)
    ensures superFlag == 0 ==>
              blk.regs == TestPatternRegs(UsbInitRegs(old(blk.regs), usbNum, mode, speed, clk), mode, speed, pattern)
    ensures superFlag == 0 ==> monitor == Some(ReportOf(blk.regs))
    ensures superFlag == 0 ==> FeedConsumed(old(blk.pollFeed), blk.pollFeed)
    ensures superFlag == 0 ==> AppendsOnly(old(blk.events) + ClockCalls(usbNum, clk), blk.events, ModeTimeouts(mode), 2)
    ensures superFlag == 0 && mode == 1 ==>
              blk.events == old(blk.events) + ClockCalls(usbNum, clk)
                            + PollTrace(old(blk.pollFeed), UsbInitRegs(old(blk.regs), usbNum, mode, speed, clk)[DCTL], DCTL, 30)
    ensures superFlag == 0 ==> blk.events == old(blk.events) + ClockCalls(usbNum, clk) + ModeTrace(old(blk.pollFeed), old(blk.regs)[USBSTS], old(blk.regs)[GCTL], old(blk.regs)[DCTL], mode)
    ensures superFlag == 0 ==> blk.pollFeed == ModeFeedAfter(old(blk.pollFeed), old(blk.regs)[USBSTS], old(blk.regs)[GCTL], old(blk.regs)[DCTL], mode)
  {
    if superFlag != 0 {
      SuperToggle(blk);
      return None;
    }
    var _ := UsbInit(blk, usbNum, mode, speed, clk);
    var _ := ApplyTestPattern(blk, mode, speed, pattern);
    var r := CheckLinkState(blk);
    monitor := Some(r);
  }

  // What `usb_init` leaves behind.

  /**
   * Each of the four PHY and clock cases leaves its words in the PHY, CTRL0 released
   * from reset: 0x41140004 for PHY 1 on the external clock, 0x41000004 otherwise.
   */
  lemma {:induction false} UsbInitPhyWords(m: RegMap, phy: int, mode: int, speed: int, clk: int)
    requires HasRegs(m) && PhyWords(phy, clk).Some?
    ensures PhyHolds(UsbInitRegs(m, phy, mode, speed, clk),
                     if phy == 1 && clk == CLK_EXTERNAL then 0x4114_0004 else 0x4100_0004,
                     PhyWords(phy, clk).value)
  {
    var w := PhyWords(phy, clk).value;
    PhyAndNcrProgrammed(Th, m, Some(w));
    PhyAndNcrWithWords(Th, m, w);
    assert ResetReleased(0x4114_0005) == 0x4114_0004;
    assert ResetReleased(0x4100_0005) == 0x4100_0004;
    ModeKeepsPhy(PhyAndNcrRegs(Th, m, Some(w)), mode, speed, ResetReleased(w[0]), w);
  }

  /** Any other PHY number or clock source writes no PHY word, and CTRL0 ends with bits 0 and 18 cleared. */
  lemma {:induction false} UsbInitOtherPhy(m: RegMap, phy: int, mode: int, speed: int, clk: int)
    requires HasRegs(m) && PhyWords(phy, clk).None?
    ensures PhyHolds(UsbInitRegs(m, phy, mode, speed, clk), m[PHY_CTRL0] & !0x4_0001, PhyWordsOf(m))
  {
    PhyAndNcrProgrammed(Th, m, None);
    PhyAndNcrWithoutWords(Th, m);
    ResetCycle(m[PHY_CTRL0]);
    ModeKeepsPhy(PhyAndNcrRegs(Th, m, None), mode, speed, m[PHY_CTRL0] & !0x4_0001, PhyWordsOf(m));
  }

  /**
   * Whatever the PHY, clock and mode, the NCR block at 0xE000 is programmed, with
   * 0x80000000 in its CTRL2 word, and so is the PIPE control word.
   */
  lemma {:induction false} UsbInitNcr(m: RegMap, phy: int, mode: int, speed: int, clk: int)
    requires HasRegs(m)
    ensures NcrProgrammed(UsbInitRegs(m, phy, mode, speed, clk), Th)
  {
    var w := PhyWords(phy, clk);
    PhyAndNcrProgrammed(Th, m, w);
    ModeKeepsNcr(PhyAndNcrRegs(Th, m, w), mode, speed, Th);
  }

  /**
   * Device mode leaves opmode 2, the speed code and DCTL bit 30, so the reporter
   * takes its device branch.
   */
  lemma {:induction false} UsbInitDevice(m: RegMap, phy: int, speed: int, clk: int)
    requires HasRegs(m)
    ensures var r := UsbInitRegs(m, phy, 1, speed, clk);
            Field(r[GCTL], 12, 2) == 2 && Field(r[DCFG], 0, 3) == SpeedCode(speed)
            && Bit(r[DCTL], 30) && ReportOf(r).DeviceReport?
  {
    var w := PhyWords(phy, clk);
    PhyAndNcrProgrammed(Th, m, w);
    var p := PhyAndNcrRegs(Th, m, w);
    DeviceModeWords(p, speed);
    DeviceModeIsReportedAsDevice(p, speed);
  }

  /**
   * Host mode leaves opmode 1 with GCTL bit 11 clear and PORTSC 0x2A0, so the
   * reporter takes its host branch with U3 link state 5.
   */
  lemma {:induction false} UsbInitHost(m: RegMap, phy: int, speed: int, clk: int)
    requires HasRegs(m)
    ensures var r := UsbInitRegs(m, phy, 2, speed, clk);
            Field(r[GCTL], 12, 2) == 1 && !Bit(r[GCTL], 11)
            && r[PORTSC_U2] == PORTSC_INIT && r[PORTSC_U3] == PORTSC_INIT
            && ReportOf(r).HostReport? && ReportOf(r).u3Link == 5
  {
    var w := PhyWords(phy, clk);
    PhyAndNcrProgrammed(Th, m, w);
    var p := PhyAndNcrRegs(Th, m, w);
    HostModeWords(p, speed);
    HostModeIsReportedAsHost(p, speed);
  }

  /** Any other mode selects nothing: `usb_init` ends after the PHY and NCR steps. */
  lemma UsbInitNoMode(m: RegMap, phy: int, mode: int, speed: int, clk: int)
    requires HasRegs(m) && mode != 1 && mode != 2
    ensures UsbInitRegs(m, phy, mode, speed, clk) == PhyAndNcrRegs(Th, m, PhyWords(phy, clk))
  {
  }

  /** PHY 1 on the internal clock writes its PHY words without any clock request. */
  lemma Phy1InternalRequestsNoClock()
    ensures PhyWords(1, CLK_INTERNAL).Some? && ClockCalls(1, CLK_INTERNAL) == []
  {
  }
}
