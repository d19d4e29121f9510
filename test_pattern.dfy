/**
 * The register pokes `main` makes around `usb_init`: the super-speed toggle that
 * replaces initialisation when the super flag is given, and the electrical test
 * pattern written after initialisation, by mode and speed. Every poke is an
 * RMWREG32; the pattern value is not masked to its 4-bit field.
 */
module TestPattern {
  import opened Bits
  import opened RegisterFile
  import opened LinkInit
  import opened LinkState

  /** The USB 2.0 test modes the pattern argument names. */
  const USB_TEST_J: bv32 := 1
  const USB_TEST_K: bv32 := 2
  const USB_TEST_SE0: bv32 := 3
  const USB_TEST_PACKET: bv32 := 4
  const USB_TEST_SOF: bv32 := 5

  // The words, as functions of the word each RMWREG32 reads.

  /** PIPE control bit 30 cleared then set: the toggle leaves it set and every other bit as it was. */
  function ToggledPipectl(x: bv32): (r: bv32)
    ensures r == x | 0x4000_0000
  {
    RmwValue(RmwValue(x, 30, 1, 0), 30, 1, 1)
  }

  /** `RMWREG32(.., 30, 1, 1)` on the PIPE control word: bit 30 set, nothing else changed. */
  function PipectlBit30Set(x: bv32): (r: bv32)
    ensures r == x | 0x4000_0000
  {
    RmwValue(x, 30, 1, 1)
  }

  /** `RMWREG32(.., 31, 1, 1)` on DCTL: bit 31 set, nothing else changed. */
  function DctlBit31Set(x: bv32): (r: bv32)
    ensures r == x | 0x8000_0000
  {
    RmwValue(x, 31, 1, 1)
  }

  /**
   * The full- and high-speed device pattern: the pattern into DCTL bits 4:1, then
   * bit 31 set. A pattern below 16 reads back from bits 4:1 and leaves every bit
   * outside 4:1 and 31 alone.
   */
  function DevicePatternDctl(x: bv32, pattern: bv32): (r: bv32)
    ensures Bit(r, 31)
    ensures pattern <= 15 ==> Field(r, 1, 4) == pattern
    ensures pattern <= 15 ==> r & !0x8000_001E == x & !0x8000_001E
  {
    DctlBit31Set(RmwValue(x, 1, 4, pattern))
  }

  /**
   * The host pattern into PORTPMSC bits 31:28. The shift drops every pattern bit
   * above the field, so bits 31:28 read back the pattern's low four bits and no
   * other bit changes, whatever the pattern.
   */
  function HostPatternPortpmsc(x: bv32, pattern: bv32): (r: bv32)
    ensures Field(r, 28, 4) == pattern & 0xF
    ensures r & 0x0FFF_FFFF == x & 0x0FFF_FFFF
  {
    RmwValue(x, 28, 4, pattern)
  }

  /** `RMWREG32(base+0x20, 0, 1, 1)`: USBCMD bit 0 set, nothing else changed. */
  function UsbcmdRunSet(x: bv32): (r: bv32)
    ensures r == x | 1
  {
    RmwValue(x, 0, 1, 1)
  }

  /** PORTSC U3 bit 9 cleared then set: it ends set, every other bit as it was. */
  function ToggledPortscU3(x: bv32): (r: bv32)
    ensures r == x | 0x200
  {
    RmwValue(RmwValue(x, 9, 1, 0), 9, 1, 1)
  }

  // The pokes on the whole register map.

  /** The super-speed toggle. */
  function SuperToggleRegs(m: RegMap): RegMap
    requires PIPECTL in m
  {
    m[PIPECTL := ToggledPipectl(m[PIPECTL])]
  }

  /** The host pattern, and USBCMD bit 0 when the pattern is SOF. */
  function HostPatternRegs(m: RegMap, pattern: bv32): RegMap
    requires PORTPMSC_U2 in m && USBCMD in m
  {
    var m1 := m[PORTPMSC_U2 := HostPatternPortpmsc(m[PORTPMSC_U2], pattern)];
    if pattern == USB_TEST_SOF then m1[USBCMD := UsbcmdRunSet(m1[USBCMD])] else m1
  }

  /**
   * The test-pattern pokes after `usb_init`. Device: speeds 1 and 2 write the
   * pattern into DCTL, speed 3 sets the PIPE control bit 30 and DCTL bit 31. Host:
   * speeds 1 and 2 write the pattern into PORTPMSC, speed 3 toggles PORTSC U3 bit 9
   * around setting PIPE control bit 30. Every other combination writes nothing.
   */
  function TestPatternRegs(m: RegMap, mode: int, speed: int, pattern: bv32): RegMap
    requires DCTL in m && PIPECTL in m && PORTPMSC_U2 in m && USBCMD in m && PORTSC_U3 in m
  {
    if mode == 1 then
      if speed == 1 || speed == 2 then m[DCTL := DevicePatternDctl(m[DCTL], pattern)]
      else if speed == 3 then m[PIPECTL := PipectlBit30Set(m[PIPECTL])][DCTL := DctlBit31Set(m[DCTL])]
      else m
    else if mode == 2 then
      if speed == 1 || speed == 2 then HostPatternRegs(m, pattern)
      else if speed == 3 then
        m[PORTSC_U3 := RmwValue(m[PORTSC_U3], 9, 1, 0)]
         [PIPECTL := PipectlBit30Set(m[PIPECTL])]
         [PORTSC_U3 := ToggledPortscU3(m[PORTSC_U3])]
      else m
    else m
  }

  // The pokes as methods.

  /** `RMWREG32(base+0xc2c0, 30, 1, 0); RMWREG32(base+0xc2c0, 30, 1, 1)`. */
  method SuperToggle(blk: UsbBlock)
    requires blk.Valid()
    modifies blk
    ensures blk.Valid()
    ensures blk.regs == SuperToggleRegs(old(blk.regs))
    ensures blk.pollFeed == old(blk.pollFeed) && blk.events == old(blk.events)
  {
    ghost var m0: RegMap := blk.regs;
    blk.Rmw32(PIPECTL, 30, 1, 0);
    ghost var p1: bv32 := blk.regs[PIPECTL];
    blk.Rmw32(PIPECTL, 30, 1, 1);
    UpdateTwice(m0, PIPECTL, p1, RmwValue(p1, 30, 1, 1));
  }

  /** The host pattern with its SOF follow-up. */
  method WriteHostPattern(blk: UsbBlock, pattern: bv32)
    requires blk.Valid()
    modifies blk
    ensures blk.Valid()
    ensures blk.regs == HostPatternRegs(old(blk.regs), pattern)
    ensures blk.pollFeed == old(blk.pollFeed) && blk.events == old(blk.events)
  {
    blk.Rmw32(PORTPMSC_U2, 28, 4, pattern);
    if pattern == USB_TEST_SOF {
      blk.Rmw32(USBCMD, 0, 1, 1);
    }
  }

  /**
   * The pattern pokes, in the source's branch structure. The device branches end
   * with one link-state report, returned as `report`; the host branches report nothing.
   */
  method ApplyTestPattern(blk: UsbBlock, mode: int, speed: int, pattern: bv32) returns (report: Option<LinkReport>)
    requires blk.Valid()
    modifies blk
    ensures blk.Valid()
    ensures blk.regs == TestPatternRegs(old(blk.regs), mode, speed, pattern)
    ensures blk.pollFeed == old(blk.pollFeed) && blk.events == old(blk.events)
    ensures report.Some? <==> mode == 1 && 1 <= speed <= 3
    ensures report.Some? ==> report.value == ReportOf(blk.regs)
  {
    report := None;
    if mode == 1 {
      if speed == 1 {  // full
        ghost var m0: RegMap := blk.regs;
        blk.Rmw32(DCTL, 1, 4, pattern);
        ghost var d1: bv32 := blk.regs[DCTL];
        blk.Rmw32(DCTL, 31, 1, 1);
        UpdateTwice(m0, DCTL, d1, RmwValue(d1, 31, 1, 1));
        var r := CheckLinkState(blk);
        report := Some(r);
      } else if speed == 2 {  // high
        ghost var m0: RegMap := blk.regs;
        blk.Rmw32(DCTL, 1, 4, pattern);
        ghost var d1: bv32 := blk.regs[DCTL];
        blk.Rmw32(DCTL, 31, 1, 1);
        UpdateTwice(m0, DCTL, d1, RmwValue(d1, 31, 1, 1));
        var r := CheckLinkState(blk);
        report := Some(r);
      }
      if speed == 3 {  // super
        blk.Rmw32(PIPECTL, 30, 1, 1);
        blk.Rmw32(DCTL, 31, 1, 1);
        var r := CheckLinkState(blk);
        report := Some(r);
      }
    } else if mode == 2 {
      if speed == 1 {  // labelled "low"
        WriteHostPattern(blk, pattern);
      } else if speed == 1 {  // labelled "full": the same test as above, never taken
        assert false;
      } else if speed == 2 {  // high
        WriteHostPattern(blk, pattern);
      }
      if speed == 3 {  // super
        blk.Rmw32(PORTSC_U3, 9, 1, 0);
        blk.Rmw32(PIPECTL, 30, 1, 1);
        blk.Rmw32(PORTSC_U3, 9, 1, 1);
      }
    }
  }

  // What the pokes promise.

  /** The toggle sets PIPE control bit 30, keeps its other bits, and writes no other register. */
  lemma SuperToggleEffect(m: RegMap)
    requires HasRegs(m)
    ensures var r := SuperToggleRegs(m);
            Bit(r[PIPECTL], 30) && r[PIPECTL] & !0x4000_0000 == m[PIPECTL] & !0x4000_0000
            && forall off :: off in m && off != PIPECTL ==> off in r && r[off] == m[off]
  {
  }

  /** A pattern of 16 or more spills into DCTL above bits 4:1: 16 sets bit 5 and leaves the field 0. */
  lemma DevicePatternSpills(x: bv32)
    requires !Bit(x, 5)
    ensures Bit(DevicePatternDctl(x, 16), 5) && Field(DevicePatternDctl(x, 16), 1, 4) == 0
  {
  }

  /** Host SOF: USBCMD bit 0 gets set exactly when the pattern is 5; any other pattern leaves USBCMD alone. */
  lemma HostSofSetsRun(m: RegMap, speed: int, pattern: bv32)
    requires HasRegs(m) && (speed == 1 || speed == 2)
    ensures var r := TestPatternRegs(m, 2, speed, pattern);
            (pattern == USB_TEST_SOF ==> r[USBCMD] == m[USBCMD] | 1)
            && (pattern != USB_TEST_SOF ==> r[USBCMD] == m[USBCMD])
  {
  }

  /** Host super speed: PORTSC U3 ends with bit 9 set, PIPE control with bit 30 set, other bits unchanged. */
  lemma HostSuperSpeedEffect(m: RegMap, pattern: bv32)
    requires HasRegs(m)
    ensures var r := TestPatternRegs(m, 2, 3, pattern);
            r[PORTSC_U3] == m[PORTSC_U3] | 0x200 && r[PIPECTL] == m[PIPECTL] | 0x4000_0000
            && r[DCTL] == m[DCTL] && r[PORTPMSC_U2] == m[PORTPMSC_U2]
  {
  }

  /**
   * No pattern is written for speed 0 ("low") in either mode, nor for a mode other than 1 or 2:
   * the host branch labelled low tests speed 1.
   */
  lemma NoPatternWithoutBranch(m: RegMap, mode: int, speed: int, pattern: bv32)
    requires HasRegs(m)
    requires mode !in {1, 2} || speed !in {1, 2, 3}
    ensures TestPatternRegs(m, mode, speed, pattern) == m
  {
  }

  /** Whatever the branch, the pokes only touch DCTL, the PIPE control word, PORTPMSC, USBCMD and PORTSC U3. */
  lemma TestPatternFrame(m: RegMap, mode: int, speed: int, pattern: bv32, off: nat)
    requires HasRegs(m) && off in m
    requires off !in {DCTL, PIPECTL, PORTPMSC_U2, USBCMD, PORTSC_U3}
    ensures var r := TestPatternRegs(m, mode, speed, pattern);
            off in r && r[off] == m[off]
  {
  }
}
