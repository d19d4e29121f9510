/**
 * The link-state reporter `usb_check_link_state`: it reads GCTL, both PORTSC
 * words, the LTSSM word and DSTS, and prints the device fields when the GCTL
 * operating mode is 2 and the host fields otherwise. The printed line becomes a
 * `LinkReport` value.
 */
module LinkState {
  import opened Bits
  import opened RegisterFile
  import opened LinkInit

  /** The fields one call prints, by branch. */
  datatype LinkReport =
    | DeviceReport(dsts: bv32, dstsSpeed: bv32, dstsLink: bv32, ltssm: bv32, ltssmLink: bv32, ltssmSub: bv32)
    | HostReport(portscU2: bv32, portscU3: bv32, u3Link: bv32, u2Speed: bv32, u3Speed: bv32,
                 ltssm: bv32, ltssmLink: bv32, ltssmSub: bv32)

  /** The GCTL operating mode, `(gctl>>12) & 0x3`. */
  function Opmode(gctl: bv32): (mode: bv32)
    ensures mode <= 3
  {
    (gctl >> 12) & 0x3
  }

  /**
   * The decoder on the five words it reads. Device fields: DSTS speed in bits 2:0 and
   * link state in bits 21:18; host fields: the U3 link state in PORTSC bits 8:5 and
   * each port's speed in PORTSC bits 13:10; both branches: the LTSSM link state in
   * bits 25:22 and sub-state in bits 21:18.
   */
  function DecodeLinkState(gctl: bv32, portscU2: bv32, portscU3: bv32, ltssm: bv32, dsts: bv32): (r: LinkReport)
    ensures r.DeviceReport? <==> Opmode(gctl) == 2
    ensures r.ltssm == ltssm && r.ltssmLink <= 15 && r.ltssmSub <= 15
    ensures r.DeviceReport? ==> r.dsts == dsts && r.dstsSpeed <= 7 && r.dstsLink <= 15
    ensures r.HostReport? ==> r.portscU2 == portscU2 && r.portscU3 == portscU3
    ensures r.HostReport? ==> r.u3Link <= 15 && r.u2Speed <= 15 && r.u3Speed <= 15
  {
    var ltssmLink := (ltssm >> 22) & 0xF;
    var ltssmSub := (ltssm >> 18) & 0xF;
    if Opmode(gctl) == 2 then
      DeviceReport(dsts, dsts & 0x7, (dsts >> 18) & 0xF, ltssm, ltssmLink, ltssmSub)
    else
      HostReport(portscU2, portscU3, (portscU3 >> 5) & 0xF, (portscU2 >> 10) & 0xF, (portscU3 >> 10) & 0xF,
                 ltssm, ltssmLink, ltssmSub)
  }

  /** The decoder applied to a register map. */
  function ReportOf(m: RegMap): LinkReport
    requires GCTL in m && PORTSC_U2 in m && PORTSC_U3 in m && LTSSM in m && DSTS in m
  {
    DecodeLinkState(m[GCTL], m[PORTSC_U2], m[PORTSC_U3], m[LTSSM], m[DSTS])
  }

  /** One call of `usb_check_link_state`: five reads in the source's order, nothing written. */
  method CheckLinkState(blk: UsbBlock) returns (r: LinkReport)
    requires blk.Valid()
    ensures r == ReportOf(blk.regs)
  {
    var gctl := blk.Readl(GCTL);
    var portscU2 := blk.Readl(PORTSC_U2);
    var portscU3 := blk.Readl(PORTSC_U3);
    var ltssm := blk.Readl(LTSSM);
    var dsts := blk.Readl(DSTS);
    r := DecodeLinkState(gctl, portscU2, portscU3, ltssm, dsts);
  }

  /**
   * The decoder inverts RMWREG32 on its device fields: store a speed, a link state,
   * an LTSSM link state and sub-state into any words with RMWREG32, set opmode 2,
   * and the report carries back exactly the stored values.
   */
  lemma {:induction false} DeviceFieldsRoundTrip(gctl: bv32, portscU2: bv32, portscU3: bv32, ltssm: bv32, dsts: bv32,
                                                  speed: bv32, link: bv32, ltssmLink: bv32, ltssmSub: bv32)
    requires speed <= 7 && link <= 15 && ltssmLink <= 15 && ltssmSub <= 15
    ensures var l := RmwValue(RmwValue(ltssm, 22, 4, ltssmLink), 18, 4, ltssmSub);
            var d := RmwValue(RmwValue(dsts, 0, 3, speed), 18, 4, link);
            var r := DecodeLinkState(RmwValue(gctl, 12, 2, 2), portscU2, portscU3, l, d);
            r == DeviceReport(d, speed, link, l, ltssmLink, ltssmSub)
  {
    RmwNibbleFits(RmwValue(ltssm, 22, 4, ltssmLink), 18, ltssmSub);
    RmwNibbleFits(ltssm, 22, ltssmLink);
    RmwNibbleFits(RmwValue(dsts, 0, 3, speed), 18, link);
  }

  /**
   * The same for the host fields: with any GCTL whose opmode is not 2, a U3 link
   * state, both port speeds and an LTSSM link state and sub-state stored with
   * RMWREG32 come back unchanged.
   */
  lemma {:induction false} HostFieldsRoundTrip(gctl: bv32, portscU2: bv32, portscU3: bv32, ltssm: bv32, dsts: bv32,
                                                u3Link: bv32, u2Speed: bv32, u3Speed: bv32,
                                                ltssmLink: bv32, ltssmSub: bv32)
    requires Opmode(gctl) != 2 && u3Link <= 15 && u2Speed <= 15 && u3Speed <= 15
    requires ltssmLink <= 15 && ltssmSub <= 15
    ensures var p2 := RmwValue(portscU2, 10, 4, u2Speed);
            var p3 := RmwValue(RmwValue(portscU3, 5, 4, u3Link), 10, 4, u3Speed);
            var l := RmwValue(RmwValue(ltssm, 22, 4, ltssmLink), 18, 4, ltssmSub);
            var r := DecodeLinkState(gctl, p2, p3, l, dsts);
            r.HostReport? && r.u3Link == u3Link && r.u2Speed == u2Speed && r.u3Speed == u3Speed
            && r.ltssmLink == ltssmLink && r.ltssmSub == ltssmSub
  {
    RmwNibbleFits(portscU2, 10, u2Speed);
    RmwNibbleFits(RmwValue(portscU3, 5, 4, u3Link), 10, u3Speed);
    RmwNibbleFits(portscU3, 5, u3Link);
    RmwNibbleFits(RmwValue(ltssm, 22, 4, ltssmLink), 18, ltssmSub);
    RmwNibbleFits(ltssm, 22, ltssmLink);
  }

  /** After Device mode's writes the reporter takes the device branch, whatever the speed. */
  lemma DeviceModeIsReportedAsDevice(m: RegMap, speed: int)
    requires HasRegs(m)
    ensures ReportOf(ModeRegs(m, 1, speed)).DeviceReport?
  {
  }

  /**
   * After Host mode's writes the reporter takes the host branch, and the 0x2A0 both
   * PORTSC words receive reads as U3 link state 5 and speed 0 on both ports.
   */
  lemma HostModeIsReportedAsHost(m: RegMap, speed: int)
    requires HasRegs(m)
    ensures var r := ReportOf(ModeRegs(m, 2, speed));
            r.HostReport? && r.u3Link == 5 && r.u2Speed == 0 && r.u3Speed == 0
  {
  }
}
