/**
 * The steps of `usb_init` that both programs share: assert PHY reset, program the
 * PHY control words, program the controller NCR block and the PIPE control word,
 * release PHY reset, then select Device or Host mode with its handshake polls.
 *
 * Each read-modify-write is a function of the word it reads, whose contract says
 * which bits it sets, clears or keeps; each step on the register map is the
 * sequence of writes it makes; each step's method is proved to make exactly them.
 */
module LinkInit {
  import opened Bits
  import opened RegisterFile

  datatype Option<T> = None | Some(value: T)

  /** The two programs: kl_usb_test.c (tuning words, NCR at 0xD000) and th_usb.c (clock source, NCR at 0xE000). */
  datatype Variant = Kl | Th

  // Offsets from the mapped base.

  /** PHY control word k sits at phybase (base + 0x20000) + 0x10000 + 4k. */
  const PHY_CTRL0: nat := 0x3_0000
  const PHY_CTRL1: nat := 0x3_0004
  const PHY_CTRL2: nat := 0x3_0008
  const PHY_CTRL3: nat := 0x3_000C
  const PHY_CTRL4: nat := 0x3_0010
  const PHY_CTRL5: nat := 0x3_0014
  const PHY_CTRL6: nat := 0x3_0018
  const PHY_CTRL7: nat := 0x3_001C

  /** xHCI USBCMD (bit 0 is Run/Stop) and USBSTS. */
  const USBCMD: nat := 0x20
  const USBSTS: nat := 0x24
  /** xHCI PORTSC of the USB2 and USB3 ports, and PORTPMSC of the USB2 port (bits 31:28 are Port Test Control). */
  const PORTSC_U2: nat := 0x420
  const PORTPMSC_U2: nat := 0x424
  const PORTSC_U3: nat := 0x430
  /** Global control: operating mode in bits 13:12. */
  const GCTL: nat := 0xC110
  /** LTSSM state: link state in bits 25:22, sub-state in bits 21:18. */
  const LTSSM: nat := 0xC164
  /** The PIPE control word. */
  const PIPECTL: nat := 0xC2C0
  /** Device configuration (speed code in bits 2:0), device control, device status. */
  const DCFG: nat := 0xC700
  const DCTL: nat := 0xC704
  const DSTS: nat := 0xC70C

  /** The value `usb_init` writes to the PIPE control word. */
  const PIPECTL_INIT: bv32 := 0x010C_0002
  /** The value Host mode writes to both PORTSC words. */
  const PORTSC_INIT: bv32 := 0x2A0

  /** Where a variant's controller NCR block starts (its INTE word). */
  function NcrBase(v: Variant): nat
  {
    if v == Kl then 0xD000 else 0xE000
  }

  /** The NCR CTRL2 word: th_usb.c writes 0x80000000 where kl_usb_test.c writes 0. */
  function NcrCtrl2(v: Variant): bv32
  {
    if v == Kl then 0 else 0x8000_0000
  }

  /** The words the mode step may write. */
  const MODE_OFFSETS: set<nat> := {GCTL, DCFG, DCTL, PORTSC_U2, PORTSC_U3}

  /** Every register the programs name has a value; the whole window (`Covers`) implies it. */
  ghost predicate HasRegs(m: RegMap)
  {
    && PHY_CTRL0 in m && PHY_CTRL1 in m && PHY_CTRL2 in m && PHY_CTRL3 in m
    && PHY_CTRL4 in m && PHY_CTRL5 in m && PHY_CTRL6 in m && PHY_CTRL7 in m
    && USBCMD in m && USBSTS in m && PORTSC_U2 in m && PORTPMSC_U2 in m && PORTSC_U3 in m
    && GCTL in m && LTSSM in m && PIPECTL in m && DCFG in m && DCTL in m && DSTS in m
  }

  // Each read-modify-write step as a function of the word it reads.

  /** `data &= ~(1<<18); data |= (1<<0)` on PHY CTRL0: internal clock selected, reset asserted. */
  function ResetAsserted(x: bv32): bv32
  {
    (x & !(1 << 18)) | (1 << 0)
  }

  /** `data &= ~(1<<0)` on PHY CTRL0: reset released. */
  function ResetReleased(x: bv32): bv32
  {
    x & !(1 << 0)
  }

  /** Asserting reset sets bit 0 and clears bit 18 (the clock select), and touches no other bit. */
  lemma ResetAssertedBits(x: bv32)
    ensures Bit(ResetAsserted(x), 0) && !Bit(ResetAsserted(x), 18)
    ensures ResetAsserted(x) & !0x4_0001 == x & !0x4_0001
  {
  }

  /** Releasing reset clears bit 0 and touches no other bit. */
  lemma ResetReleasedBits(x: bv32)
    ensures !Bit(ResetReleased(x), 0) && ResetReleased(x) & !1 == x & !1
  {
  }

  /** `data &= ~(0x3<<12); data |= (mode<<12)`: the operating mode field of GCTL. */
  function WithOpmode(gctl: bv32, mode: bv32): (r: bv32)
    requires mode <= 3
    ensures Field(r, 12, 2) == mode
    ensures r & !0x3000 == gctl & !0x3000
  {
    (gctl & !(0x3 << 12)) | (mode << 12)
  }

  /** The device speed code `usb_init` puts in DCFG bits 2:0: 1 full, 0 high, 4 super, 0 otherwise. */
  function SpeedCode(speed: int): (c: bv32)
    ensures c <= 7
    ensures c == 1 <==> speed == 1
    ensures c == 4 <==> speed == 3
    ensures c == 0 <==> speed != 1 && speed != 3
  {
    if speed == 1 then 1
    else if speed == 2 then 0
    else if speed == 3 then 4
    else 0
  }

  /** `data &= ~0x7; data |= code` on DCFG. */
  function WithSpeed(dcfg: bv32, code: bv32): (r: bv32)
    requires code <= 7
    ensures Field(r, 0, 3) == code
    ensures r & !7 == dcfg & !7
  {
    (dcfg & !0x7) | code
  }

  /** `data |= (1<<k)`. */
  function SetBit(x: bv32, k: BitIndex): bv32
  {
    x | (1 << k)
  }

  /** `data &= ~(1<<k)`. */
  function ClearBit(x: bv32, k: BitIndex): bv32
  {
    x & !(1 << k)
  }

  /** DCTL after Device mode: bit 30 set, every other bit kept. */
  function DeviceDctl(dctl: bv32): (r: bv32)
    ensures Bit(r, 30)
    ensures r & !0x4000_0000 == dctl & !0x4000_0000
  {
    SetBit(dctl, 30)
  }

  /**
   * GCTL after Host mode: opmode 1, and bit 11 set for its handshake and cleared
   * again afterwards, whatever the poll saw.
   */
  function HostGctl(gctl: bv32): (r: bv32)
    ensures Field(r, 12, 2) == 1 && !Bit(r, 11)
    ensures r & !0x3800 == gctl & !0x3800
  {
    ClearBit(SetBit(WithOpmode(gctl, 1), 11), 11)
  }

  // The steps on the whole register map, each as the writes it makes, in order.

  /** Reset asserted on PHY CTRL0. */
  function PhyResetAsserted(m: RegMap): RegMap
    requires PHY_CTRL0 in m
  {
    m[PHY_CTRL0 := ResetAsserted(m[PHY_CTRL0])]
  }

  /** The eight PHY control words, CTRL0 first. */
  function PhyWordsWritten(m: RegMap, w: seq<bv32>): RegMap
    requires |w| == 8
  {
    m[PHY_CTRL0 := w[0]][PHY_CTRL1 := w[1]][PHY_CTRL2 := w[2]][PHY_CTRL3 := w[3]]
     [PHY_CTRL4 := w[4]][PHY_CTRL5 := w[5]][PHY_CTRL6 := w[6]][PHY_CTRL7 := w[7]]
  }

  /** The controller NCR block, INTE first, then the PIPE control word. */
  function NcrWritten(m: RegMap, v: Variant): RegMap
  {
    var b := NcrBase(v);
    m[b := 3][b + 0x10 := 0x0021_0080][b + 0x14 := 0][b + 0x18 := NcrCtrl2(v)][b + 0x1C := 0]
     [b + 0x20 := 0][b + 0x24 := 0][b + 0x28 := 0][b + 0x2C := 0][PIPECTL := PIPECTL_INIT]
  }

  /** Reset released on PHY CTRL0. */
  function PhyResetReleased(m: RegMap): RegMap
    requires PHY_CTRL0 in m
  {
    m[PHY_CTRL0 := ResetReleased(m[PHY_CTRL0])]
  }

  /** Device mode: opmode 2, the speed code in DCFG, DCTL bit 30 set. */
  function DeviceModeRegs(m: RegMap, speed: int): RegMap
    requires GCTL in m && DCFG in m && DCTL in m
  {
    m[GCTL := WithOpmode(m[GCTL], 2)]
     [DCFG := WithSpeed(m[DCFG], SpeedCode(speed))]
     [DCTL := DeviceDctl(m[DCTL])]
  }

  /** Host mode: GCTL as `HostGctl` leaves it, both PORTSC words 0x2A0. */
  function HostModeRegs(m: RegMap): RegMap
    requires GCTL in m
  {
    m[GCTL := HostGctl(m[GCTL])]
     [PORTSC_U2 := PORTSC_INIT]
     [PORTSC_U3 := PORTSC_INIT]
  }

  /** `usb_mode` 1 is Device, 2 is Host; any other value writes nothing. */
  function ModeRegs(m: RegMap, mode: int, speed: int): RegMap
    requires GCTL in m && DCFG in m && DCTL in m
  {
    if mode == 1 then DeviceModeRegs(m, speed)
    else if mode == 2 then HostModeRegs(m)
    else m
  }

  /**
   * The register effect of `usb_init` up to the mode step, given the PHY words the
   * variant chose (None when its PHY selection matched no case).
   */
  function PhyAndNcrRegs(v: Variant, m: RegMap, phyWords: Option<seq<bv32>>): RegMap
    requires PHY_CTRL0 in m
    requires phyWords.Some? ==> |phyWords.value| == 8
  {
    var m1 := PhyResetAsserted(m);
    var m2 := if phyWords.Some? then PhyWordsWritten(m1, phyWords.value) else m1;
    PhyResetReleased(NcrWritten(m2, v))
  }

  // Where each step writes: the offsets it stores and the values they end with.

  /** The controller NCR block of the variant and the PIPE control word hold the values `usb_init` writes. */
  ghost predicate NcrProgrammed(r: RegMap, v: Variant)
  {
    var b := NcrBase(v);
    && b in r && r[b] == 3
    && b + 0x10 in r && r[b + 0x10] == 0x0021_0080
    && b + 0x14 in r && r[b + 0x14] == 0
    && b + 0x18 in r && r[b + 0x18] == NcrCtrl2(v)
    && b + 0x1C in r && r[b + 0x1C] == 0
    && b + 0x20 in r && r[b + 0x20] == 0
    && b + 0x24 in r && r[b + 0x24] == 0
    && b + 0x28 in r && r[b + 0x28] == 0
    && b + 0x2C in r && r[b + 0x2C] == 0
    && PIPECTL in r && r[PIPECTL] == PIPECTL_INIT
  }

  /** PHY CTRL0 holds `ctrl0` and PHY CTRL k, for k from 1 to 7, the k-th of the eight words. */
  ghost predicate PhyHolds(r: RegMap, ctrl0: bv32, w: seq<bv32>)
    requires |w| == 8
  {
    && PHY_CTRL0 in r && r[PHY_CTRL0] == ctrl0
    && PHY_CTRL1 in r && r[PHY_CTRL1] == w[1]
    && PHY_CTRL2 in r && r[PHY_CTRL2] == w[2]
    && PHY_CTRL3 in r && r[PHY_CTRL3] == w[3]
    && PHY_CTRL4 in r && r[PHY_CTRL4] == w[4]
    && PHY_CTRL5 in r && r[PHY_CTRL5] == w[5]
    && PHY_CTRL6 in r && r[PHY_CTRL6] == w[6]
    && PHY_CTRL7 in r && r[PHY_CTRL7] == w[7]
  }

  /** The eight PHY words of a map, CTRL0 first. */
  function PhyWordsOf(m: RegMap): (w: seq<bv32>)
    requires HasRegs(m)
    ensures |w| == 8 && PhyHolds(m, w[0], w)
  {
    [m[PHY_CTRL0], m[PHY_CTRL1], m[PHY_CTRL2], m[PHY_CTRL3], m[PHY_CTRL4], m[PHY_CTRL5], m[PHY_CTRL6], m[PHY_CTRL7]]
  }

  /** The ten offsets the NCR step writes: nine words of its block and the PIPE control word. */
  function NcrOffsets(v: Variant): set<nat>
  {
    var b := NcrBase(v);
    {b, b + 0x10, b + 0x14, b + 0x18, b + 0x1C, b + 0x20, b + 0x24, b + 0x28, b + 0x2C, PIPECTL}
  }

  /** The NCR step stores only those ten words; the block's unwritten words 4, 8 and 0xC among the rest are kept. */
  lemma NcrKeeps(m: RegMap, v: Variant, off: nat)
    requires off in m && off !in NcrOffsets(v)
    ensures off in NcrWritten(m, v) && NcrWritten(m, v)[off] == m[off]
  {
  }

  /** The NCR step programs the block, whatever it held. */
  lemma NcrWrittenProgrammed(m: RegMap, v: Variant)
    ensures NcrProgrammed(NcrWritten(m, v), v)
  {
    if v == Kl {
    } else {
    }
  }

  /** No PHY word is among the NCR step's offsets. */
  lemma PhyOutsideNcr(v: Variant)
    ensures PHY_CTRL0 !in NcrOffsets(v) && PHY_CTRL1 !in NcrOffsets(v) && PHY_CTRL2 !in NcrOffsets(v)
    ensures PHY_CTRL3 !in NcrOffsets(v) && PHY_CTRL4 !in NcrOffsets(v) && PHY_CTRL5 !in NcrOffsets(v)
    ensures PHY_CTRL6 !in NcrOffsets(v) && PHY_CTRL7 !in NcrOffsets(v)
  {
  }

  /** The NCR step leaves the eight PHY words alone. */
  lemma {:induction false} NcrKeepsPhy(m: RegMap, v: Variant, ctrl0: bv32, w: seq<bv32>)
    requires |w| == 8 && PhyHolds(m, ctrl0, w)
    ensures PhyHolds(NcrWritten(m, v), ctrl0, w)
  {
    PhyOutsideNcr(v);
    NcrKeeps(m, v, PHY_CTRL0);
    NcrKeeps(m, v, PHY_CTRL1);
    NcrKeeps(m, v, PHY_CTRL2);
    NcrKeeps(m, v, PHY_CTRL3);
    NcrKeeps(m, v, PHY_CTRL4);
    NcrKeeps(m, v, PHY_CTRL5);
    NcrKeeps(m, v, PHY_CTRL6);
    NcrKeeps(m, v, PHY_CTRL7);
  }

  /** The mode step stores only the words of `MODE_OFFSETS`. */
  lemma ModeKeeps(m: RegMap, mode: int, speed: int, off: nat)
    requires HasRegs(m) && off in m && off !in MODE_OFFSETS
    ensures HasRegs(ModeRegs(m, mode, speed))
    ensures off in ModeRegs(m, mode, speed) && ModeRegs(m, mode, speed)[off] == m[off]
  {
  }

  /** Device mode leaves opmode 2 in GCTL, the speed code in DCFG and DCTL bit 30 set. */
  lemma DeviceModeWords(m: RegMap, speed: int)
    requires HasRegs(m)
    ensures var r := ModeRegs(m, 1, speed);
            Field(r[GCTL], 12, 2) == 2 && Field(r[DCFG], 0, 3) == SpeedCode(speed) && Bit(r[DCTL], 30)
  {
  }

  /** Host mode leaves opmode 1 in GCTL with bit 11 clear, and 0x2A0 in both PORTSC words. */
  lemma HostModeWords(m: RegMap, speed: int)
    requires HasRegs(m)
    ensures var r := ModeRegs(m, 2, speed);
            Field(r[GCTL], 12, 2) == 1 && !Bit(r[GCTL], 11) && r[PORTSC_U2] == PORTSC_INIT && r[PORTSC_U3] == PORTSC_INIT
  {
  }

  /** Device mode leaves the PHY words alone. */
  lemma DeviceModeKeepsPhy(m: RegMap, speed: int, ctrl0: bv32, w: seq<bv32>)
    requires HasRegs(m) && |w| == 8 && PhyHolds(m, ctrl0, w)
    ensures PhyHolds(DeviceModeRegs(m, speed), ctrl0, w)
  {
  }

  /** Host mode leaves the PHY words alone. */
  lemma HostModeKeepsPhy(m: RegMap, ctrl0: bv32, w: seq<bv32>)
    requires HasRegs(m) && |w| == 8 && PhyHolds(m, ctrl0, w)
    ensures PhyHolds(HostModeRegs(m), ctrl0, w)
  {
  }

  /** The mode step leaves the PHY words alone, whatever the mode. */
  lemma {:induction false} ModeKeepsPhy(m: RegMap, mode: int, speed: int, ctrl0: bv32, w: seq<bv32>)
    requires HasRegs(m) && |w| == 8 && PhyHolds(m, ctrl0, w)
    ensures PhyHolds(ModeRegs(m, mode, speed), ctrl0, w)
  {
    if mode == 1 {
      DeviceModeKeepsPhy(m, speed, ctrl0, w);
    } else if mode == 2 {
      HostModeKeepsPhy(m, ctrl0, w);
    }
  }

  /** Device mode leaves the NCR block alone. */
  lemma DeviceModeKeepsNcr(m: RegMap, speed: int, v: Variant)
    requires HasRegs(m) && NcrProgrammed(m, v)
    ensures NcrProgrammed(DeviceModeRegs(m, speed), v)
  {
  }

  /** Host mode leaves the NCR block alone. */
  lemma HostModeKeepsNcr(m: RegMap, v: Variant)
    requires HasRegs(m) && NcrProgrammed(m, v)
    ensures NcrProgrammed(HostModeRegs(m), v)
  {
  }

  /** The mode step leaves the NCR block alone, whatever the mode. */
  lemma {:induction false} ModeKeepsNcr(m: RegMap, mode: int, speed: int, v: Variant)
    requires HasRegs(m) && NcrProgrammed(m, v)
    ensures NcrProgrammed(ModeRegs(m, mode, speed), v)
  {
    if mode == 1 {
      DeviceModeKeepsNcr(m, speed, v);
    } else if mode == 2 {
      HostModeKeepsNcr(m, v);
    }
  }

  /** Reset asserted then released leaves PHY CTRL0 with bits 0 and 18 cleared and every other bit kept. */
  lemma ResetCycle(x: bv32)
    ensures ResetReleased(ResetAsserted(x)) == x & !0x4_0001
  {
  }

  /** Whatever the PHY words, the NCR block is programmed once the PHY leaves reset. */
  lemma {:induction false} PhyAndNcrProgrammed(v: Variant, m: RegMap, w: Option<seq<bv32>>)
    requires HasRegs(m) && (w.Some? ==> |w.value| == 8)
    ensures HasRegs(PhyAndNcrRegs(v, m, w)) && NcrProgrammed(PhyAndNcrRegs(v, m, w), v)
  {
    var m1 := PhyResetAsserted(m);
    var m2 := if w.Some? then PhyWordsWritten(m1, w.value) else m1;
    assert HasRegs(m2);
    NcrWrittenHasRegs(m2, v);
    NcrWrittenProgrammed(m2, v);
    ReleaseKeepsNcr(NcrWritten(m2, v), v);
  }

  /** The NCR step only adds words, so every named register keeps a value. */
  lemma NcrWrittenHasRegs(m: RegMap, v: Variant)
    requires HasRegs(m)
    ensures HasRegs(NcrWritten(m, v))
  {
    if v == Kl {
    } else {
    }
  }

  /** The reset release, a write of PHY CTRL0 only, leaves the NCR block alone. */
  lemma ReleaseKeepsNcr(m: RegMap, v: Variant)
    requires PHY_CTRL0 in m && NcrProgrammed(m, v)
    ensures NcrProgrammed(PhyResetReleased(m), v)
  {
    if v == Kl {
    } else {
    }
  }

  /** The PHY word step leaves each PHY word holding its word. */
  lemma PhyWordsHold(m: RegMap, w: seq<bv32>)
    requires |w| == 8
    ensures PhyHolds(PhyWordsWritten(m, w), w[0], w)
  {
  }

  /** The reset release changes PHY CTRL0 only. */
  lemma ReleaseKeepsPhy(m: RegMap, ctrl0: bv32, w: seq<bv32>)
    requires |w| == 8 && PhyHolds(m, ctrl0, w)
    ensures PhyHolds(PhyResetReleased(m), ResetReleased(ctrl0), w)
  {
  }

  /** With PHY words, the PHY holds them, CTRL0 with reset released. */
  lemma {:induction false} PhyAndNcrWithWords(v: Variant, m: RegMap, w: seq<bv32>)
    requires PHY_CTRL0 in m && |w| == 8
    ensures PhyHolds(PhyAndNcrRegs(v, m, Some(w)), ResetReleased(w[0]), w)
  {
    var m2 := PhyWordsWritten(PhyResetAsserted(m), w);
    PhyWordsHold(PhyResetAsserted(m), w);
    NcrKeepsPhy(m2, v, w[0], w);
    ReleaseKeepsPhy(NcrWritten(m2, v), w[0], w);
  }

  /**
   * Without PHY words, the PHY keeps what it held, except that CTRL0 has been
   * through reset: bit 18 and bit 0 end cleared.
   */
  lemma {:induction false} PhyAndNcrWithoutWords(v: Variant, m: RegMap)
    requires HasRegs(m)
    ensures PhyHolds(PhyAndNcrRegs(v, m, None), ResetReleased(ResetAsserted(m[PHY_CTRL0])), PhyWordsOf(m))
  {
    var m1 := PhyResetAsserted(m);
    assert PhyHolds(m1, ResetAsserted(m[PHY_CTRL0]), PhyWordsOf(m));
    NcrKeepsPhy(m1, v, ResetAsserted(m[PHY_CTRL0]), PhyWordsOf(m));
  }

  // The steps as methods on the register file.

  /** The feed only loses values from its front. */
  ghost predicate FeedConsumed(before: seq<bv32>, after: seq<bv32>)
  {
    |after| <= |before| && after == before[|before| - |after|..]
  }

  /** The trace gains at most `most` events, each one of `allowed`. */
  ghost predicate AppendsOnly(before: seq<Event>, after: seq<Event>, allowed: set<Event>, most: nat)
  {
    |before| <= |after| <= |before| + most && after[..|before|] == before
    && forall i :: |before| <= i < |after| ==> after[i] in allowed
  }

  lemma AppendAssoc(a: seq<Event>, b: seq<Event>, c: seq<Event>)
    ensures a + b + c == a + (b + c)
  {
  }

  lemma UpdateTwice(m: RegMap, k: nat, a: bv32, b: bv32)
    ensures m[k := a][k := b] == m[k := b]
  {
  }

  lemma FeedConsumedTrans(f0: seq<bv32>, f1: seq<bv32>, f2: seq<bv32>)
    requires FeedConsumed(f0, f1) && FeedConsumed(f1, f2)
    ensures FeedConsumed(f0, f2)
  {
  }

  lemma AppendsOnlyTrans(e0: seq<Event>, e1: seq<Event>, e2: seq<Event>, a1: set<Event>, a2: set<Event>, n1: nat, n2: nat)
    requires AppendsOnly(e0, e1, a1, n1) && AppendsOnly(e1, e2, a2, n2)
    ensures AppendsOnly(e0, e2, a1 + a2, n1 + n2)
  {
  }

  method AssertPhyReset(blk: UsbBlock)
    requires blk.Valid()
    modifies blk
    ensures blk.Valid()
    ensures blk.regs == PhyResetAsserted(old(blk.regs))
    ensures ModeInputsKept(old(blk.regs), blk.regs)
    ensures blk.pollFeed == old(blk.pollFeed) && blk.events == old(blk.events)
  {
    var data := blk.Readl(PHY_CTRL0);
    data := data & !(1 << 18);
    data := data | (1 << 0);
    blk.Writel(data, PHY_CTRL0);
  }

  method WritePhyWords(blk: UsbBlock, w: seq<bv32>)
    requires blk.Valid() && |w| == 8
    modifies blk
    ensures blk.Valid()
    ensures blk.regs == PhyWordsWritten(old(blk.regs), w)
    ensures ModeInputsKept(old(blk.regs), blk.regs)
    ensures blk.pollFeed == old(blk.pollFeed) && blk.events == old(blk.events)
  {
    blk.Writel(w[0], PHY_CTRL0);
    blk.Writel(w[1], PHY_CTRL1);
    blk.Writel(w[2], PHY_CTRL2);
    blk.Writel(w[3], PHY_CTRL3);
    blk.Writel(w[4], PHY_CTRL4);
    blk.Writel(w[5], PHY_CTRL5);
    blk.Writel(w[6], PHY_CTRL6);
    blk.Writel(w[7], PHY_CTRL7);
    PhyWordsKeepModeInputs(old(blk.regs), w);
  }

  method InitControllerNcr(blk: UsbBlock, v: Variant)
    requires blk.Valid()
    modifies blk
    ensures blk.Valid()
    ensures blk.regs == NcrWritten(old(blk.regs), v)
    ensures ModeInputsKept(old(blk.regs), blk.regs)
    ensures blk.pollFeed == old(blk.pollFeed) && blk.events == old(blk.events)
  {
    var b := NcrBase(v);
    blk.Writel(0x0000_0003, b);
    blk.Writel(0x0021_0080, b + 0x10);
    blk.Writel(0x0000_0000, b + 0x14);
    blk.Writel(NcrCtrl2(v), b + 0x18);
    blk.Writel(0x0000_0000, b + 0x1C);
    blk.Writel(0x0000_0000, b + 0x20);
    blk.Writel(0x0000_0000, b + 0x24);
    blk.Writel(0x0000_0000, b + 0x28);
    blk.Writel(0x0000_0000, b + 0x2C);
    blk.Writel(PIPECTL_INIT, PIPECTL);
    NcrKeepsModeInputs(old(blk.regs), v);
  }

  method ReleasePhyReset(blk: UsbBlock)
    requires blk.Valid()
    modifies blk
    ensures blk.Valid()
    ensures blk.regs == PhyResetReleased(old(blk.regs))
    ensures ModeInputsKept(old(blk.regs), blk.regs)
    ensures blk.pollFeed == old(blk.pollFeed) && blk.events == old(blk.events)
  {
    var data := blk.Readl(PHY_CTRL0);
    data := data & !(1 << 0);
    blk.Writel(data, PHY_CTRL0);
  }

  /**
   * A handshake poll as the mode steps see it: no register changes, the feed loses
   * what the poll read, and the timeout message naming the polled register is
   * traced exactly when the bit is first seen clear on the 1000th read.
   * `timedOut` is the corrected reading of the poll: all 1000 reads saw the bit set.
   * The source ignores it, and so do the mode steps.
   */
  method AwaitBitClear(blk: UsbBlock, off: nat, bit: BitIndex) returns (timedOut: bool)
    requires blk.Valid() && Mapped(off)
    modifies blk
    ensures blk.Valid()
    ensures blk.regs == old(blk.regs)
    ensures FeedConsumed(old(blk.pollFeed), blk.pollFeed)
    ensures AppendsOnly(old(blk.events), blk.events, {TimeoutReported(off)}, 1)
    ensures blk.events == old(blk.events) + PollTrace(old(blk.pollFeed), old(blk.regs)[off], off, bit)
    ensures blk.pollFeed == FeedAfterPoll(old(blk.pollFeed), old(blk.regs)[off], bit)
    ensures timedOut <==> forall k :: 0 <= k < POLL_LIMIT ==> Bit(FeedRead(old(blk.pollFeed), old(blk.regs)[off], k), bit)
  {
    var o := blk.PollBitClear(off, bit);
    TimedOutIffNeverClear(o, old(blk.pollFeed), blk.regs[off], bit);
    TimeoutMessageIffClearsOnLastRead(o, old(blk.pollFeed), blk.regs[off], bit);
    PollReadsOfOutcome(o, old(blk.pollFeed), blk.regs[off], bit);
    timedOut := TimedOut(o);
  }

  /** The GCTL operating-mode read-modify-write. */
  method WriteOpmode(blk: UsbBlock, mode: bv32)
    requires blk.Valid() && mode <= 3
    modifies blk
    ensures blk.Valid()
    ensures blk.regs == old(blk.regs)[GCTL := WithOpmode(old(blk.regs)[GCTL], mode)]
    ensures blk.pollFeed == old(blk.pollFeed) && blk.events == old(blk.events)
  {
    var data := blk.Readl(GCTL);
    data := WithOpmode(data, mode);
    blk.Writel(data, GCTL);
  }

  /** The modify part of the DCFG speed read-modify-write: the code by speed, 0 for any speed but 1, 2 or 3. */
  method SpeedWord(dcfg: bv32, speed: int) returns (data: bv32)
    ensures data == WithSpeed(dcfg, SpeedCode(speed))
  {
    var code: bv32 := 0;
    if speed == 1 {
      code := 1;  // full
    } else if speed == 2 {
      code := 0;  // high
    } else if speed == 3 {
      code := 4;  // super
    }
    data := WithSpeed(dcfg, code);
  }

  /** The DCFG speed read-modify-write. */
  method WriteDeviceSpeed(blk: UsbBlock, speed: int)
    requires blk.Valid()
    modifies blk
    ensures blk.Valid()
    ensures blk.regs == old(blk.regs)[DCFG := WithSpeed(old(blk.regs)[DCFG], SpeedCode(speed))]
    ensures blk.pollFeed == old(blk.pollFeed) && blk.events == old(blk.events)
  {
    var data := blk.Readl(DCFG);
    data := SpeedWord(data, speed);
    blk.Writel(data, DCFG);
  }

  /** `data = readl(r); data |= (1<<k); writel(data, r)`. */
  method SetRegBit(blk: UsbBlock, off: nat, k: BitIndex)
    requires blk.Valid() && Mapped(off)
    modifies blk
    ensures blk.Valid()
    ensures blk.regs == old(blk.regs)[off := SetBit(old(blk.regs)[off], k)]
    ensures blk.pollFeed == old(blk.pollFeed) && blk.events == old(blk.events)
  {
    var data := blk.Readl(off);
    data := data | (1 << k);
    blk.Writel(data, off);
  }

  /** `data = readl(r); data &= ~(1<<k); writel(data, r)`. */
  method ClearRegBit(blk: UsbBlock, off: nat, k: BitIndex)
    requires blk.Valid() && Mapped(off)
    modifies blk
    ensures blk.Valid()
    ensures blk.regs == old(blk.regs)[off := ClearBit(old(blk.regs)[off], k)]
    ensures blk.pollFeed == old(blk.pollFeed) && blk.events == old(blk.events)
  {
    var data := blk.Readl(off);
    data := ClearBit(data, k);
    blk.Writel(data, off);
  }

  /** Device mode, then a poll waiting for hardware to clear DCTL bit 30. */
  method SetDeviceMode(blk: UsbBlock, speed: int)
    requires blk.Valid()
    modifies blk
    ensures blk.Valid()
    ensures blk.regs == DeviceModeRegs(old(blk.regs), speed)
    ensures FeedConsumed(old(blk.pollFeed), blk.pollFeed)
    ensures AppendsOnly(old(blk.events), blk.events, {TimeoutReported(DCTL)}, 1)
    ensures blk.events == old(blk.events) + PollTrace(old(blk.pollFeed), blk.regs[DCTL], DCTL, 30)
    ensures blk.pollFeed == FeedAfterPoll(old(blk.pollFeed), blk.regs[DCTL], 30)
  {
    WriteOpmode(blk, 2);
    WriteDeviceSpeed(blk, speed);
    SetRegBit(blk, DCTL, 30);
    var _ := AwaitBitClear(blk, DCTL, 30);
  }

  /** Set GCTL bit 11, wait for hardware to clear it, then clear it anyway. */
  method GctlBitHandshake(blk: UsbBlock)
    requires blk.Valid()
    modifies blk
    ensures blk.Valid()
    ensures blk.regs == old(blk.regs)[GCTL := ClearBit(SetBit(old(blk.regs)[GCTL], 11), 11)]
    ensures FeedConsumed(old(blk.pollFeed), blk.pollFeed)
    ensures AppendsOnly(old(blk.events), blk.events, {TimeoutReported(GCTL)}, 1)
    ensures blk.events == old(blk.events) + PollTrace(old(blk.pollFeed), SetBit(old(blk.regs)[GCTL], 11), GCTL, 11)
    ensures blk.pollFeed == FeedAfterPoll(old(blk.pollFeed), SetBit(old(blk.regs)[GCTL], 11), 11)
  {
    ghost var m0: RegMap := blk.regs;
    SetRegBit(blk, GCTL, 11);
    ghost var g: bv32 := blk.regs[GCTL];
    var _ := AwaitBitClear(blk, GCTL, 11);
    ClearRegBit(blk, GCTL, 11);
    UpdateTwice(m0, GCTL, g, ClearBit(g, 11));
  }

  /**
   * The GCTL part of Host mode: opmode 1, wait for USBSTS bit 11 to read clear, set
   * GCTL bit 11 and wait for hardware to clear it, then clear it anyway.
   */
  method HostHandshake(blk: UsbBlock)
    requires blk.Valid()
    modifies blk
    ensures blk.Valid()
    ensures blk.regs == old(blk.regs)[GCTL := HostGctl(old(blk.regs)[GCTL])]
    ensures FeedConsumed(old(blk.pollFeed), blk.pollFeed)
    ensures AppendsOnly(old(blk.events), blk.events, {TimeoutReported(USBSTS), TimeoutReported(GCTL)}, 2)
    ensures blk.events == old(blk.events) + HostPollTrace(old(blk.pollFeed), old(blk.regs)[USBSTS], old(blk.regs)[GCTL])
    ensures blk.pollFeed == HostFeedAfter(old(blk.pollFeed), old(blk.regs)[USBSTS], old(blk.regs)[GCTL])
  {
    ghost var m0: RegMap := blk.regs;
    WriteOpmode(blk, 1);
    ghost var events0, g1: bv32 := blk.events, blk.regs[GCTL];
    assert blk.regs[USBSTS] == m0[USBSTS];
    var _ := AwaitBitClear(blk, USBSTS, 11);
    ghost var feed1, events1 := blk.pollFeed, blk.events;
    ghost var t1 := PollTrace(old(blk.pollFeed), m0[USBSTS], USBSTS, 11);
    GctlBitHandshake(blk);
    ghost var t2 := PollTrace(feed1, SetBit(g1, 11), GCTL, 11);
    assert t1 + t2 == HostPollTrace(old(blk.pollFeed), m0[USBSTS], m0[GCTL]);
    assert blk.events == old(blk.events) + t1 + t2;
    AppendAssoc(old(blk.events), t1, t2);
    UpdateTwice(m0, GCTL, g1, ClearBit(SetBit(g1, 11), 11));
    FeedConsumedTrans(old(blk.pollFeed), feed1, blk.pollFeed);
    AppendsOnlyTrans(events0, events1, blk.events, {TimeoutReported(USBSTS)}, {TimeoutReported(GCTL)}, 1, 1);
  }

  /** Host mode: the GCTL handshake, then both PORTSC words. */
  method SetHostMode(blk: UsbBlock)
    requires blk.Valid()
    modifies blk
    ensures blk.Valid()
    ensures blk.regs == HostModeRegs(old(blk.regs))
    ensures FeedConsumed(old(blk.pollFeed), blk.pollFeed)
    ensures AppendsOnly(old(blk.events), blk.events, {TimeoutReported(USBSTS), TimeoutReported(GCTL)}, 2)
    ensures blk.events == old(blk.events) + HostPollTrace(old(blk.pollFeed), old(blk.regs)[USBSTS], old(blk.regs)[GCTL])
    ensures blk.pollFeed == HostFeedAfter(old(blk.pollFeed), old(blk.regs)[USBSTS], old(blk.regs)[GCTL])
  {
    HostHandshake(blk);
    blk.Writel(PORTSC_INIT, PORTSC_U2);
    blk.Writel(PORTSC_INIT, PORTSC_U3);
  }

  /**
   * The messages of Host mode's two polls: USBSTS bit 11, then GCTL bit 11 in the
   * word just written (opmode 1, bit 11 set), the second poll reading the feed the
   * first one leaves.
   */
  ghost function HostPollTrace(feed: seq<bv32>, usbsts: bv32, gctl: bv32): seq<Event>
  {
    PollTrace(feed, usbsts, USBSTS, 11)
    + PollTrace(FeedAfterPoll(feed, usbsts, 11), SetBit(WithOpmode(gctl, 1), 11), GCTL, 11)
  }

  /** The feed left after Host mode's two polls. */
  function HostFeedAfter(feed: seq<bv32>, usbsts: bv32, gctl: bv32): seq<bv32>
  {
    FeedAfterPoll(FeedAfterPoll(feed, usbsts, 11), SetBit(WithOpmode(gctl, 1), 11), 11)
  }

  /** The messages the mode step prints, from the feed and the USBSTS, GCTL and DCTL words it starts with. */
  ghost function ModeTrace(feed: seq<bv32>, usbsts: bv32, gctl: bv32, dctl: bv32, mode: int): seq<Event>
  {
    if mode == 1 then PollTrace(feed, DeviceDctl(dctl), DCTL, 30)
    else if mode == 2 then HostPollTrace(feed, usbsts, gctl)
    else []
  }

  /**
   * Both Host mode messages print, USBSTS first, when each poll sees its bit clear
   * only on its 1000th read: the second poll starts where the first one stopped.
   */
  lemma {:induction false} HostBothLate(gctl: bv32)
    ensures var late := seq(POLL_LIMIT - 1, _ => 0xFFFF_FFFF) + [0];
            HostPollTrace(late + late, 0, gctl) == [TimeoutReported(USBSTS), TimeoutReported(GCTL)]
  {
    var late := seq(POLL_LIMIT - 1, _ => 0xFFFF_FFFF) + [0];
    var feed := late + late;
    var o := PollOutcome(POLL_LIMIT, true, 0);
    assert forall k :: 0 <= k < POLL_LIMIT - 1 ==> Bit(FeedRead(feed, 0, k), 11);
    assert !Bit(FeedRead(feed, 0, POLL_LIMIT - 1), 11);
    assert IsPollOutcome(o, feed, 0, 11);
    PollReadsOfOutcome(o, feed, 0, 11);
    assert FeedAfterPoll(feed, 0, 11) == late;
    assert ClearsOnLastRead(feed, 0, 11);
    LateClearTracesMessage(GCTL, 11);
  }

  /** The feed left after the mode step. */
  function ModeFeedAfter(feed: seq<bv32>, usbsts: bv32, gctl: bv32, dctl: bv32, mode: int): seq<bv32>
  {
    if mode == 1 then FeedAfterPoll(feed, DeviceDctl(dctl), 30)
    else if mode == 2 then HostFeedAfter(feed, usbsts, gctl)
    else feed
  }

  /**
   * Host mode prints at most the USBSTS message and then the GCTL one, each at most
   * once and never in the other order.
   */
  lemma HostTraceOrder(feed: seq<bv32>, usbsts: bv32, gctl: bv32)
    ensures var t := HostPollTrace(feed, usbsts, gctl);
            || t == []
            || t == [TimeoutReported(USBSTS)]
            || t == [TimeoutReported(GCTL)]
            || t == [TimeoutReported(USBSTS), TimeoutReported(GCTL)]
  {
  }

  /** `r` holds the USBSTS, GCTL and DCTL words of `m`: the words the mode step starts from. */
  ghost predicate ModeInputsKept(m: RegMap, r: RegMap)
  {
    && USBSTS in m && GCTL in m && DCTL in m
    && USBSTS in r && GCTL in r && DCTL in r
    && r[USBSTS] == m[USBSTS] && r[GCTL] == m[GCTL] && r[DCTL] == m[DCTL]
  }

  /** The PHY word writes keep the mode step's words. */
  lemma PhyWordsKeepModeInputs(m: RegMap, w: seq<bv32>)
    requires |w| == 8 && USBSTS in m && GCTL in m && DCTL in m
    ensures ModeInputsKept(m, PhyWordsWritten(m, w))
  {
  }

  /** The NCR writes keep the mode step's words. */
  lemma NcrKeepsModeInputs(m: RegMap, v: Variant)
    requires USBSTS in m && GCTL in m && DCTL in m
    ensures ModeInputsKept(m, NcrWritten(m, v))
  {
    if v == Kl {
    } else {
    }
  }

  /** The timeout messages a mode step can print. */
  function ModeTimeouts(mode: int): set<Event>
  {
    if mode == 1 then {TimeoutReported(DCTL)}
    else if mode == 2 then {TimeoutReported(USBSTS), TimeoutReported(GCTL)}
    else {}
  }

  method ApplyMode(blk: UsbBlock, mode: int, speed: int)
    requires blk.Valid()
    modifies blk
    ensures blk.Valid()
    ensures blk.regs == ModeRegs(old(blk.regs), mode, speed)
    ensures FeedConsumed(old(blk.pollFeed), blk.pollFeed)
    ensures AppendsOnly(old(blk.events), blk.events, ModeTimeouts(mode), 2)
    ensures mode == 1 ==> blk.events == old(blk.events) + PollTrace(old(blk.pollFeed), blk.regs[DCTL], DCTL, 30)
    ensures mode != 1 && mode != 2 ==> blk.pollFeed == old(blk.pollFeed) && blk.events == old(blk.events)
    ensures blk.events == old(blk.events) + ModeTrace(old(blk.pollFeed), old(blk.regs)[USBSTS], old(blk.regs)[GCTL], old(blk.regs)[DCTL], mode)
    ensures blk.pollFeed == ModeFeedAfter(old(blk.pollFeed), old(blk.regs)[USBSTS], old(blk.regs)[GCTL], old(blk.regs)[DCTL], mode)
  {
    if mode == 1 {
      SetDeviceMode(blk, speed);
    } else if mode == 2 {
      SetHostMode(blk);
    }
  }
}
