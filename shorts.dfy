// The electrical-integrity analysis of the routed board: copper of two
// different nets touching on one layer (a short), zones whose fill order on
// a layer is ambiguous, zones that were never filled, and pads that carry
// no net. Critical findings fail the run; warnings do not.
module Shorts {
  import opened Wrappers
  import opened Seqs
  import opened Geometry
  import opened Grouping
  import opened Board

  const BOARD_W := 160.0
  const BOARD_H := 75.0
  const SLOT_X1 := 125.5
  const SLOT_X2 := 128.5
  const SLOT_Y1 := 23.5
  const SLOT_Y2 := 47.5

  /** A net named by its declaration, or by "#id" when it has none. */
  datatype NetLabel = Named(name: string) | Unnamed(id: nat)

  datatype Msg =
    | TraceShort(layer: string, n1: NetLabel, s1: Segment, n2: NetLabel, s2: Segment)
    | ShortsTruncated
    | ZoneNoPriority(zone: Zone)
    | ZonePriorityDup(zone: Zone, other: string)
    | NoZoneFill(zones: nat)
    | AllPadsNet0(pads: nat)
    | GerberError(text: string)

  // ---- overlap geometry ----

  /** Within 0.01 mm of horizontal. */
  predicate Horizontal(s: Segment)
  {
    Abs(s.y1 - s.y2) < 0.01
  }

  /** Within 0.01 mm of vertical. */
  predicate Vertical(s: Segment)
  {
    Abs(s.x1 - s.x2) < 0.01
  }

  /** The open intervals spanned by a1..a2 and b1..b2 meet. */
  predicate RangesOverlap(a1: real, a2: real, b1: real, b2: real)
  {
    Min(a1, a2) < Max(b1, b2) && Min(b1, b2) < Max(a1, a2)
  }

  /**
   * The horizontal h and the vertical v cross, their copper widened by the
   * other's half-width, closed bounds.
   */
  predicate HCrossesV(h: Segment, v: Segment, hwH: real, hwV: real)
  {
    Min(h.x1, h.x2) - hwV <= v.x1 <= Max(h.x1, h.x2) + hwV &&
    Min(v.y1, v.y2) - hwH <= h.y1 <= Max(v.y1, v.y2) + hwH
  }

  /** Parallel horizontals, parallel verticals, or a horizontal crossing a vertical in either order. */
  predicate SegmentsOverlap(s1: Segment, s2: Segment)
  {
    var hw1, hw2 := s1.width / 2.0, s2.width / 2.0;
    (Horizontal(s1) && Horizontal(s2) && Abs(s1.y1 - s2.y1) < hw1 + hw2 && RangesOverlap(s1.x1, s1.x2, s2.x1, s2.x2)) ||
    (Vertical(s1) && Vertical(s2) && Abs(s1.x1 - s2.x1) < hw1 + hw2 && RangesOverlap(s1.y1, s1.y2, s2.y1, s2.y2)) ||
    (Horizontal(s1) && Vertical(s2) && HCrossesV(s1, s2, hw1, hw2)) ||
    (Horizontal(s2) && Vertical(s1) && HCrossesV(s2, s1, hw2, hw1))
  }

  /** Overlap does not depend on the order of the two segments. */
  lemma OverlapSymmetric(s1: Segment, s2: Segment)
    ensures SegmentsOverlap(s1, s2) == SegmentsOverlap(s2, s1)
  {
    assert Abs(s1.y1 - s2.y1) == Abs(s2.y1 - s1.y1);
    assert Abs(s1.x1 - s2.x1) == Abs(s2.x1 - s1.x1);
    assert s1.width / 2.0 + s2.width / 2.0 == s2.width / 2.0 + s1.width / 2.0;
  }

  /**
   * Two horizontal, non-vertical segments overlap exactly when their
   * centre lines are closer than the sum of half-widths and their x-ranges
   * overlap strictly.
   */
  lemma ParallelHorizontalOverlap(s1: Segment, s2: Segment)
    requires Horizontal(s1) && Horizontal(s2) && !Vertical(s1) && !Vertical(s2)
    ensures SegmentsOverlap(s1, s2) <==>
            Abs(s1.y1 - s2.y1) < s1.width / 2.0 + s2.width / 2.0 &&
            Min(s1.x1, s1.x2) < Max(s2.x1, s2.x2) && Min(s2.x1, s2.x2) < Max(s1.x1, s1.x2)
  {
  }

  /** Two such segments that only meet end to end do not overlap. */
  lemma EndToEndNoOverlap(s1: Segment, s2: Segment)
    requires Horizontal(s1) && Horizontal(s2) && !Vertical(s1) && !Vertical(s2)
    requires Max(s1.x1, s1.x2) == Min(s2.x1, s2.x2)
    ensures !SegmentsOverlap(s1, s2)
  {
    ParallelHorizontalOverlap(s1, s2);
  }

  /**
   * A proper horizontal and a proper vertical overlap exactly when the
   * vertical's x lies in the horizontal's widened x-range and the
   * horizontal's y in the vertical's widened y-range, bounds included.
   */
  lemma CrossingOverlap(h: Segment, v: Segment)
    requires Horizontal(h) && !Vertical(h) && Vertical(v) && !Horizontal(v)
    ensures SegmentsOverlap(h, v) <==>
            Min(h.x1, h.x2) - v.width / 2.0 <= v.x1 <= Max(h.x1, h.x2) + v.width / 2.0 &&
            Min(v.y1, v.y2) - h.width / 2.0 <= h.y1 <= Max(v.y1, v.y2) + h.width / 2.0
  {
  }

  // ---- trace shorts ----

  function Label(nets: map<nat, string>, id: nat): NetLabel
  {
    if id in nets then Named(nets[id]) else Unnamed(id)
  }

  /** A same-layer pair is a short when its nets differ (0 included) and its copper overlaps. */
  function ShortReport(nets: map<nat, string>, s1: Segment, s2: Segment): Option<Msg>
  {
    if s1.net == s2.net then None
    else if SegmentsOverlap(s1, s2) then Some(TraceShort(s1.layer, Label(nets, s1.net), s1, Label(nets, s2.net), s2))
    else None
  }

  function ShortReporter(nets: map<nat, string>): (Segment, Segment) -> Option<Msg>
  {
    (s1: Segment, s2: Segment) => ShortReport(nets, s1, s2)
  }

  /** Every short of every same-layer pair i < j, layers in order of first appearance. */
  function ShortsAll(segs: seq<Segment>, nets: map<nat, string>): seq<Msg>
  {
    Groups(Grouped(segs, Layer), 0, ShortReporter(nets))
  }

  method CheckTraceShorts(segs: seq<Segment>, nets: map<nat, string>) returns (errors: seq<Msg>)
    ensures errors == Cap(ShortsAll(segs, nets), 50, ShortsTruncated)
  {
    var byLayer := GroupList(segs, Layer);
    errors := ScanGroupsCapped(byLayer, ShortReporter(nets), 50, ShortsTruncated);
  }

  /**
   * Before truncation, a short names exactly a pair in list order on one
   * layer with different nets whose copper overlaps; segments of one net
   * (net 0 included) are never reported.
   */
  lemma ShortsAllMember(segs: seq<Segment>, nets: map<nat, string>, s1: Segment, s2: Segment)
    ensures (exists l, n1, n2 :: TraceShort(l, n1, s1, n2, s2) in ShortsAll(segs, nets)) <==>
            PairIn(segs, s1, s2) && s1.layer == s2.layer && s1.net != s2.net && SegmentsOverlap(s1, s2)
  {
    var all := ShortsAll(segs, nets);
    if exists l, n1, n2 :: TraceShort(l, n1, s1, n2, s2) in all {
      var l, n1, n2 :| TraceShort(l, n1, s1, n2, s2) in all;
      GroupScanSound(segs, Layer, ShortReporter(nets), TraceShort(l, n1, s1, n2, s2));
    }
    if PairIn(segs, s1, s2) && s1.layer == s2.layer && s1.net != s2.net && SegmentsOverlap(s1, s2) {
      GroupScanComplete(segs, Layer, ShortReporter(nets), s1, s2);
      assert TraceShort(s1.layer, Label(nets, s1.net), s1, Label(nets, s2.net), s2) in all;
    }
  }

  /**
   * The returned list holds at most 51 shorts and then the marker, which is
   * present exactly when there were more than 50.
   */
  lemma ShortsCapped(segs: seq<Segment>, nets: map<nat, string>)
    ensures |Cap(ShortsAll(segs, nets), 50, ShortsTruncated)| <= 52
    ensures ShortsTruncated in Cap(ShortsAll(segs, nets), 50, ShortsTruncated) <==> |ShortsAll(segs, nets)| > 50
  {
    var all := ShortsAll(segs, nets);
    if ShortsTruncated in all {
      GroupScanSound(segs, Layer, ShortReporter(nets), ShortsTruncated);
    }
    if |all| > 50 {
      assert Cap(all, 50, ShortsTruncated)[51] == ShortsTruncated;
    }
  }

  // ---- zone priorities ----

  function NoPriorityReport(z: Zone): seq<Msg>
  {
    if z.priority < 0 then [ZoneNoPriority(z)] else []
  }

  /** The net name last recorded for priority p, as the `seen` dictionary holds it. */
  function LastWithPriority(zs: seq<Zone>, p: int): Option<string>
  {
    if |zs| == 0 then None
    else if zs[|zs| - 1].priority == p then Some(zs[|zs| - 1].netName)
    else LastWithPriority(zs[..|zs| - 1], p)
  }

  /** The duplicate pass: a prioritised zone whose priority was seen earlier on the layer. */
  function DupPass(zs: seq<Zone>): seq<Msg>
  {
    if |zs| == 0 then []
    else
      var init, z := zs[..|zs| - 1], zs[|zs| - 1];
      DupPass(init) +
      (if z.priority >= 0 && LastWithPriority(init, z.priority).Some? then
         [ZonePriorityDup(z, LastWithPriority(init, z.priority).value)]
       else [])
  }

  /** The errors of one layer's zones: none for a single zone. */
  function LayerZoneReport(zs: seq<Zone>): seq<Msg>
  {
    if |zs| <= 1 then [] else FlatMap(zs, NoPriorityReport) + DupPass(zs)
  }

  function ZoneErrors(zones: seq<Zone>): seq<Msg>
  {
    FlatMap(Grouped(zones, ZoneLayer), LayerZoneReport)
  }

  ghost predicate SeenOf(seen: map<int, string>, zs: seq<Zone>)
  {
    forall p :: (p in seen <==> p >= 0 && LastWithPriority(zs, p).Some?) &&
                (p in seen ==> seen[p] == LastWithPriority(zs, p).value)
  }

  lemma LastWithPriorityStep(zs: seq<Zone>, i: nat, p: int)
    requires i < |zs|
    ensures LastWithPriority(zs[..i + 1], p) == if zs[i].priority == p then Some(zs[i].netName) else LastWithPriority(zs[..i], p)
    ensures DupPass(zs[..i + 1]) == DupPass(zs[..i]) +
            (if zs[i].priority >= 0 && LastWithPriority(zs[..i], zs[i].priority).Some? then
               [ZonePriorityDup(zs[i], LastWithPriority(zs[..i], zs[i].priority).value)]
             else [])
  {
    assert zs[..i + 1][..i] == zs[..i];
  }

  /** The errors of one layer: missing priorities first, then duplicates. */
  method CheckLayerZones(zs: seq<Zone>) returns (errors: seq<Msg>)
    ensures errors == LayerZoneReport(zs)
  {
    errors := [];
    if |zs| <= 1 {
      return;
    }
    var i := 0;
    while i < |zs|
      invariant 0 <= i <= |zs|
      invariant errors == FlatMap(zs[..i], NoPriorityReport)
    {
      if zs[i].priority < 0 {
        errors := errors + [ZoneNoPriority(zs[i])];
      }
      FlatMapStep(zs, i, NoPriorityReport);
      i := i + 1;
    }
    assert zs[..i] == zs;
    var dups := ScanDuplicates(zs);
    errors := errors + dups;
  }

  /** The second pass of one layer: the `seen` dictionary of priorities met so far. */
  method ScanDuplicates(zs: seq<Zone>) returns (dups: seq<Msg>)
    ensures dups == DupPass(zs)
  {
    dups := [];
    var seen: map<int, string> := map[];
    var i := 0;
    while i < |zs|
      invariant 0 <= i <= |zs|
      invariant dups == DupPass(zs[..i])
      invariant SeenOf(seen, zs[..i])
    {
      var z := zs[i];
      forall p {
        LastWithPriorityStep(zs, i, p);
      }
      LastWithPriorityStep(zs, i, z.priority);
      if z.priority >= 0 {
        if z.priority in seen {
          dups := dups + [ZonePriorityDup(z, seen[z.priority])];
        }
        seen := seen[z.priority := z.netName];
      }
      i := i + 1;
    }
    assert zs[..i] == zs;
  }

  method CheckZonePriorities(zones: seq<Zone>) returns (errors: seq<Msg>)
    ensures errors == ZoneErrors(zones)
  {
    var byLayer := GroupList(zones, ZoneLayer);
    errors := [];
    var k := 0;
    while k < |byLayer|
      invariant 0 <= k <= |byLayer|
      invariant errors == FlatMap(byLayer[..k], LayerZoneReport)
    {
      var layerErrors := CheckLayerZones(byLayer[k]);
      errors := errors + layerErrors;
      FlatMapStep(byLayer, k, LayerZoneReport);
      k := k + 1;
    }
    assert byLayer[..k] == byLayer;
  }

  function PrioIs(p: int): Zone -> bool
  {
    (z: Zone) => z.priority == p
  }

  function DupOf(p: int): Msg -> bool
  {
    (m: Msg) => m.ZonePriorityDup? && m.zone.priority == p
  }

  /** `seen` holds a priority exactly when some earlier zone had it. */
  lemma {:induction false} LastWithPrioritySome(zs: seq<Zone>, p: int)
    ensures LastWithPriority(zs, p).Some? <==> Count(zs, PrioIs(p)) > 0
  {
    if |zs| > 0 {
      LastWithPrioritySome(zs[..|zs| - 1], p);
    }
  }

  /** k zones of a layer sharing one priority p >= 0 give exactly k - 1 duplicate errors for p. */
  lemma {:induction false} DupCount(zs: seq<Zone>, p: int)
    requires p >= 0
    ensures Count(DupPass(zs), DupOf(p)) == if Count(zs, PrioIs(p)) == 0 then 0 else Count(zs, PrioIs(p)) - 1
  {
    if |zs| > 0 {
      var init, z := zs[..|zs| - 1], zs[|zs| - 1];
      DupCount(init, p);
      LastWithPrioritySome(init, p);
      var extra := if z.priority >= 0 && LastWithPriority(init, z.priority).Some? then
                     [ZonePriorityDup(z, LastWithPriority(init, z.priority).value)] else [];
      assert DupPass(zs) == DupPass(init) + extra;
      FilterConcat(DupPass(init), extra, DupOf(p));
    }
  }

  /** The duplicate pass reports only duplicates. */
  lemma {:induction false} DupPassKinds(zs: seq<Zone>, m: Msg)
    requires m in DupPass(zs)
    ensures m.ZonePriorityDup? && m.zone in zs && m.zone.priority >= 0
  {
    if |zs| > 0 {
      var init := zs[..|zs| - 1];
      if m in DupPass(init) {
        DupPassKinds(init, m);
        assert forall z :: z in init ==> z in zs;
      }
    }
  }

  /**
   * A zone gets ZONE_NO_PRIORITY exactly when it has no priority and its
   * layer has more than one zone.
   */
  lemma NoPriorityErrors(zones: seq<Zone>, z: Zone)
    ensures ZoneNoPriority(z) in ZoneErrors(zones) <==>
            z in zones && z.priority < 0 && Count(zones, KeyIs(ZoneLayer, z.layer)) > 1
  {
    var gs := Grouped(zones, ZoneLayer);
    var m := ZoneNoPriority(z);
    FlatMapMember(gs, LayerZoneReport, m);
    forall g | 0 <= g < |gs|
      ensures m in LayerZoneReport(gs[g]) <==> |gs[g]| > 1 && z in gs[g] && z.priority < 0
    {
      if |gs[g]| > 1 {
        FlatMapMember(gs[g], NoPriorityReport, m);
        if m in DupPass(gs[g]) {
          DupPassKinds(gs[g], m);
        }
      }
    }
    forall g | 0 <= g < |gs|
      ensures z in gs[g] <==> z in zones && z.layer == Keys(zones, ZoneLayer)[g]
    {
      FilterMember(zones, KeyIs(ZoneLayer, Keys(zones, ZoneLayer)[g]), z);
    }
    if z in zones {
      GroupOf(zones, ZoneLayer, z);
    }
  }

  /** Every zone error names a listed zone whose layer has at least two zones. */
  lemma ZoneErrorsNeedTwo(zones: seq<Zone>, m: Msg)
    requires m in ZoneErrors(zones)
    ensures (m.ZoneNoPriority? || m.ZonePriorityDup?) && m.zone in zones
    ensures Count(zones, KeyIs(ZoneLayer, m.zone.layer)) > 1
  {
    var gs := Grouped(zones, ZoneLayer);
    FlatMapMember(gs, LayerZoneReport, m);
    var g :| 0 <= g < |gs| && m in LayerZoneReport(gs[g]);
    var k := Keys(zones, ZoneLayer)[g];
    assert gs[g] == Filter(zones, KeyIs(ZoneLayer, k));
    LayerReportKinds(gs[g], m);
    FilterMember(zones, KeyIs(ZoneLayer, k), m.zone);
    assert ZoneLayer(m.zone) == k;
  }

  /** A report of one layer names one of its zones, and the layer has two or more. */
  lemma LayerReportKinds(zs: seq<Zone>, m: Msg)
    requires m in LayerZoneReport(zs)
    ensures (m.ZoneNoPriority? || m.ZonePriorityDup?) && m.zone in zs && |zs| > 1
  {
    if m in FlatMap(zs, NoPriorityReport) {
      FlatMapMember(zs, NoPriorityReport, m);
    } else {
      DupPassKinds(zs, m);
    }
  }

  // ---- zone fill and pad nets ----

  /** A fill error exactly when zones exist but no filled polygon does. */
  function CheckZoneFill(zones: seq<Zone>, filledPolygons: nat): (errors: seq<Msg>)
    ensures |errors| <= 1
    ensures errors != [] <==> |zones| > 0 && filledPolygons == 0
    ensures errors != [] ==> errors[0] == NoZoneFill(|zones|)
  {
    if |zones| > 0 && filledPolygons == 0 then [NoZoneFill(|zones|)] else []
  }

  /** A warning exactly when there are pads and every one of them is on net 0. */
  method CheckPadNets(pads: seq<Pad>) returns (warnings: seq<Msg>)
    ensures |warnings| <= 1
    ensures warnings != [] <==> |pads| > 0 && forall i :: 0 <= i < |pads| ==> pads[i].net == 0
    ensures warnings != [] ==> warnings[0] == AllPadsNet0(|pads|)
  {
    var total := |pads|;
    var net0 := 0;
    var i := 0;
    while i < |pads|
      invariant 0 <= i <= |pads|
      invariant net0 <= i
      invariant net0 == i <==> forall j :: 0 <= j < i ==> pads[j].net == 0
    {
      if pads[i].net == 0 {
        net0 := net0 + 1;
      }
      i := i + 1;
    }
    warnings := if total > 0 && net0 == total then [AllPadsNet0(total)] else [];
  }

  // ---- the run ----

  /** The critical findings in the order the run gathers them; the Gerber size errors come from files on disk. */
  function Critical(segs: seq<Segment>, nets: map<nat, string>, zones: seq<Zone>, filledPolygons: nat,
                    gerber: seq<Msg>): seq<Msg>
  {
    Cap(ShortsAll(segs, nets), 50, ShortsTruncated) + ZoneErrors(zones) + CheckZoneFill(zones, filledPolygons) + gerber
  }

  /** The run fails (exit status 1) exactly when there is a critical finding; warnings never decide it. */
  method RunShortAnalysis(segs: seq<Segment>, nets: map<nat, string>, zones: seq<Zone>, filledPolygons: nat,
                          pads: seq<Pad>, gerber: seq<Msg>)
    returns (critical: seq<Msg>, warnings: seq<Msg>, exitCode: int)
    ensures critical == Critical(segs, nets, zones, filledPolygons, gerber)
    ensures |warnings| <= 1
    ensures exitCode == if |critical| > 0 then 1 else 0
  {
    critical := CheckTraceShorts(segs, nets);
    var e := CheckZonePriorities(zones);
    critical := critical + e;
    critical := critical + CheckZoneFill(zones, filledPolygons);
    critical := critical + gerber;
    warnings := CheckPadNets(pads);
    exitCode := if |critical| > 0 then 1 else 0;
  }

  /**
   * The analysis passes exactly when no same-layer pair of different nets
   * overlaps, no layer has ambiguous zones, the zones are filled (or there
   * are none) and the Gerber files are in order.
   */
  lemma ShortsPass(segs: seq<Segment>, nets: map<nat, string>, zones: seq<Zone>, filledPolygons: nat, gerber: seq<Msg>)
    ensures Critical(segs, nets, zones, filledPolygons, gerber) == [] <==>
            (forall s1, s2 :: PairIn(segs, s1, s2) && s1.layer == s2.layer && s1.net != s2.net ==> !SegmentsOverlap(s1, s2)) &&
            ZoneErrors(zones) == [] && (|zones| == 0 || filledPolygons > 0) && gerber == []
  {
    var all := ShortsAll(segs, nets);
    CapEmpty(all, 50, ShortsTruncated);
    if all != [] {
      GroupScanSound(segs, Layer, ShortReporter(nets), all[0]);
    }
    forall s1, s2 | PairIn(segs, s1, s2) && s1.layer == s2.layer && s1.net != s2.net && SegmentsOverlap(s1, s2)
      ensures all != []
    {
      GroupScanComplete(segs, Layer, ShortReporter(nets), s1, s2);
    }
  }
}
