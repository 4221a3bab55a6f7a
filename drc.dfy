// The fabrication design-rule check of the routed board against the JLCPCB
// 4-layer rules: trace width, via drill and annular ring, board-edge and
// FPC-slot clearance, trace spacing, via drill spacing, component overlap,
// and the net-connectivity warnings. Each check turns the board's records
// into a list of messages; the run fails exactly when some error is reported.
//
// Distances are compared through their squares (see Geometry), so each
// "0 < d - c < m" rule is decided exactly for the true Euclidean distance d.
module Drc {
  import opened Wrappers
  import opened Seqs
  import opened Geometry
  import opened Grouping
  import opened Board

  /** The fabrication thresholds, in millimetres. */
  datatype Rules = Rules(
    minTraceWidth: real,
    minTraceSpacing: real,
    minViaDrill: real,
    minViaPad: real,
    minAnnularRing: real,
    minBoardEdgeClearance: real,
    minDrillToEdge: real,
    minDrillSpacing: real,
    boardWidth: real,
    boardHeight: real)

  const RULES := Rules(0.09, 0.09, 0.15, 0.45, 0.13, 0.3, 0.4, 0.5, 160.0, 75.0)

  // The internal FPC-slot cutout of the board outline.
  const SLOT_X1 := 125.5
  const SLOT_X2 := 128.5
  const SLOT_Y1 := 23.5
  const SLOT_Y2 := 47.5

  /** Minimum centre-to-centre distance of two placed components. */
  const MIN_COMPONENT_DIST := 3.0

  /** A bottom-side component or a mounting hole, by reference and centre. */
  datatype Placed = Placed(ref: string, x: real, y: real)

  /** One finding of a check; the records it names fix its text. */
  datatype Msg =
    | TraceWidth(seg: Segment)
    | ViaDrill(via: Via)
    | ViaRing(via: Via)
    | TraceNearEdge(px: real, py: real)
    | TraceNearSlot(px: real, py: real)
    | TraceCrossesSlot(seg: Segment)
    | ViaNearEdge(vx: real, vy: real)
    | ViaNearSlot(vx: real, vy: real)
    | Spacing(layer: string, s1: Segment, s2: Segment)
    | SpacingTruncated
    | DrillSpacing(v1: Via, v2: Via)
    | Overlap(p1: Placed, p2: Placed)
    | NoTraces(net: nat, name: string)
    | OneTrace(net: nat, name: string)

  // ---- trace width ----

  function WidthReport(s: Segment): seq<Msg>
  {
    if s.width < RULES.minTraceWidth then [TraceWidth(s)] else []
  }

  predicate TooThin(s: Segment)
  {
    s.width < RULES.minTraceWidth
  }

  method CheckTraceWidth(segs: seq<Segment>) returns (errors: seq<Msg>)
    ensures errors == FlatMap(segs, WidthReport)
  {
    errors := [];
    var i := 0;
    while i < |segs|
      invariant 0 <= i <= |segs|
      invariant errors == FlatMap(segs[..i], WidthReport)
    {
      var seg := segs[i];
      if seg.width < RULES.minTraceWidth {
        errors := errors + [TraceWidth(seg)];
      }
      FlatMapStep(segs, i, WidthReport);
      i := i + 1;
    }
    assert segs[..i] == segs;
  }

  /**
   * Exactly one error per segment narrower than the minimum (a width equal
   * to the minimum passes), and nothing else.
   */
  lemma TraceWidthErrors(segs: seq<Segment>, s: Segment)
    ensures TraceWidth(s) in FlatMap(segs, WidthReport) <==> s in segs && s.width < 0.09
    ensures |FlatMap(segs, WidthReport)| == Count(segs, TooThin)
    ensures forall m :: m in FlatMap(segs, WidthReport) ==> m.TraceWidth?
  {
    FlatMapMember(segs, WidthReport, TraceWidth(s));
    FlatMapCount(segs, WidthReport, TooThin);
    forall m | m in FlatMap(segs, WidthReport)
      ensures m.TraceWidth?
    {
      FlatMapMember(segs, WidthReport, m);
    }
  }

  // ---- via dimensions ----

  /** The annular ring: copper left around the hole on each side. */
  function Ring(v: Via): real
  {
    (v.size - v.drill) / 2.0
  }

  function ViaReport(v: Via): seq<Msg>
  {
    (if v.drill < RULES.minViaDrill then [ViaDrill(v)] else []) +
    (if Ring(v) < RULES.minAnnularRing then [ViaRing(v)] else [])
  }

  method CheckViaDimensions(vias: seq<Via>) returns (errors: seq<Msg>)
    ensures errors == FlatMap(vias, ViaReport)
  {
    errors := [];
    var i := 0;
    while i < |vias|
      invariant 0 <= i <= |vias|
      invariant errors == FlatMap(vias[..i], ViaReport)
    {
      var v := vias[i];
      ghost var before := errors;
      if v.drill < RULES.minViaDrill {
        errors := errors + [ViaDrill(v)];
      }
      var ring := (v.size - v.drill) / 2.0;
      if ring < RULES.minAnnularRing {
        errors := errors + [ViaRing(v)];
      }
      assert errors == before + ViaReport(v);
      FlatMapStep(vias, i, ViaReport);
      i := i + 1;
    }
    assert vias[..i] == vias;
  }

  /**
   * The drill error and the ring error of a via are independent: each is
   * reported exactly when its own threshold is missed, so a via yields at
   * most two errors.
   */
  lemma ViaDimensionErrors(vias: seq<Via>, v: Via)
    ensures ViaDrill(v) in FlatMap(vias, ViaReport) <==> v in vias && v.drill < 0.15
    ensures ViaRing(v) in FlatMap(vias, ViaReport) <==> v in vias && (v.size - v.drill) / 2.0 < 0.13
    ensures |FlatMap(vias, ViaReport)| <= 2 * |vias|
  {
    FlatMapMember(vias, ViaReport, ViaDrill(v));
    FlatMapMember(vias, ViaReport, ViaRing(v));
    FlatMapLength(vias, ViaReport, 2);
  }

  /** Size 0.5 / drill 0.3 leaves a 0.1 ring and is flagged; size 0.6 leaves 0.15 and passes. */
  lemma ViaRingExamples()
    ensures ViaReport(Via(0.0, 0.0, 0.5, 0.3, 0)) == [ViaRing(Via(0.0, 0.0, 0.5, 0.3, 0))]
    ensures ViaReport(Via(0.0, 0.0, 0.6, 0.3, 0)) == []
  {
  }

  // ---- board edge and FPC slot ----

  /** (x, y) lies strictly inside the slot widened by `margin` on every side. */
  predicate InSlot(x: real, y: real, margin: real)
  {
    SLOT_X1 - margin < x < SLOT_X2 + margin && SLOT_Y1 - margin < y < SLOT_Y2 + margin
  }

  /**
   * An almost horizontal (or vertical) segment whose fixed coordinate lies
   * in the slot band widened by hw and that reaches past both slot edges by
   * more than hw.
   */
  predicate CrossesSlot(x1: real, y1: real, x2: real, y2: real, hw: real)
  {
    if Abs(y1 - y2) < 0.01 then
      SLOT_Y1 - hw <= y1 <= SLOT_Y2 + hw && Min(x1, x2) < SLOT_X1 - hw && Max(x1, x2) > SLOT_X2 + hw
    else if Abs(x1 - x2) < 0.01 then
      SLOT_X1 - hw <= x1 <= SLOT_X2 + hw && Min(y1, y2) < SLOT_Y1 - hw && Max(y1, y2) > SLOT_Y2 + hw
    else
      false
  }

  /**
   * Reversing an exactly horizontal or vertical segment (of non-negative
   * width) does not change whether it crosses the slot.
   */
  lemma CrossesSlotSymmetric(x1: real, y1: real, x2: real, y2: real, hw: real)
    requires y1 == y2 || x1 == x2
    requires hw >= 0.0
    ensures CrossesSlot(x1, y1, x2, y2, hw) == CrossesSlot(x2, y2, x1, y1, hw)
  {
    assert Abs(y1 - y2) == Abs(y2 - y1) && Abs(x1 - x2) == Abs(x2 - x1);
    assert Min(x1, x2) == Min(x2, x1) && Max(x1, x2) == Max(x2, x1);
    assert Min(y1, y2) == Min(y2, y1) && Max(y1, y2) == Max(y2, y1);
    if y1 != y2 && Abs(y1 - y2) < 0.01 {
      assert Min(x1, x2) == Max(x1, x2);
    }
  }

  /**
   * Within the 0.01 tolerance the fixed coordinate is read from the first
   * end point, so there the order does matter: this segment, 0.005 mm off
   * horizontal, crosses one way round and not the other.
   */
  lemma CrossesSlotOrderMatters()
    ensures CrossesSlot(120.0, 23.5, 130.0, 23.495, 0.0)
    ensures !CrossesSlot(130.0, 23.495, 120.0, 23.5, 0.0)
  {
  }

  /**
   * Only axis-aligned segments cross, and a crossing segment has both end
   * points outside the slot widened by hw: the crossing error catches what
   * the end-point test cannot see.
   */
  lemma CrossingEndpointsOutside(x1: real, y1: real, x2: real, y2: real, hw: real)
    requires CrossesSlot(x1, y1, x2, y2, hw)
    ensures Abs(y1 - y2) < 0.01 || Abs(x1 - x2) < 0.01
    ensures !InSlot(x1, y1, hw) && !InSlot(x2, y2, hw)
  {
  }

  /** The end point or via pad of radius r comes closer than the margin to the board outline. */
  predicate NearEdge(x: real, y: real, r: real)
  {
    var margin := RULES.minBoardEdgeClearance;
    x - r < margin || x + r > RULES.boardWidth - margin ||
    y - r < margin || y + r > RULES.boardHeight - margin
  }

  /** Errors of one trace end point (x, y) of a trace of half-width hw. */
  function PointReport(x: real, y: real, hw: real): seq<Msg>
  {
    (if NearEdge(x, y, hw) then [TraceNearEdge(x, y)] else []) +
    (if InSlot(x, y, RULES.minBoardEdgeClearance) then [TraceNearSlot(x, y)] else [])
  }

  function SegEdgeReport(s: Segment): seq<Msg>
  {
    var hw := s.width / 2.0;
    PointReport(s.x1, s.y1, hw) + PointReport(s.x2, s.y2, hw) +
    (if CrossesSlot(s.x1, s.y1, s.x2, s.y2, hw) then [TraceCrossesSlot(s)] else [])
  }

  function ViaEdgeReport(v: Via): seq<Msg>
  {
    (if NearEdge(v.x, v.y, v.size / 2.0) then [ViaNearEdge(v.x, v.y)] else []) +
    (if InSlot(v.x, v.y, RULES.minBoardEdgeClearance) then [ViaNearSlot(v.x, v.y)] else [])
  }

  function EdgeErrors(segs: seq<Segment>, vias: seq<Via>): seq<Msg>
  {
    FlatMap(segs, SegEdgeReport) + FlatMap(vias, ViaEdgeReport)
  }

  /** The errors of the two end points of one segment, in order. */
  method CheckEndpoints(s: Segment) returns (errors: seq<Msg>)
    ensures errors == PointReport(s.x1, s.y1, s.width / 2.0) + PointReport(s.x2, s.y2, s.width / 2.0)
  {
    var hw := s.width / 2.0;
    var margin := RULES.minBoardEdgeClearance;
    var pts := [(s.x1, s.y1), (s.x2, s.y2)];
    errors := [];
    var k := 0;
    while k < 2
      invariant 0 <= k <= 2
      invariant errors == if k == 0 then [] else if k == 1 then PointReport(s.x1, s.y1, hw)
                          else PointReport(s.x1, s.y1, hw) + PointReport(s.x2, s.y2, hw)
    {
      var (x, y) := pts[k];
      ghost var before := errors;
      if x - hw < margin || x + hw > RULES.boardWidth - margin ||
         y - hw < margin || y + hw > RULES.boardHeight - margin {
        errors := errors + [TraceNearEdge(x, y)];
      }
      if InSlot(x, y, margin) {
        errors := errors + [TraceNearSlot(x, y)];
      }
      assert errors == before + PointReport(x, y, hw);
      k := k + 1;
    }
  }

  /** The edge errors of one segment: its end points, then the slot crossing. */
  method CheckSegmentEdge(seg: Segment) returns (errors: seq<Msg>)
    ensures errors == SegEdgeReport(seg)
  {
    var hw := seg.width / 2.0;
    errors := CheckEndpoints(seg);
    if CrossesSlot(seg.x1, seg.y1, seg.x2, seg.y2, hw) {
      errors := errors + [TraceCrossesSlot(seg)];
    }
  }

  /** The segment loop of the edge check. */
  method CheckSegmentEdges(segs: seq<Segment>) returns (errors: seq<Msg>)
    ensures errors == FlatMap(segs, SegEdgeReport)
  {
    errors := [];
    var i := 0;
    while i < |segs|
      invariant 0 <= i <= |segs|
      invariant errors == FlatMap(segs[..i], SegEdgeReport)
    {
      var e := CheckSegmentEdge(segs[i]);
      FlatMapStep(segs, i, SegEdgeReport);
      errors := errors + e;
      i := i + 1;
    }
    assert segs[..i] == segs;
  }

  /** The via loop of the edge check: the via pad has radius size / 2. */
  method CheckViaEdges(vias: seq<Via>) returns (errors: seq<Msg>)
    ensures errors == FlatMap(vias, ViaEdgeReport)
  {
    errors := [];
    var j := 0;
    while j < |vias|
      invariant 0 <= j <= |vias|
      invariant errors == FlatMap(vias[..j], ViaEdgeReport)
    {
      var v := vias[j];
      var r := v.size / 2.0;
      ghost var before := errors;
      if NearEdge(v.x, v.y, r) {
        errors := errors + [ViaNearEdge(v.x, v.y)];
      }
      if InSlot(v.x, v.y, RULES.minBoardEdgeClearance) {
        errors := errors + [ViaNearSlot(v.x, v.y)];
      }
      assert errors == before + ViaEdgeReport(v);
      FlatMapStep(vias, j, ViaEdgeReport);
      j := j + 1;
    }
    assert vias[..j] == vias;
  }

  method CheckBoardEdgeClearance(segs: seq<Segment>, vias: seq<Via>) returns (errors: seq<Msg>)
    ensures errors == EdgeErrors(segs, vias)
  {
    var segErrors := CheckSegmentEdges(segs);
    var viaErrors := CheckViaEdges(vias);
    errors := segErrors + viaErrors;
  }

  /**
   * A segment yields at most five edge errors (two per end point and one
   * for crossing the slot) and a via at most two.
   */
  lemma EdgeErrorsBound(segs: seq<Segment>, vias: seq<Via>)
    ensures |EdgeErrors(segs, vias)| <= 5 * |segs| + 2 * |vias|
  {
    FlatMapLength(segs, SegEdgeReport, 5);
    FlatMapLength(vias, ViaEdgeReport, 2);
  }

  /** A crossing error names exactly the listed segments that cross the slot. */
  lemma CrossingErrors(segs: seq<Segment>, vias: seq<Via>, s: Segment)
    ensures TraceCrossesSlot(s) in EdgeErrors(segs, vias) <==>
            s in segs && CrossesSlot(s.x1, s.y1, s.x2, s.y2, s.width / 2.0)
  {
    FlatMapMember(segs, SegEdgeReport, TraceCrossesSlot(s));
    FlatMapMember(vias, ViaEdgeReport, TraceCrossesSlot(s));
  }

  /**
   * A slot error for a trace point is reported exactly when some segment
   * has that end point strictly inside the slot widened by the edge margin.
   */
  lemma SlotErrorsAtPoint(segs: seq<Segment>, vias: seq<Via>, x: real, y: real)
    ensures TraceNearSlot(x, y) in EdgeErrors(segs, vias) <==>
            InSlot(x, y, 0.3) &&
            exists i :: 0 <= i < |segs| && ((segs[i].x1, segs[i].y1) == (x, y) || (segs[i].x2, segs[i].y2) == (x, y))
  {
    FlatMapMember(segs, SegEdgeReport, TraceNearSlot(x, y));
    FlatMapMember(vias, ViaEdgeReport, TraceNearSlot(x, y));
  }

  /**
   * An edge error for a trace point is reported exactly when some segment
   * ends there and, at that segment's half-width, the point comes closer
   * than the margin to one of the four board edges.
   */
  lemma EdgeErrorsAtPoint(segs: seq<Segment>, vias: seq<Via>, x: real, y: real)
    ensures TraceNearEdge(x, y) in EdgeErrors(segs, vias) <==>
            exists i :: 0 <= i < |segs| &&
              ((segs[i].x1, segs[i].y1) == (x, y) || (segs[i].x2, segs[i].y2) == (x, y)) &&
              NearEdge(x, y, segs[i].width / 2.0)
  {
    FlatMapMember(segs, SegEdgeReport, TraceNearEdge(x, y));
    FlatMapMember(vias, ViaEdgeReport, TraceNearEdge(x, y));
  }

  /**
   * An edge error for a via is reported exactly when some via is centred
   * there and its pad, of radius size / 2, comes closer than the margin to
   * one of the four board edges.
   */
  lemma ViaEdgeErrorsAtPoint(segs: seq<Segment>, vias: seq<Via>, x: real, y: real)
    ensures ViaNearEdge(x, y) in EdgeErrors(segs, vias) <==>
            exists j :: 0 <= j < |vias| && (vias[j].x, vias[j].y) == (x, y) && NearEdge(x, y, vias[j].size / 2.0)
  {
    FlatMapMember(segs, SegEdgeReport, ViaNearEdge(x, y));
    FlatMapMember(vias, ViaEdgeReport, ViaNearEdge(x, y));
  }

  /**
   * A slot error for a via is reported exactly when some via is centred
   * strictly inside the slot widened by the edge margin (the pad size plays
   * no part here).
   */
  lemma ViaSlotErrorsAtPoint(segs: seq<Segment>, vias: seq<Via>, x: real, y: real)
    ensures ViaNearSlot(x, y) in EdgeErrors(segs, vias) <==>
            InSlot(x, y, 0.3) && exists j :: 0 <= j < |vias| && (vias[j].x, vias[j].y) == (x, y)
  {
    FlatMapMember(segs, SegEdgeReport, ViaNearSlot(x, y));
    FlatMapMember(vias, ViaEdgeReport, ViaNearSlot(x, y));
  }

  // ---- segment distance ----

  /** Squared distance from end point a of s1 to end point b of s2. */
  function EndSqDist(s1: Segment, s2: Segment, a: nat, b: nat): real
    requires a < 2 && b < 2
  {
    SqDist(End(s1, a).0, End(s1, a).1, End(s2, b).0, End(s2, b).1)
  }

  /** The square of the spacing rule's distance: the closest pair of end points. */
  function SegDistSq(s1: Segment, s2: Segment): (r: real)
    ensures r >= 0.0
    ensures forall a, b :: 0 <= a < 2 && 0 <= b < 2 ==> r <= EndSqDist(s1, s2, a, b)
    ensures exists a, b :: 0 <= a < 2 && 0 <= b < 2 && r == EndSqDist(s1, s2, a, b)
  {
    Min(Min(EndSqDist(s1, s2, 0, 0), EndSqDist(s1, s2, 0, 1)),
        Min(EndSqDist(s1, s2, 1, 0), EndSqDist(s1, s2, 1, 1)))
  }

  /** The running minimum over the four end-point pairs, starting from infinity (None). */
  method SegDistance(s1: Segment, s2: Segment) returns (d: real)
    ensures d == SegDistSq(s1, s2)
  {
    var minD: Option<real> := None;
    var a := 0;
    while a < 2
      invariant 0 <= a <= 2
      invariant minD.None? <==> a == 0
      invariant minD.Some? ==> forall a', b' :: 0 <= a' < a && 0 <= b' < 2 ==> minD.value <= EndSqDist(s1, s2, a', b')
      invariant minD.Some? ==> exists a', b' :: 0 <= a' < a && 0 <= b' < 2 && minD.value == EndSqDist(s1, s2, a', b')
    {
      var b := 0;
      while b < 2
        invariant 0 <= b <= 2
        invariant minD.None? <==> a == 0 && b == 0
        invariant minD.Some? ==> forall a', b' :: (0 <= a' < a && 0 <= b' < 2) || (a' == a && 0 <= b' < b) ==> minD.value <= EndSqDist(s1, s2, a', b')
        invariant minD.Some? ==> exists a', b' :: ((0 <= a' < a && 0 <= b' < 2) || (a' == a && 0 <= b' < b)) && minD.value == EndSqDist(s1, s2, a', b')
      {
        var dd := EndSqDist(s1, s2, a, b);
        minD := Some(if minD.None? then dd else Min(minD.value, dd));
        b := b + 1;
      }
      a := a + 1;
    }
    d := minD.value;
    var a1, b1 :| 0 <= a1 < 2 && 0 <= b1 < 2 && d == EndSqDist(s1, s2, a1, b1);
    var a2, b2 :| 0 <= a2 < 2 && 0 <= b2 < 2 && SegDistSq(s1, s2) == EndSqDist(s1, s2, a2, b2);
    assert d <= EndSqDist(s1, s2, a2, b2);
  }

  /** The end-point distance does not depend on which segment comes first. */
  lemma SegDistSymmetric(s1: Segment, s2: Segment)
    ensures SegDistSq(s1, s2) == SegDistSq(s2, s1)
  {
    forall a, b | 0 <= a < 2 && 0 <= b < 2
      ensures EndSqDist(s1, s2, a, b) == EndSqDist(s2, s1, b, a)
    {
      SqDistSymmetric(End(s1, a).0, End(s1, a).1, End(s2, b).0, End(s2, b).1);
    }
    var a1, b1 :| 0 <= a1 < 2 && 0 <= b1 < 2 && SegDistSq(s1, s2) == EndSqDist(s1, s2, a1, b1);
    var a2, b2 :| 0 <= a2 < 2 && 0 <= b2 < 2 && SegDistSq(s2, s1) == EndSqDist(s2, s1, a2, b2);
    assert SegDistSq(s2, s1) <= EndSqDist(s2, s1, b1, a1);
    assert SegDistSq(s1, s2) <= EndSqDist(s1, s2, b2, a2);
  }

  /** Segments sharing an end point are at distance 0. */
  lemma SegDistSharedEnd(s1: Segment, s2: Segment, a: nat, b: nat)
    requires a < 2 && b < 2 && End(s1, a) == End(s2, b)
    ensures SegDistSq(s1, s2) == 0.0
  {
    assert EndSqDist(s1, s2, a, b) == 0.0;
  }

  // ---- trace spacing ----

  /** The report for one same-layer pair: equal nonzero nets are skipped, net 0 against net 0 is not. */
  function SpacingReport(s1: Segment, s2: Segment): Option<Msg>
  {
    if s1.net == s2.net && s1.net != 0 then None
    else if ClearanceBelow(SegDistSq(s1, s2), (s1.width + s2.width) / 2.0, RULES.minTraceSpacing) then
      Some(Spacing(s1.layer, s1, s2))
    else None
  }

  /**
   * A pair is reported exactly when it is not of one nonzero net and the
   * clearance d - (w1 + w2) / 2 lies strictly between 0 and the minimum
   * spacing, d being the end-point distance.
   */
  lemma SpacingFlagged(s1: Segment, s2: Segment, d: real)
    requires d >= 0.0 && Sq(d) == SegDistSq(s1, s2)
    ensures SpacingReport(s1, s2).Some? <==>
            !(s1.net == s2.net && s1.net != 0) && 0.0 < d - (s1.width + s2.width) / 2.0 < 0.09
    ensures SpacingReport(s1, s2).Some? ==> SpacingReport(s1, s2).value == Spacing(s1.layer, s1, s2)
  {
    ClearanceBelowMeans(d, SegDistSq(s1, s2), (s1.width + s2.width) / 2.0, RULES.minTraceSpacing);
  }

  /** Whether a pair is reported does not depend on its order. */
  lemma SpacingSymmetric(s1: Segment, s2: Segment)
    ensures SpacingReport(s1, s2).Some? <==> SpacingReport(s2, s1).Some?
  {
    SegDistSymmetric(s1, s2);
    assert (s1.width + s2.width) / 2.0 == (s2.width + s1.width) / 2.0;
  }

  /** Every same-layer pair i < j, layers in order of first appearance, before truncation. */
  function SpacingAll(segs: seq<Segment>): seq<Msg>
  {
    Groups(Grouped(segs, Layer), 0, SpacingReport)
  }

  method CheckTraceSpacing(segs: seq<Segment>) returns (errors: seq<Msg>)
    ensures errors == Cap(SpacingAll(segs), 20, SpacingTruncated)
  {
    var byLayer := GroupList(segs, Layer);
    errors := ScanGroupsCapped(byLayer, SpacingReport, 20, SpacingTruncated);
  }

  /**
   * Before truncation, a spacing error names exactly the pairs that sit in
   * this order in the list, on one layer, and break the rule.
   */
  lemma SpacingAllMember(segs: seq<Segment>, l: string, s1: Segment, s2: Segment)
    ensures Spacing(l, s1, s2) in SpacingAll(segs) <==>
            PairIn(segs, s1, s2) && s1.layer == s2.layer && l == s1.layer && SpacingReport(s1, s2).Some?
  {
    if Spacing(l, s1, s2) in SpacingAll(segs) {
      SpacingAllSound(segs, l, s1, s2);
    }
    if PairIn(segs, s1, s2) && s1.layer == s2.layer && l == s1.layer && SpacingReport(s1, s2).Some? {
      SpacingAllComplete(segs, s1, s2);
    }
  }

  lemma SpacingAllSound(segs: seq<Segment>, l: string, s1: Segment, s2: Segment)
    requires Spacing(l, s1, s2) in SpacingAll(segs)
    ensures PairIn(segs, s1, s2) && s1.layer == s2.layer && l == s1.layer && SpacingReport(s1, s2).Some?
  {
    var gs := Grouped(segs, Layer);
    var m := Spacing(l, s1, s2);
    GroupsMember(gs, 0, SpacingReport, m);
    var g :| 0 <= g < |gs| && m in Tri(gs[g], 0, SpacingReport);
    var a, b := TriSound(gs[g], 0, SpacingReport, m);
    SpacingReportNames(gs[g][a], gs[g][b]);
    assert PairIn(gs[g], s1, s2);
    GroupedPairIn(segs, Layer, s1, s2);
  }

  /** A pair's report names that pair, on the first segment's layer. */
  lemma SpacingReportNames(s1: Segment, s2: Segment)
    ensures SpacingReport(s1, s2).Some? ==> SpacingReport(s1, s2).value == Spacing(s1.layer, s1, s2)
  {
  }

  lemma SpacingAllComplete(segs: seq<Segment>, s1: Segment, s2: Segment)
    requires PairIn(segs, s1, s2) && s1.layer == s2.layer && SpacingReport(s1, s2).Some?
    ensures Spacing(s1.layer, s1, s2) in SpacingAll(segs)
  {
    var gs := Grouped(segs, Layer);
    var m := Spacing(s1.layer, s1, s2);
    GroupedPairIn(segs, Layer, s1, s2);
    var g :| 0 <= g < |gs| && PairIn(gs[g], s1, s2);
    var a, b :| 0 <= a < b < |gs[g]| && gs[g][a] == s1 && gs[g][b] == s2;
    TriMember(gs[g], 0, SpacingReport, m);
    GroupsMember(gs, 0, SpacingReport, m);
  }

  /** Only pair reports, never the marker, come out of the scan. */
  lemma SpacingAllKinds(segs: seq<Segment>, m: Msg)
    requires m in SpacingAll(segs)
    ensures m.Spacing?
  {
    var gs := Grouped(segs, Layer);
    GroupsMember(gs, 0, SpacingReport, m);
    var g :| 0 <= g < |gs| && m in Tri(gs[g], 0, SpacingReport);
    TriMember(gs[g], 0, SpacingReport, m);
  }

  /**
   * The returned list: at most 21 violations followed by the truncation
   * marker, the marker present exactly when there were more than 20
   * violations, and every other entry a violating same-layer pair.
   */
  lemma SpacingErrors(segs: seq<Segment>, m: Msg)
    ensures |Cap(SpacingAll(segs), 20, SpacingTruncated)| <= 22
    ensures SpacingTruncated in Cap(SpacingAll(segs), 20, SpacingTruncated) <==> |SpacingAll(segs)| > 20
    ensures m in Cap(SpacingAll(segs), 20, SpacingTruncated) && m != SpacingTruncated ==>
            m.Spacing? && PairIn(segs, m.s1, m.s2) && m.s1.layer == m.s2.layer && m.layer == m.s1.layer &&
            SpacingReport(m.s1, m.s2).Some?
    ensures |SpacingAll(segs)| <= 20 ==> Cap(SpacingAll(segs), 20, SpacingTruncated) == SpacingAll(segs)
  {
    var all := SpacingAll(segs);
    if SpacingTruncated in all {
      SpacingAllKinds(segs, SpacingTruncated);
    }
    if |all| > 20 {
      assert Cap(all, 20, SpacingTruncated)[21] == SpacingTruncated;
    }
    if m in Cap(all, 20, SpacingTruncated) && m != SpacingTruncated {
      CapSubset(all, 20, SpacingTruncated, m);
      SpacingAllKinds(segs, m);
      SpacingAllMember(segs, m.layer, m.s1, m.s2);
    }
  }

  // ---- via drill spacing ----

  /** Hole edge-to-edge clearance strictly between 0 and the minimum drill spacing. */
  function DrillReport(v1: Via, v2: Via): Option<Msg>
  {
    if ClearanceBelow(SqDist(v1.x, v1.y, v2.x, v2.y), v1.drill / 2.0 + v2.drill / 2.0, RULES.minDrillSpacing) then
      Some(DrillSpacing(v1, v2))
    else None
  }

  method CheckDrillSpacing(vias: seq<Via>) returns (errors: seq<Msg>)
    ensures errors == Tri(vias, 0, DrillReport)
  {
    errors := ScanPairs(vias, DrillReport);
  }

  /**
   * A via pair i < j is reported exactly when 0 < d - r1 - r2 < 0.5, so
   * coincident or overlapping holes (clearance <= 0) are never reported.
   */
  lemma DrillSpacingErrors(vias: seq<Via>, v1: Via, v2: Via, d: real)
    requires d >= 0.0 && Sq(d) == SqDist(v1.x, v1.y, v2.x, v2.y)
    ensures DrillSpacing(v1, v2) in Tri(vias, 0, DrillReport) <==>
            PairIn(vias, v1, v2) && 0.0 < d - v1.drill / 2.0 - v2.drill / 2.0 < 0.5
  {
    TriMember(vias, 0, DrillReport, DrillSpacing(v1, v2));
    ClearanceBelowMeans(d, SqDist(v1.x, v1.y, v2.x, v2.y), v1.drill / 2.0 + v2.drill / 2.0, RULES.minDrillSpacing);
  }

  // ---- component overlap ----

  /** Two placed items closer than 3 mm centre to centre. */
  function OverlapReport(p: Placed, q: Placed): Option<Msg>
  {
    if DistBelow(SqDist(q.x, q.y, p.x, p.y), MIN_COMPONENT_DIST) then Some(Overlap(p, q)) else None
  }

  method CheckComponentOverlap(items: seq<Placed>) returns (errors: seq<Msg>)
    ensures errors == Tri(items, 0, OverlapReport)
  {
    errors := ScanPairs(items, OverlapReport);
  }

  /** A pair i < j is reported exactly when its centres are less than 3 mm apart. */
  lemma OverlapErrors(items: seq<Placed>, p: Placed, q: Placed, d: real)
    requires d >= 0.0 && Sq(d) == SqDist(q.x, q.y, p.x, p.y)
    ensures Overlap(p, q) in Tri(items, 0, OverlapReport) <==> PairIn(items, p, q) && d < 3.0
  {
    TriMember(items, 0, OverlapReport, Overlap(p, q));
    DistBelowMeans(d, SqDist(q.x, q.y, p.x, p.y), MIN_COMPONENT_DIST);
  }

  /** Whether two items overlap does not depend on their order. */
  lemma OverlapSymmetric(p: Placed, q: Placed)
    ensures OverlapReport(p, q).Some? <==> OverlapReport(q, p).Some?
  {
    SqDistSymmetric(q.x, q.y, p.x, p.y);
  }

  // ---- net connectivity ----

  function NetId(n: NetDecl): nat
  {
    n.id
  }

  function NetIs(id: nat): Segment -> bool
  {
    (s: Segment) => s.net == id
  }

  /** Number of trace segments of a net; segments of net 0 are never counted. */
  function Usage(segs: seq<Segment>, id: nat): nat
  {
    if id > 0 then Count(segs, NetIs(id)) else 0
  }

  /** The name a net id ends up with: the last declaration of it wins. */
  function LastName(nets: seq<NetDecl>, id: nat): string
  {
    if |nets| == 0 then ""
    else if nets[|nets| - 1].id == id then nets[|nets| - 1].name
    else LastName(nets[..|nets| - 1], id)
  }

  function ConnReport(id: nat, name: string, count: nat): seq<Msg>
  {
    if count == 0 then [NoTraces(id, name)]
    else if count == 1 then [OneTrace(id, name)]
    else []
  }

  function Reporter(segs: seq<Segment>, nets: seq<NetDecl>): nat -> seq<Msg>
  {
    (id: nat) => ConnReport(id, LastName(nets, id), Usage(segs, id))
  }

  /** The warnings, one declared net id at a time in order of first declaration. */
  function ConnWarnings(segs: seq<Segment>, nets: seq<NetDecl>): seq<Msg>
  {
    FlatMap(Keys(nets, NetId), Reporter(segs, nets))
  }

  function Get(m: map<nat, nat>, k: nat): nat
  {
    if k in m then m[k] else 0
  }

  ghost predicate UsageOf(usage: map<nat, nat>, segs: seq<Segment>)
  {
    0 !in usage && forall n :: n in usage || n !in usage ==> Get(usage, n) == Usage(segs, n)
  }

  lemma UsageStep(usage: map<nat, nat>, segs: seq<Segment>, i: nat)
    requires i < |segs| && UsageOf(usage, segs[..i])
    ensures UsageOf(if segs[i].net > 0 then usage[segs[i].net := Get(usage, segs[i].net) + 1] else usage, segs[..i + 1])
  {
    forall n | n > 0 {
      FilterStep(segs, i, NetIs(n));
    }
  }

  ghost predicate NamesOf(names: map<nat, string>, ids: seq<nat>, nets: seq<NetDecl>)
  {
    (forall id :: id in names <==> id in ids) &&
    forall id :: id in names ==> names[id] == LastName(nets, id)
  }

  lemma NamesStep(names: map<nat, string>, nets: seq<NetDecl>, i: nat)
    requires i < |nets| && NamesOf(names, Keys(nets[..i], NetId), nets[..i])
    ensures NamesOf(names[nets[i].id := nets[i].name], Keys(nets[..i + 1], NetId), nets[..i + 1])
  {
    KeysStep(nets, i, NetId);
    assert nets[..i + 1][..i] == nets[..i];
  }

  method CheckNetConnectivity(segs: seq<Segment>, nets: seq<NetDecl>) returns (warnings: seq<Msg>)
    ensures warnings == ConnWarnings(segs, nets)
  {
    var usage: map<nat, nat> := map[];
    var i := 0;
    while i < |segs|
      invariant 0 <= i <= |segs|
      invariant UsageOf(usage, segs[..i])
    {
      UsageStep(usage, segs, i);
      var net := segs[i].net;
      if net > 0 {
        usage := usage[net := Get(usage, net) + 1];
      }
      i := i + 1;
    }
    assert segs[..i] == segs;

    var ids: seq<nat> := [];
    var names: map<nat, string> := map[];
    var j := 0;
    while j < |nets|
      invariant 0 <= j <= |nets|
      invariant ids == Keys(nets[..j], NetId)
      invariant NamesOf(names, ids, nets[..j])
    {
      NamesStep(names, nets, j);
      KeysStep(nets, j, NetId);
      if nets[j].id !in names {
        ids := ids + [nets[j].id];
      }
      names := names[nets[j].id := nets[j].name];
      j := j + 1;
    }
    assert nets[..j] == nets;

    warnings := [];
    var k := 0;
    while k < |ids|
      invariant 0 <= k <= |ids|
      invariant warnings == FlatMap(ids[..k], Reporter(segs, nets))
    {
      var nid := ids[k];
      assert nid in names;
      var count := Get(usage, nid);
      var name := names[nid];
      if count == 0 {
        warnings := warnings + [NoTraces(nid, name)];
      } else if count == 1 {
        warnings := warnings + [OneTrace(nid, name)];
      }
      FlatMapStep(ids, k, Reporter(segs, nets));
      k := k + 1;
    }
    assert ids[..k] == ids;
  }

  /** A declared id is one some declaration carries. */
  lemma DeclaredIds(nets: seq<NetDecl>, id: nat)
    ensures id in Keys(nets, NetId) <==> exists j :: 0 <= j < |nets| && nets[j].id == id
  {
    KeysExact(nets, NetId);
    if exists j :: 0 <= j < |nets| && nets[j].id == id {
      var j :| 0 <= j < |nets| && nets[j].id == id;
      assert NetId(nets[j]) in Keys(nets, NetId);
    }
  }

  /**
   * A declared net with no counted segment gets "has no traces", one with
   * exactly one gets "only 1 trace segment", and one with two or more gets
   * nothing; each declared id is reported at most once.
   */
  lemma ConnectivityWarnings(segs: seq<Segment>, nets: seq<NetDecl>, id: nat, name: string)
    ensures NoTraces(id, name) in ConnWarnings(segs, nets) <==>
            (exists j :: 0 <= j < |nets| && nets[j].id == id) && name == LastName(nets, id) && Usage(segs, id) == 0
    ensures OneTrace(id, name) in ConnWarnings(segs, nets) <==>
            (exists j :: 0 <= j < |nets| && nets[j].id == id) && name == LastName(nets, id) && Usage(segs, id) == 1
    ensures |ConnWarnings(segs, nets)| <= |Keys(nets, NetId)|
  {
    var ids := Keys(nets, NetId);
    DeclaredIds(nets, id);
    FlatMapMember(ids, Reporter(segs, nets), NoTraces(id, name));
    FlatMapMember(ids, Reporter(segs, nets), OneTrace(id, name));
    FlatMapLength(ids, Reporter(segs, nets), 1);
  }

  // ---- the run ----

  /** Every error list in the order the run gathers them; warnings are not part of it. */
  function DrcErrors(segs: seq<Segment>, vias: seq<Via>, items: seq<Placed>): seq<Msg>
  {
    Tri(items, 0, OverlapReport) + FlatMap(segs, WidthReport) + FlatMap(vias, ViaReport) +
    EdgeErrors(segs, vias) + Cap(SpacingAll(segs), 20, SpacingTruncated) + Tri(vias, 0, DrillReport)
  }

  /** Runs every check; the exit status is 1 exactly when some error was reported. */
  method RunDrc(segs: seq<Segment>, vias: seq<Via>, nets: seq<NetDecl>, items: seq<Placed>)
    returns (errors: seq<Msg>, warnings: seq<Msg>, exitCode: int)
    ensures errors == DrcErrors(segs, vias, items)
    ensures warnings == ConnWarnings(segs, nets)
    ensures exitCode == if |errors| > 0 then 1 else 0
  {
    errors := CheckComponentOverlap(items);
    var e := CheckTraceWidth(segs);
    errors := errors + e;
    e := CheckViaDimensions(vias);
    errors := errors + e;
    e := CheckBoardEdgeClearance(segs, vias);
    errors := errors + e;
    e := CheckTraceSpacing(segs);
    errors := errors + e;
    e := CheckDrillSpacing(vias);
    errors := errors + e;
    warnings := CheckNetConnectivity(segs, nets);
    exitCode := if |errors| > 0 then 1 else 0;
  }

  lemma FlatMapEmpty<T, M>(xs: seq<T>, f: T -> seq<M>)
    ensures FlatMap(xs, f) == [] <==> forall i :: 0 <= i < |xs| ==> f(xs[i]) == []
  {
    if FlatMap(xs, f) != [] {
      FlatMapMember(xs, f, FlatMap(xs, f)[0]);
    }
    if exists i :: 0 <= i < |xs| && f(xs[i]) != [] {
      var i :| 0 <= i < |xs| && f(xs[i]) != [];
      FlatMapMember(xs, f, f(xs[i])[0]);
    }
  }

  lemma TriEmpty<T, M>(xs: seq<T>, report: (T, T) -> Option<M>)
    ensures Tri(xs, 0, report) == [] <==> forall u, v :: PairIn(xs, u, v) ==> report(u, v).None?
  {
    if Tri(xs, 0, report) != [] {
      TriMember(xs, 0, report, Tri(xs, 0, report)[0]);
    }
    if exists u, v :: PairIn(xs, u, v) && report(u, v).Some? {
      var u, v :| PairIn(xs, u, v) && report(u, v).Some?;
      TriMember(xs, 0, report, report(u, v).value);
    }
  }

  /**
   * The board passes (exit status 0) exactly when every segment is wide
   * enough and clear of the edges and the slot, every via has drill, ring
   * and clearances, no same-layer trace pair, via pair or component pair
   * breaks its spacing rule. The connectivity warnings play no part.
   */
  lemma DrcPasses(segs: seq<Segment>, vias: seq<Via>, items: seq<Placed>)
    ensures DrcErrors(segs, vias, items) == [] <==>
            (forall i :: 0 <= i < |segs| ==> segs[i].width >= 0.09 && SegEdgeReport(segs[i]) == []) &&
            (forall i :: 0 <= i < |vias| ==> vias[i].drill >= 0.15 && Ring(vias[i]) >= 0.13 && ViaEdgeReport(vias[i]) == []) &&
            (forall s1, s2 :: PairIn(segs, s1, s2) && s1.layer == s2.layer ==> SpacingReport(s1, s2).None?) &&
            (forall v1, v2 :: PairIn(vias, v1, v2) ==> DrillReport(v1, v2).None?) &&
            (forall p, q :: PairIn(items, p, q) ==> OverlapReport(p, q).None?)
  {
    DrcErrorsEmpty(segs, vias, items);
    SegsClean(segs);
    ViasClean(vias);
    TriEmpty(vias, DrillReport);
    TriEmpty(items, OverlapReport);
    SpacingAllEmpty(segs);
  }

  /** The gathered errors are empty exactly when each list is. */
  lemma DrcErrorsEmpty(segs: seq<Segment>, vias: seq<Via>, items: seq<Placed>)
    ensures DrcErrors(segs, vias, items) == [] <==>
            Tri(items, 0, OverlapReport) == [] && FlatMap(segs, WidthReport) == [] &&
            FlatMap(vias, ViaReport) == [] && FlatMap(segs, SegEdgeReport) == [] &&
            FlatMap(vias, ViaEdgeReport) == [] && SpacingAll(segs) == [] && Tri(vias, 0, DrillReport) == []
  {
    CapEmpty(SpacingAll(segs), 20, SpacingTruncated);
  }

  lemma SegsClean(segs: seq<Segment>)
    ensures FlatMap(segs, WidthReport) == [] && FlatMap(segs, SegEdgeReport) == [] <==>
            forall i :: 0 <= i < |segs| ==> segs[i].width >= 0.09 && SegEdgeReport(segs[i]) == []
  {
    FlatMapEmpty(segs, WidthReport);
    FlatMapEmpty(segs, SegEdgeReport);
  }

  lemma ViasClean(vias: seq<Via>)
    ensures FlatMap(vias, ViaReport) == [] && FlatMap(vias, ViaEdgeReport) == [] <==>
            forall i :: 0 <= i < |vias| ==> vias[i].drill >= 0.15 && Ring(vias[i]) >= 0.13 && ViaEdgeReport(vias[i]) == []
  {
    FlatMapEmpty(vias, ViaReport);
    FlatMapEmpty(vias, ViaEdgeReport);
  }

  /** No spacing error at all exactly when no same-layer pair breaks the rule. */
  lemma SpacingAllEmpty(segs: seq<Segment>)
    ensures SpacingAll(segs) == [] <==>
            forall s1, s2 :: PairIn(segs, s1, s2) && s1.layer == s2.layer ==> SpacingReport(s1, s2).None?
  {
    var all := SpacingAll(segs);
    if all != [] {
      SpacingAllKinds(segs, all[0]);
      SpacingAllSound(segs, all[0].layer, all[0].s1, all[0].s2);
    }
    forall s1, s2 | PairIn(segs, s1, s2) && s1.layer == s2.layer && SpacingReport(s1, s2).Some?
      ensures all != []
    {
      SpacingAllComplete(segs, s1, s2);
    }
  }
}
