// Manhattan routing helpers of the board generator: the enclosure-to-board
// coordinate transform, the FPC-slot crossing test, the ESP32 pin positions,
// L- and Z-shaped routes, the button routing with its via relocation and
// detour numbering, the passive rows and the display data-bus channels.
// Routes are returned as the segment and via records the emitters write;
// the UUID each emitted element draws is modelled in PcbPrimitives.
module Routing {
  import opened Wrappers
  import opened Seqs
  import opened Geometry
  import opened Fmt
  import opened Board
  import Drc
  import Shorts

  const W_PWR: real := 0.5
  const W_SIG: real := 0.25
  const W_DATA: real := 0.2

  const BOARD_W: real := 160.0
  const BOARD_H: real := 75.0
  const CX: real := BOARD_W / 2.0
  const CY: real := BOARD_H / 2.0

  /** Enclosure coordinates (centre origin, y up) to board coordinates (top-left origin, y down). */
  function Enc(ex: real, ey: real): (real, real)
  {
    (CX + ex, CY - ey)
  }

  function EncInverse(x: real, y: real): (real, real)
  {
    (x - CX, CY - y)
  }

  /** The transform is a bijection: each direction undoes the other. */
  lemma EncRoundTrip(ex: real, ey: real, x: real, y: real)
    ensures EncInverse(Enc(ex, ey).0, Enc(ex, ey).1) == (ex, ey)
    ensures Enc(EncInverse(x, y).0, EncInverse(x, y).1) == (x, y)
    ensures Enc(ex, ey) == (x, y) <==> (ex, ey) == EncInverse(x, y)
  {
  }

  const SLOT_X1: real := 125.5
  const SLOT_X2: real := 128.5
  const SLOT_Y1: real := 23.5
  const SLOT_Y2: real := 47.5

  /** The slot cut into the board outline: 3 mm by 24 mm centred on enclosure point (47, 2). */
  const FPC_SLOT_ENC: (real, real) := (47.0, 2.0)
  const FPC_SLOT_W: real := 3.0
  const FPC_SLOT_H: real := 24.0

  /**
   * The slot rectangle written out in the router, the rule checker and the
   * short analysis is the one the board outline derives from its centre and size.
   */
  lemma SlotConstantsAgree()
    ensures var (sx, sy) := Enc(FPC_SLOT_ENC.0, FPC_SLOT_ENC.1);
            SLOT_X1 == sx - FPC_SLOT_W / 2.0 && SLOT_X2 == sx + FPC_SLOT_W / 2.0 &&
            SLOT_Y1 == sy - FPC_SLOT_H / 2.0 && SLOT_Y2 == sy + FPC_SLOT_H / 2.0
    ensures Drc.SLOT_X1 == SLOT_X1 && Drc.SLOT_X2 == SLOT_X2 && Drc.SLOT_Y1 == SLOT_Y1 && Drc.SLOT_Y2 == SLOT_Y2
    ensures Shorts.SLOT_X1 == SLOT_X1 && Shorts.SLOT_X2 == SLOT_X2 &&
            Shorts.SLOT_Y1 == SLOT_Y1 && Shorts.SLOT_Y2 == SLOT_Y2
    ensures Drc.RULES.boardWidth == BOARD_W && Drc.RULES.boardHeight == BOARD_H
  {
  }

  /** An exactly horizontal or exactly vertical segment that passes through the slot. */
  predicate CrossesSlot(x1: real, y1: real, x2: real, y2: real)
  {
    if y1 == y2 then SLOT_Y1 <= y1 <= SLOT_Y2 && Min(x1, x2) < SLOT_X1 && Max(x1, x2) > SLOT_X2
    else if x1 == x2 then SLOT_X1 <= x1 <= SLOT_X2 && Min(y1, y2) < SLOT_Y1 && Max(y1, y2) > SLOT_Y2
    else false
  }

  /**
   * A crossing segment is axis-aligned, lies in the closed slot band, and
   * reaches strictly past both slot edges; endpoint order does not matter.
   */
  lemma CrossesSlotMeans(x1: real, y1: real, x2: real, y2: real)
    ensures CrossesSlot(x1, y1, x2, y2) == CrossesSlot(x2, y2, x1, y1)
    ensures CrossesSlot(x1, y1, x2, y2) <==>
            (y1 == y2 && SLOT_Y1 <= y1 <= SLOT_Y2 &&
               ((x1 < SLOT_X1 && x2 > SLOT_X2) || (x2 < SLOT_X1 && x1 > SLOT_X2))) ||
            (y1 != y2 && x1 == x2 && SLOT_X1 <= x1 <= SLOT_X2 &&
               ((y1 < SLOT_Y1 && y2 > SLOT_Y2) || (y2 < SLOT_Y1 && y1 > SLOT_Y2)))
  {
  }

  datatype Side = Left | Right

  /** The ESP32 module centre. */
  const ESP32: (real, real) := Enc(0.0, 10.0)
  const ESP_HW: real := 9.0

  /** GPIO number to module side and offset from the centre row; None for a GPIO the module does not bring out. */
  function PinPlace(gpio: int): Option<(Side, real)>
  {
    match gpio
    case 4 => Some((Left, -6.35))
    case 5 => Some((Left, -5.08))
    case 6 => Some((Left, -3.81))
    case 7 => Some((Left, -2.54))
    case 15 => Some((Left, 0.0))
    case 16 => Some((Left, 1.27))
    case 17 => Some((Left, 2.54))
    case 18 => Some((Left, 3.81))
    case 8 => Some((Left, 5.08))
    case 19 => Some((Left, 7.62))
    case 20 => Some((Left, 8.89))
    case 3 => Some((Left, 10.16))
    case 46 => Some((Left, 11.43))
    case 9 => Some((Left, 12.7))
    case 10 => Some((Left, 13.97))
    case 11 => Some((Left, 15.24))
    case 12 => Some((Right, -6.35))
    case 13 => Some((Right, -5.08))
    case 14 => Some((Right, -3.81))
    case 21 => Some((Right, -2.54))
    case 47 => Some((Right, -1.27))
    case 48 => Some((Right, 0.0))
    case 45 => Some((Right, 1.27))
    case 0 => Some((Right, 2.54))
    case 35 => Some((Right, 3.81))
    case 36 => Some((Right, 5.08))
    case 37 => Some((Right, 6.35))
    case 38 => Some((Right, 7.62))
    case 39 => Some((Right, 8.89))
    case 40 => Some((Right, 10.16))
    case 41 => Some((Right, 11.43))
    case 42 => Some((Right, 12.7))
    case 1 => Some((Right, 15.24))
    case 2 => Some((Right, 16.51))
    case _ => None
  }

  /** Board position of an ESP32 GPIO pin; an unknown GPIO gives the module centre. */
  function EspPin(gpio: int): (real, real)
  {
    match PinPlace(gpio)
    case None => ESP32
    case Some((side, yoff)) =>
      if side == Left then (ESP32.0 - ESP_HW, ESP32.1 + yoff) else (ESP32.0 + ESP_HW, ESP32.1 + yoff)
  }

  /** Unknown pins sit at (80, 27.5), left pins at x = 71, right pins at x = 89, offset rows from y = 27.5. */
  lemma EspPinSpec(gpio: int)
    ensures PinPlace(gpio).None? ==> EspPin(gpio) == (80.0, 27.5)
    ensures PinPlace(gpio).Some? && PinPlace(gpio).value.0 == Left ==>
              EspPin(gpio) == (71.0, 27.5 + PinPlace(gpio).value.1)
    ensures PinPlace(gpio).Some? && PinPlace(gpio).value.0 == Right ==>
              EspPin(gpio) == (89.0, 27.5 + PinPlace(gpio).value.1)
    ensures 71.0 <= EspPin(gpio).0 <= 89.0 && 21.15 <= EspPin(gpio).1 <= 44.01
  {
  }

  /** Builds a segment record in the argument order of the router's shorthand. */
  function Seg(x1: real, y1: real, x2: real, y2: real, layer: string, width: real, net: nat): Segment
  {
    Segment(x1, y1, x2, y2, width, layer, net)
  }

  predicate AxisAligned(s: Segment)
  {
    s.x1 == s.x2 || s.y1 == s.y2
  }

  /** Two-segment Manhattan route: horizontal then vertical, or vertical then horizontal. */
  function LRoute(x1: real, y1: real, x2: real, y2: real, layer: string, width: real, net: nat, hFirst: bool): seq<Segment>
  {
    if hFirst then [Seg(x1, y1, x2, y1, layer, width, net), Seg(x2, y1, x2, y2, layer, width, net)]
    else [Seg(x1, y1, x1, y2, layer, width, net), Seg(x1, y2, x2, y2, layer, width, net)]
  }

  /**
   * Exactly two axis-aligned segments with the given layer, width and net,
   * starting at (x1, y1), ending at (x2, y2) and meeting at the corner the
   * leg order picks.
   */
  lemma LRouteShape(x1: real, y1: real, x2: real, y2: real, layer: string, width: real, net: nat, hFirst: bool)
    ensures var r := LRoute(x1, y1, x2, y2, layer, width, net, hFirst);
            |r| == 2 && AxisAligned(r[0]) && AxisAligned(r[1]) &&
            (forall s :: s in r ==> s.layer == layer && s.width == width && s.net == net) &&
            (r[0].x1, r[0].y1) == (x1, y1) && (r[1].x2, r[1].y2) == (x2, y2) &&
            (r[0].x2, r[0].y2) == (r[1].x1, r[1].y1) &&
            (r[0].x2, r[0].y2) == (if hFirst then (x2, y1) else (x1, y2))
  {
  }

  /** What a routing step emits: a copper segment or a via. */
  datatype Part = SegPart(seg: Segment) | ViaPart(via: Via)

  function Segs(segs: seq<Segment>): (r: seq<Part>)
    ensures |r| == |segs| && forall i :: 0 <= i < |r| ==> r[i] == SegPart(segs[i])
  {
    if |segs| == 0 then [] else [SegPart(segs[0])] + Segs(segs[1..])
  }

  /** A via with the emitter's default size and drill. */
  function NetVia(x: real, y: real, net: nat): Via
  {
    Via(x, y, 0.6, 0.3, net)
  }

  /** Keep-out for a via centre: the slot grown by the via radius plus clearance. */
  const SLOT_MARGIN: real := 0.6

  predicate InViaKeepout(vx: real, vy: real)
  {
    SLOT_X1 - SLOT_MARGIN < vx < SLOT_X2 + SLOT_MARGIN && SLOT_Y1 - SLOT_MARGIN < vy < SLOT_Y2 + SLOT_MARGIN
  }

  /** A via centre in the keep-out is pushed right of the slot. */
  function Relocate(vx: real, vy: real): real
  {
    if InViaKeepout(vx, vy) then SLOT_X2 + SLOT_MARGIN + 0.5 else vx
  }

  /** After relocation a via is never in the keep-out (129.6 > 129.1), and only such vias move. */
  lemma RelocateClears(vx: real, vy: real)
    ensures !InViaKeepout(Relocate(vx, vy), vy)
    ensures !Drc.InSlot(Relocate(vx, vy), vy, SLOT_MARGIN)
    ensures Relocate(vx, vy) != vx ==> InViaKeepout(vx, vy) && Relocate(vx, vy) == 129.6
  {
  }

  /** A face button: its reference, net name, GPIO and pad position. */
  datatype Button = Button(ref: string, netName: string, gpio: int, x: real, y: real)

  /** The via sits 4 mm from the pad toward the board centre line, then clear of the slot. */
  function ViaX(b: Button): real
  {
    Relocate(if b.x < CX then b.x + 4.0 else b.x - 4.0, b.y)
  }

  /** The router's guard: the horizontal leg at the via's height would cross the slot. */
  predicate HWouldCross(vx: real, vy: real, epx: real)
  {
    SLOT_Y1 <= vy <= SLOT_Y2 && Min(vx, epx) < SLOT_X1 && Max(vx, epx) > SLOT_X2
  }

  lemma HWouldCrossMeans(vx: real, vy: real, epx: real)
    ensures HWouldCross(vx, vy, epx) <==> CrossesSlot(vx, vy, epx, vy)
  {
  }

  predicate Crossing(b: Button)
  {
    HWouldCross(ViaX(b), b.y, EspPin(b.gpio).0)
  }

  /** The k-th detour: up to y = 7 - k, left to x = 53 - 1.5 k, down to the pin row, across to the pin. */
  function ZRoute(vx: real, vy: real, epx: real, epy: real, k: nat, net: nat): seq<Segment>
  {
    var bypassY := 7.0 - k as real;
    var approachX := 53.0 - 1.5 * k as real;
    [Seg(vx, vy, vx, bypassY, "B.Cu", W_SIG, net),
     Seg(vx, bypassY, approachX, bypassY, "B.Cu", W_SIG, net),
     Seg(approachX, bypassY, approachX, epy, "B.Cu", W_SIG, net),
     Seg(approachX, epy, epx, epy, "B.Cu", W_SIG, net)]
  }

  /** The B.Cu route of a face button given the number of detours taken before it. */
  function BackRoute(b: Button, net: nat, k: nat): seq<Segment>
  {
    var vx, vy := ViaX(b), b.y;
    var (epx, epy) := EspPin(b.gpio);
    if HWouldCross(vx, vy, epx) then ZRoute(vx, vy, epx, epy, k, net)
    else LRoute(vx, vy, epx, epy, "B.Cu", W_SIG, net, Abs(vx - epx) > Abs(vy - epy))
  }

  /** Everything one face button contributes: pad-to-via trace, via, B.Cu route. */
  function ButtonParts(b: Button, net: nat, k: nat): seq<Part>
  {
    [SegPart(Seg(b.x, b.y, ViaX(b), b.y, "F.Cu", W_SIG, net)), ViaPart(NetVia(ViaX(b), b.y, net))]
    + Segs(BackRoute(b, net, k))
  }

  /** The parts of one face button as a function of its detour number. */
  function FaceParts(netId: string -> nat): (Button, nat) -> seq<Part>
  {
    (b: Button, k: nat) => ButtonParts(b, netId(b.netName), k)
  }

  /** The routes of a list of face buttons, the first detour numbered k and each detour advancing the number. */
  function FaceRoutes(btns: seq<Button>, netId: string -> nat, k: nat): seq<Part>
  {
    Threaded(btns, FaceParts(netId), Crossing, k)
  }

  /** Number of face buttons in the list that take a detour. */
  function Crossings(btns: seq<Button>): nat
  {
    Count(btns, Crossing)
  }

  /** A detour of a button whose via height is in the slot band never crosses the slot. */
  lemma ZRouteClear(vx: real, vy: real, epx: real, epy: real, k: nat, net: nat)
    requires SLOT_Y1 <= vy <= SLOT_Y2 && !InViaKeepout(vx, vy) && epx <= SLOT_X2
    ensures forall s :: s in ZRoute(vx, vy, epx, epy, k, net) ==> !CrossesSlot(s.x1, s.y1, s.x2, s.y2)
  {
  }

  /** Every via a face button places is outside the slot keep-out. */
  lemma {:induction false} FaceViasClear(btns: seq<Button>, netId: string -> nat, k: nat)
    ensures forall p :: p in FaceRoutes(btns, netId, k) && p.ViaPart? ==> !InViaKeepout(p.via.x, p.via.y)
    decreases |btns|
  {
    if |btns| > 0 {
      var b := btns[0];
      var net := netId(b.netName);
      var k' := k + if Crossing(b) then 1 else 0;
      FaceViasClear(btns[1..], netId, k');
      RelocateClears(if b.x < CX then b.x + 4.0 else b.x - 4.0, b.y);
      forall p | p in Segs(BackRoute(b, net, k))
        ensures !p.ViaPart?
      {
      }
    }
  }

  /** The detoured route of a face button never crosses the slot. */
  lemma DetourNeverCrosses(b: Button, net: nat, k: nat)
    requires Crossing(b)
    ensures forall s :: s in BackRoute(b, net, k) ==> !CrossesSlot(s.x1, s.y1, s.x2, s.y2)
  {
    RelocateClears(if b.x < CX then b.x + 4.0 else b.x - 4.0, b.y);
    EspPinSpec(b.gpio);
    ZRouteClear(ViaX(b), b.y, EspPin(b.gpio).0, EspPin(b.gpio).1, k, net);
  }

  /** Without a detour, a horizontal-first route does not cross the slot. */
  lemma HorizontalFirstClear(b: Button, net: nat, k: nat)
    requires !Crossing(b)
    requires Abs(ViaX(b) - EspPin(b.gpio).0) > Abs(b.y - EspPin(b.gpio).1)
    ensures forall s :: s in BackRoute(b, net, k) ==> !CrossesSlot(s.x1, s.y1, s.x2, s.y2)
  {
    EspPinSpec(b.gpio);
  }

  /**
   * The guard checks only the leg at the via's height: a vertical-first route
   * from a via below the slot band can carry its horizontal leg through the slot.
   */
  lemma VerticalFirstCanCross()
    ensures var b := Button("SWx", "BTN_X", 48, 134.0, 72.0);
            !Crossing(b) && ViaX(b) == 130.0 &&
            Abs(ViaX(b) - EspPin(b.gpio).0) <= Abs(b.y - EspPin(b.gpio).1) &&
            CrossesSlot(BackRoute(b, 1, 0)[1].x1, BackRoute(b, 1, 0)[1].y1,
                         BackRoute(b, 1, 0)[1].x2, BackRoute(b, 1, 0)[1].y2)
  {
    var b := Button("SWx", "BTN_X", 48, 134.0, 72.0);
    assert EspPin(48) == (89.0, 27.5);
    assert ViaX(b) == 130.0;
  }

  /** The ten face buttons: d-pad, ABXY, start and select. */
  const FACE_BUTTONS: seq<Button> := [
    Button("SW1", "BTN_UP", 40, Enc(-62.0, 14.0).0, Enc(-62.0, 14.0).1),
    Button("SW2", "BTN_DOWN", 41, Enc(-62.0, -4.0).0, Enc(-62.0, -4.0).1),
    Button("SW3", "BTN_LEFT", 42, Enc(-71.0, 5.0).0, Enc(-71.0, 5.0).1),
    Button("SW4", "BTN_RIGHT", 1, Enc(-53.0, 5.0).0, Enc(-53.0, 5.0).1),
    Button("SW5", "BTN_A", 2, Enc(62.0, 15.0).0, Enc(62.0, 15.0).1),
    Button("SW6", "BTN_B", 48, Enc(72.0, 5.0).0, Enc(72.0, 5.0).1),
    Button("SW7", "BTN_X", 47, Enc(62.0, -5.0).0, Enc(62.0, -5.0).1),
    Button("SW8", "BTN_Y", 21, Enc(52.0, 5.0).0, Enc(52.0, 5.0).1),
    Button("SW9", "BTN_START", 18, Enc(-72.0, -17.0).0, Enc(-72.0, -17.0).1),
    Button("SW10", "BTN_SELECT", 0, Enc(-52.0, -17.0).0, Enc(-52.0, -17.0).1)]

  /** On the real board exactly B, X and Y detour, as detours 0, 1 and 2 (Y's via pushed to x = 129.6). */
  lemma FaceButtonDetours()
    ensures forall i :: 0 <= i < 5 ==> !Crossing(FACE_BUTTONS[i])
    ensures Crossing(FACE_BUTTONS[5]) && Crossing(FACE_BUTTONS[6]) && Crossing(FACE_BUTTONS[7])
    ensures !Crossing(FACE_BUTTONS[8]) && !Crossing(FACE_BUTTONS[9])
    ensures Crossings(FACE_BUTTONS[..5]) == 0 && Crossings(FACE_BUTTONS[..6]) == 1 &&
            Crossings(FACE_BUTTONS[..7]) == 2
    ensures ViaX(FACE_BUTTONS[7]) == 129.6
  {
    var fb := FACE_BUTTONS;
    FaceCrossings();
    CrossingsNone(fb[..5]);
    CrossingsSnoc(fb[..5], fb[5]);
    assert fb[..6] == fb[..5] + [fb[5]];
    CrossingsSnoc(fb[..6], fb[6]);
    assert fb[..7] == fb[..6] + [fb[6]];
  }

  /** Which face buttons detour, button by button. */
  lemma FaceCrossings()
    ensures !Crossing(FACE_BUTTONS[0]) && !Crossing(FACE_BUTTONS[1]) && !Crossing(FACE_BUTTONS[2])
    ensures !Crossing(FACE_BUTTONS[3]) && !Crossing(FACE_BUTTONS[4])
    ensures Crossing(FACE_BUTTONS[5]) && Crossing(FACE_BUTTONS[6]) && Crossing(FACE_BUTTONS[7])
    ensures !Crossing(FACE_BUTTONS[8]) && !Crossing(FACE_BUTTONS[9])
  {
    FaceCrossingsLeft();
    FaceCrossingsRight();
  }

  lemma FaceCrossingsLeft()
    ensures !Crossing(FACE_BUTTONS[0]) && !Crossing(FACE_BUTTONS[1]) && !Crossing(FACE_BUTTONS[2])
    ensures !Crossing(FACE_BUTTONS[3]) && !Crossing(FACE_BUTTONS[8]) && !Crossing(FACE_BUTTONS[9])
  {
  }

  lemma FaceCrossingsRight()
    ensures !Crossing(FACE_BUTTONS[4])
    ensures Crossing(FACE_BUTTONS[5]) && Crossing(FACE_BUTTONS[6]) && Crossing(FACE_BUTTONS[7])
  {
  }

  lemma CrossingsSnoc(xs: seq<Button>, x: Button)
    ensures Crossings(xs + [x]) == Crossings(xs) + if Crossing(x) then 1 else 0
  {
    FilterConcat(xs, [x], Crossing);
    assert [x][..0] == [];
  }

  lemma {:induction false} CrossingsNone(xs: seq<Button>)
    requires forall i :: 0 <= i < |xs| ==> !Crossing(xs[i])
    ensures Crossings(xs) == 0
  {
    if |xs| > 0 {
      CrossingsNone(xs[..|xs| - 1]);
    }
  }

  /** The menu button: via 4 mm above the pad, then an L to the ESP32's right edge. */
  function MenuParts(net: nat): seq<Part>
  {
    var (mx, my) := Enc(62.0, -25.0);
    var (mvx, mvy) := (mx, my - 4.0);
    [SegPart(Seg(mx, my, mvx, mvy, "F.Cu", W_SIG, net)), ViaPart(NetVia(mvx, mvy, net))]
    + Segs(LRoute(mvx, mvy, ESP32.0 + ESP_HW, ESP32.1 + 5.0, "B.Cu", W_SIG, net, true))
  }

  /** A shoulder button: via toward the centre line, then an L whose leg order depends on the side. */
  function ShoulderParts(b: Button, net: nat): seq<Part>
  {
    var vx := if b.x < CX then b.x + 4.0 else b.x - 4.0;
    var (epx, epy) := EspPin(b.gpio);
    [SegPart(Seg(b.x, b.y, vx, b.y, "F.Cu", W_SIG, net)), ViaPart(NetVia(vx, b.y, net))]
    + Segs(LRoute(vx, b.y, epx, epy, "B.Cu", W_SIG, net, b.ref != "SW11"))
  }

  const SHOULDER_BUTTONS: seq<Button> := [
    Button("SW11", "BTN_L", 35, Enc(-65.0, 35.0).0, Enc(-65.0, 35.0).1),
    Button("SW12", "BTN_R", 19, Enc(65.0, 35.0).0, Enc(65.0, 35.0).1)]

  function ShoulderRoutes(btns: seq<Button>, netId: string -> nat): seq<Part>
  {
    if |btns| == 0 then [] else ShoulderParts(btns[0], netId(btns[0].netName)) + ShoulderRoutes(btns[1..], netId)
  }

  /** One face button's trace, via and B.Cu route, and whether it took the detour. */
  method RouteFace(b: Button, net: nat, crossingIdx: nat) returns (step: seq<Part>, crossed: bool)
    ensures step == ButtonParts(b, net, crossingIdx) && crossed == Crossing(b)
  {
    var vx := if b.x < CX then b.x + 4.0 else b.x - 4.0;
    var vy := b.y;
    if SLOT_X1 - SLOT_MARGIN < vx < SLOT_X2 + SLOT_MARGIN && SLOT_Y1 - SLOT_MARGIN < vy < SLOT_Y2 + SLOT_MARGIN {
      vx := SLOT_X2 + SLOT_MARGIN + 0.5;
    }
    assert vx == ViaX(b);
    var (epx, epy) := EspPin(b.gpio);
    step := [SegPart(Seg(b.x, b.y, vx, vy, "F.Cu", W_SIG, net)), ViaPart(NetVia(vx, vy, net))];
    crossed := SLOT_Y1 <= vy <= SLOT_Y2 && Min(vx, epx) < SLOT_X1 && Max(vx, epx) > SLOT_X2;
    assert crossed == HWouldCross(vx, vy, epx);
    if crossed {
      step := step + Segs(ZRoute(vx, vy, epx, epy, crossingIdx, net));
    } else {
      step := step + Segs(LRoute(vx, vy, epx, epy, "B.Cu", W_SIG, net, Abs(vx - epx) > Abs(vy - epy)));
    }
  }

  /** The face buttons' routes, one button at a time from the first. */
  lemma FaceRoutesCons(btns: seq<Button>, netId: string -> nat, k: nat)
    requires |btns| > 0
    ensures FaceRoutes(btns, netId, k) ==
            ButtonParts(btns[0], netId(btns[0].netName), k)
            + FaceRoutes(btns[1..], netId, k + if Crossing(btns[0]) then 1 else 0)
  {
  }

  /** The face-button loop: the detour counter advances on every button that detours. */
  method RouteFaces(faces: seq<Button>, netId: string -> nat) returns (parts: seq<Part>)
    ensures parts == FaceRoutes(faces, netId, 0)
  {
    parts := [];
    var crossingIdx := 0;
    var i := 0;
    while i < |faces|
      invariant 0 <= i <= |faces|
      invariant parts + FaceRoutes(faces[i..], netId, crossingIdx) == FaceRoutes(faces, netId, 0)
    {
      var step, crossed := RouteFace(faces[i], netId(faces[i].netName), crossingIdx);
      FaceRoutesCons(faces[i..], netId, crossingIdx);
      assert faces[i..][0] == faces[i] && faces[i..][1..] == faces[i + 1..];
      var next := if crossed then crossingIdx + 1 else crossingIdx;
      Assoc(parts, step, FaceRoutes(faces[i + 1..], netId, next));
      parts := parts + step;
      crossingIdx := next;
      i := i + 1;
    }
    assert faces[i..] == [];
  }

  /** The shoulder-button loop. */
  method RouteShoulders(shoulders: seq<Button>, netId: string -> nat) returns (parts: seq<Part>)
    ensures parts == ShoulderRoutes(shoulders, netId)
  {
    parts := [];
    var j := 0;
    while j < |shoulders|
      invariant 0 <= j <= |shoulders|
      invariant parts + ShoulderRoutes(shoulders[j..], netId) == ShoulderRoutes(shoulders, netId)
    {
      var step := ShoulderParts(shoulders[j], netId(shoulders[j].netName));
      assert shoulders[j..][1..] == shoulders[j + 1..];
      Assoc(parts, step, ShoulderRoutes(shoulders[j + 1..], netId));
      parts := parts + step;
      j := j + 1;
    }
    assert shoulders[j..] == [];
  }

  /**
   * All button traces: the face buttons in order with the detour counter
   * threaded through, then the menu button, then the shoulder buttons.
   * Net ids are looked up by net name.
   */
  method ButtonTraces(faces: seq<Button>, shoulders: seq<Button>, netId: string -> nat) returns (parts: seq<Part>)
    ensures parts == FaceRoutes(faces, netId, 0) + MenuParts(netId("BTN_MENU")) + ShoulderRoutes(shoulders, netId)
  {
    var face := RouteFaces(faces, netId);
    var shoulder := RouteShoulders(shoulders, netId);
    parts := face + MenuParts(netId("BTN_MENU")) + shoulder;
  }

  /** Entry i of a passive row: twelve consecutive numbers from `first`, then `last`. */
  function PassiveRef(prefix: string, first: nat, last: nat, i: nat): string
  {
    if i < 12 then prefix + Str(first + i) else prefix + Str(last)
  }

  /** "R4" .. "R15" then "R19": the pull-up resistors in row order. */
  const PULL_UP_REFS: seq<string> := seq(13, i requires 0 <= i => PassiveRef("R", 4, 19, i))

  /** "C5" .. "C16" then "C20": the debounce capacitors in row order. */
  const DEBOUNCE_REFS: seq<string> := seq(13, i requires 0 <= i => PassiveRef("C", 5, 20, i))

  /** Column of entry i of either passive row. */
  function PassiveX(i: nat): real
  {
    50.0 + 5.0 * i as real
  }

  lemma PrefixedInjective(p: string, a: nat, b: nat)
    requires a != b
    ensures p + Str(a) != p + Str(b)
  {
    if p + Str(a) == p + Str(b) {
      assert Str(a) == (p + Str(a))[|p|..];
      assert Str(b) == (p + Str(b))[|p|..];
      PaddedInjective(a, b, 1, 10);
    }
  }

  /** A row whose last number is past the run of twelve has no repeated reference. */
  lemma PassiveRefsDistinct(prefix: string, first: nat, last: nat, i: nat, j: nat)
    requires first + 12 <= last && i < j < 13
    ensures PassiveRef(prefix, first, last, i) != PassiveRef(prefix, first, last, j)
  {
    PrefixedInjective(prefix, first + i, if j < 12 then first + j else last);
  }

  /** Each row has 13 distinct references, and entry i sits at x = 50 + 5 i, within 50..110. */
  lemma PassiveRows()
    ensures |PULL_UP_REFS| == 13 && |DEBOUNCE_REFS| == 13
    ensures forall i, j :: 0 <= i < j < 13 ==> PULL_UP_REFS[i] != PULL_UP_REFS[j]
    ensures forall i, j :: 0 <= i < j < 13 ==> DEBOUNCE_REFS[i] != DEBOUNCE_REFS[j]
    ensures forall i, j :: 0 <= i < j < 13 ==> PassiveX(i) < PassiveX(j)
    ensures PassiveX(0) == 50.0 && PassiveX(12) == 110.0
  {
    forall i, j | 0 <= i < j < 13
      ensures PULL_UP_REFS[i] != PULL_UP_REFS[j] && DEBOUNCE_REFS[i] != DEBOUNCE_REFS[j]
    {
      PassiveRefsDistinct("R", 4, 19, i, j);
      PassiveRefsDistinct("C", 5, 20, i, j);
    }
  }

  /** The display connector and the x position of its pin p (1-based, 0.5 mm pitch). */
  const FPC: (real, real) := Enc(59.0, 2.0)

  function FpcPinX(pin: int): real
  {
    FPC.0 - 9.75 + (pin - 1) as real * 0.5
  }

  const DATA_GPIOS: seq<int> := [4, 5, 6, 7, 8, 9, 10, 11]

  /** Data bit i: out to column 58 + i, up to channel 10 + 0.5 i, across, down to FPC pin 11 + i. */
  function DataBitRoute(i: nat, gpio: int, net: nat): seq<Segment>
  {
    var (px, py) := EspPin(gpio);
    var fpcX := FpcPinX(11 + i);
    var colX := 58.0 + i as real;
    var bypassY := 10.0 + i as real * 0.5;
    [Seg(px, py, colX, py, "B.Cu", W_DATA, net),
     Seg(colX, py, colX, bypassY, "B.Cu", W_DATA, net),
     Seg(colX, bypassY, fpcX, bypassY, "B.Cu", W_DATA, net),
     Seg(fpcX, bypassY, fpcX, FPC.1, "B.Cu", W_DATA, net)]
  }

  /** The routes of the data bits, bit i from GPIO gpios[i] on net nets[i]. */
  function DataBus(gpios: seq<int>, nets: seq<nat>): (r: seq<Segment>)
    requires |gpios| == |nets|
    ensures |r| == 4 * |gpios|
  {
    if |gpios| == 0 then []
    else
      var n := |gpios| - 1;
      DataBus(gpios[..n], nets[..n]) + DataBitRoute(n, gpios[n], nets[n])
  }

  /** The data-bus traces, bit i on net nets[i]. */
  method DataBusTraces(nets: seq<nat>) returns (parts: seq<Segment>)
    requires |nets| == |DATA_GPIOS|
    ensures parts == DataBus(DATA_GPIOS, nets)
  {
    var gpios := DATA_GPIOS;
    parts := [];
    var i := 0;
    while i < |gpios|
      invariant 0 <= i <= |gpios|
      invariant parts == DataBus(gpios[..i], nets[..i])
    {
      assert gpios[..i + 1][..i] == gpios[..i] && nets[..i + 1][..i] == nets[..i];
      parts := parts + DataBitRoute(i, gpios[i], nets[i]);
      i := i + 1;
    }
    assert gpios[..i] == gpios && nets[..i] == nets;
  }

  /** Different data bits use different columns and different channels. */
  lemma DataBitsSeparate(i: nat, j: nat, gi: int, gj: int, ni: nat, nj: nat)
    requires i != j
    ensures DataBitRoute(i, gi, ni)[1].x1 != DataBitRoute(j, gj, nj)[1].x1
    ensures DataBitRoute(i, gi, ni)[2].y1 != DataBitRoute(j, gj, nj)[2].y1
  {
  }

  /** The eight data-bit routes stay axis-aligned and clear of the slot, passing above it. */
  lemma DataBitClear(i: nat, gpio: int, net: nat)
    requires i < 8
    ensures forall s :: s in DataBitRoute(i, gpio, net) ==> AxisAligned(s) && !CrossesSlot(s.x1, s.y1, s.x2, s.y2)
  {
    EspPinSpec(gpio);
  }
}
