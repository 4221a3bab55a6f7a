// The PCB S-expression emitters and their sequential UUID counter. Each
// emitter that names its element asks the counter for the next UUID; the
// element itself is returned as its token sequence, from which the field
// order can be read back the way the rule checker's segment and via
// patterns read it.
module PcbPrimitives {
  import opened Wrappers
  import opened Fmt
  import Board
  import Drc

  /** The fixed middle of every PCB UUID. */
  const UID_MIDDLE := "-dead-4000-a000-"

  /** The UUID handed out when the counter has reached n. */
  function UidOf(n: nat): string
  {
    SeqUuid(n, UID_MIDDLE)
  }

  /** Distinct counter values give distinct UUIDs. */
  lemma UidInjective(a: nat, b: nat)
    requires a != b
    ensures UidOf(a) != UidOf(b)
  {
    if UidOf(a) == UidOf(b) {
      SeqUuidInjective(a, b, UID_MIDDLE);
    }
  }

  /** While the counter stays below 2^32 every UUID has the canonical 36 characters. */
  lemma UidLength(n: nat)
    requires n < 0x1_0000_0000
    ensures |UidOf(n)| == 36
  {
    SeqUuidLength(n, UID_MIDDLE);
  }

  /** The generator: a counter bumped before each UUID is formatted. */
  class PcbUid {
    var n: nat

    constructor()
      ensures n == 0
    {
      n := 0;
    }

    method Uid() returns (s: string)
      modifies this
      ensures n == old(n) + 1
      ensures s == UidOf(n)
    {
      n := n + 1;
      s := UidOf(n);
    }
  }

  /** Two UUIDs drawn one after the other differ. */
  method TwoUids(gen: PcbUid) returns (s1: string, s2: string)
    modifies gen
    ensures gen.n == old(gen.n) + 2
    ensures s1 == UidOf(old(gen.n) + 1) && s2 == UidOf(old(gen.n) + 2)
    ensures s1 != s2
  {
    s1 := gen.Uid();
    s2 := gen.Uid();
    UidInjective(gen.n - 1, gen.n);
  }

  /** One token of the emitted S-expression text. */
  datatype Token =
    | Open(tag: string)
    | Close
    | Num(x: real)
    | Int(i: int)
    | Str(s: string)
    | NumStr(prefix: string, v: real, suffix: string)  // a quoted string with a number inside

  const DEFAULT_VIA_SIZE: real := 0.6
  const DEFAULT_VIA_DRILL: real := 0.3
  const DEFAULT_HOLE_DRILL: real := 2.5
  const DEFAULT_HOLE_PAD: real := 5.0
  const DEFAULT_SEGMENT_LAYER := "F.Cu"
  const DEFAULT_SEGMENT_WIDTH: real := 0.25
  const DEFAULT_LINE_LAYER := "Edge.Cuts"
  const DEFAULT_LINE_WIDTH: real := 0.05
  const DEFAULT_TEXT_LAYER := "F.SilkS"
  const DEFAULT_TEXT_SIZE: real := 1.0

  /** The two net declarations every board starts with. */
  const NETS := [Board.NetDecl(0, ""), Board.NetDecl(1, "GND")]

  function Stroke(width: real): seq<Token>
  {
    [Open("stroke"), Open("width"), Num(width), Close, Open("type"), Str("default"), Close, Close]
  }

  function GrLineTokens(x1: real, y1: real, x2: real, y2: real, layer: string, width: real, u: string): seq<Token>
  {
    [Open("gr_line"), Open("start"), Num(x1), Num(y1), Close, Open("end"), Num(x2), Num(y2), Close]
    + Stroke(width) + [Open("layer"), Str(layer), Close, Open("uuid"), Str(u), Close, Close]
  }

  method GrLine(gen: PcbUid, x1: real, y1: real, x2: real, y2: real,
                layer: string := DEFAULT_LINE_LAYER, width: real := DEFAULT_LINE_WIDTH)
    returns (ts: seq<Token>)
    modifies gen
    ensures gen.n == old(gen.n) + 1
    ensures ts == GrLineTokens(x1, y1, x2, y2, layer, width, UidOf(gen.n))
  {
    var u := gen.Uid();
    ts := GrLineTokens(x1, y1, x2, y2, layer, width, u);
  }

  function GrArcTokens(sx: real, sy: real, mx: real, my: real, ex: real, ey: real,
                       layer: string, width: real, u: string): seq<Token>
  {
    [Open("gr_arc"), Open("start"), Num(sx), Num(sy), Close, Open("mid"), Num(mx), Num(my), Close,
     Open("end"), Num(ex), Num(ey), Close]
    + Stroke(width) + [Open("layer"), Str(layer), Close, Open("uuid"), Str(u), Close, Close]
  }

  method GrArc(gen: PcbUid, sx: real, sy: real, mx: real, my: real, ex: real, ey: real,
               layer: string := DEFAULT_LINE_LAYER, width: real := DEFAULT_LINE_WIDTH)
    returns (ts: seq<Token>)
    modifies gen
    ensures gen.n == old(gen.n) + 1
    ensures ts == GrArcTokens(sx, sy, mx, my, ex, ey, layer, width, UidOf(gen.n))
  {
    var u := gen.Uid();
    ts := GrArcTokens(sx, sy, mx, my, ex, ey, layer, width, u);
  }

  /** Silkscreen text names no element, so it takes no UUID and needs no generator. */
  function GrText(text: string, x: real, y: real,
                  layer: string := DEFAULT_TEXT_LAYER, size: real := DEFAULT_TEXT_SIZE): (ts: seq<Token>)
    ensures forall t :: t in ts ==> t != Open("uuid")
  {
    [Open("gr_text"), Str(text), Open("at"), Num(x), Num(y), Close, Open("layer"), Str(layer), Close,
     Open("effects"), Open("font"), Open("size"), Num(size), Num(size), Close,
     Open("thickness"), Num(0.15), Close, Close, Close, Close]
  }

  function MountingHoleTokens(x: real, y: real, drill: real, padD: real, u: string): seq<Token>
  {
    [Open("footprint"), NumStr("MountingHole:MountingHole_", drill, "mm"), Open("at"), Num(x), Num(y), Close,
     Open("layer"), Str("F.Cu"), Close, Open("uuid"), Str(u), Close,
     Open("pad"), Str(""), Str("thru_hole"), Str("circle"), Open("at"), Num(0.0), Num(0.0), Close,
     Open("size"), Num(padD), Num(padD), Close, Open("drill"), Num(drill), Close,
     Open("layers"), Str("*.Cu"), Str("*.Mask"), Close, Close, Close]
  }

  method MountingHole(gen: PcbUid, x: real, y: real,
                      drill: real := DEFAULT_HOLE_DRILL, padD: real := DEFAULT_HOLE_PAD)
    returns (ts: seq<Token>)
    modifies gen
    ensures gen.n == old(gen.n) + 1
    ensures ts == MountingHoleTokens(x, y, drill, padD, UidOf(gen.n))
  {
    var u := gen.Uid();
    ts := MountingHoleTokens(x, y, drill, padD, u);
  }

  function ViaTokens(v: Board.Via, u: string): seq<Token>
  {
    [Open("via"), Open("at"), Num(v.x), Num(v.y), Close, Open("size"), Num(v.size), Close,
     Open("drill"), Num(v.drill), Close, Open("layers"), Str("F.Cu"), Str("B.Cu"), Close,
     Open("net"), Int(v.net), Close, Open("uuid"), Str(u), Close, Close]
  }

  method Via(gen: PcbUid, x: real, y: real,
             size: real := DEFAULT_VIA_SIZE, drill: real := DEFAULT_VIA_DRILL, net: nat := 0)
    returns (ts: seq<Token>)
    modifies gen
    ensures gen.n == old(gen.n) + 1
    ensures ts == ViaTokens(Board.Via(x, y, size, drill, net), UidOf(gen.n))
  {
    var u := gen.Uid();
    ts := ViaTokens(Board.Via(x, y, size, drill, net), u);
  }

  function Points(pts: seq<(real, real)>): (ts: seq<Token>)
    ensures |ts| == 4 * |pts|
    ensures forall t :: t in ts && t.Open? ==> t.tag == "xy"
  {
    if |pts| == 0 then []
    else Points(pts[..|pts| - 1]) + [Open("xy"), Num(pts[|pts| - 1].0), Num(pts[|pts| - 1].1), Close]
  }

  function ZoneHead(layer: string, net: int, u: string): seq<Token>
  {
    [Open("zone"), Open("net"), Int(net), Close, Open("net_name"), Str("GND"), Close,
     Open("layer"), Str(layer), Close, Open("uuid"), Str(u), Close,
     Open("fill"), Str("yes"), Open("thermal_gap"), Num(0.5), Close,
     Open("thermal_bridge_width"), Num(0.5), Close, Close,
     Open("polygon"), Open("pts")]
  }

  function ZoneTokens(layer: string, pts: seq<(real, real)>, net: int, u: string): seq<Token>
  {
    ZoneHead(layer, net, u) + Points(pts) + [Close, Close, Close]
  }

  /** A GND pour carries no priority tag, so the short analysis reads it with priority -1. */
  lemma ZoneHasNoPriority(layer: string, pts: seq<(real, real)>, net: int, u: string)
    ensures Open("priority") !in ZoneTokens(layer, pts, net, u)
  {
    assert Open("priority") !in ZoneHead(layer, net, u) by {
      forall t | t in ZoneHead(layer, net, u) && t.Open?
        ensures t.tag != "priority"
      {
      }
    }
    assert Open("priority") !in Points(pts);
  }

  /** A GND pour. */
  method ZoneGnd(gen: PcbUid, layer: string, pts: seq<(real, real)>, net: int := 1)
    returns (ts: seq<Token>)
    modifies gen
    ensures gen.n == old(gen.n) + 1
    ensures ts == ZoneTokens(layer, pts, net, UidOf(gen.n))
  {
    var u := gen.Uid();
    ts := ZoneTokens(layer, pts, net, u);
    ZoneHasNoPriority(layer, pts, net, u);
  }

  function SegmentTokens(s: Board.Segment, u: string): seq<Token>
  {
    [Open("segment"), Open("start"), Num(s.x1), Num(s.y1), Close, Open("end"), Num(s.x2), Num(s.y2), Close,
     Open("width"), Num(s.width), Close, Open("layer"), Str(s.layer), Close,
     Open("net"), Int(s.net), Close, Open("uuid"), Str(u), Close, Close]
  }

  method Segment(gen: PcbUid, x1: real, y1: real, x2: real, y2: real,
                 layer: string := DEFAULT_SEGMENT_LAYER, width: real := DEFAULT_SEGMENT_WIDTH, net: nat := 0)
    returns (ts: seq<Token>)
    modifies gen
    ensures gen.n == old(gen.n) + 1
    ensures ts == SegmentTokens(Board.Segment(x1, y1, x2, y2, width, layer, net), UidOf(gen.n))
  {
    var u := gen.Uid();
    ts := SegmentTokens(Board.Segment(x1, y1, x2, y2, width, layer, net), u);
  }

  /**
   * The rule checker's segment pattern: start, end, width, layer, net, in this
   * order, right after the opening tag.
   */
  function ReadSegment(ts: seq<Token>): Option<Board.Segment>
  {
    if |ts| >= 18 && ts[0] == Open("segment")
       && ts[1] == Open("start") && ts[2].Num? && ts[3].Num? && ts[4] == Close
       && ts[5] == Open("end") && ts[6].Num? && ts[7].Num? && ts[8] == Close
       && ts[9] == Open("width") && ts[10].Num? && ts[11] == Close
       && ts[12] == Open("layer") && ts[13].Str? && ts[14] == Close
       && ts[15] == Open("net") && ts[16].Int? && ts[16].i >= 0 && ts[17] == Close
    then Some(Board.Segment(ts[2].x, ts[3].x, ts[6].x, ts[7].x, ts[10].x, ts[13].s, ts[16].i))
    else None
  }

  /** The segment emitter writes its fields in the order the rule checker reads them back. */
  lemma SegmentRoundTrip(s: Board.Segment, u: string)
    ensures ReadSegment(SegmentTokens(s, u)) == Some(s)
  {
  }

  /** The rule checker's via pattern: centre, size and drill (the net is not read). */
  function ReadVia(ts: seq<Token>): Option<Board.Via>
  {
    if |ts| >= 11 && ts[0] == Open("via")
       && ts[1] == Open("at") && ts[2].Num? && ts[3].Num? && ts[4] == Close
       && ts[5] == Open("size") && ts[6].Num? && ts[7] == Close
       && ts[8] == Open("drill") && ts[9].Num? && ts[10] == Close
    then Some(Board.Via(ts[2].x, ts[3].x, ts[6].x, ts[9].x, 0))
    else None
  }

  lemma ViaRoundTrip(v: Board.Via, u: string)
    ensures ReadVia(ViaTokens(v, u)).Some?
    ensures var r := ReadVia(ViaTokens(v, u)).value;
            r.x == v.x && r.y == v.y && r.size == v.size && r.drill == v.drill
  {
  }

  /** A via with the default size and drill has a 0.15 mm ring and passes both via rules. */
  lemma DefaultViaPasses(x: real, y: real, net: nat)
    ensures Drc.Ring(Board.Via(x, y, DEFAULT_VIA_SIZE, DEFAULT_VIA_DRILL, net)) == 0.15
    ensures Drc.ViaReport(Board.Via(x, y, DEFAULT_VIA_SIZE, DEFAULT_VIA_DRILL, net)) == []
  {
  }
}
