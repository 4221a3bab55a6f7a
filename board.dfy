// The typed board records the two verification engines read out of a
// .kicad_pcb file: copper segments, vias, net declarations, zones and pads.
// Lengths are millimetres on exact reals.
module Board {

  /** A straight copper track from (x1, y1) to (x2, y2). */
  datatype Segment = Segment(x1: real, y1: real, x2: real, y2: real, width: real, layer: string, net: nat)

  /** A plated via: centre, copper diameter and drill diameter. */
  datatype Via = Via(x: real, y: real, size: real, drill: real, net: nat)

  /** A `(net id "name")` declaration. */
  datatype NetDecl = NetDecl(id: nat, name: string)

  /** A copper pour; a zone without a priority tag has priority -1. */
  datatype Zone = Zone(net: nat, netName: string, layer: string, priority: int)

  /** A footprint pad, by the net it is assigned (0 when none). */
  datatype Pad = Pad(net: nat)

  /** The layer a segment lies on, the key the checks group by. */
  function Layer(s: Segment): string
  {
    s.layer
  }

  /** The layer a zone lies on. */
  function ZoneLayer(z: Zone): string
  {
    z.layer
  }

  /** End point k (0 for the start, 1 for the end) of a segment. */
  function End(s: Segment, k: nat): (real, real)
    requires k < 2
  {
    if k == 0 then (s.x1, s.y1) else (s.x2, s.y2)
  }
}
