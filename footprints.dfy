// Footprint pad generators of the board generator: each footprint is a list
// of pads relative to the footprint origin, every pad drawing one UUID from
// the board's UUID counter; footprints placed on the back copper have their
// pad x coordinates negated. Pads are records here; their S-expression text
// is not modelled beyond the drill and net clauses.
module Footprints {
  import opened Wrappers
  import opened Fmt
  import PcbPrimitives

  const SMD_F := "\"F.Cu\" \"F.Paste\" \"F.Mask\""
  const SMD_B := "\"B.Cu\" \"B.Paste\" \"B.Mask\""
  const THT := "\"*.Cu\" \"*.Mask\""

  /** One pad: number, type, shape, centre, size, layer list, net, optional drill and UUID. */
  datatype Pad = Pad(num: string, typ: string, shape: string, x: real, y: real, w: real, h: real,
                     layers: string, net: nat, drill: Option<real>, uuid: string)

  /** A pad text carries a (drill ...) clause only when a drill is given and it is non-zero. */
  predicate HasDrillClause(p: Pad)
  {
    p.drill.Some? && p.drill.value != 0.0
  }

  /** The net clause of a pad's text: net 0 is written with an empty net name. */
  function NetClause(net: nat): string
  {
    if net == 0 then " (net 0 \"\")" else " (net " + Str(net) + ")"
  }

  /** Only net 0 gets the quoted empty name. */
  lemma NetClauseSpec(net: nat)
    ensures '"' in NetClause(net) <==> net == 0
    ensures net == 0 ==> NetClause(net) == " (net 0 \"\")"
  {
    if net != 0 {
      StrDigits(net);
      assert forall i :: 0 <= i < |NetClause(net)| ==> NetClause(net)[i] != '"' by {
        forall i | 0 <= i < |NetClause(net)|
          ensures NetClause(net)[i] != '"'
        {
          if 6 <= i < 6 + |Str(net)| {
            assert NetClause(net)[i] == Str(net)[i - 6];
          }
        }
      }
    } else {
      assert NetClause(net)[8] == '"';
    }
  }

  /** A pad as the layouts describe it, before a UUID is drawn for it. */
  function SmdPad(num: string, x: real, y: real, w: real, h: real, layers: string): Pad
  {
    Pad(num, "smd", "rect", x, y, w, h, layers, 0, None, "")
  }

  function ThtPad(num: string, x: real, y: real, w: real, h: real, drill: real): Pad
  {
    Pad(num, "thru_hole", "circle", x, y, w, h, THT, 0, Some(drill), "")
  }

  /** The layers of most generators: back layers for "B", front layers for anything else. */
  function LayersFor(layer: string): string
  {
    if layer == "B" then SMD_B else SMD_F
  }

  /** Pads in emission order get the UUIDs first + 1, first + 2, ... */
  function Stamp(ps: seq<Pad>, first: nat): (r: seq<Pad>)
    ensures |r| == |ps|
  {
    seq(|ps|, i requires 0 <= i < |ps| => ps[i].(uuid := PcbPrimitives.UidOf(first + i + 1)))
  }

  /** No two pads of one footprint share a UUID, and stamping changes nothing but the UUID. */
  lemma StampSpec(ps: seq<Pad>, first: nat)
    ensures forall i, j :: 0 <= i < j < |ps| ==> Stamp(ps, first)[i].uuid != Stamp(ps, first)[j].uuid
    ensures forall i :: 0 <= i < |ps| ==> Stamp(ps, first)[i].(uuid := "") == ps[i].(uuid := "")
  {
    forall i, j | 0 <= i < j < |ps|
      ensures Stamp(ps, first)[i].uuid != Stamp(ps, first)[j].uuid
    {
      PcbPrimitives.UidInjective(first + i + 1, first + j + 1);
    }
  }

  /** Draws a UUID and builds one pad with it. */
  method MakePad(gen: PcbPrimitives.PcbUid, p: Pad) returns (r: Pad)
    modifies gen
    ensures gen.n == old(gen.n) + 1
    ensures r == p.(uuid := PcbPrimitives.UidOf(gen.n))
  {
    var u := gen.Uid();
    r := p.(uuid := u);
  }

  // ESP32-S3-WROOM-1: 14 left pads, 12 bottom pads, 14 right pads, thermal pad.

  function Esp32Pad(layers: string, i: nat): Pad
  {
    if i < 14 then SmdPad(Str(i + 1), -8.75, -5.26 + i as real * 1.27, 1.5, 0.9, layers)
    else if i < 26 then SmdPad(Str(i + 1), -6.985 + (i - 14) as real * 1.27, 12.5, 0.9, 1.5, layers)
    else if i < 40 then SmdPad(Str(i + 1), 8.75, 11.25 - (i - 26) as real * 1.27, 1.5, 0.9, layers)
    else SmdPad("41", -1.5, 2.46, 3.9, 3.9, layers)
  }

  function Esp32Layout(layers: string): seq<Pad>
  {
    seq(41, i requires 0 <= i < 41 => Esp32Pad(layers, i))
  }

  /**
   * 41 pads numbered "1" .. "41" in order: pins 1-14 down the left edge at
   * x = -8.75 from y = -5.26 in 1.27 mm steps, pins 15-26 along the bottom at
   * y = 12.5 from x = -6.985, pins 27-40 up the right edge at x = 8.75 (pin
   * 27 + i level with left pin 14 - i), and the thermal pad "41" at (-1.5, 2.46);
   * all surface-mount on the given layers, net 0, no drill.
   */
  lemma Esp32LayoutSpec(layers: string, i: nat)
    requires i < 41
    ensures |Esp32Layout(layers)| == 41
    ensures Esp32Layout(layers)[i].num == Str(i + 1)
    ensures i < 14 ==> Esp32Layout(layers)[i].x == -8.75 && Esp32Layout(layers)[i].y == -5.26 + i as real * 1.27
    ensures 14 <= i < 26 ==>
              Esp32Layout(layers)[i].y == 12.5 && Esp32Layout(layers)[i].x == -6.985 + (i - 14) as real * 1.27
    ensures 26 <= i < 40 ==>
              Esp32Layout(layers)[i].x == 8.75 && Esp32Layout(layers)[i].y == Esp32Layout(layers)[39 - i].y
    ensures i == 40 ==> Esp32Layout(layers)[i].x == -1.5 && Esp32Layout(layers)[i].y == 2.46
    ensures var p := Esp32Layout(layers)[i]; p.typ == "smd" && p.layers == layers && p.net == 0 && p.drill.None?
  {
    if i == 40 {
      assert Str(41) == "41" by {
        assert Fixed(41, 2, 10) == Fixed(4, 1, 10) + [DigitChar(1)];
      }
    }
    if 26 <= i < 40 {
      assert Esp32Layout(layers)[39 - i] == Esp32Pad(layers, 39 - i);
    }
  }

  /** Pad numbers of one footprint are distinct when they are str(1) .. str(n). */
  lemma NumberedDistinct(ps: seq<Pad>)
    requires forall i :: 0 <= i < |ps| ==> ps[i].num == Str(i + 1)
    ensures forall i, j :: 0 <= i < j < |ps| ==> ps[i].num != ps[j].num
  {
    forall i, j | 0 <= i < j < |ps|
      ensures ps[i].num != ps[j].num
    {
      if ps[i].num == ps[j].num {
        PaddedInjective(i + 1, j + 1, 1, 10);
      }
    }
  }

  /** Pads `from` .. `from + count - 1` of a layout, the first of them drawing UUID number `first` + 1. */
  predicate IsRun(run: seq<Pad>, layout: seq<Pad>, from: nat, count: nat, first: nat)
    requires from + count <= |layout|
  {
    |run| == count &&
    forall j :: 0 <= j < count ==> run[j] == layout[from + j].(uuid := PcbPrimitives.UidOf(first + j + 1))
  }

  lemma RunsJoin(a: seq<Pad>, b: seq<Pad>, layout: seq<Pad>, from: nat, m: nat, n: nat, first: nat)
    requires from + m + n <= |layout|
    requires IsRun(a, layout, from, m, first) && IsRun(b, layout, from + m, n, first + m)
    ensures IsRun(a + b, layout, from, m + n, first)
  {
    forall j | 0 <= j < m + n
      ensures (a + b)[j] == layout[from + j].(uuid := PcbPrimitives.UidOf(first + j + 1))
    {
      if j >= m {
        assert (a + b)[j] == b[j - m];
      }
    }
  }

  lemma RunIsStamp(run: seq<Pad>, layout: seq<Pad>, first: nat)
    requires IsRun(run, layout, 0, |layout|, first)
    ensures run == Stamp(layout, first)
  {
  }

  /** Left edge of the ESP32 module: pins 1-14 at x = -8.75, 1.27 mm apart downwards. */
  method Esp32Left(gen: PcbPrimitives.PcbUid, layers: string, pw: real, ph: real) returns (run: seq<Pad>)
    requires pw == 1.5 && ph == 0.9
    modifies gen
    ensures gen.n == old(gen.n) + 14
    ensures IsRun(run, Esp32Layout(layers), 0, 14, old(gen.n))
  {
    ghost var first := gen.n;
    run := [];
    for i := 0 to 14
      invariant gen.n == first + i
      invariant IsRun(run, Esp32Layout(layers), 0, i, first)
    {
      var p := MakePad(gen, SmdPad(Str(i + 1), -8.75, -5.26 + i as real * 1.27, pw, ph, layers));
      assert Esp32Layout(layers)[i] == Esp32Pad(layers, i);
      run := run + [p];
    }
  }

  /** Bottom edge: pins 15-26 at y = 12.5 from x = -6.985, pads turned (size swapped). */
  method Esp32Bottom(gen: PcbPrimitives.PcbUid, layers: string, pw: real, ph: real) returns (run: seq<Pad>)
    requires pw == 1.5 && ph == 0.9
    modifies gen
    ensures gen.n == old(gen.n) + 12
    ensures IsRun(run, Esp32Layout(layers), 14, 12, old(gen.n))
  {
    ghost var first := gen.n;
    run := [];
    for i := 0 to 12
      invariant gen.n == first + i
      invariant IsRun(run, Esp32Layout(layers), 14, i, first)
    {
      var p := MakePad(gen, SmdPad(Str(i + 15), -6.985 + i as real * 1.27, 12.5, ph, pw, layers));
      assert Esp32Layout(layers)[14 + i] == Esp32Pad(layers, 14 + i);
      run := run + [p];
    }
  }

  /** Right edge: pins 27-40 at x = 8.75, 1.27 mm apart upwards from y = 11.25. */
  method Esp32Right(gen: PcbPrimitives.PcbUid, layers: string, pw: real, ph: real) returns (run: seq<Pad>)
    requires pw == 1.5 && ph == 0.9
    modifies gen
    ensures gen.n == old(gen.n) + 14
    ensures IsRun(run, Esp32Layout(layers), 26, 14, old(gen.n))
  {
    ghost var first := gen.n;
    run := [];
    for i := 0 to 14
      invariant gen.n == first + i
      invariant IsRun(run, Esp32Layout(layers), 26, i, first)
    {
      var p := MakePad(gen, SmdPad(Str(27 + i), 8.75, 11.25 - i as real * 1.27, pw, ph, layers));
      assert Esp32Layout(layers)[26 + i] == Esp32Pad(layers, 26 + i);
      run := run + [p];
    }
  }

  /** The three edges and the thermal pad together are the whole stamped layout. */
  lemma Esp32Compose(left: seq<Pad>, bottom: seq<Pad>, right: seq<Pad>, last: Pad, layout: seq<Pad>, first: nat)
    requires |layout| == 41
    requires IsRun(left, layout, 0, 14, first) && IsRun(bottom, layout, 14, 12, first + 14)
    requires IsRun(right, layout, 26, 14, first + 26)
    requires last == layout[40].(uuid := PcbPrimitives.UidOf(first + 41))
    ensures left + bottom + right + [last] == Stamp(layout, first)
  {
    RunsJoin(left, bottom, layout, 0, 14, 12, first);
    RunsJoin(left + bottom, right, layout, 0, 26, 14, first);
    RunsJoin(left + bottom + right, [last], layout, 0, 40, 1, first);
    RunIsStamp(left + bottom + right + [last], layout, first);
  }

  method Esp32S3Wroom1(gen: PcbPrimitives.PcbUid, layer: string := "B") returns (pads: seq<Pad>)
    modifies gen
    ensures gen.n == old(gen.n) + 41
    ensures pads == Stamp(Esp32Layout(LayersFor(layer)), old(gen.n))
  {
    ghost var first := gen.n;
    var layers := if layer == "B" then SMD_B else SMD_F;
    var pw, ph := 1.5, 0.9;
    var left := Esp32Left(gen, layers, pw, ph);
    var bottom := Esp32Bottom(gen, layers, pw, ph);
    var right := Esp32Right(gen, layers, pw, ph);
    var p := MakePad(gen, SmdPad("41", -1.5, 2.46, 3.9, 3.9, layers));
    assert Esp32Layout(layers)[40] == SmdPad("41", -1.5, 2.46, 3.9, 3.9, layers);
    Esp32Compose(left, bottom, right, p, Esp32Layout(layers), first);
    pads := left + bottom + right + [p];
  }

  // SMT tact switch: four pads at (+-3.0, +-1.85); its layer test is the other way round.

  function SwLayers(layer: string): string
  {
    if layer == "F" then SMD_F else SMD_B
  }

  function SwLayout(layers: string): seq<Pad>
  {
    [SmdPad("1", -3.0, -1.85, 1.0, 0.75, layers), SmdPad("2", 3.0, -1.85, 1.0, 0.75, layers),
     SmdPad("3", -3.0, 1.85, 1.0, 0.75, layers), SmdPad("4", 3.0, 1.85, 1.0, 0.75, layers)]
  }

  /**
   * Four pads at the corners (+-3.0, +-1.85): pins 1 and 3 (terminal A) on the
   * left, pins 2 and 4 (terminal B) on the right; mirroring swaps the columns.
   */
  lemma SwLayoutSpec(layers: string)
    ensures |SwLayout(layers)| == 4
    ensures forall p :: p in SwLayout(layers) ==> (p.x == 3.0 || p.x == -3.0) && (p.y == 1.85 || p.y == -1.85)
    ensures SwLayout(layers)[0].x == SwLayout(layers)[2].x == -3.0
    ensures SwLayout(layers)[1].x == SwLayout(layers)[3].x == 3.0
    ensures forall i :: 0 <= i < 4 ==> MirrorX(SwLayout(layers)[i]).x == SwLayout(layers)[if i % 2 == 0 then i + 1 else i - 1].x
  {
  }

  method SwSmd51(gen: PcbPrimitives.PcbUid, layer: string := "F") returns (pads: seq<Pad>)
    modifies gen
    ensures gen.n == old(gen.n) + 4
    ensures pads == Stamp(SwLayout(SwLayers(layer)), old(gen.n))
  {
    var layers := if layer == "F" then SMD_F else SMD_B;
    var cx, cy := 3.0, 1.85;
    var p1 := MakePad(gen, SmdPad("1", -cx, -cy, 1.0, 0.75, layers));
    var p2 := MakePad(gen, SmdPad("2", cx, -cy, 1.0, 0.75, layers));
    var p3 := MakePad(gen, SmdPad("3", -cx, cy, 1.0, 0.75, layers));
    var p4 := MakePad(gen, SmdPad("4", cx, cy, 1.0, 0.75, layers));
    pads := [p1, p2, p3, p4];
  }

  // SOP-16: pins 1-8 down the left side, pins 9-16 up the right side.

  function Sop16Pad(layers: string, i: nat): Pad
  {
    if i < 8 then SmdPad(Str(i + 1), -4.65, -4.445 + i as real * 1.27, 2.05, 0.6, layers)
    else SmdPad(Str(i + 1), 4.65, 4.445 - (i - 8) as real * 1.27, 2.05, 0.6, layers)
  }

  function Sop16Layout(layers: string): seq<Pad>
  {
    seq(16, i requires 0 <= i < 16 => Sop16Pad(layers, i))
  }

  /**
   * 16 pads numbered "1" .. "16": pins 1-8 at x = -4.65 going down, pins
   * 9-16 at x = 4.65 going up, 1.27 mm pitch, pin 17 - k level with pin k.
   */
  lemma Sop16LayoutSpec(layers: string, i: nat)
    requires i < 16
    ensures |Sop16Layout(layers)| == 16
    ensures Sop16Layout(layers)[i].num == Str(i + 1)
    ensures Sop16Layout(layers)[i].x == if i < 8 then -4.65 else 4.65
    ensures i < 7 ==> Sop16Layout(layers)[i + 1].y == Sop16Layout(layers)[i].y + 1.27
    ensures 8 <= i < 15 ==> Sop16Layout(layers)[i + 1].y == Sop16Layout(layers)[i].y - 1.27
    ensures Sop16Layout(layers)[15 - i].y == Sop16Layout(layers)[i].y
  {
    assert Sop16Layout(layers)[15 - i] == Sop16Pad(layers, 15 - i);
    if i < 15 {
      assert Sop16Layout(layers)[i + 1] == Sop16Pad(layers, i + 1);
    }
  }

  /** Left side of the SOP-16: pins 1-8 at x = -4.65, 1.27 mm apart downwards. */
  method Sop16Left(gen: PcbPrimitives.PcbUid, layers: string, pw: real, ph: real) returns (run: seq<Pad>)
    requires pw == 2.05 && ph == 0.6
    modifies gen
    ensures gen.n == old(gen.n) + 8
    ensures IsRun(run, Sop16Layout(layers), 0, 8, old(gen.n))
  {
    ghost var first := gen.n;
    run := [];
    for i := 0 to 8
      invariant gen.n == first + i
      invariant IsRun(run, Sop16Layout(layers), 0, i, first)
    {
      var p := MakePad(gen, SmdPad(Str(i + 1), -4.65, -4.445 + i as real * 1.27, pw, ph, layers));
      assert Sop16Layout(layers)[i] == Sop16Pad(layers, i);
      run := run + [p];
    }
  }

  /** Right side: pins 9-16 at x = 4.65, 1.27 mm apart upwards from y = 4.445. */
  method Sop16Right(gen: PcbPrimitives.PcbUid, layers: string, pw: real, ph: real) returns (run: seq<Pad>)
    requires pw == 2.05 && ph == 0.6
    modifies gen
    ensures gen.n == old(gen.n) + 8
    ensures IsRun(run, Sop16Layout(layers), 8, 8, old(gen.n))
  {
    ghost var first := gen.n;
    run := [];
    for i := 0 to 8
      invariant gen.n == first + i
      invariant IsRun(run, Sop16Layout(layers), 8, i, first)
    {
      var p := MakePad(gen, SmdPad(Str(i + 9), 4.65, 4.445 - i as real * 1.27, pw, ph, layers));
      assert Sop16Layout(layers)[8 + i] == Sop16Pad(layers, 8 + i);
      run := run + [p];
    }
  }

  method Sop16(gen: PcbPrimitives.PcbUid, layer: string := "B") returns (pads: seq<Pad>)
    modifies gen
    ensures gen.n == old(gen.n) + 16
    ensures pads == Stamp(Sop16Layout(LayersFor(layer)), old(gen.n))
  {
    ghost var first := gen.n;
    var layers := if layer == "B" then SMD_B else SMD_F;
    var pw, ph := 2.05, 0.6;
    var left := Sop16Left(gen, layers, pw, ph);
    var right := Sop16Right(gen, layers, pw, ph);
    TwoRuns(left, right, Sop16Layout(layers), 8, first);
    pads := left + right;
  }

  /** Two consecutive runs covering a layout are the whole stamped layout. */
  lemma TwoRuns(a: seq<Pad>, b: seq<Pad>, layout: seq<Pad>, m: nat, first: nat)
    requires m <= |layout|
    requires IsRun(a, layout, 0, m, first) && IsRun(b, layout, m, |layout| - m, first + m)
    ensures a + b == Stamp(layout, first)
  {
    RunsJoin(a, b, layout, 0, m, |layout| - m, first);
    RunIsStamp(a + b, layout, first);
  }

  // FPC 40-pin, 0.5 mm pitch: 40 signal pads in a row and two mounting pads.

  function FpcPad(layers: string, i: nat): Pad
  {
    if i < 40 then SmdPad(Str(i + 1), -9.75 + i as real * 0.5, -1.85, 0.3, 1.3, layers)
    else if i == 40 then SmdPad("MP1", -11.5, -1.85, 1.6, 1.6, layers)
    else SmdPad("MP2", 11.5, -1.85, 1.6, 1.6, layers)
  }

  function FpcLayout(layers: string): seq<Pad>
  {
    seq(42, i requires 0 <= i < 42 => FpcPad(layers, i))
  }

  /**
   * 42 pads: signal pin k (1..40) named str(k) at x = -9.75 + 0.5 (k - 1),
   * y = -1.85, so the row is centred on the origin; MP1 and MP2 at x = -11.5 and 11.5.
   */
  lemma FpcLayoutSpec(layers: string, k: nat)
    requires 1 <= k <= 40
    ensures |FpcLayout(layers)| == 42
    ensures FpcLayout(layers)[k - 1].num == Str(k)
    ensures FpcLayout(layers)[k - 1].x == -9.75 + (k - 1) as real * 0.5 && FpcLayout(layers)[k - 1].y == -1.85
    ensures FpcLayout(layers)[k - 1].x == -FpcLayout(layers)[40 - k].x
    ensures FpcLayout(layers)[40].num == "MP1" && FpcLayout(layers)[40].x == -11.5
    ensures FpcLayout(layers)[41].num == "MP2" && FpcLayout(layers)[41].x == 11.5
  {
    assert FpcLayout(layers)[40 - k] == FpcPad(layers, 40 - k);
  }

  /** The 40 signal pads of the FPC connector, 0.5 mm apart from x = -9.75. */
  method FpcSignal(gen: PcbPrimitives.PcbUid, layers: string, pw: real, ph: real) returns (run: seq<Pad>)
    requires pw == 0.3 && ph == 1.3
    modifies gen
    ensures gen.n == old(gen.n) + 40
    ensures IsRun(run, FpcLayout(layers), 0, 40, old(gen.n))
  {
    ghost var first := gen.n;
    run := [];
    for i := 0 to 40
      invariant gen.n == first + i
      invariant IsRun(run, FpcLayout(layers), 0, i, first)
    {
      var p := MakePad(gen, SmdPad(Str(i + 1), -9.75 + i as real * 0.5, -1.85, pw, ph, layers));
      assert FpcLayout(layers)[i] == FpcPad(layers, i);
      run := run + [p];
    }
  }

  method Fpc40p(gen: PcbPrimitives.PcbUid, layer: string := "B") returns (pads: seq<Pad>)
    modifies gen
    ensures gen.n == old(gen.n) + 42
    ensures pads == Stamp(FpcLayout(LayersFor(layer)), old(gen.n))
  {
    ghost var first := gen.n;
    var layers := if layer == "B" then SMD_B else SMD_F;
    var pw, ph := 0.3, 1.3;
    var signal := FpcSignal(gen, layers, pw, ph);
    var mp1 := MakePad(gen, SmdPad("MP1", -11.5, -1.85, 1.6, 1.6, layers));
    var mp2 := MakePad(gen, SmdPad("MP2", 11.5, -1.85, 1.6, 1.6, layers));
    FpcMounts(mp1, mp2, layers, first);
    TwoRuns(signal, [mp1, mp2], FpcLayout(layers), 40, first);
    pads := signal + [mp1, mp2];
  }

  lemma FpcMounts(mp1: Pad, mp2: Pad, layers: string, first: nat)
    requires mp1 == SmdPad("MP1", -11.5, -1.85, 1.6, 1.6, layers).(uuid := PcbPrimitives.UidOf(first + 41))
    requires mp2 == SmdPad("MP2", 11.5, -1.85, 1.6, 1.6, layers).(uuid := PcbPrimitives.UidOf(first + 42))
    ensures IsRun([mp1, mp2], FpcLayout(layers), 40, 2, first + 40)
  {
    assert FpcLayout(layers)[40] == FpcPad(layers, 40) && FpcLayout(layers)[41] == FpcPad(layers, 41);
  }

  // The remaining generators of the registry, as pad lists.

  function Esop8Layout(layers: string): seq<Pad>
  {
    seq(4, i requires 0 <= i < 4 => SmdPad(Str(i + 1), -3.0, -1.905 + i as real * 1.27, 1.7, 0.6, layers))
    + seq(4, i requires 0 <= i < 4 => SmdPad(Str(i + 5), 3.0, 1.905 - i as real * 1.27, 1.7, 0.6, layers))
    + [SmdPad("EP", 0.0, 0.0, 3.4, 3.4, layers)]
  }

  function Sot223Layout(layers: string): seq<Pad>
  {
    [SmdPad("1", -2.3, 3.15, 1.0, 1.5, layers), SmdPad("2", 0.0, 3.15, 1.0, 1.5, layers),
     SmdPad("3", 2.3, 3.15, 1.0, 1.5, layers), SmdPad("4", 0.0, -3.15, 3.6, 1.8, layers)]
  }

  const USB_A: seq<(string, real, real, real)> := [
    ("A1", -3.2, 0.6, 1.3), ("A4", -2.4, 0.6, 1.3), ("A5", -1.25, 0.3, 1.3), ("A6", -0.25, 0.3, 1.3),
    ("A7", 0.25, 0.3, 1.3), ("A8", 1.25, 0.3, 1.3), ("A9", 2.4, 0.6, 1.3), ("A12", 3.2, 0.6, 1.3)]

  const USB_B: seq<(string, real, real, real)> := [
    ("B12", -3.2, 0.6, 1.3), ("B9", -2.4, 0.6, 1.3), ("B8", -1.75, 0.3, 1.3), ("B7", -0.75, 0.3, 1.3),
    ("B6", 0.75, 0.3, 1.3), ("B5", 1.75, 0.3, 1.3), ("B4", 2.4, 0.6, 1.3), ("B1", 3.2, 0.6, 1.3)]

  const USB_SHIELD: seq<(real, real)> := [(-4.32, -3.105), (4.32, -3.105), (-4.32, 1.075), (4.32, 1.075)]

  function UsbCLayout(layers: string): seq<Pad>
  {
    seq(8, i requires 0 <= i < 8 => SmdPad(USB_A[i].0, USB_A[i].1, -3.745, USB_A[i].2, USB_A[i].3, layers))
    + seq(8, i requires 0 <= i < 8 => SmdPad(USB_B[i].0, USB_B[i].1, -3.745, USB_B[i].2, USB_B[i].3, layers))
    + seq(4, i requires 0 <= i < 4 =>
            Pad("S", "thru_hole", "oval", USB_SHIELD[i].0, USB_SHIELD[i].1, 1.0, 2.1, THT, 0, Some(0.65), ""))
  }

  const TF_SIGNAL_X: seq<real> := [2.24, 1.14, 0.04, -1.06, -2.16, -3.26, -4.36, -5.46, -6.56]

  function Tf01aLayout(layers: string): seq<Pad>
  {
    seq(9, i requires 0 <= i < 9 => SmdPad(Str(i + 1), TF_SIGNAL_X[i], -5.45, 0.6, 1.3, layers))
    + [SmdPad("10", -7.76, -4.60, 1.2, 1.4, layers), SmdPad("13", 6.92, -4.60, 1.2, 1.4, layers),
       SmdPad("11", -7.76, 5.10, 1.2, 2.0, layers), SmdPad("12", 7.76, 5.10, 1.2, 2.0, layers)]
  }

  /** The through-hole JST header ignores the layer it is asked for. */
  function JstPh2pLayout(): seq<Pad>
  {
    [ThtPad("1", -1.0, 0.0, 1.5, 1.5, 0.75), ThtPad("2", 1.0, 0.0, 1.5, 1.5, 0.75)]
  }

  function TwoPadLayout(dx: real, w: real, h: real, layers: string): seq<Pad>
  {
    [SmdPad("1", -dx, 0.0, w, h, layers), SmdPad("2", dx, 0.0, w, h, layers)]
  }

  function Msk12c02Layout(layers: string): seq<Pad>
  {
    [SmdPad("1", -2.25, -1.95, 0.6, 1.3, layers), SmdPad("2", 0.75, -1.95, 0.6, 1.3, layers),
     SmdPad("3", 2.25, -1.95, 0.6, 1.3, layers),
     SmdPad("SH", -3.675, -1.1, 1.05, 0.7, layers), SmdPad("SH", -3.675, 1.1, 1.05, 0.7, layers),
     SmdPad("SH", 3.675, -1.1, 1.05, 0.7, layers), SmdPad("SH", 3.675, 1.1, 1.05, 0.7, layers)]
  }

  /** The pad generators the registry refers to. */
  datatype Generator =
    | Esp32S3Wroom1Gen | SwSmd51Gen | Esop8Gen | Sot223Gen | Sop16Gen | UsbC16pGen | Fpc40pGen | Tf01aGen
    | JstPh2pGen | Passive0805Gen | Passive1206Gen | Msk12c02Gen | Speaker22mmGen | Inductor4x4Gen

  /** The pads a generator lays out when asked for `layer`. */
  function Layout(g: Generator, layer: string): seq<Pad>
  {
    match g
    case Esp32S3Wroom1Gen => Esp32Layout(LayersFor(layer))
    case SwSmd51Gen => SwLayout(SwLayers(layer))
    case Esop8Gen => Esop8Layout(LayersFor(layer))
    case Sot223Gen => Sot223Layout(LayersFor(layer))
    case Sop16Gen => Sop16Layout(LayersFor(layer))
    case UsbC16pGen => UsbCLayout(LayersFor(layer))
    case Fpc40pGen => FpcLayout(LayersFor(layer))
    case Tf01aGen => Tf01aLayout(LayersFor(layer))
    case JstPh2pGen => JstPh2pLayout()
    case Passive0805Gen => TwoPadLayout(0.95, 1.0, 1.3, LayersFor(layer))
    case Passive1206Gen => TwoPadLayout(1.5, 1.2, 1.8, LayersFor(layer))
    case Msk12c02Gen => Msk12c02Layout(LayersFor(layer))
    case Speaker22mmGen => TwoPadLayout(9.5, 2.0, 3.0, LayersFor(layer))
    case Inductor4x4Gen => TwoPadLayout(1.7, 1.4, 3.4, LayersFor(layer))
  }

  /** Footprint name to generator and default layer. */
  const FOOTPRINTS: map<string, (Generator, string)> := map[
    "ESP32-S3-WROOM-1-N16R8" := (Esp32S3Wroom1Gen, "B"),
    "SW-SMD-5.1x5.1" := (SwSmd51Gen, "F"),
    "ESOP-8" := (Esop8Gen, "B"),
    "SOT-223" := (Sot223Gen, "B"),
    "SOP-16" := (Sop16Gen, "B"),
    "USB-C-16P" := (UsbC16pGen, "B"),
    "FPC-40P-0.5mm" := (Fpc40pGen, "B"),
    "TF-01A" := (Tf01aGen, "B"),
    "JST-PH-2P" := (JstPh2pGen, "B"),
    "R_0805" := (Passive0805Gen, "B"),
    "C_0805" := (Passive0805Gen, "B"),
    "LED_0805" := (Passive0805Gen, "F"),
    "C_1206" := (Passive1206Gen, "B"),
    "SS-12D00G3" := (Msk12c02Gen, "B"),
    "Speaker-22mm" := (Speaker22mmGen, "B"),
    "SMD-4x4x2" := (Inductor4x4Gen, "B")]

  /** Number of pads a generator emits. */
  function PadCount(g: Generator): nat
  {
    match g
    case Esp32S3Wroom1Gen => 41
    case SwSmd51Gen => 4
    case Esop8Gen => 9
    case Sot223Gen => 4
    case Sop16Gen => 16
    case UsbC16pGen => 20
    case Fpc40pGen => 42
    case Tf01aGen => 13
    case JstPh2pGen => 2
    case Passive0805Gen => 2
    case Passive1206Gen => 2
    case Msk12c02Gen => 7
    case Speaker22mmGen => 2
    case Inductor4x4Gen => 2
  }

  /** The pad count of a generator does not depend on the layer asked for. */
  lemma LayoutCount(g: Generator, layer: string)
    ensures |Layout(g, layer)| == PadCount(g)
  {
  }

  /** A surface-mount pad on no net and without a drill. */
  predicate PlainSmd(p: Pad)
  {
    p.net == 0 && p.typ == "smd" && p.drill.None?
  }

  lemma Esop8Plain(layers: string, i: nat)
    requires i < |Esop8Layout(layers)|
    ensures PlainSmd(Esop8Layout(layers)[i])
  {
  }

  lemma Tf01aPlain(layers: string, i: nat)
    requires i < |Tf01aLayout(layers)|
    ensures PlainSmd(Tf01aLayout(layers)[i])
  {
  }

  /** The USB connector's first 16 pads are plain SMD, its last four drilled through-hole legs. */
  lemma UsbCDrill(layers: string, i: nat)
    requires i < |UsbCLayout(layers)|
    ensures i < 16 ==> PlainSmd(UsbCLayout(layers)[i])
    ensures i >= 16 ==> UsbCLayout(layers)[i].net == 0 && UsbCLayout(layers)[i].typ == "thru_hole" &&
                        HasDrillClause(UsbCLayout(layers)[i])
  {
  }

  /**
   * Every pad of every generator has net 0 and carries a drill clause exactly
   * when it is a through-hole pad; only the JST header's pads and the USB
   * connector's four shield legs (after its 16 signal pads) are drilled.
   */
  lemma LayoutDrill(g: Generator, layer: string, i: nat)
    requires i < |Layout(g, layer)|
    ensures Layout(g, layer)[i].net == 0
    ensures HasDrillClause(Layout(g, layer)[i]) <==> Layout(g, layer)[i].typ == "thru_hole"
    ensures HasDrillClause(Layout(g, layer)[i]) <==> g == JstPh2pGen || (g == UsbC16pGen && i >= 16)
  {
    var p := Layout(g, layer)[i];
    match g {
      case JstPh2pGen =>
      case UsbC16pGen =>
        UsbCDrill(LayersFor(layer), i);
        if i < 16 {
          PlainUndrilled(p);
        }
      case _ =>
        LayoutPlain(g, layer, i);
        PlainUndrilled(p);
    }
  }

  /** Every generator but the JST header and the USB connector lays out plain SMD pads only. */
  lemma LayoutPlain(g: Generator, layer: string, i: nat)
    requires i < |Layout(g, layer)| && g != JstPh2pGen && g != UsbC16pGen
    ensures PlainSmd(Layout(g, layer)[i])
  {
    match g {
      case Esp32S3Wroom1Gen =>
        assert Layout(g, layer)[i] == Esp32Pad(LayersFor(layer), i);
      case Sop16Gen =>
        assert Layout(g, layer)[i] == Sop16Pad(LayersFor(layer), i);
      case Fpc40pGen =>
        assert Layout(g, layer)[i] == FpcPad(LayersFor(layer), i);
      case Esop8Gen => Esop8Plain(LayersFor(layer), i);
      case Tf01aGen => Tf01aPlain(LayersFor(layer), i);
      case _ => FixedPlain(g, layer, i);
    }
  }

  /** The generators with a fixed pad list lay out plain SMD pads. */
  lemma FixedPlain(g: Generator, layer: string, i: nat)
    requires i < |Layout(g, layer)|
    requires g.SwSmd51Gen? || g.Sot223Gen? || g.Msk12c02Gen? || g.Passive0805Gen? || g.Passive1206Gen? ||
             g.Speaker22mmGen? || g.Inductor4x4Gen?
    ensures PlainSmd(Layout(g, layer)[i])
  {
  }

  lemma PlainUndrilled(p: Pad)
    requires PlainSmd(p)
    ensures !HasDrillClause(p) && p.typ != "thru_hole"
  {
    assert p.typ[0] == 's';
  }

  /** Negates the pad's x coordinate, leaving everything else. */
  function MirrorX(p: Pad): Pad
  {
    p.(x := -p.x)
  }

  function Mirrored(ps: seq<Pad>): (r: seq<Pad>)
    ensures |r| == |ps|
  {
    seq(|ps|, i requires 0 <= i < |ps| => MirrorX(ps[i]))
  }

  /** Mirroring twice gives the pads back; it moves no pad vertically and changes no other field. */
  lemma MirroredSpec(ps: seq<Pad>)
    ensures Mirrored(Mirrored(ps)) == ps
    ensures forall i :: 0 <= i < |ps| ==>
              Mirrored(ps)[i].x == -ps[i].x && Mirrored(ps)[i].(x := 0.0) == ps[i].(x := 0.0)
  {
    assert forall i :: 0 <= i < |ps| ==> Mirrored(Mirrored(ps))[i] == ps[i];
  }

  /** `layer or default`: no layer, or an empty one, selects the default. */
  function ActualLayer(layer: Option<string>, default: string): string
  {
    if layer.None? || layer.value == "" then default else layer.value
  }

  /** The pads get_pads returns when the UUID counter stands at `first`. */
  function PadsFor(name: string, layer: Option<string>, first: nat): seq<Pad>
  {
    if name !in FOOTPRINTS then []
    else
      var (g, default) := FOOTPRINTS[name];
      Placed(g, ActualLayer(layer, default), first)
  }

  /** The stamped pads of a generator on a layer, mirrored on "B". */
  function Placed(g: Generator, actual: string, first: nat): seq<Pad>
  {
    var pads := Stamp(Layout(g, actual), first);
    if actual == "B" then Mirrored(pads) else pads
  }

  /**
   * An unknown name gives no pads. A known one gives its generator's pads for
   * the requested layer, or for the registry default when none is given; the
   * count never depends on the layer; on "B" each pad's x is negated and its
   * y kept, on any other layer the pads are as laid out.
   */
  lemma PadsForSpec(name: string, layer: Option<string>, first: nat)
    ensures name !in FOOTPRINTS ==> PadsFor(name, layer, first) == []
    ensures name in FOOTPRINTS ==> |PadsFor(name, layer, first)| == PadCount(FOOTPRINTS[name].0)
    ensures name in FOOTPRINTS && layer.None? ==>
              PadsFor(name, layer, first) == PadsFor(name, Some(FOOTPRINTS[name].1), first)
    ensures name in FOOTPRINTS ==>
              var actual := ActualLayer(layer, FOOTPRINTS[name].1);
              var lay := Layout(FOOTPRINTS[name].0, actual);
              forall i :: 0 <= i < |lay| ==>
                PadsFor(name, layer, first)[i].num == lay[i].num &&
                PadsFor(name, layer, first)[i].y == lay[i].y &&
                PadsFor(name, layer, first)[i].x == (if actual == "B" then -lay[i].x else lay[i].x)
  {
    if name in FOOTPRINTS {
      var (g, default) := FOOTPRINTS[name];
      LayoutCount(g, ActualLayer(layer, default));
    }
  }

  /** The pads of one placed footprint never share a UUID. */
  lemma PadsForUuidsDistinct(name: string, layer: Option<string>, first: nat)
    ensures forall i, j :: 0 <= i < j < |PadsFor(name, layer, first)| ==>
              PadsFor(name, layer, first)[i].uuid != PadsFor(name, layer, first)[j].uuid
  {
    if name in FOOTPRINTS {
      var (g, default) := FOOTPRINTS[name];
      StampSpec(Layout(g, ActualLayer(layer, default)), first);
    }
  }

  /** Emits a pad list in order, one UUID per pad. */
  method EmitPads(gen: PcbPrimitives.PcbUid, layout: seq<Pad>) returns (pads: seq<Pad>)
    modifies gen
    ensures gen.n == old(gen.n) + |layout|
    ensures pads == Stamp(layout, old(gen.n))
  {
    ghost var first := gen.n;
    pads := [];
    for i := 0 to |layout|
      invariant gen.n == first + i
      invariant IsRun(pads, layout, 0, i, first)
    {
      var p := MakePad(gen, layout[i]);
      pads := pads + [p];
    }
    RunIsStamp(pads, layout, first);
  }

  /** Runs a generator for a layer. */
  method Generate(gen: PcbPrimitives.PcbUid, g: Generator, layer: string) returns (pads: seq<Pad>)
    modifies gen
    ensures gen.n == old(gen.n) + PadCount(g)
    ensures pads == Stamp(Layout(g, layer), old(gen.n))
  {
    LayoutCount(g, layer);
    match g
    case Esp32S3Wroom1Gen => pads := Esp32S3Wroom1(gen, layer);
    case SwSmd51Gen => pads := SwSmd51(gen, layer);
    case Sop16Gen => pads := Sop16(gen, layer);
    case Fpc40pGen => pads := Fpc40p(gen, layer);
    case _ => pads := EmitPads(gen, Layout(g, layer));
  }

  /** get_pads: unknown names give no pads and draw no UUID. */
  method GetPads(gen: PcbPrimitives.PcbUid, name: string, layer: Option<string> := None) returns (pads: seq<Pad>)
    modifies gen
    ensures pads == PadsFor(name, layer, old(gen.n))
    ensures gen.n == old(gen.n) + |pads|
  {
    if name !in FOOTPRINTS {
      return [];
    }
    var (g, default) := FOOTPRINTS[name];
    pads := Place(gen, g, ActualLayer(layer, default));
  }

  /** Generates the pads on the layer, mirroring them on the back. */
  method Place(gen: PcbPrimitives.PcbUid, g: Generator, actual: string) returns (pads: seq<Pad>)
    modifies gen
    ensures pads == Placed(g, actual, old(gen.n))
    ensures gen.n == old(gen.n) + |pads|
  {
    pads := Generate(gen, g, actual);
    if actual == "B" {
      pads := Mirrored(pads);
    }
  }
}
