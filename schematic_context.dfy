// The schematic emitter context: one counter numbers the UUIDs of wires,
// labels, symbols and pins, a second one numbers the power-port references
// "#PWR001", "#PWR002", ... Elements are returned as records; their text
// layout is not modelled.
module SchematicContext {
  import opened Fmt

  /** The fixed middle of every schematic UUID. */
  const UID_MIDDLE := "-cafe-4000-8000-"

  function UidOf(n: nat): string
  {
    SeqUuid(n, UID_MIDDLE)
  }

  lemma UidInjective(a: nat, b: nat)
    requires a != b
    ensures UidOf(a) != UidOf(b)
  {
    if UidOf(a) == UidOf(b) {
      SeqUuidInjective(a, b, UID_MIDDLE);
    }
  }

  /** The reference of the pn-th power port: "#PWR" and pn in at least three digits. */
  function PwrRef(pn: nat): string
  {
    "#PWR" + Dec(pn, 3)
  }

  /** Different power-port numbers give different references, past 999 too. */
  lemma PwrRefInjective(a: nat, b: nat)
    requires a != b
    ensures PwrRef(a) != PwrRef(b)
  {
    if PwrRef(a) == PwrRef(b) {
      assert Dec(a, 3) == PwrRef(a)[4..] && Dec(b, 3) == PwrRef(b)[4..];
      PaddedInjective(a, b, 3, 10);
    }
  }

  /** Up to 999 power ports the reference is exactly seven characters. */
  lemma PwrRefLength(pn: nat)
    requires pn < 1000
    ensures |PwrRef(pn)| == 7
  {
    assert Pow(10, 3) == 1000;
    PaddedWidthExact(pn, 3, 10);
  }

  /** One schematic element with the UUIDs it was given. */
  datatype SchItem =
    | WireItem(x1: real, y1: real, x2: real, y2: real, uuid: string)
    | LabelItem(name: string, x: real, y: real, angle: real, uuid: string)
    | GlobalLabelItem(name: string, shape: string, x: real, y: real, angle: real, uuid: string)
    | TextItem(txt: string, x: real, y: real, size: real, bold: bool)
    | PowerItem(lib: string, ref: string, value: string, x: real, y: real, uuid: string, pinUuid: string)
    | NoConnectItem(x: real, y: real, uuid: string)
    | SymbolItem(lib: string, ref: string, value: string, x: real, y: real, uuid: string,
                 pins: seq<(string, string)>)

  /** Each pin paired with the UUID drawn for it, the first pin getting number `first`. */
  function PinUuids(pins: seq<string>, first: nat): (r: seq<(string, string)>)
    ensures |r| == |pins|
  {
    if |pins| == 0 then []
    else PinUuids(pins[..|pins| - 1], first) + [(pins[|pins| - 1], UidOf(first + |pins| - 1))]
  }

  /** Pin k keeps its number and gets UUID number first + k. */
  lemma {:induction false} PinUuidsAt(pins: seq<string>, first: nat, k: nat)
    requires k < |pins|
    ensures PinUuids(pins, first)[k] == (pins[k], UidOf(first + k))
  {
    if k < |pins| - 1 {
      PinUuidsAt(pins[..|pins| - 1], first, k);
    }
  }

  /** No two pins of one symbol share a UUID. */
  lemma PinUuidsDistinct(pins: seq<string>, first: nat, j: nat, k: nat)
    requires j < k < |pins|
    ensures PinUuids(pins, first)[j].1 != PinUuids(pins, first)[k].1
  {
    PinUuidsAt(pins, first, j);
    PinUuidsAt(pins, first, k);
    UidInjective(first + j, first + k);
  }

  /** Text carries no UUID. */
  function Text(txt: string, x: real, y: real, size: real := 2.54, bold: bool := false): (item: SchItem)
    ensures item.TextItem? && item.txt == txt && item.size == size && item.bold == bold
  {
    TextItem(txt, x, y, size, bold)
  }

  class KiCadContext {
    var n: nat   // UUIDs handed out so far
    var pn: nat  // power ports numbered so far

    constructor()
      ensures n == 0 && pn == 0
    {
      n, pn := 0, 0;
    }

    method Uid() returns (s: string)
      modifies this
      ensures n == old(n) + 1 && pn == old(pn)
      ensures s == UidOf(n)
    {
      n := n + 1;
      s := UidOf(n);
    }

    method Wire(x1: real, y1: real, x2: real, y2: real) returns (item: SchItem)
      modifies this
      ensures n == old(n) + 1 && pn == old(pn)
      ensures item == WireItem(x1, y1, x2, y2, UidOf(n))
    {
      var u := Uid();
      item := WireItem(x1, y1, x2, y2, u);
    }

    method Label(name: string, x: real, y: real, angle: real := 0.0) returns (item: SchItem)
      modifies this
      ensures n == old(n) + 1 && pn == old(pn)
      ensures item == LabelItem(name, x, y, angle, UidOf(n))
    {
      var u := Uid();
      item := LabelItem(name, x, y, angle, u);
    }

    method GlobalLabel(name: string, x: real, y: real, angle: real := 0.0, shape: string := "bidirectional")
      returns (item: SchItem)
      modifies this
      ensures n == old(n) + 1 && pn == old(pn)
      ensures item == GlobalLabelItem(name, shape, x, y, angle, UidOf(n))
    {
      var u := Uid();
      item := GlobalLabelItem(name, shape, x, y, angle, u);
    }

    /** A power port takes two UUIDs: the symbol's, then its pin's. */
    method PowerSymbol(lib: string, ref: string, value: string, x: real, y: real) returns (item: SchItem)
      modifies this
      ensures n == old(n) + 2 && pn == old(pn)
      ensures item == PowerItem(lib, ref, value, x, y, UidOf(old(n) + 1), UidOf(old(n) + 2))
    {
      var u := Uid();
      var pu := Uid();
      item := PowerItem(lib, ref, value, x, y, u, pu);
    }

    method Gnd(x: real, y: real) returns (item: SchItem)
      modifies this
      ensures pn == old(pn) + 1 && n == old(n) + 2
      ensures item == PowerItem("GND", PwrRef(pn), "GND", x, y, UidOf(old(n) + 1), UidOf(old(n) + 2))
    {
      pn := pn + 1;
      item := PowerSymbol("GND", PwrRef(pn), "GND", x, y);
    }

    method V33(x: real, y: real) returns (item: SchItem)
      modifies this
      ensures pn == old(pn) + 1 && n == old(n) + 2
      ensures item == PowerItem("+3V3", PwrRef(pn), "+3V3", x, y, UidOf(old(n) + 1), UidOf(old(n) + 2))
    {
      pn := pn + 1;
      item := PowerSymbol("+3V3", PwrRef(pn), "+3V3", x, y);
    }

    method V5(x: real, y: real) returns (item: SchItem)
      modifies this
      ensures pn == old(pn) + 1 && n == old(n) + 2
      ensures item == PowerItem("+5V", PwrRef(pn), "+5V", x, y, UidOf(old(n) + 1), UidOf(old(n) + 2))
    {
      pn := pn + 1;
      item := PowerSymbol("+5V", PwrRef(pn), "+5V", x, y);
    }

    method NoConnect(x: real, y: real) returns (item: SchItem)
      modifies this
      ensures n == old(n) + 1 && pn == old(pn)
      ensures item == NoConnectItem(x, y, UidOf(n))
    {
      var u := Uid();
      item := NoConnectItem(x, y, u);
    }

    /** A part symbol takes one UUID for itself and then one per pin, in pin order. */
    method Symbol(lib: string, ref: string, value: string, x: real, y: real, pins: seq<string>)
      returns (item: SchItem)
      modifies this
      ensures n == old(n) + 1 + |pins| && pn == old(pn)
      ensures item == SymbolItem(lib, ref, value, x, y, UidOf(old(n) + 1), PinUuids(pins, old(n) + 2))
    {
      var u := Uid();
      var acc: seq<(string, string)> := [];
      var i := 0;
      while i < |pins|
        invariant 0 <= i <= |pins|
        invariant n == old(n) + 1 + i && pn == old(pn)
        invariant acc == PinUuids(pins[..i], old(n) + 2)
      {
        var pu := Uid();
        assert pins[..i + 1][..i] == pins[..i];
        acc := acc + [(pins[i], pu)];
        i := i + 1;
      }
      assert pins[..i] == pins;
      item := SymbolItem(lib, ref, value, x, y, u, acc);
    }
  }
}
