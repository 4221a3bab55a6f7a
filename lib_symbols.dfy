// Selection of library-symbol definitions for a schematic's (lib_symbols ...)
// block: the definitions of the requested symbol names, in request order,
// followed by whichever of the three power symbols were not requested. The
// registry maps symbol names to their definition text, which is taken here
// as an opaque string per name.
module LibSymbols {
  import opened Seqs
  import opened Text

  /** The names the symbol registry defines. */
  const SYMBOL_NAMES: set<string> := {
    "ESP32-S3-WROOM-1", "AMS1117-3.3", "C", "R", "SW_Push", "IP5306_Module", "PAM8403_Module",
    "SD_Module", "ST7796S_Module", "Battery", "USB_C", "Speaker", "PSP_Joystick", "PWR_FLAG",
    "GND", "+3V3", "+5V"}

  /** The power symbols every block carries. */
  const POWER: set<string> := {"GND", "+3V3", "+5V"}

  const HEADER := "  (lib_symbols\n"
  const FOOTER := "  )\n"

  /** The power symbols not in `needed`, in sorted order. */
  function MissingPower(needed: seq<string>): seq<string>
  {
    SortedSet(POWER - set n | n in needed)
  }

  /** The names the loop visits: the request, then the missing power symbols. */
  function Visited(needed: seq<string>): seq<string>
  {
    needed + MissingPower(needed)
  }

  function Known(symbols: map<string, string>): string -> bool
  {
    (n: string) => n in symbols
  }

  /** The definitions appended for `names`: one per registered name, unknown names skipped. */
  function Parts(names: seq<string>, symbols: map<string, string>): seq<string>
  {
    if |names| == 0 then []
    else
      var last := names[|names| - 1];
      Parts(names[..|names| - 1], symbols) + (if last in symbols then [symbols[last]] else [])
  }

  /** Python's "".join(parts). */
  function Concat(parts: seq<string>): string
  {
    if |parts| == 0 then "" else Concat(parts[..|parts| - 1]) + parts[|parts| - 1]
  }

  lemma {:induction false} ConcatCons(head: string, parts: seq<string>)
    ensures Concat([head] + parts) == head + Concat(parts)
  {
    if |parts| > 0 {
      assert ([head] + parts)[..|parts|] == [head] + parts[..|parts| - 1];
      ConcatCons(head, parts[..|parts| - 1]);
    }
  }

  method LibSymbolsBlock(needed: seq<string>, symbols: map<string, string>) returns (block: string)
    ensures block == HEADER + Concat(Parts(Visited(needed), symbols)) + FOOTER
  {
    var names := Visited(needed);
    var parts := [HEADER];
    var i := 0;
    while i < |names|
      invariant 0 <= i <= |names|
      invariant parts == [HEADER] + Parts(names[..i], symbols)
    {
      assert names[..i + 1][..i] == names[..i];
      if names[i] in symbols {
        parts := parts + [symbols[names[i]]];
      }
      i := i + 1;
    }
    assert names[..i] == names;
    parts := parts + [FOOTER];
    assert parts[..|parts| - 1] == [HEADER] + Parts(names, symbols);
    ConcatCons(HEADER, Parts(names, symbols));
    block := Concat(parts);
  }

  /**
   * The definitions between header and footer are, in order, the registry
   * entries of the registered visited names: nothing else is emitted.
   */
  lemma {:induction false} PartsAre(names: seq<string>, symbols: map<string, string>)
    ensures |Parts(names, symbols)| == |Filter(names, Known(symbols))|
    ensures forall i :: 0 <= i < |Parts(names, symbols)| ==>
              Filter(names, Known(symbols))[i] in symbols &&
              Parts(names, symbols)[i] == symbols[Filter(names, Known(symbols))[i]]
  {
    if |names| > 0 {
      var init := names[..|names| - 1];
      PartsAre(init, symbols);
      assert names == init + [names[|names| - 1]];
      FilterConcat(init, [names[|names| - 1]], Known(symbols));
    }
  }

  /** The registered names emitted, in emission order. */
  function Emitted(needed: seq<string>, symbols: map<string, string>): seq<string>
  {
    Filter(Visited(needed), Known(symbols))
  }

  /** Requested names come first in request order, then the missing power symbols; unknown names are dropped. */
  lemma EmittedOrder(needed: seq<string>, symbols: map<string, string>)
    ensures Emitted(needed, symbols) ==
            Filter(needed, Known(symbols)) + Filter(MissingPower(needed), Known(symbols))
    ensures forall n :: n in Emitted(needed, symbols) <==> n in symbols && (n in needed || n in POWER)
  {
    FilterConcat(needed, MissingPower(needed), Known(symbols));
    SortedSetSpec(POWER - set n | n in needed);
    forall n
      ensures n in Emitted(needed, symbols) <==> n in symbols && (n in needed || n in POWER)
    {
      FilterMember(Visited(needed), Known(symbols), n);
    }
  }

  /** The missing power symbols come in the order +3V3, +5V, GND, and a requested one is not repeated. */
  lemma MissingPowerOrder(needed: seq<string>)
    ensures MissingPower(needed) == Filter(["+3V3", "+5V", "GND"], (n: string) => n !in needed)
  {
    var order := ["+3V3", "+5V", "GND"];
    var p := (n: string) => n !in needed;
    var f := Filter(order, p);
    assert StrLess("+3V3", "+5V") && StrLess("+5V", "GND") && StrLess("+3V3", "GND");
    assert StrictlySorted(order);
    FilterSorted(order, p);
    SortedSetSpec(POWER - set n | n in needed);
    forall x
      ensures x in f <==> x in MissingPower(needed)
    {
      FilterMember(order, p, x);
    }
    SortedUnique(f, MissingPower(needed));
  }

  /** Filtering keeps a list strictly sorted. */
  lemma {:induction false} FilterSorted(xs: seq<string>, p: string -> bool)
    requires StrictlySorted(xs)
    ensures StrictlySorted(Filter(xs, p))
  {
    if |xs| > 0 {
      var init := xs[..|xs| - 1];
      var last := xs[|xs| - 1];
      FilterSorted(init, p);
      assert xs == init + [last];
      FilterConcat(init, [last], p);
      if p(last) {
        forall y | y in Filter(init, p)
          ensures StrLess(y, last)
        {
          FilterMember(init, p, y);
        }
      }
    }
  }

  /** With the power symbols registered, all three are always emitted. */
  lemma PowerAlwaysEmitted(needed: seq<string>, symbols: map<string, string>)
    requires POWER <= symbols.Keys
    ensures forall q :: q in POWER ==> q in Emitted(needed, symbols)
  {
    EmittedOrder(needed, symbols);
  }

  /** The registry defines the three power symbols. */
  lemma RegistryHasPower()
    ensures POWER <= SYMBOL_NAMES
  {
  }
}
