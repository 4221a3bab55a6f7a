# ESP32 Emu Turbo — verified model of the board checks, generators and firmware logic

This project models, in Dafny, the parts of the ESP32 Emu Turbo handheld's
tooling and firmware whose behaviour can be stated and proved:

- **The PCB verification engine.** `drc.dfy` models the fabrication rule
  check of `scripts/drc_check.py`: trace width, via drill and annular ring,
  board-edge clearance, FPC-slot clearance and crossing, trace spacing, via
  drill spacing, component overlap, net connectivity and the pass/fail
  decision. `shorts.dfy` models the electrical-integrity analysis of
  `scripts/short_circuit_analysis.py`: axis-aligned trace overlap, trace
  shorts, zone priorities, zone fill, pad nets and the pass/fail decision.
  Both read the typed board records of `board.dfy`. Lengths are exact reals,
  and every distance rule is decided through squared distances
  (`geometry.dfy`). The per-layer dictionaries both engines build are one
  generic first-appearance grouping (`grouping.dfy`). The capped pair scans
  are built on the sequence helpers in `seqs.dfy`.
- **The board generators.** `routing.dfy` covers the enclosure transform,
  the slot-crossing test, the ESP32 pin lookup, the L-route, the button-via
  relocation and Z-route choice, and the passive reference rows.
  `footprints.dfy` covers the pad generators, bottom-side mirroring and
  `get_pads`. `primitives.dfy` and `schematic_context.dfy` model the two
  sequential UUID counters and the power-reference counter as classes, with
  the emitters that consume them; `fmt.dfy` holds the zero-padded number
  formatting they rely on. `lib_symbols.dfy` covers the library-symbol
  block.
- **The schematic and board tools.** `inject_models.dfy` models the 3-D
  model injector (a line scanner tracking parenthesis depth).
  `verify_refs.dfy` models the schematic/PCB/CPL reference consistency
  check. `simulate.dfy` models the GPIO-conflict and net-declaration part of
  the static circuit checker and its exit decision. `text.dfy` holds the
  string helpers they share: Python's string order, `sorted(set(...))` and
  `strip`.
- **Firmware.** `input.dfy` covers the button bitmask and the button table.
  `power.dfy` covers the IP5306 probe and register decode. `display.dfy`
  covers the row-buffer fill and color bars, blitted scanline by scanline.
  Driver calls are parameters: GPIO levels, I2C register reads, the
  configuration results and the allocation outcome. The panel is the record
  of the bitmap draws it receives.

Where the code and its comments or header disagree, the model follows the code:

- `power_init` returns `ESP_OK` when the probe read fails, although
  `software/main/power.h` promises `ESP_ERR_NOT_FOUND`. `Power.Ip5306.Init`
  returns `ESP_OK`.
- The register comment in `software/main/power.c` names READ0 0x78 and
  READ2 0x7A, while the defines the code uses are 0x70 and 0x78. The model
  uses 0x70 and 0x78.
- `routing.py` places the FPC connector at enclosure (59, 2), while
  `board.py` has (55, 2). The router's value is modelled.

## Model

| member | source | states |
|---|---|---|
| Power.LevelPercent | software/main/power.c:91-104 | The level byte's low nibble gives 100, 75, 50 or 25 exactly for the patterns 0x0F, 0x07, 0x03, 0x01 and 0 for every other pattern |
| Power.LevelPercentLeds | software/main/power.c:91-104 | For a contiguous run of lit LEDs each LED is a quarter of the charge; a broken pattern reads as empty; the high nibble is ignored |
| Power.ChargingBit | software/main/power.c:114-116 | The chip counts as charging exactly when bit 3 (charge full) of READ0 is clear |
| Power.Ip5306.constructor | software/main/power.c:29 | The driver starts with the chip marked unavailable |
| Power.Ip5306.Init | software/main/power.c:36-82 | A bus or device setup failure is returned unchanged and availability is untouched; once both succeed the result is ESP_OK and the chip is available exactly when the probe read of READ0 answers |
| Power.Ip5306.BatteryPercent | software/main/power.c:84-105 | The result is one of -1, 0, 25, 50, 75, 100; it is -1 exactly when the chip is unavailable or the READ2 read fails, and otherwise it is the level of the byte read (also software/main/power.h:18-23) |
| Power.Ip5306.IsCharging | software/main/power.c:107-117 | True exactly when the chip is available, the READ0 read succeeds and bit 3 of the byte is clear |
| Power.Ip5306.ReadsOnly | software/main/power.c:84-89 | Without the chip neither query depends on the bus at all; with it the percentage depends only on READ2 and the charging state only on READ0 (also software/main/power.c:107-112) |
| Input.TableShape | software/main/input.c:19-32 | The table has twelve buttons whose masks are the bits 0..11 in order and whose GPIOs are pairwise distinct |
| Input.Scan | software/main/input.c:59-69 | The scan loop over any table yields the OR of the masks of the rows whose GPIO reads low |
| Input.Read | software/main/input.c:59-69 | input_read is the scan of the button table |
| Input.ScannedBits | software/main/input.c:62-66 | For a table whose row i carries bit i, bit j of the state is set exactly when row j exists and its GPIO reads low |
| Input.ScannedHigh | software/main/input.c:62-66 | A table of at most twelve such rows never sets any of the top four bits |
| Input.ReadPressed | software/main/input.c:19-32 | A button's mask is set in the state exactly when its GPIO reads low (active-low switches) (also software/main/input.c:59-69) |
| Input.ReadBound | software/main/input.c:19-32 | The state word never has bits 12..15 set and never exceeds 0x0FFF (also software/main/input.c:59-69) |
| Input.AllReleased | software/main/input.c:61-67 | With every GPIO high no bit is set: the state is 0 |
| Input.ButtonName | software/main/input.c:71-77 | A position in 0..11 gets the table name of that row; every other position, and only those, gets "?" |
| Input.NamesDistinct | software/main/input.c:19-32 | Distinct positions name distinct buttons (also software/main/input.c:71-77) |
| Input.Init | software/main/input.c:36-57 | Every button is configured once, in table order, with the single-bit mask of its GPIO; the result is ESP_OK whatever the configuration calls return |
| Input.BitsDiffer | software/main/input.c:20-31 | Two single-bit masks overlap exactly when they are the same bit |
| Display.Panel.constructor | software/main/display.c:144-146 | The panel starts out with no draws issued |
| Display.Panel.DrawBitmap | software/main/display.c:145 | A bitmap draw appends exactly one record of its window and of the pixels the buffer holds at the call; the draw is taken as finished when the call returns |
| Display.BlitRows | software/main/display.c:144-146 | The blit loop appends exactly the 480 full-width one-line draws of the same row buffer, top to bottom (also software/main/display.c:178-180) |
| Display.ScanlinesPixel | software/main/display.c:144-146 | After the first n scanlines of a full row, pixel (x, y) shows the row's entry x when y < n and nothing otherwise |
| Display.ScreenPixel | software/main/display.c:144-146 | In the recorded draws of the full blit, every pixel of the 320x480 screen takes the row entry of its column (also software/main/display.c:178-180) |
| Display.Fill | software/main/display.c:134-150 | Without a buffer the result is ESP_ERR_NO_MEM and nothing is drawn; otherwise the result is ESP_OK and the draws are the 480 scanlines of a row of the one color |
| Display.FillPaints | software/main/display.c:134-150 | In the recorded draws of a successful fill, every pixel of the screen takes the color |
| Display.BarRow | software/main/display.c:155-175 | The color-bar row has exactly 320 entries |
| Display.BarsTile | software/main/display.c:165-175 | The eight bars are 40 entries wide, tile the 320-entry row exactly, and bar b holds the b-th color |
| Display.BarIndex | software/main/display.c:165 | Entry x of bar b lies at x / 40 == b |
| Display.FillBar | software/main/display.c:171-175 | Filling bar b sets exactly the entries b*40 .. b*40+39 to the b-th color and leaves every other entry as it was |
| Display.ColorBars | software/main/display.c:152-185 | Without a buffer the result is ESP_ERR_NO_MEM and nothing is drawn; otherwise the result is ESP_OK and the draws are the 480 scanlines of the bar row |
| Display.BarsPaint | software/main/display.c:152-185 | In the recorded draws of the color bars, pixel (x, y) takes the color of bar x / 40 on every scanline |
| Fmt.FixedInjective | scripts/generate_pcb/primitives.py:12 | Two numbers of at most k digits with the same k-digit zero-padded rendering are equal (the fixed-width hex field is injective) |
| Fmt.PaddedInjective | scripts/generate_schematics/kicad_primitives.py:13 | Zero-padding to a minimum width (Python's `:08x`, `:012x`, `:03d`) never maps two numbers to the same text, whatever their size |
| Fmt.PaddedWidthExact | scripts/generate_pcb/primitives.py:12 | A number below base^width is written with exactly `width` digits |
| Fmt.SeqUuidInjective | scripts/generate_pcb/primitives.py:12 | The sequential UUID `{n:08x}<middle>{n:012x}` determines n: the text before the middle's dash is the 8-digit field, and that field is injective |
| Fmt.SeqUuidLength | scripts/generate_pcb/primitives.py:12 | Below 2^32 both hex fields have their nominal width, so the UUID is 20 characters plus the middle |
| Fmt.StrDigits | scripts/generate_pcb/footprints.py:28 | `str(n)` of a natural number consists of decimal digits only (no quote, no dash), as the net clause of a pad relies on |
| PcbPrimitives.UidInjective | scripts/generate_pcb/primitives.py:10-12 | Distinct counter values give distinct PCB UUIDs |
| PcbPrimitives.UidLength | scripts/generate_pcb/primitives.py:12 | While the counter is below 2^32 every PCB UUID has the canonical 36 characters |
| PcbPrimitives.PcbUid.constructor | scripts/generate_pcb/primitives.py:7-8 | The counter starts at 0 |
| PcbPrimitives.PcbUid.Uid | scripts/generate_pcb/primitives.py:10-12 | The counter goes up by exactly 1 and the UUID returned embeds the new value |
| PcbPrimitives.TwoUids | scripts/generate_pcb/primitives.py:10-12 | Two successive UUIDs are those of the next two counter values and differ |
| PcbPrimitives.GrLine | scripts/generate_pcb/primitives.py:108-113 | Consumes exactly one UUID; start, end, stroke width, layer (default Edge.Cuts, 0.05) and that UUID are emitted in order |
| PcbPrimitives.GrArc | scripts/generate_pcb/primitives.py:116-123 | Consumes exactly one UUID; start, mid, end, stroke, layer and UUID in order |
| PcbPrimitives.GrText | scripts/generate_pcb/primitives.py:126-132 | Silkscreen text carries no UUID token, so it consumes none |
| PcbPrimitives.MountingHole | scripts/generate_pcb/primitives.py:135-147 | Consumes exactly one UUID; drill 2.5 and pad 5.0 unless given; a through-hole circular pad on all copper and mask layers |
| PcbPrimitives.Via | scripts/generate_pcb/primitives.py:150-156 | Consumes exactly one UUID; size 0.6, drill 0.3, net 0, layers F.Cu/B.Cu unless given |
| PcbPrimitives.Points | scripts/generate_pcb/primitives.py:161 | Each outline point becomes one `(xy x y)` group: four tokens per point and no other tag |
| PcbPrimitives.ZoneHasNoPriority | scripts/generate_pcb/primitives.py:159-170 | A GND pour carries no `priority` tag, so the short analysis reads its priority as -1 (also scripts/short_circuit_analysis.py:97) |
| PcbPrimitives.ZoneGnd | scripts/generate_pcb/primitives.py:159-170 | Consumes exactly one UUID; net 1 "GND" unless given, fill with 0.5 mm thermal gap and bridge, the outline points in order |
| PcbPrimitives.Segment | scripts/generate_pcb/primitives.py:173-179 | Consumes exactly one UUID; layer F.Cu, width 0.25, net 0 unless given |
| PcbPrimitives.SegmentRoundTrip | scripts/generate_pcb/primitives.py:173-179 | Reading an emitted segment with the rule checker's pattern (start, end, width, layer, net) gives back exactly the segment written (also scripts/drc_check.py:57-62) |
| PcbPrimitives.ViaRoundTrip | scripts/generate_pcb/primitives.py:150-156 | Reading an emitted via with the rule checker's pattern gives back its centre, size and drill (also scripts/drc_check.py:72-82) |
| PcbPrimitives.DefaultViaPasses | scripts/generate_pcb/primitives.py:150 | A via with the default size and drill has a 0.15 mm annular ring and draws neither via error (also scripts/drc_check.py:120-137) |
| SchematicContext.UidInjective | scripts/generate_schematics/kicad_primitives.py:11-13 | Distinct counter values give distinct schematic UUIDs |
| SchematicContext.PwrRefInjective | scripts/generate_schematics/kicad_primitives.py:60-70 | Distinct power-port numbers give distinct `#PWR` references, past 999 too |
| SchematicContext.PwrRefLength | scripts/generate_schematics/kicad_primitives.py:62 | Up to 999 power ports the reference is `#PWR` and exactly three digits |
| SchematicContext.PinUuidsAt | scripts/generate_schematics/kicad_primitives.py:89-90 | Pin k keeps its number and receives UUID number first + k |
| SchematicContext.PinUuidsDistinct | scripts/generate_schematics/kicad_primitives.py:89-90 | No two pins of one symbol share a UUID |
| SchematicContext.Text | scripts/generate_schematics/kicad_primitives.py:39-45 | Text is emitted with its size and boldness and takes no UUID |
| SchematicContext.KiCadContext.constructor | scripts/generate_schematics/kicad_primitives.py:7-9 | Both counters start at 0 |
| SchematicContext.KiCadContext.Uid | scripts/generate_schematics/kicad_primitives.py:11-13 | The UUID counter goes up by 1, the power counter is unchanged, and the UUID embeds the new value |
| SchematicContext.KiCadContext.Wire | scripts/generate_schematics/kicad_primitives.py:15-20 | Consumes exactly one UUID and leaves the power counter alone |
| SchematicContext.KiCadContext.Label | scripts/generate_schematics/kicad_primitives.py:22-27 | Consumes exactly one UUID and leaves the power counter alone |
| SchematicContext.KiCadContext.GlobalLabel | scripts/generate_schematics/kicad_primitives.py:29-37 | Consumes exactly one UUID (shape "bidirectional" by default) and leaves the power counter alone |
| SchematicContext.KiCadContext.PowerSymbol | scripts/generate_schematics/kicad_primitives.py:47-58 | Consumes exactly two UUIDs, the symbol's first and then its pin's |
| SchematicContext.KiCadContext.Gnd | scripts/generate_schematics/kicad_primitives.py:60-62 | Bumps the power counter by 1 and names the port `#PWR` plus the new count; two UUIDs |
| SchematicContext.KiCadContext.V33 | scripts/generate_schematics/kicad_primitives.py:64-66 | As Gnd, for the +3V3 symbol |
| SchematicContext.KiCadContext.V5 | scripts/generate_schematics/kicad_primitives.py:68-70 | As Gnd, for the +5V symbol |
| SchematicContext.KiCadContext.NoConnect | scripts/generate_schematics/kicad_primitives.py:72-76 | Consumes exactly one UUID and leaves the power counter alone |
| SchematicContext.KiCadContext.Symbol | scripts/generate_schematics/kicad_primitives.py:78-91 | Consumes 1 + len(pins) UUIDs: the symbol's, then one per pin in pin order; the power counter is unchanged |
| Fmt.Fixed | scripts/generate_pcb/primitives.py:12 | A fixed-width field always has exactly the requested number of digits |
| Fmt.FixedSplit | scripts/generate_pcb/primitives.py:12 | The last character of a field is the lowest digit, and the rest is the field of the higher part |
| Fmt.NumDigitsBound | scripts/generate_pcb/primitives.py:12 | A number is below base to the power of its digit count, so its digits fit in that many places |
| Fmt.Padded | scripts/generate_pcb/primitives.py:12 | A zero-padded rendering has the requested width, or the number's digit count when that is larger (also scripts/generate_schematics/kicad_primitives.py:13) |
| Fmt.FixedDigits | scripts/generate_pcb/primitives.py:12 | No rendered digit is a dash, and in bases up to ten every one is '0'..'9' |
| Fmt.HexNoDash | scripts/generate_pcb/primitives.py:12 | A hexadecimal field holds no dash, so the first dash of a UUID ends its first field |
| Fmt.FirstDashAfter | scripts/generate_pcb/primitives.py:12 | The first dash of a dash-free field followed by a dash is right after the field |
| Drc.CheckTraceWidth | scripts/drc_check.py:106-117 | The loop reports one width error per segment, in order, for each segment the width rule flags |
| Drc.TraceWidthErrors | scripts/drc_check.py:106-117 | A segment gets a width error exactly when it is on the board and narrower than 0.09 mm (a width equal to the minimum passes); the number of errors is the number of such segments and nothing else is reported |
| Drc.CheckViaDimensions | scripts/drc_check.py:120-137 | The loop gathers, via by via, the drill error followed by the ring error |
| Drc.ViaDimensionErrors | scripts/drc_check.py:120-137 | A drill error is reported exactly for a listed via with drill below 0.15 mm, a ring error exactly for one whose (size - drill) / 2 is below 0.13 mm, and there are at most two errors per via |
| Drc.ViaRingExamples | scripts/drc_check.py:131-136 | A 0.5/0.3 via (0.1 mm ring) gets only the ring error; a 0.6/0.3 via (0.15 mm ring) passes |
| Drc.CrossesSlotSymmetric | scripts/drc_check.py:146-165 | For an exactly horizontal or vertical trace the slot-crossing verdict does not depend on the order of its end points |
| Drc.CrossesSlotOrderMatters | scripts/drc_check.py:153-158 | Within the 0.01 mm tolerance the fixed coordinate is taken from the first end point, so a nearly horizontal segment can cross one way round and not the other |
| Drc.CrossingEndpointsOutside | scripts/drc_check.py:140-165 | Only (nearly) axis-aligned segments cross the slot, and a crossing segment has both end points outside the widened slot, so the end-point test alone would miss it |
| Drc.CheckEndpoints | scripts/drc_check.py:178-189 | The two end points of a trace are checked in order, each for the edge margin and then for the slot |
| Drc.CheckSegmentEdge | scripts/drc_check.py:176-196 | One segment's edge errors: its two end points, then the crossing error when the segment crosses the slot |
| Drc.CheckSegmentEdges | scripts/drc_check.py:176-196 | The segment loop concatenates every segment's edge errors in order |
| Drc.CheckViaEdges | scripts/drc_check.py:198-208 | The via loop reports, via by via, the edge error for a pad of radius size / 2 closer than 0.3 mm to the outline, then the slot error |
| Drc.CheckBoardEdgeClearance | scripts/drc_check.py:168-210 | All segment edge errors come first, then all via edge errors |
| Drc.EdgeErrorsBound | scripts/drc_check.py:168-210 | A segment yields at most five edge errors and a via at most two |
| Drc.CrossingErrors | scripts/drc_check.py:190-196 | A crossing error is reported exactly for the listed segments that cross the slot at their half-width |
| Drc.SlotErrorsAtPoint | scripts/drc_check.py:185-189 | A trace slot error for a point is reported exactly when the point lies strictly inside the slot widened by 0.3 mm and is an end point of some segment |
| Drc.EdgeErrorsAtPoint | scripts/drc_check.py:176-184 | A trace edge error for a point is reported exactly when some segment ends there and, at that segment's half-width, x − hw < 0.3, x + hw > board width − 0.3, y − hw < 0.3 or y + hw > board height − 0.3 |
| Drc.ViaEdgeErrorsAtPoint | scripts/drc_check.py:198-204 | A via edge error for a point is reported exactly when some via is centred there and its pad, of radius size / 2, comes within 0.3 mm of one of the four board edges in the same sense |
| Drc.ViaSlotErrorsAtPoint | scripts/drc_check.py:205-207 | A via slot error for a point is reported exactly when some via is centred there and the centre lies strictly inside the slot widened by 0.3 mm |
| Drc.SegDistSq | scripts/drc_check.py:213-223 | The spacing distance (squared) is no larger than any of the four end-point distances and equal to one of them |
| Drc.SegDistance | scripts/drc_check.py:213-223 | The running minimum over the four end-point pairs, started from infinity, ends at the smallest end-point distance |
| Drc.SegDistSymmetric | scripts/drc_check.py:213-223 | The end-point distance of two segments does not depend on their order |
| Drc.SegDistSharedEnd | scripts/drc_check.py:213-223 | Two segments that share an end point are at distance 0 |
| Drc.SpacingFlagged | scripts/drc_check.py:240-250 | A pair is reported exactly when it is not of one nonzero net and its clearance d - (w1 + w2) / 2 lies strictly between 0 and 0.09 mm, d being the true Euclidean end-point distance; the report names that pair on the first segment's layer |
| Drc.SpacingSymmetric | scripts/drc_check.py:240-246 | Whether a pair breaks the spacing rule does not depend on its order |
| Drc.CheckTraceSpacing | scripts/drc_check.py:226-255 | The check groups segments by layer in order of first appearance, scans each pair i < j of each layer, and stops after the 21st violation with the truncation marker |
| Drc.SpacingAllMember | scripts/drc_check.py:231-250 | Before truncation a spacing error names exactly the pairs that occur in this order in the list, share a layer, and break the rule |
| Drc.SpacingAllSound | scripts/drc_check.py:231-250 | Every untruncated spacing error names such a pair |
| Drc.SpacingAllComplete | scripts/drc_check.py:231-250 | Every such pair is reported before truncation |
| Drc.SpacingAllKinds | scripts/drc_check.py:236-250 | The pair scan itself produces only pair reports, never the marker |
| Drc.SpacingReportNames | scripts/drc_check.py:246-250 | A pair's report names that pair on the first segment's layer |
| Drc.SpacingErrors | scripts/drc_check.py:246-255 | The returned list has at most 22 entries; it ends with the marker exactly when there were more than 20 violations; every other entry is a violating same-layer pair; with 20 or fewer violations it is all of them |
| Drc.CheckDrillSpacing | scripts/drc_check.py:258-282 | The via scan reports the pairs i < j in order |
| Drc.DrillSpacingErrors | scripts/drc_check.py:268-280 | A via pair i < j is reported exactly when the hole clearance d - r1 - r2 lies strictly between 0 and 0.5 mm, so coincident or overlapping holes are never reported |
| Drc.CheckComponentOverlap | scripts/drc_check.py:285-314 | The item scan reports the pairs i < j in order |
| Drc.OverlapErrors | scripts/drc_check.py:304-314 | A pair i < j is reported exactly when its centres are less than 3 mm apart |
| Drc.OverlapSymmetric | scripts/drc_check.py:309-310 | Whether two items overlap does not depend on their order |
| Drc.CheckNetConnectivity | scripts/drc_check.py:317-339 | The counts of nonzero-net segments and the last name of each declared id yield one warning per declared id, in order of first declaration |
| Drc.UsageStep | scripts/drc_check.py:322-325 | One more segment adds one to the count of its net, and segments of net 0 are not counted |
| Drc.NamesStep | scripts/drc_check.py:331 | The id list grows by a new id only, and a later declaration of an id overrides its name |
| Drc.DeclaredIds | scripts/drc_check.py:331-332 | The ids reported on are exactly the ids some declaration carries |
| Drc.ConnectivityWarnings | scripts/drc_check.py:317-339 | "no traces" is reported exactly for a declared net with no counted segment and "only 1 trace segment" exactly for one with a single segment, under the net's last declared name; each id is reported at most once |
| Drc.RunDrc | scripts/drc_check.py:342-412 | Errors are gathered overlap, width, via, edge, spacing, drill in that order; the connectivity warnings are kept apart; the exit status is 1 exactly when some error was gathered |
| Drc.DrcPasses | scripts/drc_check.py:342-412 | The board passes exactly when every segment is wide enough and clear of the edges and the slot, every via meets its drill, ring and edge rules, and no same-layer trace pair, via pair or component pair breaks its spacing rule; warnings play no part |
| Drc.DrcErrorsEmpty | scripts/drc_check.py:361-412 | The gathered error list is empty exactly when each check's own list is empty (the capped spacing list is empty exactly when the uncapped one is) |
| Drc.FlatMapEmpty | scripts/drc_check.py:110-117 | A per-item loop reports nothing exactly when no item has a report |
| Drc.TriEmpty | scripts/drc_check.py:270-281 | A pair scan reports nothing exactly when no pair i < j has a report |
| Drc.SegsClean | scripts/drc_check.py:106-117 | No width and no segment edge error exactly when every segment is wide enough and has no edge error (also scripts/drc_check.py:176-196) |
| Drc.ViasClean | scripts/drc_check.py:120-137 | No via dimension and no via edge error exactly when every via meets both (also scripts/drc_check.py:198-208) |
| Drc.SpacingAllEmpty | scripts/drc_check.py:226-255 | No spacing error at all exactly when no same-layer pair breaks the rule |
| Shorts.OverlapSymmetric | scripts/short_circuit_analysis.py:137-193 | Whether two segments' copper overlaps does not depend on their order |
| Shorts.ParallelHorizontalOverlap | scripts/short_circuit_analysis.py:146-155 | Two proper horizontals overlap exactly when their centre lines are closer than the sum of half-widths and their x-ranges overlap strictly |
| Shorts.EndToEndNoOverlap | scripts/short_circuit_analysis.py:152-155 | Two such horizontals that only meet end to end are not a short |
| Shorts.CrossingOverlap | scripts/short_circuit_analysis.py:167-191 | A proper horizontal and a proper vertical overlap exactly when each centre line lies in the other's range widened by the other's half-width, bounds included |
| Shorts.CheckTraceShorts | scripts/short_circuit_analysis.py:196-221 | Segments are grouped by layer in order of first appearance, every pair i < j of a layer is scanned, and the list stops after the 51st short with the truncation marker |
| Shorts.ShortsAllMember | scripts/short_circuit_analysis.py:203-217 | Before truncation a short is reported for exactly the pairs in list order on one layer whose nets differ and whose copper overlaps; two segments of one net, net 0 included, are never a short |
| Shorts.ShortsCapped | scripts/short_circuit_analysis.py:218-220 | The returned list holds at most 52 entries and ends with the marker exactly when there were more than 50 shorts |
| Shorts.LastWithPriorityStep | scripts/short_circuit_analysis.py:244-253 | One more zone updates the seen-priority record and adds at most its own duplicate error |
| Shorts.CheckLayerZones | scripts/short_circuit_analysis.py:231-253 | A layer with one zone has no errors; otherwise the missing-priority errors come first, in zone order, then the duplicates |
| Shorts.ScanDuplicates | scripts/short_circuit_analysis.py:243-253 | The seen dictionary reports a prioritised zone whose priority an earlier zone of the layer already had, naming the last such zone |
| Shorts.CheckZonePriorities | scripts/short_circuit_analysis.py:224-254 | Zones are grouped by layer in order of first appearance and each layer's errors follow one another |
| Shorts.LastWithPrioritySome | scripts/short_circuit_analysis.py:247 | The seen dictionary holds a priority exactly when some earlier zone of the layer had it |
| Shorts.DupCount | scripts/short_circuit_analysis.py:243-253 | k zones of a layer sharing one priority give exactly k - 1 duplicate errors for it |
| Shorts.DupPassKinds | scripts/short_circuit_analysis.py:243-253 | The duplicate pass reports only duplicates, each naming a zone of the layer with a priority |
| Shorts.NoPriorityErrors | scripts/short_circuit_analysis.py:231-242 | A zone gets ZONE_NO_PRIORITY exactly when it has no priority and its layer has more than one zone |
| Shorts.ZoneErrorsNeedTwo | scripts/short_circuit_analysis.py:231-233 | Every zone error names a listed zone whose layer has at least two zones |
| Shorts.LayerReportKinds | scripts/short_circuit_analysis.py:231-253 | A layer's report names only its own zones, and only when it has two or more |
| Shorts.CheckZoneFill | scripts/short_circuit_analysis.py:257-266 | There is one fill error, carrying the zone count, exactly when zones exist and no filled polygon does |
| Shorts.CheckPadNets | scripts/short_circuit_analysis.py:269-280 | There is one warning, carrying the pad count, exactly when there are pads and every pad is on net 0 |
| Shorts.RunShortAnalysis | scripts/short_circuit_analysis.py:321-389 | The critical findings are shorts, zone priorities, zone fill and Gerber errors in that order; at most one warning; the exit status is 1 exactly when there is a critical finding |
| Shorts.ShortsPass | scripts/short_circuit_analysis.py:340-389 | The analysis passes exactly when no same-layer pair of different nets overlaps, no layer has priority errors, the zones are filled or absent, and the Gerber check found nothing |
| Routing.EncRoundTrip | scripts/generate_pcb/routing.py:35-37 | The enclosure-to-board transform is a bijection: each direction undoes the other (also scripts/generate_pcb/board.py:33-35) |
| Routing.SlotConstantsAgree | scripts/generate_pcb/routing.py:40-42 | The slot rectangle written out in the router, the rule checker and the short analysis is the one the outline derives from the slot's centre (47, 2) and its 3 x 24 mm size, and the board size agrees (also scripts/generate_pcb/board.py:51-55, scripts/drc_check.py:35-40, scripts/short_circuit_analysis.py:25-30) |
| Routing.CrossesSlotMeans | scripts/generate_pcb/routing.py:45-59 | An exactly horizontal segment crosses exactly when its y is in the closed slot band and it reaches strictly past both slot edges in x (and the same for vertical); the end-point order does not matter |
| Routing.EspPinSpec | scripts/generate_pcb/routing.py:130-162 | An unknown GPIO sits at the module centre (80, 27.5); a left pin at x = 71 and a right pin at x = 89, offset from y = 27.5 by its table entry; every pin lies within 71..89 x 21.15..44.01 |
| Routing.LRouteShape | scripts/generate_pcb/routing.py:172-186 | An L route is exactly two axis-aligned segments with the given layer, width and net, from the start to the end, meeting at the corner the leg order picks |
| Routing.Segs | scripts/generate_pcb/routing.py:167-169 | Wrapping segments as emitted parts keeps their number and order |
| Routing.RelocateClears | scripts/generate_pcb/routing.py:479-483 | After relocation a face-button via is never within the slot keep-out (nor within 0.6 mm of the slot by the checker's test), and only vias in the keep-out move, to x = 129.6 |
| Routing.HWouldCrossMeans | scripts/generate_pcb/routing.py:489-492 | The router's guard is the slot-crossing test applied to the horizontal leg at the via's height (also scripts/generate_pcb/routing.py:45-59) |
| Routing.ZRouteClear | scripts/generate_pcb/routing.py:494-506 | A detour from a via at slot height right of the keep-out to a pin left of the slot's right edge never crosses the slot |
| Routing.FaceViasClear | scripts/generate_pcb/routing.py:467-510 | Every via the face-button loop places is outside the slot keep-out, whatever the detour numbering |
| Routing.DetourNeverCrosses | scripts/generate_pcb/routing.py:494-506 | When the guard fires, no segment of the detour crosses the slot |
| Routing.HorizontalFirstClear | scripts/generate_pcb/routing.py:507-510 | Without a detour, a horizontal-first L route does not cross the slot |
| Routing.VerticalFirstCanCross | scripts/generate_pcb/routing.py:489-510 | The guard checks only the leg at the via's height: a button below the slot band whose route goes vertical first can carry its horizontal leg through the slot |
| Routing.FaceButtonDetours | scripts/generate_pcb/routing.py:78-93 | On this board exactly B, X and Y detour, as detours 0, 1 and 2 in button order, and Y's via is pushed right to x = 129.6 (also scripts/generate_pcb/routing.py:452-510) |
| Routing.FaceCrossings | scripts/generate_pcb/routing.py:78-93 | Which of the ten face buttons trip the guard, button by button (also scripts/generate_pcb/routing.py:489-492) |
| Routing.CrossingsSnoc | scripts/generate_pcb/routing.py:496-498 | The detour count grows by one exactly for a button that detours |
| Routing.CrossingsNone | scripts/generate_pcb/routing.py:496-498 | Buttons none of which detour leave the count at 0 |
| Routing.RouteFace | scripts/generate_pcb/routing.py:468-510 | One face button yields its F.Cu trace, its via and its B.Cu route (the detour numbered by the current counter, or the L with the longer leg first), and reports whether it detoured |
| Routing.FaceRoutesCons | scripts/generate_pcb/routing.py:467-510 | The face-button routes are the first button's parts followed by the rest with the counter advanced by its detour |
| Routing.RouteFaces | scripts/generate_pcb/routing.py:467-510 | The face loop emits the routes of all buttons in order, the detour counter starting at 0 and advancing on every button that detours |
| Routing.RouteShoulders | scripts/generate_pcb/routing.py:523-554 | The shoulder loop emits each shoulder button's trace, via and L route in order, SW11 vertical first and the others horizontal first |
| Routing.ButtonTraces | scripts/generate_pcb/routing.py:447-556 | All button traces: the face buttons, then the menu button's via 4 mm above its pad and L route to the module's right edge, then the shoulder buttons |
| Routing.PrefixedInjective | scripts/generate_pcb/routing.py:105-106 | A prefix followed by distinct numbers gives distinct references |
| Routing.PassiveRefsDistinct | scripts/generate_pcb/routing.py:104-106 | A row of twelve consecutive numbers followed by a larger one repeats no reference |
| Routing.PassiveRows | scripts/generate_pcb/routing.py:104-106 | R4..R15, R19 and C5..C16, C20 are 13 distinct references each, placed left to right from x = 50 to x = 110 at 5 mm pitch |
| Routing.DataBus | scripts/generate_pcb/routing.py:278-293 | Each data bit contributes exactly four segments |
| Routing.DataBusTraces | scripts/generate_pcb/routing.py:278-293 | The data-bus loop emits bit i's four-segment route from GPIO 4 + i to FPC pin 11 + i, in bit order |
| Routing.DataBitsSeparate | scripts/generate_pcb/routing.py:287-288 | Different data bits use different vertical columns and different horizontal channels |
| Routing.DataBitClear | scripts/generate_pcb/routing.py:279-293 | Every segment of a data-bit route is axis-aligned and none crosses the slot: the bus passes above it |
| Seqs.ThreadedAt | scripts/generate_pcb/routing.py:467-498 | In a loop that threads a counter, the part emitted for item i is computed with the counter equal to the start plus the number of earlier items that advanced it |
| Seqs.FilterPairs | scripts/drc_check.py:231-234 | Sorting into a per-layer list keeps the relative order of the kept elements and only that: a pair is in order in the filtered list exactly when it is in order in the original and both are kept |
| Seqs.TriMember | scripts/drc_check.py:237-239 | The nested i < j loop reports m exactly when some pair a < b of the list reports m (also scripts/drc_check.py:270-271) |
| Seqs.GroupsMember | scripts/drc_check.py:236-239 | Scanning the layers in turn reports m exactly when some layer's pair scan does (also scripts/short_circuit_analysis.py:203-205) |
| Seqs.ScanPairs | scripts/drc_check.py:270-281 | The nested loop yields the reports of the pairs (0,1), (0,2), ..., (1,2), ... in loop order |
| Seqs.ScanGroupsCapped | scripts/drc_check.py:236-253 | The early stop after more than the limit of reports returns the first limit + 1 reports followed by the marker, and everything otherwise (also scripts/short_circuit_analysis.py:203-220) |
| Seqs.Cap | scripts/drc_check.py:251-253 | At most limit reports pass unchanged; otherwise exactly the first limit + 1 reports and then the marker (also scripts/short_circuit_analysis.py:218-220) |
| Seqs.CapSubset | scripts/drc_check.py:251-253 | A truncated list holds only reports of the full list and the marker |
| Seqs.CapEmpty | scripts/drc_check.py:251-253 | Truncation keeps an empty list empty and a non-empty one non-empty |
| Seqs.RowLength | scripts/drc_check.py:237-239 | A row of the scan has at most one report per pair |
| Seqs.FlatMapMember | scripts/drc_check.py:110-117 | A per-item loop reports m exactly when some item's own report contains m |
| Seqs.FlatMapLength | scripts/drc_check.py:176-208 | If each item reports at most n messages, the loop reports at most n per item |
| Grouping.KeysExact | scripts/drc_check.py:232-234 | The dictionary's keys are listed once each, every item's key is listed, and every listed key is some item's key |
| Grouping.Grouped | scripts/drc_check.py:232-236 | There is one group per distinct key |
| Grouping.GroupedPairIn | scripts/drc_check.py:232-239 | Two items lie in this order in a common group exactly when they lie in this order in the list and share a key (also scripts/short_circuit_analysis.py:199-205) |
| Grouping.GroupedKeys | scripts/drc_check.py:232-234 | No group is empty and every group holds only items of its key |
| Grouping.DictStep | scripts/drc_check.py:233-234 | setdefault(key, []).append(item) adds the item to its key's group and lists the key when it is new, keeping the dictionary exact |
| Grouping.GroupBy | scripts/drc_check.py:232-234 | The dictionary has exactly the keys in first-appearance order, and each key's group is the items of that key in list order (also scripts/short_circuit_analysis.py:227-229) |
| Grouping.GroupList | scripts/drc_check.py:236 | Iterating the dictionary yields the groups in key order (also scripts/short_circuit_analysis.py:231) |
| Grouping.GroupScanSound | scripts/drc_check.py:236-250 | Every report of the per-layer pair scan comes from a same-key pair in list order (also scripts/short_circuit_analysis.py:203-217) |
| Grouping.GroupScanComplete | scripts/drc_check.py:236-250 | Every same-key pair in list order that has a report contributes it (also scripts/short_circuit_analysis.py:203-217) |
| Grouping.GroupOf | scripts/short_circuit_analysis.py:227-231 | The group of a listed item's key is exactly the items of that key |
| Geometry.SqDist | scripts/drc_check.py:221 | The squared distance is non-negative and zero exactly for equal points (also scripts/drc_check.py:274) |
| Geometry.SqDistSymmetric | scripts/drc_check.py:274 | The distance does not depend on the order of the points (also scripts/drc_check.py:309) |
| Geometry.DistExceedsMeans | scripts/drc_check.py:245-246 | The square-based test decides "d > c" exactly for the true distance d |
| Geometry.DistBelowMeans | scripts/drc_check.py:309-310 | The square-based test decides "d < e" exactly for the true distance d |
| Geometry.ClearanceBelowMeans | scripts/drc_check.py:245-246 | The square-based test decides "0 < d - c < m" exactly for the true distance d (also scripts/drc_check.py:275-276) |
| Geometry.SquareMonotone | scripts/drc_check.py:221 | Squaring preserves strict order on non-negative reals |
| Geometry.Abs | scripts/drc_check.py:153 | The absolute value is non-negative and is the argument or its negation |
| Geometry.Min | scripts/drc_check.py:156 | The minimum is below both arguments and is one of them |
| Geometry.Max | scripts/drc_check.py:156 | The maximum is above both arguments and is one of them |
| Footprints.NetClauseSpec | scripts/generate_pcb/footprints.py:22 | Only net 0 is written with the quoted empty net name; any other net's clause has no quote at all |
| Footprints.Stamp | scripts/generate_pcb/footprints.py:27 | Stamping draws exactly one UUID per pad |
| Footprints.StampSpec | scripts/generate_pcb/footprints.py:19-28 | No two pads of one footprint share a UUID, and drawing the UUIDs changes nothing else about the pads (also scripts/generate_pcb/primitives.py:4-12) |
| Footprints.MakePad | scripts/generate_pcb/footprints.py:19-28 | Building a pad draws the next UUID from the counter, and only that |
| Footprints.Esp32LayoutSpec | scripts/generate_pcb/footprints.py:45-82 | 41 pads numbered "1".."41": pins 1-14 down the left edge at x = -8.75 from y = -5.26, pins 15-26 along the bottom at y = 12.5 from x = -6.985, pins 27-40 up the right edge at x = 8.75 level with the left pins in reverse, and the thermal pad at (-1.5, 2.46); all surface-mount on the requested layers, net 0, undrilled |
| Footprints.NumberedDistinct | scripts/generate_pcb/footprints.py:56-74 | Pads numbered str(1) .. str(n) have distinct numbers |
| Footprints.RunsJoin | scripts/generate_pcb/footprints.py:50-82 | Two consecutive runs of emitted pads join into one run with consecutive UUIDs |
| Footprints.RunIsStamp | scripts/generate_pcb/footprints.py:50-82 | A run covering the whole layout is the stamped layout |
| Footprints.Esp32Left | scripts/generate_pcb/footprints.py:54-59 | The left-edge loop emits pins 1-14 of the layout with the next 14 UUIDs |
| Footprints.Esp32Bottom | scripts/generate_pcb/footprints.py:61-67 | The bottom-edge loop emits pins 15-26, pads turned (size swapped), with the next 12 UUIDs |
| Footprints.Esp32Right | scripts/generate_pcb/footprints.py:69-74 | The right-edge loop emits pins 27-40 with the next 14 UUIDs |
| Footprints.Esp32Compose | scripts/generate_pcb/footprints.py:50-82 | The three edges and the thermal pad together are the whole stamped layout |
| Footprints.Esp32S3Wroom1 | scripts/generate_pcb/footprints.py:49-82 | The generator emits the 41-pad layout on the back layers for "B" and the front layers otherwise, drawing 41 consecutive UUIDs |
| Footprints.SwLayoutSpec | scripts/generate_pcb/footprints.py:85-98 | Four pads at (+-3.0, +-1.85): pins 1 and 3 on the left, 2 and 4 on the right; mirroring swaps the two columns |
| Footprints.SwSmd51 | scripts/generate_pcb/footprints.py:89-98 | The switch emits its four pads, on the front layers for "F" and the back layers otherwise (the opposite test to the other generators), drawing 4 UUIDs |
| Footprints.Sop16LayoutSpec | scripts/generate_pcb/footprints.py:141-156 | 16 pads "1".."16": pins 1-8 at x = -4.65 going down, pins 9-16 at x = 4.65 going up, 1.27 mm pitch, pin 17 - k level with pin k |
| Footprints.Sop16Left | scripts/generate_pcb/footprints.py:146-149 | The left loop emits pins 1-8 with the next 8 UUIDs |
| Footprints.Sop16Right | scripts/generate_pcb/footprints.py:151-154 | The right loop emits pins 9-16 with the next 8 UUIDs |
| Footprints.Sop16 | scripts/generate_pcb/footprints.py:141-156 | The generator emits the 16-pad layout, drawing 16 consecutive UUIDs |
| Footprints.TwoRuns | scripts/generate_pcb/footprints.py:141-156 | Two consecutive runs covering a layout are the whole stamped layout (also scripts/generate_pcb/footprints.py:209-224) |
| Footprints.FpcLayoutSpec | scripts/generate_pcb/footprints.py:206-224 | Signal pin k is named str(k) at x = -9.75 + 0.5 (k - 1), y = -1.85, so the row is centred on the origin; MP1 and MP2 sit at x = -11.5 and 11.5 |
| Footprints.FpcSignal | scripts/generate_pcb/footprints.py:216-218 | The signal loop emits the 40 signal pads with the next 40 UUIDs |
| Footprints.Fpc40p | scripts/generate_pcb/footprints.py:209-224 | The generator emits the 42-pad layout, drawing 42 consecutive UUIDs |
| Footprints.FpcMounts | scripts/generate_pcb/footprints.py:221-222 | The two mounting pads are the last two entries of the layout with UUIDs 41 and 42 of the footprint |
| Footprints.LayoutCount | scripts/generate_pcb/footprints.py:49-316 | Each generator emits a fixed number of pads whatever layer it is asked for |
| Footprints.Esop8Plain | scripts/generate_pcb/footprints.py:103-123 | Every ESOP-8 pad is surface-mount, undrilled and on net 0 |
| Footprints.Tf01aPlain | scripts/generate_pcb/footprints.py:230-252 | Every TF-01A pad is surface-mount, undrilled and on net 0 |
| Footprints.UsbCDrill | scripts/generate_pcb/footprints.py:163-203 | The USB connector's 16 signal pads are plain SMD and its four shield legs are drilled through-hole pads |
| Footprints.LayoutDrill | scripts/generate_pcb/footprints.py:19-42 | Every pad of every generator is on net 0 and carries a drill clause exactly when it is through-hole; only the JST header's pads and the USB connector's shield legs are drilled (also scripts/generate_pcb/footprints.py:163-259) |
| Footprints.LayoutPlain | scripts/generate_pcb/footprints.py:49-156 | Every generator but the JST header and the USB connector lays out plain SMD pads only (also scripts/generate_pcb/footprints.py:209-252, scripts/generate_pcb/footprints.py:263-316) |
| Footprints.FixedPlain | scripts/generate_pcb/footprints.py:89-98 | The generators with a fixed pad list lay out plain SMD pads (also scripts/generate_pcb/footprints.py:126-138, scripts/generate_pcb/footprints.py:263-316) |
| Footprints.PlainUndrilled | scripts/generate_pcb/footprints.py:21 | A plain SMD pad has no drill clause and is not through-hole |
| Footprints.Mirrored | scripts/generate_pcb/footprints.py:370 | Mirroring keeps the number of pads |
| Footprints.MirroredSpec | scripts/generate_pcb/footprints.py:341-354 | Mirroring negates each pad's x, changes nothing else, and undoes itself |
| Footprints.PadsForSpec | scripts/generate_pcb/footprints.py:357-371 | An unknown name gives no pads; a known one gives its generator's pads for the requested layer, or the registry default when none is given; the count never depends on the layer; on "B" each x is negated and y kept, otherwise the pads are as laid out |
| Footprints.PadsForUuidsDistinct | scripts/generate_pcb/footprints.py:357-371 | The pads of one placed footprint never share a UUID |
| Footprints.EmitPads | scripts/generate_pcb/footprints.py:100-316 | A fixed pad list is emitted in order with one new UUID per pad |
| Footprints.Generate | scripts/generate_pcb/footprints.py:321-338 | Running a generator draws exactly its pad count of UUIDs and yields its stamped layout (also scripts/generate_pcb/footprints.py:368) |
| Footprints.GetPads | scripts/generate_pcb/footprints.py:357-371 | get_pads returns the pads described by the registry, drawing one UUID per returned pad and none for an unknown name |
| Footprints.Place | scripts/generate_pcb/footprints.py:367-370 | Generating on a layer yields the stamped layout, mirrored when the layer is "B" |
| LibSymbols.LibSymbolsBlock | scripts/generate_schematics/lib_symbols.py:276-285 | The block is the header line, the definitions of the visited names (the request, then the missing power symbols), and the closing line, joined |
| LibSymbols.PartsAre | scripts/generate_schematics/lib_symbols.py:281-283 | Between header and footer come exactly the registry definitions of the registered visited names, in visiting order; unregistered names contribute nothing |
| LibSymbols.EmittedOrder | scripts/generate_schematics/lib_symbols.py:279-283 | Requested names are emitted first in request order, then the missing power symbols; a name is emitted exactly when it is registered and is either requested or a power symbol |
| LibSymbols.MissingPowerOrder | scripts/generate_schematics/lib_symbols.py:280-281 | The power symbols appended are those not requested, in the sorted order +3V3, +5V, GND, so none is emitted twice |
| LibSymbols.FilterSorted | scripts/generate_schematics/lib_symbols.py:281 | Dropping names from a strictly sorted list keeps it strictly sorted |
| LibSymbols.PowerAlwaysEmitted | scripts/generate_schematics/lib_symbols.py:279-283 | When the registry holds the power symbols, every block carries all three, whatever was requested |
| LibSymbols.RegistryHasPower | scripts/generate_schematics/lib_symbols.py:255-273 | The registry defines GND, +3V3 and +5V |
| InjectModels.TallyAppend | scripts/inject-3d-models.py:74 | Counting a character over two joined strings adds the counts of the parts |
| InjectModels.JoinContains | scripts/inject-3d-models.py:79-82 | A pattern found in any one line of a block is found in the newline-joined block text |
| InjectModels.OpenerSpec | scripts/inject-3d-models.py:63-66 | A line opens a footprint block named n exactly when it is leading whitespace, `(footprint "`, a quote-free name n and a closing quote, followed by anything |
| InjectModels.OpenerShape | scripts/inject-3d-models.py:63-66 | An accepted line has that form, with the extracted name |
| InjectModels.OpenerOf | scripts/inject-3d-models.py:63-66 | Every line of that form is accepted, and the name extracted is the one between the quotes |
| InjectModels.DepthAppend | scripts/inject-3d-models.py:74 | The depth change over two runs of lines is the sum of their changes |
| InjectModels.BlockLen | scripts/inject-3d-models.py:69-77 | The block scan takes at least one line and never more than remain |
| InjectModels.BlockLenSpec | scripts/inject-3d-models.py:69-77 | Every proper prefix of a collected block leaves the depth positive, and the block brings it to zero or below unless the input ran out |
| InjectModels.BlockLenOf | scripts/inject-3d-models.py:69-77 | Conversely, lines that stay open and then close (or end the input) are exactly what the block scan collects |
| InjectModels.HeadLen | scripts/inject-3d-models.py:59-102 | Each turn of the scan consumes at least one line and never more than remain, so the scan ends |
| InjectModels.HeadSource | scripts/inject-3d-models.py:59-102 | The segment formed at a turn covers exactly the lines that turn consumes |
| InjectModels.ParseCovers | scripts/inject-3d-models.py:55-104 | The scan partitions the input: the segments, concatenated, are the input lines in order |
| InjectModels.HeadOk | scripts/inject-3d-models.py:63-77 | A segment is either one line that opens no block, or a block that starts at an opening line with that name, stays open, and closes unless it is the last (also scripts/inject-3d-models.py:101-102) |
| InjectModels.ParseWellFormed | scripts/inject-3d-models.py:55-104 | Every segment the scan forms is well formed in that sense |
| InjectModels.HeadOfSegment | scripts/inject-3d-models.py:59-102 | A well-formed segment at the front of the lines is what one turn of the scan forms |
| InjectModels.ParseOfSegments | scripts/inject-3d-models.py:55-104 | Splitting the lines of well-formed segments gives back those segments: the split is the inverse of concatenation |
| InjectModels.CollectBlock | scripts/inject-3d-models.py:68-77 | The inner loop collects the lines from the opening line through the first that brings the running depth to zero or below, or to the end of the input |
| InjectModels.StatsSnoc | scripts/inject-3d-models.py:83 | One more segment raises the counter of its outcome by one and leaves the others alone (also scripts/inject-3d-models.py:94, scripts/inject-3d-models.py:96) |
| InjectModels.EmitSnoc | scripts/inject-3d-models.py:84 | One more segment appends what is written for it (also scripts/inject-3d-models.py:98, scripts/inject-3d-models.py:101) |
| InjectModels.PlainStep | scripts/inject-3d-models.py:101-102 | A line that opens no block is copied alone and counted nowhere |
| InjectModels.EmitBlock | scripts/inject-3d-models.py:79-99 | A block that already mentions "(model " is copied and counted as having one; otherwise a name mapped to a non-empty path gets the entry inserted before the last line and counts as matched, and any other one (unmapped, or mapped to the empty path, which Python treats as false) is copied and skipped |
| InjectModels.Inject | scripts/inject-3d-models.py:49-104 | The output is what each segment of the input writes, in order, and each counter is the number of segments with its outcome |
| InjectModels.InjectStep | scripts/inject-3d-models.py:59-102 | The loop's invariant (segments done, output, counters) carries over one turn |
| InjectModels.ParseNext | scripts/inject-3d-models.py:59-102 | The scan resumes right after the segment the turn consumed |
| InjectModels.ParseHead | scripts/inject-3d-models.py:59-102 | The segments of the lines are the head segment followed by the segments of the rest |
| InjectModels.InjectLine | scripts/inject-3d-models.py:60-102 | One turn: an opening line hands over to the block collector, any other line is copied and moves on by one |
| InjectModels.OutcomeCounts | scripts/inject-3d-models.py:81-96 | Every footprint block is counted exactly once: matched, skipped or already having a model |
| InjectModels.StatsTotal | scripts/inject-3d-models.py:51 | matched + skipped + already_has_model is the number of footprint blocks in the input (also scripts/inject-3d-models.py:81-96) |
| InjectModels.EmitLength | scripts/inject-3d-models.py:90-98 | Each segment is written with as many lines as it was read, plus five for a matched block |
| InjectModels.InjectedLength | scripts/inject-3d-models.py:41-46 | The output has the input's lines plus five per matched footprint (also scripts/inject-3d-models.py:90-104) |
| InjectModels.EmitUnchanged | scripts/inject-3d-models.py:84 | Lines outside blocks and blocks not matched are written unchanged; a matched block gains the entry just before its last line (also scripts/inject-3d-models.py:93, scripts/inject-3d-models.py:98, scripts/inject-3d-models.py:101) |
| InjectModels.DeltaAppend | scripts/inject-3d-models.py:74 | The depth change of joined text is the sum of the parts' changes |
| InjectModels.DeltaParen | scripts/inject-3d-models.py:41-46 | A parenthesised list changes the depth only by what its contents do |
| InjectModels.DeltaItem | scripts/inject-3d-models.py:42-44 | The offset, scale and rotate lines of the entry are balanced |
| InjectModels.EntryDeltas | scripts/inject-3d-models.py:41-46 | The entry's first line opens one level, the next three keep it, the last closes it |
| InjectModels.EntryDepth | scripts/inject-3d-models.py:41-46 | The entry never closes more than it opened and is balanced as a whole (also scripts/inject-3d-models.py:91) |
| InjectModels.InsertKeepsBlock | scripts/inject-3d-models.py:93 | Inserting a balanced entry before the last line of an open block of two or more lines keeps it open until that last line, keeps its depth and its opening line |
| InjectModels.ContainsChars | scripts/inject-3d-models.py:82 | Every character of the pattern occurs in a string that contains it |
| InjectModels.EntryHasModel | scripts/inject-3d-models.py:41 | The entry's first line contains "(model " (also scripts/inject-3d-models.py:82) |
| InjectModels.RewrittenOk | scripts/inject-3d-models.py:82-98 | A block as written by the injector is well formed again, is written unchanged on a second run and is never matched again; a skipped block stays skipped |
| InjectModels.InjectTwice | scripts/inject-3d-models.py:49-104 | When every footprint block spans two or more lines, running the injector on its own output changes nothing: no block matches, skipped ones stay skipped, and the matched ones count as already having a model |
| VerifyRefs.ValueAfter | scripts/verify_schematic_pcb.py:20 | A value match after the key spans at least one character and never more than the text |
| VerifyRefs.MatchAt | scripts/verify_schematic_pcb.py:20 | A match of the reference pattern spans at least one character and never more than the text, so the scan advances |
| VerifyRefs.MatchShape | scripts/verify_schematic_pcb.py:20 | A match is the key, one or more whitespace characters, and a non-empty quote-free value in quotes |
| VerifyRefs.MatchOf | scripts/verify_schematic_pcb.py:20 | Every text of that shape matches and captures the quoted value |
| VerifyRefs.MatchAfterKey | scripts/verify_schematic_pcb.py:20 | After the key, the pattern's match is the match of the rest, offset by the key's length |
| VerifyRefs.MatchSpec | scripts/verify_schematic_pcb.py:20 | The pattern matches at a position with capture v exactly when the text there has that shape with value v |
| VerifyRefs.FindAllValues | scripts/verify_schematic_pcb.py:20 | Every scraped reference is non-empty and free of quotes (also scripts/verify_schematic_pcb.py:30) |
| VerifyRefs.ExtractRefsSpec | scripts/verify_schematic_pcb.py:18-25 | extract_refs lists, sorted and once each, exactly the scraped references that are not library templates (capitals only, Python's `$` allowing a final newline) and hold no '?', and with skip_power none that starts with '#' |
| VerifyRefs.PcbRefsAreRefs | scripts/verify_schematic_pcb.py:28-34 | The board filter keeps exactly what the schematic filter keeps with power symbols skipped |
| Text.IndexOf | scripts/verify_schematic_pcb.py:46 | The position found holds the character, or is the end of the text when it does not occur: the first comma of a CPL line (also the first quote, scripts/verify_schematic_pcb.py:20, scripts/inject-3d-models.py:63) |
| Text.BeforeIndex | scripts/verify_schematic_pcb.py:46 | The position is the first occurrence: the text before it holds no occurrence, so the first comma-separated field holds no comma and the text before the first quote holds no quote (also scripts/verify_schematic_pcb.py:20, scripts/inject-3d-models.py:63) |
| VerifyRefs.CplRefShape | scripts/verify_schematic_pcb.py:46-48 | A designator holds no comma and neither starts nor ends with a quote |
| VerifyRefs.CplColumnSpec | scripts/verify_schematic_pcb.py:43-48 | The designator column holds exactly the designators of the lines after the header |
| VerifyRefs.CplFileSpec | scripts/verify_schematic_pcb.py:37-49 | extract_cpl_refs gives the sorted distinct designators of the lines after the header, and none for an absent file |
| VerifyRefs.ReadColumn | scripts/verify_schematic_pcb.py:42-48 | The line loop skips the header and collects every other line's designator, in file order |
| VerifyRefs.CplRefs | scripts/verify_schematic_pcb.py:37-49 | The method returns the designator list of the file, empty when the file is absent |
| VerifyRefs.Compare | scripts/verify_schematic_pcb.py:58-71 | The only-in-A, only-in-B and common parts partition both sets, and the report is MATCH exactly when the sets are equal |
| VerifyRefs.SheetCountSpec | scripts/verify_schematic_pcb.py:83 | The root counts as hierarchical exactly when `(sheet` followed by whitespace occurs in it (also scripts/verify_schematic_pcb.py:90, scripts/verify_schematic_pcb.py:132) |
| VerifyRefs.SheetRefsSpec | scripts/verify_schematic_pcb.py:96-103 | A reference is in the sub-sheet union exactly when some sub-sheet lists it |
| VerifyRefs.SubsheetRefs | scripts/verify_schematic_pcb.py:96-103 | The sub-sheet loop computes that union |
| VerifyRefs.Decide | scripts/verify_schematic_pcb.py:131-181 | The effective schematic is root plus sub-sheets only for a hierarchical root; missing and extra partition the CPL and effective sets against their common part; coverage passes exactly when every CPL designator is in the schematic; the CPL check passes exactly when it is non-empty; the board is complete exactly when it holds every CPL designator; each comparison is MATCH exactly when its sets are equal |
| VerifyRefs.Verify | scripts/verify_schematic_pcb.py:74-184 | A run compares the root's references, the sub-sheet union, the board's and the CPL's designators (empty when their files are absent), and decides as above |
| Text.StrLessIrreflexive | scripts/verify_schematic_pcb.py:25 | Python's string order never puts a string before itself (also scripts/generate_schematics/lib_symbols.py:281) |
| Text.StrLessTransitive | scripts/verify_schematic_pcb.py:25 | Python's string order is transitive (also scripts/generate_schematics/lib_symbols.py:281) |
| Text.StrLessTotal | scripts/verify_schematic_pcb.py:25 | Any two different strings are ordered one way or the other (also scripts/generate_schematics/lib_symbols.py:281) |
| Text.StrLessAsymmetric | scripts/verify_schematic_pcb.py:25 | No two strings are each before the other (also scripts/generate_schematics/lib_symbols.py:281) |
| Text.LeastExists | scripts/verify_schematic_pcb.py:25 | A non-empty finite set of strings has an element no other precedes |
| Text.Least | scripts/verify_schematic_pcb.py:25 | The element picked is in the set and no element precedes it |
| Text.LeastUnique | scripts/verify_schematic_pcb.py:25 | That least element is unique |
| Text.SortedSetSpec | scripts/verify_schematic_pcb.py:25 | sorted(set) lists each element of the set exactly once, in strictly increasing order (also scripts/generate_schematics/lib_symbols.py:281) |
| Text.SortedUnique | scripts/verify_schematic_pcb.py:25 | Two strictly sorted lists with the same elements are equal, so sorted(set) is determined by the set (also scripts/generate_schematics/lib_symbols.py:281) |
| Text.StripLeft | scripts/verify_schematic_pcb.py:46 | The leading run removed consists of stripped characters, and what is left does not start with one (also scripts/verify_schematic_pcb.py:48) |
| Text.StripRight | scripts/verify_schematic_pcb.py:46 | The trailing run removed consists of stripped characters, and what is left does not end with one (also scripts/verify_schematic_pcb.py:48) |
| Text.StripSpec | scripts/verify_schematic_pcb.py:46 | str.strip leaves a slice of the string with no stripped character at either end (also scripts/verify_schematic_pcb.py:48) |
| Text.StripWithin | scripts/verify_schematic_pcb.py:46 | str.strip only removes characters (also scripts/verify_schematic_pcb.py:48) |
| Text.WsLenOf | scripts/verify_schematic_pcb.py:20 | The leading-whitespace run of whitespace followed by a non-whitespace character is exactly that whitespace (also scripts/inject-3d-models.py:63) |
| Text.IndexOfAfter | scripts/verify_schematic_pcb.py:20 | A text free of the character, followed by the character, is cut right after that text: a quote-free value is closed by the quote that follows it (also scripts/inject-3d-models.py:63) |
| Text.WsPrefix | scripts/verify_schematic_pcb.py:20 | The leading run found is all whitespace (also scripts/inject-3d-models.py:63) |
| SimulateCircuit.Lookup | scripts/simulate_circuit.py:546-560 | used_gpios.get(g) finds a net exactly when some item has GPIO g, and the net found is that item's (also scripts/simulate_circuit.py:571) |
| SimulateCircuit.LookupItem | scripts/simulate_circuit.py:516 | In a dictionary (no GPIO twice) each item is found by its GPIO (also scripts/simulate_circuit.py:571) |
| SimulateCircuit.DuplicateCheck | scripts/simulate_circuit.py:519-526 | The inverted-dictionary loop reports, in first-appearance order of the nets, one error per net with its GPIOs when it has more than one |
| SimulateCircuit.DupErrorsOfMember | scripts/simulate_circuit.py:524-526 | A message is reported exactly when it is the error of one of the visited nets |
| SimulateCircuit.FilterTwo | scripts/simulate_circuit.py:525 | Two items carrying a net make its group longer than one |
| SimulateCircuit.FilterTwoBack | scripts/simulate_circuit.py:525 | A group longer than one comes from two distinct items carrying the net |
| SimulateCircuit.DupErrorsShape | scripts/simulate_circuit.py:524-526 | Every duplicate error lists more than one GPIO |
| SimulateCircuit.GpiosLength | scripts/simulate_circuit.py:521-522 | A net's GPIO list has one entry per item carrying it |
| SimulateCircuit.DupErrorsSound | scripts/simulate_circuit.py:519-526 | A duplicate error for net n means two different GPIOs carry n |
| SimulateCircuit.DupErrorsComplete | scripts/simulate_circuit.py:519-526 | A net carried by two GPIOs is reported, with all its GPIOs in dictionary order |
| SimulateCircuit.DupErrorsDistinct | scripts/simulate_circuit.py:519-526 | No net is reported twice |
| SimulateCircuit.DupNetsDistinct | scripts/simulate_circuit.py:524-526 | Over distinct nets the errors name distinct nets among them |
| SimulateCircuit.PsramSpec | scripts/simulate_circuit.py:142 | A PSRAM conflict is reported exactly for each used GPIO in 26..32 with its net, one per such GPIO (also scripts/simulate_circuit.py:531-542) |
| SimulateCircuit.StrappingCheck | scripts/simulate_circuit.py:145-149 | The strapping loop visits GPIO 0, 3, 45 and 46 in order and warns for 0, 45 and 46 when assigned a non-empty net (also scripts/simulate_circuit.py:568-589) |
| SimulateCircuit.StrapSpec | scripts/simulate_circuit.py:570-588 | A strapping warning is given exactly for GPIO 0, 45 or 46 assigned a non-empty net |
| SimulateCircuit.StrapShape | scripts/simulate_circuit.py:575-588 | GPIO 3 is visited but never warns, so there are at most three strapping warnings |
| SimulateCircuit.StrapUnfold | scripts/simulate_circuit.py:145-149 | The warnings come in the order GPIO 0, 3, 45, 46 (also scripts/simulate_circuit.py:570) |
| SimulateCircuit.FirstGpio | scripts/simulate_circuit.py:595-599 | The GPIO found is that of the first item carrying the net, and there is none exactly when no item carries it |
| SimulateCircuit.FindGpio | scripts/simulate_circuit.py:595-599 | The inner loop stops at the first item carrying the net |
| SimulateCircuit.JoystickCheck | scripts/simulate_circuit.py:592-610 | The joystick loop warns, per joystick net in order, when its first GPIO is on neither ADC unit |
| SimulateCircuit.JoystickSpec | scripts/simulate_circuit.py:150-157 | A joystick warning names a joystick net and its first GPIO exactly when that GPIO is outside 1..20 (also scripts/simulate_circuit.py:594-610) |
| SimulateCircuit.Check | scripts/simulate_circuit.py:170-188 | _check returns the errors as given and the warnings, or none when none were given |
| SimulateCircuit.CheckStatus | scripts/simulate_circuit.py:172-177 | The status is FAIL exactly when there are errors, WARN exactly when there are only warnings, otherwise PASS |
| SimulateCircuit.GpioConflicts | scripts/simulate_circuit.py:512-614 | check_gpio_conflicts returns the duplicate, PSRAM and UART TX errors, and the UART RX and strapping warnings; the joystick warnings are dropped |
| SimulateCircuit.UartTxCheck | scripts/simulate_circuit.py:545-556 | GPIO43 in use gives the directly appended error and then the reserved-pin error, both naming its net; otherwise none |
| SimulateCircuit.UartAndJoystick | scripts/simulate_circuit.py:545-565 | GPIO43 in use gives two errors and GPIO44 one warning; no joystick warning ever reaches the results (also scripts/simulate_circuit.py:607-612) |
| SimulateCircuit.ButtonErrors | scripts/simulate_circuit.py:655-664 | One error each when the pull-ups or the debounce caps number fewer than the 13 buttons, none when both suffice |
| SimulateCircuit.NetConnectivity | scripts/simulate_circuit.py:619-693 | check_net_connectivity returns the missing power nets, the missing signal nets, the button errors and the USB errors, in that order, and no warnings |
| SimulateCircuit.MissingPowerSpec | scripts/simulate_circuit.py:623-631 | A power-net error is given exactly for each expected power net that is not declared |
| SimulateCircuit.MissingSignalsSpec | scripts/simulate_circuit.py:635-644 | A signal-net error is given exactly for each expected signal net that is not declared |
| SimulateCircuit.UsbReportedTwice | scripts/simulate_circuit.py:635-644 | An undeclared USB data net is reported twice, as a missing signal net and as a missing USB net (also scripts/simulate_circuit.py:667-678) |
| SimulateCircuit.RoutedButtonsComplete | scripts/simulate_circuit.py:655-664 | With the 13 pull-ups and 13 debounce caps of the board, the button check reports nothing (also scripts/generate_pcb/routing.py:104-106) |
| SimulateCircuit.RunChecks | scripts/simulate_circuit.py:698-726 | The run accumulates every check's errors and warnings in order, and exits with 1 exactly when some check reported an error |
| SimulateCircuit.AllErrorsEmpty | scripts/simulate_circuit.py:714-725 | There are no errors overall exactly when no check has one; warnings play no part |

## Left out

- Parsing the `.kicad_pcb` file (`parse_pcb` in both engines) is not modelled: the engines take segment, via, zone, net and pad records as input. The one parsing convention kept is that a zone with no priority tag has priority -1.
- `check_gerber_sizes` reads files on disk. Its errors are an input (`gerber`) of `Shorts.RunShortAnalysis`.
- All console printing and `sys.exit` are left out. Each `main` is reduced to the errors and warnings it gathers and the exit code it decides.
- The data source of the component-overlap rule (the JLCPCB placement builder and the mounting-hole table) is left out. The placements are a parameter.
- `math.hypot` and IEEE floating point are not modelled. Distances are exact, every rule of the form "0 < d - c < m" is decided through squared distances, and the 0.01 mm axis tolerance is an exact constant.
- Float formatting of coordinates is not modelled. Emitted elements are token sequences (`PcbPrimitives.Token`) or records (`SchematicContext.SchItem`), not text.
- PcbPrimitives.SegmentRoundTrip: reads fields back from tokens, not from text through the checker's regular expression. That expression (`[\d.]+`) accepts only unsigned numbers, so a negative coordinate would not be read back from real text.
- PcbPrimitives.ViaRoundTrip: the same restriction as `SegmentRoundTrip`.
- The regular-expression rewrite of `_mirror_pad_x` is not modelled, including its formatting of a negated zero as `0.0`. Pads are records, and mirroring negates x.
- InjectModels.InjectTwice: the model paths are assumed free of parentheses (`PlainPaths(models)`). The program's table `MODEL_MAP` is such a table, but that fact about its string literals is not proved.
- InjectModels.RewrittenOk: the same `PlainPaths(models)` assumption as `InjectTwice`.
- InjectModels.InjectTwice: footprint blocks are required to span at least two lines. A one-line block gets the entry inserted before its opening line, and a second run would then see the entry outside any block.
- Reading and writing files in the injector is not modelled. The footprint-to-model dictionary is a parameter, and `MODEL_MAP` is the program's table.
- In `verify_schematic_pcb.py`, reading files, the `glob` over sub-sheet files, the existence tests and all printing are left out. Contents are strings or line lists, and an absent file is `None`.
- Whitespace for `str.strip` and `\s` is ASCII whitespace only. Python's Unicode whitespace is not modelled.
- The power-budget, thermal, timing and component-value checks of `simulate_circuit.py` are left out. They are floating-point numerics, including `math.log`. `SimulateCircuit.RunChecks` takes every check's results as input.
- The joystick ADC warnings of `check_gpio_conflicts` are computed and then dropped, because the code extends the error list with the empty error part of `_check`. The model does the same (`SimulateCircuit.UartAndJoystick`).
- An undeclared USB data net is reported twice, as a missing signal net and as a missing USB net. The model keeps both (`SimulateCircuit.UsbReportedTwice`).
- Routing.VerticalFirstCanCross: the relocation guard tests only the horizontal leg at the via's height. The lemma exhibits a vertical-first route whose horizontal leg would pass through the slot band. No button on the real board takes that route, so this is not listed as a defect.
- The other trace generators of `routing.py` (`_power_traces`, `_spi_traces`, `_i2s_traces`, `_usb_traces`, `_passive_traces`, `_led_traces`, `_power_zones`, and the display traces other than the data bus) are not part of this model. The button traces, the data bus and the passive rows' references and positions are modelled.
- Display.Panel.DrawBitmap: a draw is modelled as finished when the call returns, with the pixels the row buffer holds at that moment. On the panel the call only queues a DMA transfer (the panel IO has a transfer queue of depth 10, software/main/display.c:85) that reads the buffer later. The timing of those transfers is not modelled. Neither is the release of the buffer: display_fill and display_draw_color_bars free it right after the last queued draw (software/main/display.c:148, 182), while up to ten transfers may still read it. This looks like a defect in the source. The screen statements of Display.ScreenPixel, Display.FillPaints and Display.BarsPaint are therefore about the recorded draws, not about what the glass shows.
- The I2C bus and device handles, `gpio_config`, `gpio_get_level`, `esp_lcd_*`, `ledc_*` and `heap_caps_malloc` are parameters or are not modelled. Their effects are the inputs named in each firmware module.
- `main.c`, `audio.c` and `sdcard.c` are hardware sequencing (polling loop, I2S tone, SD mount) and are not part of this model.
- The rendering scripts, `kicad_fill_zones.py`, the schematic sheet generators, `board.py`'s outline text and the website are not part of this model. From `board.py` only the transform and the slot geometry are used.
