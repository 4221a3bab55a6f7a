// The drawing helpers of the display driver: a one-row buffer is filled in
// place and then sent to every scanline of the 320x480 panel. The panel's
// bitmap draw is an external call; the panel is modelled by the record of
// the draws issued to it, and the buffer allocation by whether it succeeded.
module Display {
  import opened Wrappers

  type Color = bv16

  const LCD_H_RES := 320
  const LCD_V_RES := 480

  const ESP_OK := 0
  const ESP_ERR_NO_MEM := 0x101

  /** One bitmap draw: the window [x0, x1) x [y0, y1) and the pixels passed, row-major. */
  datatype Blit = Blit(x0: int, y0: int, x1: int, y1: int, pixels: seq<Color>)

  /** The panel, as the sequence of bitmap draws it received. */
  class Panel {
    var blits: seq<Blit>

    constructor()
      ensures blits == []
    {
      blits := [];
    }

    /**
     * esp_lcd_panel_draw_bitmap: records the window and the pixels at the time
     * of the call, as if the queued transfer completed before the call returned.
     */
    method DrawBitmap(x0: int, y0: int, x1: int, y1: int, pixels: seq<Color>)
      modifies this
      ensures blits == old(blits) + [Blit(x0, y0, x1, y1, pixels)]
    {
      blits := blits + [Blit(x0, y0, x1, y1, pixels)];
    }
  }

  /** The draw of one full-width scanline y from a row buffer. */
  function Scanline(row: seq<Color>, y: int): Blit
  {
    Blit(0, y, LCD_H_RES, y + 1, row)
  }

  /** The draws of scanlines 0..n-1, all from the same row. */
  function Scanlines(row: seq<Color>, n: nat): seq<Blit>
  {
    seq(n, y => Scanline(row, y))
  }

  /** The pixel at (x, y) after a sequence of draws: the latest draw whose window holds it. */
  function PixelOf(blits: seq<Blit>, x: int, y: int): Option<Color>
  {
    if |blits| == 0 then None
    else
      var b := blits[|blits| - 1];
      var i := (y - b.y0) * (b.x1 - b.x0) + (x - b.x0);
      if b.x0 <= x < b.x1 && b.y0 <= y < b.y1 && 0 <= i < |b.pixels| then Some(b.pixels[i])
      else PixelOf(blits[..|blits| - 1], x, y)
  }

  /**
   * After the scanlines 0..n-1 of a full row, pixel (x, y) shows the row's
   * entry x when y < n, and nothing drawn otherwise.
   */
  lemma {:induction false} ScanlinesPixel(row: seq<Color>, n: nat, x: int, y: int)
    requires |row| == LCD_H_RES && 0 <= x < LCD_H_RES
    ensures 0 <= y < n ==> PixelOf(Scanlines(row, n), x, y) == Some(row[x])
    ensures !(0 <= y < n) ==> PixelOf(Scanlines(row, n), x, y) == None
  {
    if n > 0 {
      assert Scanlines(row, n)[..n - 1] == Scanlines(row, n - 1);
      ScanlinesPixel(row, n - 1, x, y);
    }
  }

  /** In the recorded draws of the full blit, the whole screen takes the row on every scanline. */
  lemma ScreenPixel(row: seq<Color>, x: int, y: int)
    requires |row| == LCD_H_RES
    requires 0 <= x < LCD_H_RES && 0 <= y < LCD_V_RES
    ensures PixelOf(Scanlines(row, LCD_V_RES), x, y) == Some(row[x])
  {
    ScanlinesPixel(row, LCD_V_RES, x, y);
  }

  /** The blit loop: every scanline from the same buffer, top to bottom. */
  method BlitRows(panel: Panel, row: array<Color>)
    requires row.Length == LCD_H_RES
    modifies panel
    ensures panel.blits == old(panel.blits) + Scanlines(row[..], LCD_V_RES)
  {
    var y := 0;
    while y < LCD_V_RES
      invariant 0 <= y <= LCD_V_RES
      invariant panel.blits == old(panel.blits) + Scanlines(row[..], y)
    {
      assert Scanlines(row[..], y + 1) == Scanlines(row[..], y) + [Scanline(row[..], y)];
      panel.DrawBitmap(0, y, LCD_H_RES, y + 1, row[..]);
      y := y + 1;
    }
  }

  /** A row of one color. */
  function Solid(color: Color): seq<Color>
  {
    seq(LCD_H_RES, _ => color)
  }

  /**
   * display_fill: without a buffer nothing is drawn; otherwise the buffer is
   * filled with the color and sent to all 480 scanlines.
   */
  method Fill(panel: Panel, color: Color, bufferOk: bool) returns (ret: int)
    modifies panel
    ensures !bufferOk ==> ret == ESP_ERR_NO_MEM && panel.blits == old(panel.blits)
    ensures bufferOk ==> ret == ESP_OK && panel.blits == old(panel.blits) + Scanlines(Solid(color), LCD_V_RES)
  {
    if !bufferOk {
      return ESP_ERR_NO_MEM;
    }
    var row := new Color[LCD_H_RES];
    for i := 0 to LCD_H_RES
      modifies row
      invariant forall j :: 0 <= j < i ==> row[j] == color
    {
      row[i] := color;
    }
    assert row[..] == Solid(color);
    BlitRows(panel, row);
    ret := ESP_OK;
  }

  /** In the recorded draws of a fill, every pixel of the screen takes the color. */
  lemma FillPaints(color: Color, x: int, y: int)
    requires 0 <= x < LCD_H_RES && 0 <= y < LCD_V_RES
    ensures PixelOf(Scanlines(Solid(color), LCD_V_RES), x, y) == Some(color)
  {
    ScreenPixel(Solid(color), x, y);
  }

  /** Red, green, blue, white, black, cyan, magenta, yellow, in RGB565. */
  const COLORS: seq<Color> := [0xF800, 0x07E0, 0x001F, 0xFFFF, 0x0000, 0x07FF, 0xF81F, 0xFFE0]

  const BAR_WIDTH := LCD_H_RES / 8

  /** The color-bar row: entry x takes the color of bar x / 40. */
  function BarRow(): (row: seq<Color>)
    ensures |row| == LCD_H_RES
  {
    seq(LCD_H_RES, x requires 0 <= x < LCD_H_RES => COLORS[x / BAR_WIDTH])
  }

  /** The eight bars are 40 entries wide and tile the row exactly, in order. */
  lemma BarsTile(b: int, x: int)
    requires 0 <= b < 8 && b * BAR_WIDTH <= x < (b + 1) * BAR_WIDTH
    ensures BAR_WIDTH == 40 && 8 * BAR_WIDTH == LCD_H_RES
    ensures 0 <= x < LCD_H_RES && BarRow()[x] == COLORS[b]
  {
    BarIndex(b, x);
  }

  lemma BarIndex(b: int, x: int)
    requires 0 <= b < 8 && b * 40 <= x < (b + 1) * 40
    ensures x / 40 == b
  {
  }

  /** The fill of bar b: entries b*40 up to the next bar, within the row. */
  method FillBar(row: array<Color>, b: int)
    requires row.Length == LCD_H_RES && 0 <= b < 8
    modifies row
    ensures forall j :: 0 <= j < LCD_H_RES ==>
              row[j] == if b * BAR_WIDTH <= j < (b + 1) * BAR_WIDTH then COLORS[b] else old(row[j])
  {
    var x := b * BAR_WIDTH;
    while x < (b + 1) * BAR_WIDTH && x < LCD_H_RES
      invariant b * BAR_WIDTH <= x <= (b + 1) * BAR_WIDTH
      invariant forall j :: 0 <= j < LCD_H_RES ==>
                  row[j] == if b * BAR_WIDTH <= j < x then COLORS[b] else old(row[j])
    {
      row[x] := COLORS[b];
      x := x + 1;
    }
  }

  /**
   * display_draw_color_bars: without a buffer nothing is drawn; otherwise the
   * buffer is filled bar by bar and sent to all 480 scanlines.
   */
  method ColorBars(panel: Panel, bufferOk: bool) returns (ret: int)
    modifies panel
    ensures !bufferOk ==> ret == ESP_ERR_NO_MEM && panel.blits == old(panel.blits)
    ensures bufferOk ==> ret == ESP_OK && panel.blits == old(panel.blits) + Scanlines(BarRow(), LCD_V_RES)
  {
    if !bufferOk {
      return ESP_ERR_NO_MEM;
    }
    var row := new Color[LCD_H_RES];
    for b := 0 to 8
      modifies row
      invariant forall j :: 0 <= j < b * BAR_WIDTH ==> row[j] == COLORS[j / BAR_WIDTH]
    {
      FillBar(row, b);
      forall j | b * BAR_WIDTH <= j < (b + 1) * BAR_WIDTH
        ensures j / BAR_WIDTH == b
      {
        BarIndex(b, j);
      }
    }
    assert row[..] == BarRow();
    BlitRows(panel, row);
    ret := ESP_OK;
  }

  /** In the recorded draws of the color bars, pixel (x, y) takes the color of bar x / 40, on every scanline. */
  lemma BarsPaint(x: int, y: int)
    requires 0 <= x < LCD_H_RES && 0 <= y < LCD_V_RES
    ensures PixelOf(Scanlines(BarRow(), LCD_V_RES), x, y) == Some(COLORS[x / 40])
  {
    ScreenPixel(BarRow(), x, y);
  }
}
