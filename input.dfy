// The button driver: twelve active-low tact switches read into a 16-bit
// state word, one bit per button. The GPIO levels and the outcome of the pin
// configuration calls are inputs; the driver calls themselves are not modelled.
module Input {

  /** One row of the button table: its GPIO, its state bit and its name. */
  datatype Button = Button(gpio: int, mask: bv16, name: string)

  const ESP_OK := 0

  /** The button table, in bit order. */
  const BUTTONS: seq<Button> := [
    Button(40, 1 << 0, "UP"),
    Button(41, 1 << 1, "DOWN"),
    Button(42, 1 << 2, "LEFT"),
    Button(1, 1 << 3, "RIGHT"),
    Button(2, 1 << 4, "A"),
    Button(48, 1 << 5, "B"),
    Button(47, 1 << 6, "X"),
    Button(21, 1 << 7, "Y"),
    Button(18, 1 << 8, "START"),
    Button(0, 1 << 9, "SELECT"),
    Button(35, 1 << 10, "L"),
    Button(19, 1 << 11, "R")
  ]

  const NUM_BUTTONS := |BUTTONS|

  /** The single bit of position i. */
  function Bit(i: nat): bv16
    requires i < 16
  {
    (1 as bv16) << i
  }

  /** The table's masks are the bits 0..11, in order, and its GPIOs are distinct. */
  lemma TableShape()
    ensures NUM_BUTTONS == 12
    ensures forall i :: 0 <= i < 12 ==> BUTTONS[i].mask == Bit(i)
    ensures forall i, j :: 0 <= i < j < 12 ==> BUTTONS[i].gpio != BUTTONS[j].gpio
  {
    forall i | 0 <= i < 12
      ensures BUTTONS[i].mask == Bit(i)
    {
    }
  }

  /** Whether a button's GPIO reads low: the switches are active-low. */
  predicate Pressed(level: int -> int, b: Button)
  {
    level(b.gpio) == 0
  }

  /** The state word after the first k rows of a button table: the mask of each pressed one. */
  function Scanned(table: seq<Button>, level: int -> int, k: nat): bv16
    requires k <= |table|
  {
    if k == 0 then 0
    else if Pressed(level, table[k - 1]) then Scanned(table, level, k - 1) | table[k - 1].mask
    else Scanned(table, level, k - 1)
  }

  /** The scan loop over a button table. */
  method Scan(table: seq<Button>, level: int -> int) returns (state: bv16)
    ensures state == Scanned(table, level, |table|)
  {
    state := 0;
    var i := 0;
    while i < |table|
      invariant 0 <= i <= |table|
      invariant state == Scanned(table, level, i)
    {
      var b := table[i];
      if level(b.gpio) == 0 {
        state := state | b.mask;
      }
      i := i + 1;
    }
  }

  /** input_read: ORs the mask of every button whose GPIO reads low. */
  method Read(level: int -> int) returns (state: bv16)
    ensures state == Scanned(BUTTONS, level, NUM_BUTTONS)
  {
    state := Scan(BUTTONS, level);
  }

  /** A table whose row i carries bit i. */
  predicate BitTable(table: seq<Button>)
  {
    |table| <= 16 && forall i :: 0 <= i < |table| ==> table[i].mask == Bit(i)
  }

  lemma BitsDiffer(i: nat, j: nat)
    requires i < 16 && j < 16
    ensures Bit(i) & Bit(j) != 0 <==> i == j
  {
  }

  lemma OrBit(x: bv16, y: bv16, m: bv16)
    ensures (x | y) & m != 0 <==> x & m != 0 || y & m != 0
  {
  }

  /**
   * Bit j of the state word is set exactly when j names a row among the
   * first k and that row's button is pressed.
   */
  lemma {:induction false} ScannedBits(table: seq<Button>, level: int -> int, k: nat, j: nat)
    requires BitTable(table) && k <= |table| && j < 16
    ensures Scanned(table, level, k) & Bit(j) != 0 <==> j < k && Pressed(level, table[j])
  {
    if k > 0 {
      ScannedBits(table, level, k - 1, j);
      if Pressed(level, table[k - 1]) {
        BitsDiffer(k - 1, j);
        OrBit(Scanned(table, level, k - 1), table[k - 1].mask, Bit(j));
      }
    }
  }

  lemma OrHigh(x: bv16, y: bv16)
    requires x & 0xF000 == 0 && y & 0xF000 == 0
    ensures (x | y) & 0xF000 == 0
  {
  }

  lemma LowBits(x: bv16)
    requires x & 0xF000 == 0
    ensures x <= 0x0FFF
  {
  }

  lemma LowBit(i: nat)
    requires i < 12
    ensures Bit(i) & 0xF000 == 0
  {
  }

  /** With at most twelve rows, only the low twelve bits can be set. */
  lemma {:induction false} ScannedHigh(table: seq<Button>, level: int -> int, k: nat)
    requires BitTable(table) && |table| <= 12 && k <= |table|
    ensures Scanned(table, level, k) & 0xF000 == 0
  {
    if k > 0 {
      ScannedHigh(table, level, k - 1);
      if Pressed(level, table[k - 1]) {
        LowBit(k - 1);
        OrHigh(Scanned(table, level, k - 1), table[k - 1].mask);
      }
    }
  }

  /** A button is reported pressed exactly when its GPIO reads low. */
  lemma ReadPressed(level: int -> int, i: nat)
    requires i < NUM_BUTTONS
    ensures Scanned(BUTTONS, level, NUM_BUTTONS) & BUTTONS[i].mask != 0 <==> level(BUTTONS[i].gpio) == 0
  {
    TableShape();
    ScannedBits(BUTTONS, level, NUM_BUTTONS, i);
  }

  /** Only the twelve button bits can be set: the state never exceeds 0x0FFF. */
  lemma ReadBound(level: int -> int)
    ensures Scanned(BUTTONS, level, NUM_BUTTONS) & 0xF000 == 0
    ensures Scanned(BUTTONS, level, NUM_BUTTONS) <= 0x0FFF
  {
    TableShape();
    ScannedHigh(BUTTONS, level, NUM_BUTTONS);
    LowBits(Scanned(BUTTONS, level, NUM_BUTTONS));
  }

  /** With every GPIO high (no button pressed) the state is 0. */
  lemma {:induction false} AllReleased(table: seq<Button>, level: int -> int, k: nat)
    requires k <= |table|
    requires forall g :: level(g) != 0
    ensures Scanned(table, level, k) == 0
  {
    if k > 0 {
      AllReleased(table, level, k - 1);
    }
  }

  /** input_button_name: the table name of a bit position, "?" out of range. */
  function ButtonName(bit: int): (name: string)
    ensures 0 <= bit < NUM_BUTTONS ==> name == BUTTONS[bit].name
    ensures name == "?" <==> !(0 <= bit < NUM_BUTTONS)
  {
    if 0 <= bit < NUM_BUTTONS then BUTTONS[bit].name else "?"
  }

  /** Distinct bit positions name distinct buttons. */
  lemma NamesDistinct(i: int, j: int)
    requires 0 <= i < j < NUM_BUTTONS
    ensures ButtonName(i) != ButtonName(j)
  {
    assert forall a, b :: 0 <= a < b < 12 ==> BUTTONS[a].name != BUTTONS[b].name;
  }

  /** The pin mask passed to the configuration of one button: the bit of its GPIO. */
  function PinMask(b: Button): bv64
    requires 0 <= b.gpio < 64
  {
    (1 as bv64) << b.gpio
  }

  /**
   * input_init: configures each button's pin in table order, whatever each
   * configuration returns, and reports success.
   */
  method Init(configure: bv64 -> int) returns (ret: int, configured: seq<bv64>)
    ensures ret == ESP_OK
    ensures |configured| == NUM_BUTTONS
    ensures forall i :: 0 <= i < NUM_BUTTONS ==> configured[i] == PinMask(BUTTONS[i])
  {
    configured := [];
    var i := 0;
    while i < NUM_BUTTONS
      invariant 0 <= i <= NUM_BUTTONS
      invariant |configured| == i
      invariant forall j :: 0 <= j < i ==> configured[j] == PinMask(BUTTONS[j])
    {
      var err := configure(PinMask(BUTTONS[i]));
      configured := configured + [PinMask(BUTTONS[i])];
      i := i + 1;
    }
    ret := ESP_OK;
  }
}
