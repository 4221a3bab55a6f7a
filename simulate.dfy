// The integer and set part of the static circuit checker: GPIO assignment
// conflicts, declared nets, button circuit completeness, and the exit
// decision over all checks. The GPIO map is taken as its (gpio, net) items in
// dictionary order; the net list as its (id, name) pairs.
module SimulateCircuit {
  import opened Wrappers
  import opened Seqs
  import opened Grouping
  import Routing

  /** The findings of the checks. */
  datatype Message =
    | DuplicateNet(net: string, gpios: seq<int>)
    | PsramConflict(gpio: int, net: string)
    | UartTxUsed(net: string)
    | UartTxReserved(net: string)
    | UartRxShared(net: string)
    | Strapping(gpio: int, net: string)
    | NoAdc(gpio: int, net: string)
    | PowerNetMissing(net: string)
    | SignalNetMissing(net: string)
    | TooFewPullUps(count: nat, buttons: nat)
    | TooFewDebounceCaps(count: nat, buttons: nat)
    | UsbNetMissing(net: string)

  const UART_TX0 := 43
  const UART_RX0 := 44

  /** The strapping pins, in the order the check visits them. */
  const STRAPPING_PINS: seq<int> := [0, 3, 45, 46]

  const JOYSTICK_NETS: seq<string> := ["JOY_X", "JOY_Y"]
  const ADC1_GPIOS: set<int> := set g | 1 <= g <= 10
  const ADC2_GPIOS: set<int> := set g | 11 <= g <= 20

  // ------------------------------------------------------------ the GPIO map

  type Item = (int, string)

  function Gpio(x: Item): int { x.0 }
  function Net(x: Item): string { x.1 }

  /** A dictionary's items: no GPIO appears twice. */
  predicate DictItems(used: seq<Item>)
  {
    forall i, j :: 0 <= i < j < |used| ==> used[i].0 != used[j].0
  }

  /** used_gpios.get(g). */
  function Lookup(used: seq<Item>, g: int): (r: Option<string>)
    ensures r.Some? <==> exists i :: 0 <= i < |used| && used[i].0 == g
    ensures r.Some? ==> exists i :: 0 <= i < |used| && used[i] == (g, r.value)
  {
    if |used| == 0 then None
    else if used[0].0 == g then Some(used[0].1)
    else
      var r := Lookup(used[1..], g);
      assert forall i :: 0 <= i < |used[1..]| ==> used[1..][i] == used[i + 1];
      if r.Some? then r else None
  }

  /** In a dictionary, an item is found by its GPIO. */
  lemma LookupItem(used: seq<Item>, i: nat)
    requires DictItems(used) && i < |used|
    ensures Lookup(used, used[i].0) == Some(used[i].1)
  {
    var r := Lookup(used, used[i].0);
    var k :| 0 <= k < |used| && used[k] == (used[i].0, r.value);
  }

  // ------------------------------------------------------------ duplicates

  function GpioOf(x: Item): seq<int> { [x.0] }

  /** The GPIOs of a group, in order. */
  function GpiosOf(items: seq<Item>): seq<int>
  {
    FlatMap(items, GpioOf)
  }

  /** The duplicate error of one net group, if the net has more than one GPIO. */
  function DupOf(group: seq<Item>, net: string): seq<Message>
  {
    if |group| > 1 then [DuplicateNet(net, GpiosOf(group))] else []
  }

  /** One error per net mapped to more than one GPIO, nets in first-appearance order. */
  function DupErrors(used: seq<Item>): seq<Message>
  {
    DupErrorsOf(Keys(used, Net), used)
  }

  /** The duplicate error of the group of net n. */
  function DupAt(used: seq<Item>, n: string): seq<Message>
  {
    DupOf(Filter(used, KeyIs(Net, n)), n)
  }

  function DupErrorsOf(nets: seq<string>, used: seq<Item>): seq<Message>
  {
    if |nets| == 0 then []
    else DupErrorsOf(nets[..|nets| - 1], used) + DupAt(used, nets[|nets| - 1])
  }

  /** The loop over the inverted dictionary. */
  method DuplicateCheck(used: seq<Item>) returns (errs: seq<Message>)
    ensures errs == DupErrors(used)
  {
    var nets, groups := GroupBy(used, Net);
    errs := [];
    var k := 0;
    while k < |nets|
      invariant 0 <= k <= |nets|
      invariant errs == DupErrorsOf(nets[..k], used)
    {
      assert nets[..k + 1][..k] == nets[..k];
      assert nets[k] in groups;
      var gpios := [];
      var g := 0;
      while g < |groups[nets[k]]|
        invariant 0 <= g <= |groups[nets[k]]|
        invariant gpios == GpiosOf(groups[nets[k]][..g])
      {
        FlatMapStep(groups[nets[k]], g, GpioOf);
        gpios := gpios + [groups[nets[k]][g].0];
        g := g + 1;
      }
      assert groups[nets[k]][..g] == groups[nets[k]];
      if |groups[nets[k]]| > 1 {
        errs := errs + [DuplicateNet(nets[k], gpios)];
      }
      k := k + 1;
    }
    assert nets[..k] == nets;
  }

  lemma {:induction false} DupErrorsOfMember(nets: seq<string>, used: seq<Item>, m: Message)
    ensures m in DupErrorsOf(nets, used) <==> exists k :: 0 <= k < |nets| && m in DupAt(used, nets[k])
  {
    if |nets| > 0 {
      var init := nets[..|nets| - 1];
      var last := nets[|nets| - 1];
      DupErrorsOfMember(init, used, m);
      assert DupErrorsOf(nets, used) == DupErrorsOf(init, used) + DupAt(used, last);
      if exists k :: 0 <= k < |nets| && m in DupAt(used, nets[k]) {
        var k :| 0 <= k < |nets| && m in DupAt(used, nets[k]);
        if k < |init| {
          assert init[k] == nets[k];
        }
      }
      if exists k :: 0 <= k < |init| && m in DupAt(used, init[k]) {
        var k :| 0 <= k < |init| && m in DupAt(used, init[k]);
        assert nets[k] == init[k];
      }
    }
  }

  /** Two different GPIOs carry net n. */
  predicate Shared(used: seq<Item>, n: string)
  {
    exists i, j :: 0 <= i < j < |used| && used[i].1 == n && used[j].1 == n
  }

  lemma {:induction false} FilterTwo<T>(xs: seq<T>, p: T -> bool, i: nat, j: nat)
    requires i < j < |xs| && p(xs[i]) && p(xs[j])
    ensures |Filter(xs, p)| > 1
  {
    var init := xs[..|xs| - 1];
    if j < |xs| - 1 {
      assert init[i] == xs[i] && init[j] == xs[j];
      FilterTwo(init, p, i, j);
      assert xs == init + [xs[|xs| - 1]];
      FilterConcat(init, [xs[|xs| - 1]], p);
    } else {
      assert init[i] == xs[i];
      FilterMember(init, p, xs[i]);
      assert xs == init + [xs[j]];
      FilterConcat(init, [xs[j]], p);
    }
  }

  lemma {:induction false} FilterTwoBack<T>(xs: seq<T>, p: T -> bool)
    requires |Filter(xs, p)| > 1
    ensures exists i, j :: 0 <= i < j < |xs| && p(xs[i]) && p(xs[j])
  {
    var init := xs[..|xs| - 1];
    var last := xs[|xs| - 1];
    assert xs == init + [last];
    FilterConcat(init, [last], p);
    if |Filter(init, p)| > 1 {
      FilterTwoBack(init, p);
      var i, j :| 0 <= i < j < |init| && p(init[i]) && p(init[j]);
      assert xs[i] == init[i] && xs[j] == init[j];
    } else {
      assert p(last) && |Filter(init, p)| == 1;
      var x := Filter(init, p)[0];
      FilterMember(init, p, x);
      var i :| 0 <= i < |init| && init[i] == x;
      assert xs[i] == init[i];
    }
  }

  /** Every duplicate error names a net carried by more than one GPIO, listing them. */
  lemma DupErrorsShape(used: seq<Item>)
    ensures forall m :: m in DupErrors(used) ==> m.DuplicateNet? && |m.gpios| > 1
  {
    var nets := Keys(used, Net);
    forall m | m in DupErrors(used)
      ensures m.DuplicateNet? && |m.gpios| > 1
    {
      DupErrorsOfMember(nets, used, m);
      var k :| 0 <= k < |nets| && m in DupAt(used, nets[k]);
      var group := Filter(used, KeyIs(Net, nets[k]));
      DupOfNet(group, nets[k], m);
      GpiosLength(group);
    }
  }

  function AnyItem(x: Item): bool { true }

  /** A group has one GPIO per item. */
  lemma GpiosLength(group: seq<Item>)
    ensures |GpiosOf(group)| == |group|
  {
    FlatMapCount(group, GpioOf, AnyItem);
    CountAll(group, AnyItem);
  }

  lemma KeyIsNet(x: Item, n: string)
    requires x.1 == n
    ensures KeyIs(Net, n)(x)
  {
    assert Net(x) == n;
  }

  lemma DupOfNet(group: seq<Item>, net: string, m: Message)
    requires m in DupOf(group, net)
    ensures m.DuplicateNet? && m.net == net && |group| > 1
  {
  }

  /** A duplicate error for net n means two GPIOs carry n. */
  lemma DupErrorsSound(used: seq<Item>, n: string, gs: seq<int>)
    requires DuplicateNet(n, gs) in DupErrors(used)
    ensures Shared(used, n)
  {
    var nets := Keys(used, Net);
    DupErrorsOfMember(nets, used, DuplicateNet(n, gs));
    var k :| 0 <= k < |nets| && DuplicateNet(n, gs) in DupAt(used, nets[k]);
    DupOfNet(Filter(used, KeyIs(Net, nets[k])), nets[k], DuplicateNet(n, gs));
    assert nets[k] == n;
    FilterTwoBack(used, KeyIs(Net, n));
    var i, j :| 0 <= i < j < |used| && KeyIs(Net, n)(used[i]) && KeyIs(Net, n)(used[j]);
  }

  /** A net carried by two GPIOs is reported, with the GPIOs carrying it in order. */
  lemma DupErrorsComplete(used: seq<Item>, n: string)
    requires Shared(used, n)
    ensures DuplicateNet(n, GpiosOf(Filter(used, KeyIs(Net, n)))) in DupErrors(used)
  {
    var nets := Keys(used, Net);
    var i, j :| 0 <= i < j < |used| && used[i].1 == n && used[j].1 == n;
    KeyIsNet(used[i], n);
    KeyIsNet(used[j], n);
    FilterTwo(used, KeyIs(Net, n), i, j);
    KeysExact(used, Net);
    assert Net(used[i]) in nets;
    var k :| 0 <= k < |nets| && nets[k] == n;
    DupErrorsOfMember(nets, used, DuplicateNet(n, GpiosOf(Filter(used, KeyIs(Net, n)))));
  }

  /** No net is reported twice. */
  lemma DupErrorsDistinct(used: seq<Item>)
    ensures forall m :: m in DupErrors(used) ==> m.DuplicateNet?
    ensures forall a, b :: 0 <= a < b < |DupErrors(used)| ==> DupErrors(used)[a].net != DupErrors(used)[b].net
  {
    KeysExact(used, Net);
    DupNetsDistinct(Keys(used, Net), used);
  }

  lemma CountAll<T>(xs: seq<T>, p: T -> bool)
    requires forall x :: p(x)
    ensures Count(xs, p) == |xs|
  {
    if |xs| > 0 {
      CountAll(xs[..|xs| - 1], p);
    }
  }

  /** The errors name the nets of distinct keys, so no net twice. */
  lemma {:induction false} DupNetsDistinct(nets: seq<string>, used: seq<Item>)
    requires forall i, j :: 0 <= i < j < |nets| ==> nets[i] != nets[j]
    ensures forall m :: m in DupErrorsOf(nets, used) ==> m.DuplicateNet? && m.net in nets
    ensures forall a, b :: 0 <= a < b < |DupErrorsOf(nets, used)| ==>
              DupErrorsOf(nets, used)[a].net != DupErrorsOf(nets, used)[b].net
  {
    if |nets| > 0 {
      var init := nets[..|nets| - 1];
      var last := nets[|nets| - 1];
      DupNetsDistinct(init, used);
      var prev := DupErrorsOf(init, used);
      var tail := DupAt(used, last);
      assert forall m :: m in prev ==> m.net != last by {
        forall m | m in prev
          ensures m.net != last
        {
          var k :| 0 <= k < |init| && init[k] == m.net;
        }
      }
      assert forall m :: m in prev ==> m.net in nets by {
        forall m | m in prev
          ensures m.net in nets
        {
          var k :| 0 <= k < |init| && init[k] == m.net;
          assert nets[k] == init[k];
        }
      }
    }
  }

  // ------------------------------------------------------------ reserved pins

  function PsramOf(x: Item): seq<Message>
  {
    if 26 <= x.0 <= 32 then [PsramConflict(x.0, x.1)] else []
  }

  /** One error per used GPIO in the PSRAM range 26..32, in dictionary order. */
  function PsramErrors(used: seq<Item>): seq<Message>
  {
    FlatMap(used, PsramOf)
  }

  /** A PSRAM conflict is reported exactly for each used GPIO in 26..32, with its net. */
  lemma PsramSpec(used: seq<Item>, g: int, n: string)
    ensures PsramConflict(g, n) in PsramErrors(used) <==> (g, n) in used && 26 <= g <= 32
    ensures forall m :: m in PsramErrors(used) ==> m.PsramConflict?
    ensures |PsramErrors(used)| == Count(used, (x: Item) => 26 <= x.0 <= 32)
  {
    FlatMapMember(used, PsramOf, PsramConflict(g, n));
    FlatMapCount(used, PsramOf, (x: Item) => 26 <= x.0 <= 32);
    forall m | m in PsramErrors(used)
      ensures m.PsramConflict?
    {
      FlatMapMember(used, PsramOf, m);
    }
    if (g, n) in used && 26 <= g <= 32 {
      var i :| 0 <= i < |used| && used[i] == (g, n);
    }
  }

  /** GPIO43 in use: the direct error, then the one the reserved-pin check returns. */
  function TxErrors(used: seq<Item>): seq<Message>
  {
    match Lookup(used, UART_TX0)
    case None => []
    case Some(n) => [UartTxUsed(n), UartTxReserved(n)]
  }

  /** GPIO44 in use: one warning. */
  function RxWarnings(used: seq<Item>): seq<Message>
  {
    match Lookup(used, UART_RX0)
    case None => []
    case Some(n) => [UartRxShared(n)]
  }

  /** The warning of one strapping pin: only GPIO 0, 45 and 46 warn, and only when found a non-empty net. */
  function StrapOf(used: seq<Item>, g: int): seq<Message>
  {
    match Lookup(used, g)
    case Some(n) => if n != "" && (g == 0 || g == 45 || g == 46) then [Strapping(g, n)] else []
    case None => []
  }

  function StrapWarnings(used: seq<Item>): seq<Message>
  {
    FlatMap(STRAPPING_PINS, g => StrapOf(used, g))
  }

  /** The strapping-pin loop. */
  method StrappingCheck(used: seq<Item>) returns (warns: seq<Message>)
    ensures warns == StrapWarnings(used)
  {
    warns := [];
    var k := 0;
    while k < |STRAPPING_PINS|
      invariant 0 <= k <= |STRAPPING_PINS|
      invariant warns == FlatMap(STRAPPING_PINS[..k], g => StrapOf(used, g))
    {
      FlatMapStep(STRAPPING_PINS, k, g => StrapOf(used, g));
      var g := STRAPPING_PINS[k];
      var found := Lookup(used, g);
      if found.Some? && found.value != "" {
        if g == 0 || g == 45 || g == 46 {
          warns := warns + [Strapping(g, found.value)];
        }
      }
      k := k + 1;
    }
    assert STRAPPING_PINS[..k] == STRAPPING_PINS;
  }

  /** A strapping warning is given exactly for GPIO 0, 45 and 46 assigned a non-empty net. */
  lemma StrapSpec(used: seq<Item>, g: int, n: string)
    requires DictItems(used)
    ensures Strapping(g, n) in StrapWarnings(used) <==> (g, n) in used && n != "" && (g == 0 || g == 45 || g == 46)
  {
    var f := g => StrapOf(used, g);
    FlatMapMember(STRAPPING_PINS, f, Strapping(g, n));
    if (g, n) in used && n != "" && (g == 0 || g == 45 || g == 46) {
      var i :| 0 <= i < |used| && used[i] == (g, n);
      LookupItem(used, i);
      assert STRAPPING_PINS[if g == 0 then 0 else if g == 45 then 2 else 3] == g;
    }
    if Strapping(g, n) in StrapWarnings(used) {
      var k :| 0 <= k < |STRAPPING_PINS| && Strapping(g, n) in f(STRAPPING_PINS[k]);
    }
  }

  /** GPIO 3 is visited but never warns, so there are at most three strapping warnings. */
  lemma StrapShape(used: seq<Item>)
    ensures forall m :: m in StrapWarnings(used) ==> m.Strapping? && m.gpio != 3
    ensures |StrapWarnings(used)| <= 3
  {
    StrapUnfold(used);
    assert StrapOf(used, 3) == [];
  }

  /** The strapping warnings are those of GPIO 0, 3, 45 and 46, in that order. */
  lemma StrapUnfold(used: seq<Item>)
    ensures StrapWarnings(used) == StrapOf(used, 0) + StrapOf(used, 3) + StrapOf(used, 45) + StrapOf(used, 46)
  {
    var f := g => StrapOf(used, g);
    FlatMapStep(STRAPPING_PINS, 0, f);
    FlatMapStep(STRAPPING_PINS, 1, f);
    FlatMapStep(STRAPPING_PINS, 2, f);
    FlatMapStep(STRAPPING_PINS, 3, f);
    assert STRAPPING_PINS[..4] == STRAPPING_PINS;
  }

  /** The GPIO of the first item carrying net n, as the joystick loop finds it. */
  function FirstGpio(used: seq<Item>, n: string): (r: Option<int>)
    ensures r.Some? <==> exists i :: 0 <= i < |used| && used[i].1 == n
    ensures r.Some? ==> exists i :: 0 <= i < |used| && used[i] == (r.value, n) &&
                                    forall j :: 0 <= j < i ==> used[j].1 != n
  {
    if |used| == 0 then None
    else if used[0].1 == n then Some(used[0].0)
    else
      var r := FirstGpio(used[1..], n);
      assert forall i :: 0 <= i < |used[1..]| ==> used[1..][i] == used[i + 1];
      if r.Some? then
        var i :| 0 <= i < |used[1..]| && used[1..][i] == (r.value, n) &&
                 forall j :: 0 <= j < i ==> used[1..][j].1 != n;
        assert used[i + 1] == (r.value, n);
        assert forall j :: 0 <= j < i + 1 ==> used[j].1 != n by {
          forall j | 0 <= j < i + 1
            ensures used[j].1 != n
          {
            if j > 0 {
              assert used[j] == used[1..][j - 1];
            }
          }
        }
        r
      else None
  }

  /** The search of the item dictionary for the first GPIO carrying a net. */
  method FindGpio(used: seq<Item>, n: string) returns (gpio: Option<int>)
    ensures gpio == FirstGpio(used, n)
  {
    gpio := None;
    var i := 0;
    while i < |used|
      invariant 0 <= i <= |used|
      invariant FirstGpio(used, n) == FirstGpio(used[i..], n)
    {
      assert used[i..][1..] == used[i + 1..];
      if used[i].1 == n {
        gpio := Some(used[i].0);
        return;
      }
      i := i + 1;
    }
  }

  function AdcOf(used: seq<Item>, n: string): seq<Message>
  {
    match FirstGpio(used, n)
    case None => []
    case Some(g) => if g !in ADC1_GPIOS && g !in ADC2_GPIOS then [NoAdc(g, n)] else []
  }

  /** The joystick pins without an ADC channel; the check computes these but returns none of them. */
  function JoystickWarnings(used: seq<Item>): seq<Message>
  {
    FlatMap(JOYSTICK_NETS, n => AdcOf(used, n))
  }

  /** The joystick ADC loop. */
  method JoystickCheck(used: seq<Item>) returns (warns: seq<Message>)
    ensures warns == JoystickWarnings(used)
  {
    warns := [];
    var k := 0;
    while k < |JOYSTICK_NETS|
      invariant 0 <= k <= |JOYSTICK_NETS|
      invariant warns == FlatMap(JOYSTICK_NETS[..k], n => AdcOf(used, n))
    {
      FlatMapStep(JOYSTICK_NETS, k, n => AdcOf(used, n));
      var gpio := FindGpio(used, JOYSTICK_NETS[k]);
      if gpio.Some? {
        if gpio.value !in ADC1_GPIOS && gpio.value !in ADC2_GPIOS {
          warns := warns + [NoAdc(gpio.value, JOYSTICK_NETS[k])];
        }
      }
      k := k + 1;
    }
    assert JOYSTICK_NETS[..k] == JOYSTICK_NETS;
  }

  /**
   * A joystick warning names a joystick net and the first GPIO carrying it,
   * exactly when that GPIO is on neither ADC unit.
   */
  lemma JoystickSpec(used: seq<Item>, g: int, n: string)
    ensures NoAdc(g, n) in JoystickWarnings(used) <==>
              n in JOYSTICK_NETS && FirstGpio(used, n) == Some(g) && !(1 <= g <= 20)
  {
    var f := n => AdcOf(used, n);
    FlatMapMember(JOYSTICK_NETS, f, NoAdc(g, n));
    if n in JOYSTICK_NETS {
      var k :| 0 <= k < |JOYSTICK_NETS| && JOYSTICK_NETS[k] == n;
    }
    assert g in ADC1_GPIOS <==> 1 <= g <= 10;
    assert g in ADC2_GPIOS <==> 11 <= g <= 20;
  }

  /** _check(name, errors, warnings): returns both lists; absent warnings become empty. */
  function Check(errors: seq<Message>, warnings: Option<seq<Message>>): (r: (seq<Message>, seq<Message>))
    ensures r.0 == errors
    ensures r.1 == if warnings.Some? then warnings.value else []
  {
    (errors, if warnings.None? then [] else warnings.value)
  }

  datatype Status = Pass | Warn | Fail

  /** The status _check prints: FAIL on any error, else WARN on any warning, else PASS. */
  function CheckStatus(errors: seq<Message>, warnings: seq<Message>): (s: Status)
    ensures s == Fail <==> |errors| > 0
    ensures s == Warn <==> |errors| == 0 && |warnings| > 0
  {
    if |errors| > 0 then Fail else if |warnings| > 0 then Warn else Pass
  }

  /** check_gpio_conflicts. */
  method GpioConflicts(used: seq<Item>) returns (errors: seq<Message>, warnings: seq<Message>)
    ensures errors == DupErrors(used) + PsramErrors(used) + TxErrors(used)
    ensures warnings == RxWarnings(used) + StrapWarnings(used)
  {
    var dup := DuplicateCheck(used);
    errors := Check(dup, None).0;
    var e := Check(PsramErrors(used), None).0;
    errors := errors + e;
    var tx := UartTxCheck(used);
    errors := errors + tx;
    warnings := Check([], Some(RxWarnings(used))).1;
    var strap := StrappingCheck(used);
    var w := Check([], Some(strap)).1;
    warnings := warnings + w;
    var adc := JoystickCheck(used);
    e := Check([], Some(adc)).0;
    assert errors + e == errors;
    errors := errors + e;
  }

  /** The UART TX0 block: the error appended directly, then the one of the reserved-pin check. */
  method UartTxCheck(used: seq<Item>) returns (errors: seq<Message>)
    ensures errors == TxErrors(used)
  {
    errors := [];
    var tx := Lookup(used, UART_TX0);
    if tx.Some? {
      errors := errors + [UartTxUsed(tx.value)];
    }
    var e := Check(if tx.Some? then [UartTxReserved(tx.value)] else [], None).0;
    errors := errors + e;
  }

  /** GPIO43 gives two errors, GPIO44 one warning, and no joystick warning is ever returned. */
  lemma UartAndJoystick(used: seq<Item>)
    ensures |TxErrors(used)| == (if exists i :: 0 <= i < |used| && used[i].0 == UART_TX0 then 2 else 0)
    ensures |RxWarnings(used)| == (if exists i :: 0 <= i < |used| && used[i].0 == UART_RX0 then 1 else 0)
    ensures forall m :: m in RxWarnings(used) + StrapWarnings(used) ==> !m.NoAdc?
    ensures forall m :: m in DupErrors(used) + PsramErrors(used) + TxErrors(used) ==> !m.NoAdc?
  {
    forall m | m in StrapWarnings(used)
      ensures !m.NoAdc?
    {
      FlatMapMember(STRAPPING_PINS, g => StrapOf(used, g), m);
    }
    forall m | m in DupErrors(used)
      ensures !m.NoAdc?
    {
      DupErrorsDistinct(used);
    }
    forall m | m in PsramErrors(used)
      ensures !m.NoAdc?
    {
      FlatMapMember(used, PsramOf, m);
    }
  }

  // ------------------------------------------------------------ net declarations

  const POWER_NETS: seq<string> := ["GND", "VBUS", "+5V", "+3V3", "BAT+"]

  const DISPLAY_NETS: seq<string> := [
    "LCD_D0", "LCD_D1", "LCD_D2", "LCD_D3", "LCD_D4", "LCD_D5", "LCD_D6", "LCD_D7",
    "LCD_CS", "LCD_RST", "LCD_DC", "LCD_WR", "LCD_RD", "LCD_BL"]
  const AUDIO_NETS: seq<string> := ["I2S_BCLK", "I2S_LRCK", "I2S_DOUT"]
  const SD_NETS: seq<string> := ["SD_MOSI", "SD_MISO", "SD_CLK", "SD_CS"]
  const BUTTON_NETS: seq<string> := [
    "BTN_UP", "BTN_DOWN", "BTN_LEFT", "BTN_RIGHT", "BTN_A", "BTN_B", "BTN_X", "BTN_Y",
    "BTN_START", "BTN_SELECT", "BTN_L", "BTN_R"]

  /** Every signal net the check expects, in its order. */
  const SIGNAL_NETS: seq<string> :=
    DISPLAY_NETS + AUDIO_NETS + SD_NETS + BUTTON_NETS + ["BTN_MENU"] + JOYSTICK_NETS +
    ["USB_D+", "USB_D-", "SPK+", "SPK-"]

  /** The number of buttons: the twelve of the pad and the menu button. */
  const BUTTON_COUNT := |BUTTON_NETS| + 1

  /** The declared names: every non-empty name of the net list. */
  function NetNames(netList: seq<(int, string)>): set<string>
  {
    set i | 0 <= i < |netList| && netList[i].1 != "" :: netList[i].1
  }

  function MissingPower(names: set<string>): seq<Message>
  {
    FlatMap(POWER_NETS, (p: string) => if p in names then [] else [PowerNetMissing(p)])
  }

  function MissingSignals(names: set<string>): seq<Message>
  {
    FlatMap(SIGNAL_NETS, (n: string) => if n in names then [] else [SignalNetMissing(n)])
  }

  /** A button error exactly when pull-ups or debounce caps number fewer than the 13 buttons. */
  function ButtonErrors(pullUps: nat, debounceCaps: nat): (r: seq<Message>)
    ensures TooFewPullUps(pullUps, 13) in r <==> pullUps < 13
    ensures TooFewDebounceCaps(debounceCaps, 13) in r <==> debounceCaps < 13
    ensures r == [] <==> pullUps >= 13 && debounceCaps >= 13
    ensures |r| <= 2
  {
    (if pullUps < BUTTON_COUNT then [TooFewPullUps(pullUps, BUTTON_COUNT)] else []) +
    (if debounceCaps < BUTTON_COUNT then [TooFewDebounceCaps(debounceCaps, BUTTON_COUNT)] else [])
  }

  function UsbErrors(names: set<string>): seq<Message>
  {
    (if "USB_D+" in names then [] else [UsbNetMissing("USB_D+")]) +
    (if "USB_D-" in names then [] else [UsbNetMissing("USB_D-")])
  }

  /** check_net_connectivity, with the net list and the pull-up and debounce counts as inputs. */
  method NetConnectivity(netList: seq<(int, string)>, pullUps: nat, debounceCaps: nat)
    returns (errors: seq<Message>, warnings: seq<Message>)
    ensures errors == MissingPower(NetNames(netList)) + MissingSignals(NetNames(netList)) +
                      ButtonErrors(pullUps, debounceCaps) + UsbErrors(NetNames(netList))
    ensures warnings == []
  {
    var names := NetNames(netList);
    errors, warnings := [], [];
    var k := 0;
    while k < |POWER_NETS|
      invariant 0 <= k <= |POWER_NETS|
      invariant errors == FlatMap(POWER_NETS[..k], (p: string) => if p in names then [] else [PowerNetMissing(p)])
    {
      FlatMapStep(POWER_NETS, k, (p: string) => if p in names then [] else [PowerNetMissing(p)]);
      if POWER_NETS[k] !in names {
        errors := errors + [PowerNetMissing(POWER_NETS[k])];
      }
      k := k + 1;
    }
    assert POWER_NETS[..k] == POWER_NETS;
    var _ := Check(errors, None);
    var e := Check(MissingSignals(names), None).0;
    errors := errors + e;
    e := Check(ButtonErrors(pullUps, debounceCaps), None).0;
    errors := errors + e;
    e := Check(UsbErrors(names), None).0;
    errors := errors + e;
  }

  /** One error per expected power net that is not declared. */
  lemma MissingPowerSpec(names: set<string>, n: string)
    ensures PowerNetMissing(n) in MissingPower(names) <==> n in POWER_NETS && n !in names
    ensures forall m :: m in MissingPower(names) ==> m.PowerNetMissing?
  {
    var f := (p: string) => if p in names then [] else [PowerNetMissing(p)];
    FlatMapMember(POWER_NETS, f, PowerNetMissing(n));
    forall m | m in MissingPower(names)
      ensures m.PowerNetMissing?
    {
      FlatMapMember(POWER_NETS, f, m);
    }
  }

  /** One error per expected signal net that is not declared. */
  lemma MissingSignalsSpec(names: set<string>, n: string)
    ensures SignalNetMissing(n) in MissingSignals(names) <==> n in SIGNAL_NETS && n !in names
    ensures forall m :: m in MissingSignals(names) ==> m.SignalNetMissing?
  {
    var f := (p: string) => if p in names then [] else [SignalNetMissing(p)];
    FlatMapMember(SIGNAL_NETS, f, SignalNetMissing(n));
    forall m | m in MissingSignals(names)
      ensures m.SignalNetMissing?
    {
      FlatMapMember(SIGNAL_NETS, f, m);
    }
  }

  /** An undeclared USB data net is reported twice: as a signal net and as a USB net. */
  lemma UsbReportedTwice(names: set<string>, n: string)
    requires n == "USB_D+" || n == "USB_D-"
    ensures SignalNetMissing(n) in MissingSignals(names) <==> n !in names
    ensures UsbNetMissing(n) in UsbErrors(names) <==> n !in names
  {
    assert n in ["USB_D+", "USB_D-", "SPK+", "SPK-"];
    assert n in SIGNAL_NETS;
    MissingSignalsSpec(names, n);
  }

  /** With the routed pull-up and debounce rows, the button circuits are complete. */
  lemma RoutedButtonsComplete()
    ensures ButtonErrors(|Routing.PULL_UP_REFS|, |Routing.DEBOUNCE_REFS|) == []
  {
    Routing.PassiveRows();
  }

  // ------------------------------------------------------------ the run

  /** The errors and the warnings of every check, in order. */
  function AllErrors(results: seq<(seq<Message>, seq<Message>)>): seq<Message>
  {
    FlatMap(results, (r: (seq<Message>, seq<Message>)) => r.0)
  }

  function AllWarnings(results: seq<(seq<Message>, seq<Message>)>): seq<Message>
  {
    FlatMap(results, (r: (seq<Message>, seq<Message>)) => r.1)
  }

  /**
   * The loop of main over the checks' results: errors and warnings are
   * accumulated, and the exit code is 1 exactly when some check reported an error.
   */
  method RunChecks(results: seq<(seq<Message>, seq<Message>)>)
    returns (exitCode: int, errors: seq<Message>, warnings: seq<Message>)
    ensures errors == AllErrors(results) && warnings == AllWarnings(results)
    ensures exitCode == (if |errors| > 0 then 1 else 0)
    ensures exitCode == 1 <==> exists k :: 0 <= k < |results| && |results[k].0| > 0
  {
    errors, warnings := [], [];
    var k := 0;
    while k < |results|
      invariant 0 <= k <= |results|
      invariant errors == AllErrors(results[..k]) && warnings == AllWarnings(results[..k])
    {
      FlatMapStep(results, k, (r: (seq<Message>, seq<Message>)) => r.0);
      FlatMapStep(results, k, (r: (seq<Message>, seq<Message>)) => r.1);
      errors := errors + results[k].0;
      warnings := warnings + results[k].1;
      k := k + 1;
    }
    assert results[..k] == results;
    exitCode := if |errors| > 0 then 1 else 0;
    AllErrorsEmpty(results);
  }

  /** No errors overall exactly when no check has one; warnings play no part. */
  lemma {:induction false} AllErrorsEmpty(results: seq<(seq<Message>, seq<Message>)>)
    ensures |AllErrors(results)| > 0 <==> exists k :: 0 <= k < |results| && |results[k].0| > 0
  {
    if |results| > 0 {
      var init := results[..|results| - 1];
      AllErrorsEmpty(init);
      if exists k :: 0 <= k < |init| && |init[k].0| > 0 {
        var k :| 0 <= k < |init| && |init[k].0| > 0;
        assert results[k] == init[k];
      }
      if exists k :: 0 <= k < |results| && |results[k].0| > 0 {
        var k :| 0 <= k < |results| && |results[k].0| > 0;
        if k < |init| {
          assert init[k] == results[k];
        }
      }
    }
  }
}
