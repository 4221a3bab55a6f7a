// The schematic / PCB / pick-and-place consistency check: component
// references are scraped from the main schematic, its sub-sheets, the board
// file and the CPL export, then compared as sets. File contents are taken as
// strings (the CPL file as its list of lines); a file that does not exist is
// None.
module VerifyRefs {
  import opened Wrappers
  import opened Seqs
  import opened Text

  // ------------------------------------------------------------ scraping

  const KEY := "\"Reference\""

  /** One match of `"Reference"\s+"([^"]+)"`: the captured value and the length matched. */
  datatype Capture = Capture(value: string, len: nat)

  /** What follows the key in a match, `\s+"([^"]+)"`: the value and the length it spans. */
  function ValueAfter(r: string): (m: Option<Capture>)
    ensures m.Some? ==> 0 < m.value.len <= |r|
  {
    var k := WsLen(r);
    if k == 0 || k == |r| || r[k] != '"' then None
    else
      var v := r[k + 1..];
      var q := IndexOf(v, '"');
      if q == 0 || q == |v| then None
      else Some(Capture(v[..q], k + q + 2))
  }

  /** The match of the reference pattern at the very start of s, if any. */
  function MatchAt(s: string): (m: Option<Capture>)
    ensures m.Some? ==> 0 < m.value.len <= |s|
  {
    if !StartsWith(s, KEY) then None
    else
      match ValueAfter(s[|KEY|..])
      case None => None
      case Some(c) => Some(Capture(c.value, |KEY| + c.len))
  }

  /** re.findall of the reference pattern: the captures of the non-overlapping matches, left to right. */
  function FindAll(s: string): seq<string>
    decreases |s|
  {
    if |s| == 0 then []
    else
      match MatchAt(s)
      case None => FindAll(s[1..])
      case Some(c) => [c.value] + FindAll(s[c.len..])
  }

  lemma TakeDrop<T>(a: seq<T>, b: seq<T>)
    ensures (a + b)[..|a|] == a && (a + b)[|a|..] == b
  {
  }

  lemma PrefixSplit<T>(s: seq<T>, key: seq<T>)
    requires |key| <= |s| && s[..|key|] == key
    ensures s == key + s[|key|..]
  {
  }

  lemma ValueShape(r: string) returns (w: string, t: string)
    requires ValueAfter(r).Some?
    ensures r == w + "\"" + ValueAfter(r).value.value + "\"" + t
    ensures |w| > 0 && forall c :: c in w ==> c in WHITESPACE
    ensures |ValueAfter(r).value.value| > 0 && '"' !in ValueAfter(r).value.value
    ensures ValueAfter(r).value.len == |w| + |ValueAfter(r).value.value| + 2
  {
    var k := WsLen(r);
    var v := r[k + 1..];
    var q := IndexOf(v, '"');
    assert ValueAfter(r) == Some(Capture(v[..q], k + q + 2));
    BeforeIndex(v, '"');
    WsPrefix(r);
    w := r[..k];
    t := v[q + 1..];
    Rejoin(r, k, '"');
    Rejoin(v, q, '"');
    Assoc4(w, "\"", v[..q], "\"", t);
  }



  lemma WsStep(w: string, v: string)
    requires forall c :: c in w ==> c in WHITESPACE
    ensures WsLen(w + ("\"" + v)) == |w|
  {
    var q := "\"" + v;
    assert q[0] == '"' && '"' !in WHITESPACE;
    WsLenOf(w, q);
  }

  lemma QuoteStep(value: string, t: string)
    requires '"' !in value
    ensures IndexOf(value + "\"" + t, '"') == |value| && (value + "\"" + t)[..|value|] == value
  {
    IndexOfAfter(value, '"', t);
    TakeDrop(value, "\"" + t);
  }

  lemma ValueOf(w: string, value: string, t: string)
    requires |w| > 0 && forall c :: c in w ==> c in WHITESPACE
    requires |value| > 0 && '"' !in value
    ensures ValueAfter(w + "\"" + value + "\"" + t) == Some(Capture(value, |w| + |value| + 2))
  {
    var v := value + "\"" + t;
    var q := "\"" + v;
    var r := w + q;
    Assoc(w, "\"", v);
    Assoc4(w, "\"", value, "\"", t);
    WsStep(w, v);
    TakeDrop(w, q);
    assert r[|w|] == '"' && r[|w| + 1..] == v;
    QuoteStep(value, t);
  }

  /** What the pattern matches has the shape it describes. */
  lemma MatchShape(s: string) returns (w: string, t: string)
    requires MatchAt(s).Some?
    ensures s == KEY + (w + "\"" + MatchAt(s).value.value + "\"" + t)
    ensures |w| > 0 && forall c :: c in w ==> c in WHITESPACE
    ensures |MatchAt(s).value.value| > 0 && '"' !in MatchAt(s).value.value
    ensures MatchAt(s).value.len == |KEY| + |w| + |MatchAt(s).value.value| + 2
  {
    PrefixSplit(s, KEY);
    w, t := ValueShape(s[|KEY|..]);
  }

  /** Every string of that shape matches, capturing the quoted value. */
  lemma MatchOf(w: string, value: string, t: string)
    requires |w| > 0 && forall c :: c in w ==> c in WHITESPACE
    requires |value| > 0 && '"' !in value
    ensures MatchAt(KEY + (w + "\"" + value + "\"" + t)) == Some(Capture(value, |KEY| + |w| + |value| + 2))
  {
    ValueOf(w, value, t);
    MatchAfterKey(w + "\"" + value + "\"" + t, value, |w| + |value| + 2);
  }

  /** After the key, the match is the value match of the rest. */
  lemma MatchAfterKey(r: string, value: string, len: nat)
    requires ValueAfter(r) == Some(Capture(value, len))
    ensures MatchAt(KEY + r) == Some(Capture(value, |KEY| + len))
  {
    TakeDrop(KEY, r);
  }

  /** The pattern matches at the start of s exactly when s has the shape it describes. */
  lemma MatchSpec(s: string, value: string)
    ensures (MatchAt(s).Some? && MatchAt(s).value.value == value) <==>
            exists w, t :: s == KEY + (w + "\"" + value + "\"" + t) && |value| > 0 && '"' !in value &&
                           |w| > 0 && forall c :: c in w ==> c in WHITESPACE
  {
    if MatchAt(s).Some? && MatchAt(s).value.value == value {
      var w, t := MatchShape(s);
    }
    if exists w, t :: s == KEY + (w + "\"" + value + "\"" + t) && |value| > 0 && '"' !in value &&
                      |w| > 0 && forall c :: c in w ==> c in WHITESPACE {
      var w, t :| s == KEY + (w + "\"" + value + "\"" + t) && |value| > 0 && '"' !in value &&
                  |w| > 0 && forall c :: c in w ==> c in WHITESPACE;
      MatchOf(w, value, t);
    }
  }

  /** Every scraped value is a non-empty string without quotes. */
  lemma {:induction false} FindAllValues(s: string)
    ensures forall r :: r in FindAll(s) ==> |r| > 0 && '"' !in r
    decreases |s|
  {
    if |s| > 0 {
      match MatchAt(s)
      case None =>
        FindAllValues(s[1..]);
      case Some(c) =>
        var w, t := MatchShape(s);
        FindAllValues(s[c.len..]);
    }
  }

  // ------------------------------------------------------------ filters

  predicate PowerRef(r: string)
  {
    StartsWith(r, "#")
  }

  predicate AllUpper(s: string)
  {
    |s| > 0 && forall i :: 0 <= i < |s| ==> 'A' <= s[i] <= 'Z'
  }

  /**
   * re.match(r'^[A-Z]+$', r): capital letters only; Python's `$` also
   * matches just before a final newline.
   */
  predicate TemplateRef(r: string)
  {
    AllUpper(r) || (|r| >= 2 && r[|r| - 1] == '\n' && AllUpper(r[..|r| - 1]))
  }

  predicate NotPower(r: string)
  {
    !PowerRef(r)
  }

  predicate Real(r: string)
  {
    !TemplateRef(r) && '?' !in r
  }

  /** Whether a scraped reference is kept. */
  predicate Kept(r: string, skipPower: bool)
  {
    (!skipPower || !PowerRef(r)) && Real(r)
  }

  /** The sorted distinct references of a schematic, with library templates and (optionally) power symbols dropped. */
  function ExtractRefs(content: string, skipPower: bool): seq<string>
  {
    var refs := FindAll(content);
    var refs1 := if skipPower then Filter(refs, NotPower) else refs;
    var refs2 := Filter(refs1, Real);
    SortedSet(set r | r in refs2)
  }

  /** extract_refs lists, sorted and once each, exactly the scraped references it keeps. */
  lemma ExtractRefsSpec(content: string, skipPower: bool)
    ensures StrictlySorted(ExtractRefs(content, skipPower))
    ensures forall r :: r in ExtractRefs(content, skipPower) <==> r in FindAll(content) && Kept(r, skipPower)
    ensures forall r :: r in ExtractRefs(content, skipPower) ==> |r| > 0 && '"' !in r && '?' !in r && !TemplateRef(r)
    ensures skipPower ==> forall r :: r in ExtractRefs(content, skipPower) ==> !StartsWith(r, "#")
  {
    var refs := FindAll(content);
    var refs1 := if skipPower then Filter(refs, NotPower) else refs;
    var refs2 := Filter(refs1, Real);
    SortedSetSpec(set r | r in refs2);
    FindAllValues(content);
    forall r
      ensures r in refs2 <==> r in refs && Kept(r, skipPower)
    {
      FilterMember(refs1, Real, r);
      if skipPower {
        FilterMember(refs, NotPower, r);
      }
    }
  }

  predicate PcbKept(r: string)
  {
    !StartsWith(r, "#") && !TemplateRef(r) && '?' !in r
  }

  /** The references of a board file. */
  function ExtractPcbRefs(content: string): seq<string>
  {
    SortedSet(set r | r in Filter(FindAll(content), PcbKept))
  }

  /** The board filter is the schematic filter with power symbols skipped. */
  lemma PcbRefsAreRefs(content: string)
    ensures ExtractPcbRefs(content) == ExtractRefs(content, true)
  {
    var a := set r | r in Filter(FindAll(content), PcbKept);
    var refs1 := Filter(FindAll(content), NotPower);
    var b := set r | r in Filter(refs1, Real);
    forall r
      ensures r in a <==> r in b
    {
      FilterMember(FindAll(content), PcbKept, r);
      FilterMember(refs1, Real, r);
      FilterMember(FindAll(content), NotPower, r);
    }
    assert a == b;
  }

  // ------------------------------------------------------------ CPL export

  /**
   * The designator of one CPL line: the line stripped of whitespace, its
   * first comma-separated field, with quotes stripped from both ends
   * (str.split always yields at least one field).
   */
  function CplRef(line: string): string
  {
    var s := Strip(line, WHITESPACE);
    Strip(s[..IndexOf(s, ',')], {'"'})
  }

  /** A designator holds no comma and neither starts nor ends with a quote. */
  lemma CplRefShape(line: string)
    ensures ',' !in CplRef(line)
    ensures |CplRef(line)| > 0 ==> CplRef(line)[0] != '"' && CplRef(line)[|CplRef(line)| - 1] != '"'
  {
    var s := Strip(line, WHITESPACE);
    var f := s[..IndexOf(s, ',')];
    BeforeIndex(s, ',');
    StripWithin(f, {'"'});
    StripSpec(f, {'"'});
  }

  function Designator(line: string): seq<string>
  {
    [CplRef(line)]
  }

  /** The designator column: one per line after the header, in file order. */
  function CplColumn(lines: seq<string>): seq<string>
  {
    if |lines| == 0 then [] else FlatMap(lines[1..], Designator)
  }

  /** extract_cpl_refs: the sorted distinct designators, none for an absent file. */
  function CplFile(file: Option<seq<string>>): seq<string>
  {
    match file
    case None => []
    case Some(lines) => SortedSet(RefSet(CplColumn(lines)))
  }

  function RefSet(refs: seq<string>): set<string>
  {
    set r | r in refs
  }

  /** The column holds exactly the designators of the lines after the header. */
  lemma CplColumnSpec(lines: seq<string>)
    ensures forall r :: r in CplColumn(lines) <==> exists i :: 1 <= i < |lines| && r == CplRef(lines[i])
  {
    if |lines| > 0 {
      forall r
        ensures r in CplColumn(lines) <==> exists i :: 1 <= i < |lines| && r in Designator(lines[i])
      {
        FlatMapTailMember(lines, Designator, r);
      }
    }
  }

  /**
   * The CPL designators are sorted and distinct, one for every line after the
   * header and nothing else; an absent file has none.
   */
  lemma CplFileSpec(file: Option<seq<string>>)
    ensures StrictlySorted(CplFile(file))
    ensures forall r :: r in CplFile(file) <==>
              file.Some? && exists i :: 1 <= i < |file.value| && r == CplRef(file.value[i])
  {
    if file.Some? {
      SortedSetSpec(RefSet(CplColumn(file.value)));
      CplColumnSpec(file.value);
    }
  }

  /** The line loop of extract_cpl_refs: every line but the first gives its designator. */
  method ReadColumn(lines: seq<string>) returns (found: seq<string>)
    ensures found == CplColumn(lines)
  {
    found := [];
    var i := 0;
    while i < |lines|
      invariant 0 <= i <= |lines|
      invariant found == if i == 0 then [] else FlatMap(lines[1..i], Designator)
    {
      if i != 0 {
        FlatMapTailStep(lines, i, Designator);
        found := found + Designator(lines[i]);
      }
      i := i + 1;
    }
    if |lines| > 0 {
      assert lines[1..i] == lines[1..];
    }
  }

  method CplRefs(file: Option<seq<string>>) returns (refs: seq<string>)
    ensures refs == CplFile(file)
  {
    if file.None? {
      return [];
    }
    var found := ReadColumn(file.value);
    refs := SortedSet(RefSet(found));
  }

  // ------------------------------------------------------------ comparison

  /** The three parts print_diff reports. */
  datatype Diff = Diff(onlyA: set<string>, onlyB: set<string>, common: set<string>)

  predicate IsMatch(d: Diff)
  {
    d.onlyA == {} && d.onlyB == {}
  }

  /** A against B: the parts partition both sets, and the report is MATCH exactly when they are equal. */
  function Compare(a: set<string>, b: set<string>): (d: Diff)
    ensures d.onlyA + d.common == a && d.onlyB + d.common == b
    ensures d.onlyA !! d.common && d.onlyB !! d.common && d.onlyA !! d.onlyB
    ensures IsMatch(d) <==> a == b
  {
    Diff(a - b, b - a, a * b)
  }

  // ------------------------------------------------------------ sheets

  const SHEET := "(sheet"

  /** The number of `\(sheet\s` matches, left to right without overlap. */
  function SheetCount(s: string): nat
    decreases |s|
  {
    if |s| <= |SHEET| then 0
    else if StartsWith(s, SHEET) && s[|SHEET|] in WHITESPACE then 1 + SheetCount(s[|SHEET| + 1..])
    else SheetCount(s[1..])
  }

  predicate SheetAt(s: string, i: nat)
  {
    i + |SHEET| < |s| && StartsWith(s[i..], SHEET) && s[i + |SHEET|] in WHITESPACE
  }

  /** A schematic is hierarchical exactly when `(sheet` followed by whitespace occurs in it. */
  lemma {:induction false} SheetCountSpec(s: string)
    ensures SheetCount(s) > 0 <==> exists i: nat :: SheetAt(s, i)
    decreases |s|
  {
    if |s| > |SHEET| {
      if StartsWith(s, SHEET) && s[|SHEET|] in WHITESPACE {
        assert s[0..] == s;
        assert SheetAt(s, 0);
      } else {
        SheetCountSpec(s[1..]);
        if exists i: nat :: SheetAt(s, i) {
          var i: nat :| SheetAt(s, i);
          assert i != 0 by {
            assert s[0..] == s;
          }
          assert s[1..][i - 1..] == s[i..];
          assert SheetAt(s[1..], i - 1);
        }
        if exists i: nat :: SheetAt(s[1..], i) {
          var i: nat :| SheetAt(s[1..], i);
          assert s[1..][i..] == s[i + 1..];
          assert SheetAt(s, i + 1);
        }
      }
    }
  }

  function SheetList(content: string): seq<string>
  {
    ExtractRefs(content, true)
  }

  /** The union of the references of the sub-sheets. */
  function SheetRefs(sheets: seq<string>): set<string>
  {
    RefSet(FlatMap(sheets, SheetList))
  }

  /** A reference is in the union exactly when some sub-sheet has it. */
  lemma SheetRefsSpec(sheets: seq<string>)
    ensures forall r :: r in SheetRefs(sheets) <==> exists k :: 0 <= k < |sheets| && r in ExtractRefs(sheets[k], true)
  {
    forall r
      ensures r in SheetRefs(sheets) <==> exists k :: 0 <= k < |sheets| && r in SheetList(sheets[k])
    {
      FlatMapMember(sheets, SheetList, r);
    }
  }

  /** The sub-sheet loop, reading the sheets in order. */
  method SubsheetRefs(sheets: seq<string>) returns (all: set<string>)
    ensures all == SheetRefs(sheets)
  {
    all := {};
    var k := 0;
    while k < |sheets|
      invariant 0 <= k <= |sheets|
      invariant all == SheetRefs(sheets[..k])
    {
      FlatMapStep(sheets, k, SheetList);
      all := all + RefSet(ExtractRefs(sheets[k], true));
      k := k + 1;
    }
    assert sheets[..k] == sheets;
  }

  // ------------------------------------------------------------ summary

  /** The comparisons and readiness decisions of one run. */
  datatype Summary = Summary(
    effective: set<string>,
    schematicVsCpl: Diff,
    pcbVsCpl: Diff,
    missing: set<string>,
    extra: set<string>,
    coverage: bool,
    cplPresent: bool,
    pcbComplete: bool)

  /**
   * The decisions of a run: the effective schematic is the root plus the
   * sub-sheets only when the root links sheets; coverage passes exactly when
   * every CPL designator has a schematic symbol.
   */
  function Decide(main: set<string>, subs: set<string>, sheets: nat, pcb: set<string>, cpl: set<string>): (r: Summary)
    ensures r.effective == (if sheets > 0 then main + subs else main)
    ensures r.coverage <==> cpl <= r.effective
    ensures r.missing + (cpl * r.effective) == cpl && r.missing !! r.effective
    ensures r.extra !! cpl && r.extra + (cpl * r.effective) == r.effective
    ensures r.cplPresent <==> |cpl| > 0
    ensures r.pcbComplete <==> cpl <= pcb
    ensures IsMatch(r.schematicVsCpl) <==> r.effective == cpl
    ensures IsMatch(r.pcbVsCpl) <==> pcb == cpl
  {
    var effective := if sheets > 0 then main + subs else main;
    var missing := cpl - effective;
    Summary(effective, Compare(effective, cpl), Compare(pcb, cpl), missing, effective - cpl,
            missing == {}, cpl != {}, cpl - pcb == {})
  }

  function BoardRefs(board: Option<string>): set<string>
  {
    match board
    case None => {}
    case Some(content) => RefSet(ExtractPcbRefs(content))
  }

  /** One run over the root schematic, the sub-sheets, and the board and CPL files when present. */
  method Verify(root: string, sheets: seq<string>, board: Option<string>, cpl: Option<seq<string>>)
    returns (r: Summary)
    ensures r == Decide(RefSet(ExtractRefs(root, true)), SheetRefs(sheets), SheetCount(root),
                        BoardRefs(board), RefSet(CplFile(cpl)))
  {
    var mainRefs := RefSet(ExtractRefs(root, true));
    var subs := SubsheetRefs(sheets);
    var pcbRefs: set<string> := {};
    if board.Some? {
      pcbRefs := RefSet(ExtractPcbRefs(board.value));
    }
    var cplList := CplRefs(cpl);
    r := Decide(mainRefs, subs, SheetCount(root), pcbRefs, RefSet(cplList));
  }
}
