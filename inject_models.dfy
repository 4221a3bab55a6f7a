// The 3-D model injector: a line scanner over a board file that finds each
// footprint block by its opening line and the running parenthesis depth, and
// inserts a (model ...) entry before the block's last line when the block has
// none yet and its footprint name has a model. The text is taken as its list
// of lines; the entry is inserted as its five lines.
module InjectModels {
  import opened Wrappers
  import opened Seqs
  import opened Text

  const M := "${KICAD9_3DMODEL_DIR}"

  /** The model file `file` of library directory `dir`. */
  function ModelPath(dir: string, file: string): string
  {
    M + "/" + dir + ".3dshapes/" + file + ".step"
  }

  /** Footprint name to 3-D model path. */
  const MODEL_MAP: map<string, string> := map[
    "R_0805" := ModelPath("Resistor_SMD", "R_0805_2012Metric"),
    "C_0805" := ModelPath("Capacitor_SMD", "C_0805_2012Metric"),
    "C_1206" := ModelPath("Capacitor_SMD", "C_1206_3216Metric"),
    "LED_0805" := ModelPath("LED_SMD", "LED_0805_2012Metric"),
    "SOT-223" := ModelPath("Package_TO_SOT_SMD", "SOT-223"),
    "ESOP-8" := ModelPath("Package_SO", "SOIC-8_3.9x4.9mm_P1.27mm"),
    "SOP-16" := ModelPath("Package_SO", "SOIC-16_3.9x9.9mm_P1.27mm"),
    "ESP32-S3-WROOM-1-N16R8" := ModelPath("RF_Module", "ESP32-WROOM-32"),
    "USB-C-16P" := ModelPath("Connector_USB", "USB_C_Receptacle_GCT_USB4105-xx-A_16P_TopMnt_Horizontal"),
    "JST-PH-2P" := ModelPath("Connector_JST", "JST_PH_B2B-PH-K_1x02_P2.00mm_Vertical"),
    "SS-12D00G3" := ModelPath("Button_Switch_SMD", "SW_SPDT_PCM12"),
    "SW-SMD-5.1x5.1" := ModelPath("Button_Switch_SMD", "SW_SPST_TL3342")]

  /** A string free of parentheses, such as a model path, which changes no depth. */
  predicate PlainPath(path: string)
  {
    '(' !in path && ')' !in path
  }

  /** Every model path of a footprint-to-model dictionary is free of parentheses. */
  predicate PlainPaths(models: map<string, string>)
  {
    forall name :: name in models ==> PlainPath(models[name])
  }

  /** An s-expression list: `s` in parentheses. */
  function Paren(s: string): string
  {
    "(" + s + ")"
  }

  /** The model entry for a path, line by line (the template with its final newline stripped). */
  function Entry(path: string): seq<string>
  {
    ["\t\t" + "(" + "model \"" + path + "\"",
     "\t\t\t" + Paren("offset " + Paren("xyz 0 0 0")),
     "\t\t\t" + Paren("scale " + Paren("xyz 1 1 1")),
     "\t\t\t" + Paren("rotate " + Paren("xyz 0 0 0")),
     "\t\t" + ")"]
  }

  // ---------------------------------------------------------------- strings

  /** Python's s.count(c) for one character. */
  function Tally(s: string, c: char): nat
  {
    if |s| == 0 then 0 else (if s[0] == c then 1 else 0) + Tally(s[1..], c)
  }

  lemma {:induction false} TallyAppend(a: string, b: string, c: char)
    ensures Tally(a + b, c) == Tally(a, c) + Tally(b, c)
  {
    if |a| > 0 {
      assert (a + b)[1..] == a[1..] + b;
      TallyAppend(a[1..], b, c);
    } else {
      assert a + b == b;
    }
  }

  lemma {:induction false} TallyAbsent(s: string, c: char)
    requires c !in s
    ensures Tally(s, c) == 0
  {
    if |s| > 0 {
      assert forall x :: x in s[1..] ==> x in s;
      TallyAbsent(s[1..], c);
    }
  }

  /** Python's `pat in s` for strings. */
  predicate Contains(s: string, pat: string)
  {
    StartsWith(s, pat) || (|s| > 0 && Contains(s[1..], pat))
  }

  lemma {:induction false} ContainsAppendRight(s: string, t: string, pat: string)
    requires Contains(s, pat)
    ensures Contains(s + t, pat)
  {
    if StartsWith(s, pat) {
      assert (s + t)[..|pat|] == s[..|pat|];
    } else {
      assert (s + t)[1..] == s[1..] + t;
      ContainsAppendRight(s[1..], t, pat);
    }
  }

  lemma {:induction false} ContainsAppendLeft(a: string, s: string, pat: string)
    requires Contains(s, pat)
    ensures Contains(a + s, pat)
  {
    if |a| > 0 {
      assert (a + s)[1..] == a[1..] + s;
      ContainsAppendLeft(a[1..], s, pat);
    } else {
      assert a + s == s;
    }
  }

  /** Python's "\n".join(ls). */
  function Join(ls: seq<string>): string
  {
    if |ls| == 0 then ""
    else if |ls| == 1 then ls[0]
    else Join(ls[..|ls| - 1]) + "\n" + ls[|ls| - 1]
  }

  /** A pattern inside one line is inside the joined block. */
  lemma {:induction false} JoinContains(ls: seq<string>, k: nat, pat: string)
    requires k < |ls| && Contains(ls[k], pat)
    ensures Contains(Join(ls), pat)
  {
    if |ls| > 1 {
      var init := ls[..|ls| - 1];
      if k == |ls| - 1 {
        ContainsAppendLeft(Join(init) + "\n", ls[k], pat);
      } else {
        assert init[k] == ls[k];
        JoinContains(init, k, pat);
        ContainsAppendRight(Join(init), "\n" + ls[|ls| - 1], pat);
        assert Join(init) + "\n" + ls[|ls| - 1] == Join(init) + ("\n" + ls[|ls| - 1]);
      }
    }
  }

  // ------------------------------------------------------- opening lines

  const OPEN := "(footprint \""

  /**
   * The footprint name when the line opens a footprint block: leading
   * whitespace, `(footprint "`, a name free of quotes, a closing quote.
   */
  function Opener(line: string): Option<string>
  {
    var rest := line[WsLen(line)..];
    if !StartsWith(rest, OPEN) then None
    else
      var tail := rest[|OPEN|..];
      var q := IndexOf(tail, '"');
      if q == |tail| then None else Some(tail[..q])
  }

  /** What the opening-line test accepts has the form the pattern describes. */
  lemma PrefixSplit(line: string, n: nat)
    requires n <= |line| && StartsWith(line[n..], OPEN)
    ensures line == line[..n] + OPEN + line[n..][|OPEN|..]
  {
    var rest := line[n..];
    assert rest == rest[..|OPEN|] + rest[|OPEN|..];
    assert line == line[..n] + rest;
  }

  lemma QuoteSplit(tail: string)
    requires IndexOf(tail, '"') < |tail|
    ensures tail == tail[..IndexOf(tail, '"')] + "\"" + tail[IndexOf(tail, '"') + 1..]
  {
    Rejoin(tail, IndexOf(tail, '"'), '"');
  }

  lemma OpenerShape(line: string) returns (w: string, t: string)
    requires Opener(line).Some?
    ensures line == w + OPEN + Opener(line).value + "\"" + t
    ensures '"' !in Opener(line).value
    ensures forall c :: c in w ==> c in WHITESPACE
  {
    var n := WsLen(line);
    var tail := line[n..][|OPEN|..];
    var q := IndexOf(tail, '"');
    assert Opener(line) == Some(tail[..q]);
    PrefixSplit(line, n);
    QuoteSplit(tail);
    BeforeIndex(tail, '"');
    WsPrefix(line);
    w := line[..n];
    t := tail[q + 1..];
    Assoc4(w, OPEN, tail[..q], "\"", t);
  }

  /** Every line of that form is accepted, with that name. */
  lemma OpenerOf(w: string, name: string, t: string)
    requires '"' !in name
    requires forall c :: c in w ==> c in WHITESPACE
    ensures Opener(w + OPEN + name + "\"" + t) == Some(name)
  {
    var s := OPEN + name + "\"" + t;
    var line := w + OPEN + name + "\"" + t;
    assert line == w + s;
    WsLenOf(w, s);
    assert line[|w|..] == s;
    assert s[..|OPEN|] == OPEN;
    assert s[|OPEN|..] == name + "\"" + t;
    IndexOfAfter(name, '"', t);
    assert (name + "\"" + t)[..|name|] == name;
  }

  /** A line opens a footprint block named `name` exactly when it has the form the pattern describes. */
  lemma OpenerSpec(line: string, name: string)
    ensures Opener(line) == Some(name) <==>
            exists w, t :: line == w + OPEN + name + "\"" + t && '"' !in name &&
                           forall c :: c in w ==> c in WHITESPACE
  {
    if Opener(line) == Some(name) {
      var w, t := OpenerShape(line);
    }
    if exists w, t :: line == w + OPEN + name + "\"" + t && '"' !in name &&
                      forall c :: c in w ==> c in WHITESPACE {
      var w, t :| line == w + OPEN + name + "\"" + t && '"' !in name &&
                  forall c :: c in w ==> c in WHITESPACE;
      OpenerOf(w, name, t);
    }
  }

  // ------------------------------------------------------------- depth

  /** The change of parenthesis depth over one line. */
  function Delta(line: string): int
  {
    Tally(line, '(') - Tally(line, ')')
  }

  /** The change of depth over several lines. */
  function Depth(ls: seq<string>): int
  {
    if |ls| == 0 then 0 else Delta(ls[0]) + Depth(ls[1..])
  }

  lemma {:induction false} DepthAppend(a: seq<string>, b: seq<string>)
    ensures Depth(a + b) == Depth(a) + Depth(b)
  {
    if |a| > 0 {
      assert (a + b)[0] == a[0] && (a + b)[1..] == a[1..] + b;
      DepthAppend(a[1..], b);
    } else {
      assert a + b == b;
    }
  }

  /**
   * The number of lines the block scan takes from `ls`, starting at depth d:
   * it stops after the first line that brings the depth to zero or below, or
   * at the end of the input.
   */
  function BlockLen(ls: seq<string>, d: int): (n: nat)
    ensures n <= |ls|
    ensures |ls| > 0 ==> n >= 1
  {
    if |ls| == 0 then 0
    else if d + Delta(ls[0]) <= 0 then 1
    else 1 + BlockLen(ls[1..], d + Delta(ls[0]))
  }

  /** Every proper non-empty prefix of the block leaves the depth positive. */
  predicate Inside(b: seq<string>, d: int)
  {
    forall k :: 1 <= k < |b| ==> d + Depth(b[..k]) > 0
  }

  /** The whole block brings the depth to zero or below. */
  predicate Closed(b: seq<string>, d: int)
  {
    d + Depth(b) <= 0
  }

  /** The scanned block stays open until its last line, which closes it unless the input ended. */
  lemma {:induction false} BlockLenSpec(ls: seq<string>, d: int)
    ensures Inside(ls[..BlockLen(ls, d)], d)
    ensures BlockLen(ls, d) == |ls| || Closed(ls[..BlockLen(ls, d)], d)
  {
    if |ls| > 0 {
      var d' := d + Delta(ls[0]);
      var n := BlockLen(ls, d);
      if d' <= 0 {
        assert ls[..1] == [ls[0]] && ls[..1][1..] == [];
        assert Depth(ls[..1]) == Delta(ls[0]);
      } else {
        BlockLenSpec(ls[1..], d');
        var b := ls[..n];
        assert b[1..] == ls[1..][..n - 1];
        forall k | 1 <= k < n
          ensures d + Depth(b[..k]) > 0
        {
          assert b[..k][1..] == ls[1..][..n - 1][..k - 1];
        }
      }
    }
  }

  /** Conversely, a block that stays open and then closes (or ends the input) is what the scan takes. */
  lemma {:induction false} BlockLenOf(b: seq<string>, rest: seq<string>, d: int)
    requires |b| >= 1 && Inside(b, d)
    requires Closed(b, d) || rest == []
    ensures BlockLen(b + rest, d) == |b|
  {
    assert (b + rest)[0] == b[0];
    if |b| == 1 {
      assert b[1..] == [];
      assert Depth(b) == Delta(b[0]);
      assert b + rest == [b[0]] + rest;
      if rest == [] {
        assert (b + rest)[1..] == [];
      }
    } else {
      assert b[..1] == [b[0]] && b[..1][1..] == [];
      var d' := d + Delta(b[0]);
      assert Depth(b[..1]) == Delta(b[0]);
      assert d' > 0;
      forall k | 1 <= k < |b[1..]|
        ensures d' + Depth(b[1..][..k]) > 0
      {
        assert b[..k + 1][0] == b[0] && b[..k + 1][1..] == b[1..][..k];
      }
      assert (b + rest)[1..] == b[1..] + rest;
      BlockLenOf(b[1..], rest, d');
    }
  }

  // ----------------------------------------------------------- segments

  /** A line outside any footprint block, or a whole footprint block with its name. */
  datatype Segment = Plain(line: string) | Block(name: string, lines: seq<string>)

  /** The input lines a segment covers. */
  function Source(s: Segment): seq<string>
  {
    match s
    case Plain(l) => [l]
    case Block(_, b) => b
  }

  /** The number of lines the scan consumes at the start of `ls`: one plain line, or a whole block. */
  function HeadLen(ls: seq<string>): (n: nat)
    requires |ls| > 0
    ensures 1 <= n <= |ls|
  {
    if Opener(ls[0]).None? then 1 else BlockLen(ls, 0)
  }

  /** The segment the scan forms at the start of `ls`. */
  function HeadSeg(ls: seq<string>): Segment
    requires |ls| > 0
  {
    match Opener(ls[0])
    case None => Plain(ls[0])
    case Some(name) => Block(name, ls[..BlockLen(ls, 0)])
  }

  /** How the scan splits the lines into segments. */
  function Parse(ls: seq<string>): seq<Segment>
    decreases |ls|
  {
    if |ls| == 0 then [] else [HeadSeg(ls)] + Parse(ls[HeadLen(ls)..])
  }

  /** A plain line is no opening line; a block starts at one, stays open, and closes unless it is last. */
  predicate SegmentOk(s: Segment, last: bool)
  {
    match s
    case Plain(l) => Opener(l).None?
    case Block(name, b) => |b| >= 1 && Opener(b[0]) == Some(name) && Inside(b, 0) && (last || Closed(b, 0))
  }

  predicate WellFormed(segs: seq<Segment>)
  {
    forall i :: 0 <= i < |segs| ==> SegmentOk(segs[i], i == |segs| - 1)
  }

  lemma FlatMapCons<T, U>(x: T, xs: seq<T>, f: T -> seq<U>)
    ensures FlatMap([x] + xs, f) == f(x) + FlatMap(xs, f)
  {
    FlatMapConcat([x], xs, f);
    assert [x][..0] == [];
  }

  /** The head segment covers exactly the lines the scan consumes. */
  lemma HeadSource(ls: seq<string>)
    requires |ls| > 0
    ensures Source(HeadSeg(ls)) == ls[..HeadLen(ls)]
  {
    if Opener(ls[0]).None? {
      assert ls[..1] == [ls[0]];
    }
  }

  /** The segments cover the input: every line lands in exactly one segment, in order. */
  lemma {:induction false} ParseCovers(ls: seq<string>)
    ensures FlatMap(Parse(ls), Source) == ls
    decreases |ls|
  {
    if |ls| > 0 {
      var n := HeadLen(ls);
      ParseCovers(ls[n..]);
      FlatMapCons(HeadSeg(ls), Parse(ls[n..]), Source);
      HeadSource(ls);
      assert ls == ls[..n] + ls[n..];
    }
  }

  /** The head segment is well formed, and closed unless it takes the whole input. */
  lemma HeadOk(ls: seq<string>)
    requires |ls| > 0
    ensures SegmentOk(HeadSeg(ls), HeadLen(ls) == |ls|)
  {
    if Opener(ls[0]).Some? {
      BlockLenSpec(ls, 0);
      assert ls[..BlockLen(ls, 0)][0] == ls[0];
    }
  }

  /** Every segment the scan produces is well formed. */
  lemma {:induction false} ParseWellFormed(ls: seq<string>)
    ensures WellFormed(Parse(ls))
    decreases |ls|
  {
    if |ls| > 0 {
      var segs := Parse(ls);
      var n := HeadLen(ls);
      ParseWellFormed(ls[n..]);
      HeadOk(ls);
      assert SegmentOk(segs[0], 0 == |segs| - 1) by {
        if n < |ls| {
          assert |Parse(ls[n..])| > 0;
        } else {
          assert ls[n..] == [];
        }
      }
      forall i | 1 <= i < |segs|
        ensures SegmentOk(segs[i], i == |segs| - 1)
      {
        assert segs[i] == Parse(ls[n..])[i - 1];
      }
    }
  }

  /** A well-formed segment followed by further lines is the head segment the scan forms. */
  lemma HeadOfSegment(s: Segment, tail: seq<string>)
    requires SegmentOk(s, tail == [])
    ensures |Source(s) + tail| > 0
    ensures HeadSeg(Source(s) + tail) == s && HeadLen(Source(s) + tail) == |Source(s)|
  {
    var ls := Source(s) + tail;
    match s
    case Plain(l) =>
      assert ls[0] == l;
    case Block(name, b) =>
      BlockLenOf(b, tail, 0);
      assert ls[0] == b[0];
      assert ls[..|b|] == b;
  }

  /** Parsing the lines of well-formed segments gives back those segments. */
  lemma {:induction false} ParseOfSegments(segs: seq<Segment>)
    requires WellFormed(segs)
    ensures Parse(FlatMap(segs, Source)) == segs
    decreases |segs|
  {
    if |segs| > 0 {
      var s := segs[0];
      var rest := segs[1..];
      assert WellFormed(rest) by {
        forall i | 0 <= i < |rest|
          ensures SegmentOk(rest[i], i == |rest| - 1)
        {
          assert rest[i] == segs[i + 1];
        }
      }
      ParseOfSegments(rest);
      assert segs == [s] + rest;
      FlatMapCons(s, rest, Source);
      var tail := FlatMap(rest, Source);
      var ls := Source(s) + tail;
      assert SegmentOk(s, tail == []) by {
        assert SegmentOk(s, 0 == |segs| - 1);
        if |segs| == 1 {
          assert rest == [];
        }
      }
      HeadOfSegment(s, tail);
      assert ls[|Source(s)|..] == tail;
    }
  }

  // ------------------------------------------------------------ emission

  /** Python's insert(-1, e) on a list of lines, with the entry as its lines. */
  function Insert(b: seq<string>, e: seq<string>): seq<string>
  {
    if |b| == 0 then e else b[..|b| - 1] + e + [b[|b| - 1]]
  }

  /** The block already mentions a model. */
  predicate HasModel(b: seq<string>)
  {
    Contains(Join(b), "(model ")
  }

  datatype Outcome = Copied | Matched | Skipped | AlreadyHasModel

  /**
   * How a segment is treated, given the footprint-to-model dictionary: a
   * name mapped to the empty path counts as unmapped, as Python's truth test
   * of the looked-up path makes it.
   */
  function OutcomeOf(models: map<string, string>, s: Segment): Outcome
  {
    match s
    case Plain(_) => Copied
    case Block(name, b) =>
      if HasModel(b) then AlreadyHasModel
      else if name in models && models[name] != "" then Matched
      else Skipped
  }

  /** What the injector writes for one segment. */
  function Emit(models: map<string, string>, s: Segment): seq<string>
  {
    if OutcomeOf(models, s) == Matched then Insert(s.lines, Entry(models[s.name])) else Source(s)
  }

  function Emits(models: map<string, string>): Segment -> seq<string>
  {
    s => Emit(models, s)
  }

  datatype Stats = Stats(matched: nat, skipped: nat, alreadyHasModel: nat)

  function IsMatched(models: map<string, string>): Segment -> bool { s => OutcomeOf(models, s) == Matched }
  function IsSkipped(models: map<string, string>): Segment -> bool { s => OutcomeOf(models, s) == Skipped }
  function IsAlready(models: map<string, string>): Segment -> bool { s => OutcomeOf(models, s) == AlreadyHasModel }
  predicate IsBlock(s: Segment) { s.Block? }

  function StatsOf(models: map<string, string>, segs: seq<Segment>): Stats
  {
    Stats(Count(segs, IsMatched(models)), Count(segs, IsSkipped(models)), Count(segs, IsAlready(models)))
  }

  /** The text the injector writes for a list of lines. */
  function Injected(models: map<string, string>, ls: seq<string>): seq<string>
  {
    FlatMap(Parse(ls), Emits(models))
  }

  // ------------------------------------------------------------- scanner

  /** Collects one footprint block from `start`, tracking the depth line by line. */
  method CollectBlock(lines: seq<string>, start: nat) returns (block: seq<string>, next: nat)
    requires start < |lines|
    ensures next == start + BlockLen(lines[start..], 0)
    ensures block == lines[start..next]
  {
    var depth := 0;
    block := [];
    next := start;
    while next < |lines|
      invariant start <= next <= |lines|
      invariant block == lines[start..next]
      invariant BlockLen(lines[start..], 0) == (next - start) + BlockLen(lines[next..], depth)
    {
      assert lines[next..][0] == lines[next] && lines[next..][1..] == lines[next + 1..];
      block := block + [lines[next]];
      depth := depth + Tally(lines[next], '(') - Tally(lines[next], ')');
      next := next + 1;
      if depth <= 0 {
        break;
      }
    }
  }

  /** The counters after one more segment: the counter of its outcome goes up by one. */
  function Tick(st: Stats, o: Outcome): Stats
  {
    match o
    case Copied => st
    case Matched => st.(matched := st.matched + 1)
    case Skipped => st.(skipped := st.skipped + 1)
    case AlreadyHasModel => st.(alreadyHasModel := st.alreadyHasModel + 1)
  }

  lemma StatsSnoc(models: map<string, string>, done: seq<Segment>, seg: Segment)
    ensures StatsOf(models, done + [seg]) == Tick(StatsOf(models, done), OutcomeOf(models, seg))
  {
    CountSnoc(done, seg, IsMatched(models));
    CountSnoc(done, seg, IsSkipped(models));
    CountSnoc(done, seg, IsAlready(models));
  }

  lemma EmitSnoc(models: map<string, string>, done: seq<Segment>, seg: Segment)
    ensures FlatMap(done + [seg], Emits(models)) == FlatMap(done, Emits(models)) + Emit(models, seg)
  {
    assert (done + [seg])[..|done|] == done;
  }

  /** A line that opens no block is copied and counted nowhere. */
  lemma PlainStep(models: map<string, string>, ls: seq<string>, i: nat)
    requires i < |ls| && Opener(ls[i]).None?
    ensures HeadLen(ls[i..]) == 1
    ensures Emit(models, HeadSeg(ls[i..])) == [ls[i]]
    ensures Tick(StatsOf(models, []), Copied) == StatsOf(models, []) && OutcomeOf(models, HeadSeg(ls[i..])) == Copied
  {
    assert ls[i..][0] == ls[i];
  }

  /** One footprint block from line `start`: what is written for it and how it is counted. */
  method EmitBlock(models: map<string, string>, lines: seq<string>, start: nat, name: string)
    returns (emitted: seq<string>, outcome: Outcome, next: nat)
    requires start < |lines| && Opener(lines[start]) == Some(name)
    ensures next == start + HeadLen(lines[start..])
    ensures emitted == Emit(models, HeadSeg(lines[start..]))
    ensures outcome == OutcomeOf(models, HeadSeg(lines[start..]))
  {
    var block;
    block, next := CollectBlock(lines, start);
    assert lines[start..][0] == lines[start];
    assert lines[start..][..next - start] == block;
    assert HeadSeg(lines[start..]) == Block(name, block);
    if Contains(Join(block), "(model ") {
      outcome := AlreadyHasModel;
    } else if name in models && models[name] != "" {
      block := Insert(block, Entry(models[name]));
      outcome := Matched;
    } else {
      outcome := Skipped;
    }
    emitted := block;
  }

  /** inject_models: the written lines and the three counters. */
  method Inject(models: map<string, string>, lines: seq<string>) returns (output: seq<string>, stats: Stats)
    ensures output == Injected(models, lines)
    ensures stats == StatsOf(models, Parse(lines))
  {
    output := [];
    stats := Stats(0, 0, 0);
    var i := 0;
    ghost var done: seq<Segment> := [];
    while i < |lines|
      invariant i <= |lines|
      invariant Parse(lines) == done + Parse(lines[i..])
      invariant output == FlatMap(done, Emits(models))
      invariant stats == StatsOf(models, done)
      decreases |lines| - i
    {
      var emitted, outcome, next := InjectLine(models, lines, i);
      ghost var seg := HeadSeg(lines[i..]);
      InjectStep(models, lines, i, done, output, stats, emitted, outcome, next);
      done := done + [seg];
      stats := Tick(stats, outcome);
      output := output + emitted;
      i := next;
    }
    assert lines[i..] == [];
    assert Parse(lines) == done;
  }

  /** The scan's invariant carries over one turn, whatever the line held. */
  lemma InjectStep(models: map<string, string>, lines: seq<string>, i: nat, done: seq<Segment>, output: seq<string>, stats: Stats,
                   emitted: seq<string>, outcome: Outcome, next: nat)
    requires i < |lines| && Parse(lines) == done + Parse(lines[i..])
    requires output == FlatMap(done, Emits(models)) && stats == StatsOf(models, done)
    requires next == i + HeadLen(lines[i..]) && emitted == Emit(models, HeadSeg(lines[i..]))
    requires outcome == OutcomeOf(models, HeadSeg(lines[i..]))
    ensures i < next <= |lines|
    ensures Parse(lines) == (done + [HeadSeg(lines[i..])]) + Parse(lines[next..])
    ensures output + emitted == FlatMap(done + [HeadSeg(lines[i..])], Emits(models))
    ensures Tick(stats, outcome) == StatsOf(models, done + [HeadSeg(lines[i..])])
  {
    var seg := HeadSeg(lines[i..]);
    ParseNext(lines, i, next);
    Assoc(done, [seg], Parse(lines[next..]));
    EmitSnoc(models, done, seg);
    StatsSnoc(models, done, seg);
  }

  /** The scan continues after the head segment of the remaining lines. */
  lemma ParseNext(lines: seq<string>, i: nat, next: nat)
    requires i < |lines| && next == i + HeadLen(lines[i..])
    ensures i < next <= |lines|
    ensures Parse(lines[i..]) == [HeadSeg(lines[i..])] + Parse(lines[next..])
  {
    var tail := lines[i..];
    ParseHead(tail);
    assert tail[HeadLen(tail)..] == lines[next..];
  }

  lemma ParseHead(ls: seq<string>)
    requires |ls| > 0
    ensures Parse(ls) == [HeadSeg(ls)] + Parse(ls[HeadLen(ls)..])
  {
  }

  /**
   * One turn of the scan: a footprint opener hands over to the block
   * collector; any other line is copied and leaves the counters alone.
   */
  method InjectLine(models: map<string, string>, lines: seq<string>, i: nat) returns (emitted: seq<string>, outcome: Outcome, next: nat)
    requires i < |lines|
    ensures next == i + HeadLen(lines[i..])
    ensures emitted == Emit(models, HeadSeg(lines[i..]))
    ensures outcome == OutcomeOf(models, HeadSeg(lines[i..]))
  {
    var line := lines[i];
    var fp := Opener(line);
    if fp.Some? {
      emitted, outcome, next := EmitBlock(models, lines, i, fp.value);
    } else {
      PlainStep(models, lines, i);
      emitted, outcome, next := [line], Copied, i + 1;
    }
  }

  // ---------------------------------------------------------- properties

  /** Every block is counted exactly once: matched, skipped or already modelled. */
  lemma {:induction false} OutcomeCounts(models: map<string, string>, segs: seq<Segment>)
    ensures Count(segs, IsMatched(models)) + Count(segs, IsSkipped(models)) + Count(segs, IsAlready(models)) == Count(segs, IsBlock)
  {
    if |segs| > 0 {
      var init := segs[..|segs| - 1];
      OutcomeCounts(models, init);
      assert segs == init + [segs[|segs| - 1]];
      CountSnoc(init, segs[|segs| - 1], IsMatched(models));
      CountSnoc(init, segs[|segs| - 1], IsSkipped(models));
      CountSnoc(init, segs[|segs| - 1], IsAlready(models));
      CountSnoc(init, segs[|segs| - 1], IsBlock);
    }
  }

  /** matched + skipped + already_has_model is the number of footprint blocks the scan found. */
  lemma StatsTotal(models: map<string, string>, ls: seq<string>)
    ensures StatsOf(models, Parse(ls)).matched + StatsOf(models, Parse(ls)).skipped + StatsOf(models, Parse(ls)).alreadyHasModel
            == Count(Parse(ls), IsBlock)
  {
    OutcomeCounts(models, Parse(ls));
  }

  /** Each segment is written as it was read, except that a matched block gains the five entry lines. */
  lemma {:induction false} EmitLength(models: map<string, string>, segs: seq<Segment>)
    ensures |FlatMap(segs, Emits(models))| == |FlatMap(segs, Source)| + 5 * Count(segs, IsMatched(models))
  {
    if |segs| > 0 {
      var init := segs[..|segs| - 1];
      EmitLength(models, init);
      assert segs == init + [segs[|segs| - 1]];
      CountSnoc(init, segs[|segs| - 1], IsMatched(models));
    }
  }

  /** The output is the input plus five lines per matched footprint. */
  lemma InjectedLength(models: map<string, string>, ls: seq<string>)
    ensures |Injected(models, ls)| == |ls| + 5 * StatsOf(models, Parse(ls)).matched
  {
    EmitLength(models, Parse(ls));
    ParseCovers(ls);
  }

  /** Lines outside footprint blocks, and blocks left alone, are written unchanged. */
  lemma EmitUnchanged(models: map<string, string>, s: Segment)
    ensures !IsMatched(models)(s) ==> Emit(models, s) == Source(s)
    ensures IsMatched(models)(s) ==> |s.lines| >= 1 ==>
              Emit(models, s) == s.lines[..|s.lines| - 1] + Entry(models[s.name]) + [s.lines[|s.lines| - 1]]
  {
  }

  lemma DeltaAppend(a: string, b: string)
    ensures Delta(a + b) == Delta(a) + Delta(b)
  {
    TallyAppend(a, b, '(');
    TallyAppend(a, b, ')');
  }

  lemma DeltaPlain(s: string)
    requires PlainPath(s)
    ensures Delta(s) == 0
  {
    TallyAbsent(s, '(');
    TallyAbsent(s, ')');
  }

  lemma DeltaBracket()
    ensures Delta("(") == 1 && Delta(")") == -1
  {
    assert "("[1..] == [] && ")"[1..] == [];
  }

  /** A parenthesised list changes the depth only by what its contents do. */
  lemma DeltaParen(s: string)
    ensures Delta(Paren(s)) == Delta(s)
  {
    DeltaBracket();
    DeltaAppend("(" + s, ")");
    DeltaAppend("(", s);
  }

  /** An indented `(word (inner))` line is balanced. */
  lemma DeltaItem(indent: string, word: string, inner: string)
    requires PlainPath(indent) && PlainPath(word) && PlainPath(inner)
    ensures Delta(indent + Paren(word + Paren(inner))) == 0
  {
    DeltaPlain(indent);
    DeltaPlain(word);
    DeltaPlain(inner);
    DeltaAppend(indent, Paren(word + Paren(inner)));
    DeltaParen(word + Paren(inner));
    DeltaAppend(word, Paren(inner));
    DeltaParen(inner);
  }

  lemma EntryWords()
    ensures PlainPath("\t\t") && PlainPath("\t\t\t") && PlainPath("model \"") && PlainPath("\"")
    ensures PlainPath("offset ") && PlainPath("scale ") && PlainPath("rotate ")
    ensures PlainPath("xyz 0 0 0") && PlainPath("xyz 1 1 1")
  {
  }

  /** The entry's lines open one level, keep it, and close it again. */
  lemma EntryDeltas(path: string)
    requires PlainPath(path)
    ensures Delta(Entry(path)[0]) == 1
    ensures Delta(Entry(path)[1]) == 0 && Delta(Entry(path)[2]) == 0 && Delta(Entry(path)[3]) == 0
    ensures Delta(Entry(path)[4]) == -1
  {
    EntryWords();
    DeltaBracket();
    DeltaPlain(path);
    DeltaPlain("\t\t");
    DeltaPlain("model \"");
    DeltaPlain("\"");
    DeltaAppend("\t\t", "(");
    DeltaAppend("\t\t" + "(", "model \"");
    DeltaAppend("\t\t" + "(" + "model \"", path);
    DeltaAppend("\t\t" + "(" + "model \"" + path, "\"");
    DeltaItem("\t\t\t", "offset ", "xyz 0 0 0");
    DeltaItem("\t\t\t", "scale ", "xyz 1 1 1");
    DeltaItem("\t\t\t", "rotate ", "xyz 0 0 0");
    DeltaAppend("\t\t", ")");
  }

  lemma DepthSnoc(a: seq<string>, x: string)
    ensures Depth(a + [x]) == Depth(a) + Delta(x)
  {
    DepthAppend(a, [x]);
    assert [x][1..] == [];
  }

  /**
   * The entry never closes more than it opened: the depth over its first j
   * lines is 0, 1, 1, 1, 1 and finally 0.
   */
  lemma EntryDepth(path: string)
    requires PlainPath(path)
    ensures forall j :: 0 <= j <= |Entry(path)| ==> Depth(Entry(path)[..j]) >= 0
    ensures Depth(Entry(path)) == 0
  {
    var e := Entry(path);
    EntryDeltas(path);
    forall j | 0 <= j < |e|
      ensures Depth(e[..j + 1]) == Depth(e[..j]) + Delta(e[j])
    {
      assert e[..j + 1] == e[..j] + [e[j]];
      DepthSnoc(e[..j], e[j]);
    }
    assert Depth(e[..0]) == 0;
    assert e[..5] == e;
  }

  /**
   * Inserting a balanced entry before the last line of an open block of at
   * least two lines keeps the block open until its last line and keeps its depth.
   */
  lemma InsertKeepsBlock(b: seq<string>, e: seq<string>)
    requires |b| >= 2 && Inside(b, 0)
    requires forall j :: 0 <= j <= |e| ==> Depth(e[..j]) >= 0
    requires Depth(e) == 0
    ensures Inside(Insert(b, e), 0)
    ensures Depth(Insert(b, e)) == Depth(b)
    ensures Insert(b, e)[0] == b[0]
  {
    var p := |b| - 1;
    var r := Insert(b, e);
    assert r == b[..p] + e + [b[p]];
    forall k | 1 <= k < |r|
      ensures Depth(r[..k]) > 0
    {
      if k <= p {
        assert r[..k] == b[..k];
      } else {
        assert r[..k] == b[..p] + e[..k - p];
        DepthAppend(b[..p], e[..k - p]);
      }
    }
    DepthAppend(b[..p] + e, [b[p]]);
    DepthAppend(b[..p], e);
    DepthAppend(b[..p], [b[p]]);
    assert b == b[..p] + [b[p]];
  }

  /** Pattern characters all occur in any string containing the pattern. */
  lemma {:induction false} ContainsChars(s: string, pat: string, c: char)
    requires Contains(s, pat) && c in pat
    ensures c in s
  {
    if StartsWith(s, pat) {
      var k :| 0 <= k < |pat| && pat[k] == c;
      assert s[k] == c;
    } else {
      ContainsChars(s[1..], pat, c);
      assert forall x :: x in s[1..] ==> x in s;
    }
  }

  /** The entry's first line names the model. */
  lemma EntryHasModel(path: string)
    ensures Contains(Entry(path)[0], "(model ")
  {
    var x := "\"" + path + "\"";
    assert StartsWith("(model " + x, "(model ");
    ContainsAppendLeft("\t\t", "(model " + x, "(model ");
    assert Entry(path)[0] == "\t\t" + ("(model " + x);
  }

  /** A segment as the first run writes it. */
  function Rewritten(models: map<string, string>, s: Segment): Segment
  {
    match s
    case Plain(_) => s
    case Block(name, _) => Block(name, Emit(models, s))
  }

  /** A rewritten segment is well formed again, is written unchanged, and is never matched again. */
  lemma RewrittenOk(models: map<string, string>, s: Segment, last: bool)
    requires PlainPaths(models)
    requires SegmentOk(s, last)
    requires s.Block? ==> |s.lines| >= 2
    ensures SegmentOk(Rewritten(models, s), last)
    ensures Source(Rewritten(models, s)) == Emit(models, s)
    ensures Emit(models, Rewritten(models, s)) == Emit(models, s)
    ensures !IsMatched(models)(Rewritten(models, s))
    ensures IsSkipped(models)(Rewritten(models, s)) == IsSkipped(models)(s)
    ensures IsBlock(Rewritten(models, s)) == IsBlock(s)
  {
    if IsMatched(models)(s) {
      var e := Entry(models[s.name]);
      EntryDepth(models[s.name]);
      InsertKeepsBlock(s.lines, e);
      var r := Insert(s.lines, e);
      assert r[|s.lines| - 1] == e[0];
      EntryHasModel(models[s.name]);
      JoinContains(r, |s.lines| - 1, "(model ");
    }
  }

  /**
   * Running the injector on its own output changes nothing when every
   * footprint block spans at least two lines: no block is matched again, the
   * skipped ones are skipped again, and the matched ones now count as already
   * having a model.
   */
  lemma InjectTwice(models: map<string, string>, ls: seq<string>)
    requires PlainPaths(models)
    requires forall s :: s in Parse(ls) && s.Block? ==> |s.lines| >= 2
    ensures Injected(models, Injected(models, ls)) == Injected(models, ls)
    ensures StatsOf(models, Parse(Injected(models, ls))).matched == 0
    ensures StatsOf(models, Parse(Injected(models, ls))).skipped == StatsOf(models, Parse(ls)).skipped
    ensures StatsOf(models, Parse(Injected(models, ls))).alreadyHasModel ==
            StatsOf(models, Parse(ls)).alreadyHasModel + StatsOf(models, Parse(ls)).matched
  {
    var segs := Parse(ls);
    ParseWellFormed(ls);
    var re := seq(|segs|, i requires 0 <= i < |segs| => Rewritten(models, segs[i]));
    forall i | 0 <= i < |segs|
      ensures SegmentOk(re[i], i == |re| - 1) && Source(re[i]) == Emit(models, segs[i]) && Emit(models, re[i]) == Emit(models, segs[i])
      ensures !IsMatched(models)(re[i]) && IsSkipped(models)(re[i]) == IsSkipped(models)(segs[i]) && IsBlock(re[i]) == IsBlock(segs[i])
    {
      assert segs[i] in segs;
      RewrittenOk(models, segs[i], i == |segs| - 1);
    }
    FlatMapPointwise(re, segs, Source, Emits(models));
    ParseOfSegments(re);
    assert Parse(Injected(models, ls)) == re;
    FlatMapPointwise(re, segs, Emits(models), Emits(models));
    CountZero(re, IsMatched(models));
    CountPointwise(re, segs, IsSkipped(models), IsSkipped(models));
    CountPointwise(re, segs, IsBlock, IsBlock);
    OutcomeCounts(models, re);
    OutcomeCounts(models, segs);
  }
}
