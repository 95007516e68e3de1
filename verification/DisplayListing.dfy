/** `list_outputs`: one output per block of the display tool's report. */
module DisplayListing {
  import opened ConfigText
  import opened FileNames

  datatype DisplayOutput = DisplayOutput(name: string, enabled: bool, currentMode: string, modes: seq<string>,
                                         transform: string)

  /** What one line of the report says. */
  datatype Line = Header(name: string) | Enabled(on: bool) | Transform(value: string)
                | Mode(mode: string, current: bool) | Other

  // ---- Lines ----

  function IndexOf(s: string, part: string): (i: nat)
    ensures i <= |s|
  {
    if s == "" || part <= s then 0 else 1 + IndexOf(s[1..], part)
  }

  predicate Has(s: string, part: string) {
    part <= s[IndexOf(s, part)..]
  }

  function FirstWord(s: string): string {
    s[..IndexOf(s, " ")]
  }

  function Lower(s: string): string {
    seq(|s|, i requires 0 <= i < |s| => if 'A' <= s[i] <= 'Z' then ((s[i] as int) + 32) as char else s[i])
  }

  /** Parsing a refresh rate and rounding it; 0 for text that is no number. */
  type Rate = string -> int

  /** "1920x1080 px, 60.000000 Hz (current)" becomes "1920x1080@60Hz". */
  function ModeText(stripped: string, rate: Rate): string {
    var at := IndexOf(stripped, " px,");
    var res := Trim(stripped[..at], IsSpace);
    var rest := if at + 4 <= |stripped| then stripped[at + 4..] else "";
    var hz := rate(FirstWord(Trim(rest, IsSpace)));
    if hz != 0 then res + "@" + Decimal(hz) + "Hz" else res
  }

  function Classify(line: string, rate: Rate): Line {
    if line != "" && line[0] != ' ' then Header(Trim(FirstWord(line), IsSpace))
    else
      var stripped := Trim(line, IsSpace);
      if "Enabled:" <= stripped then Enabled(Has(Lower(stripped), "yes"))
      else if "Transform:" <= stripped then Transform(Trim(stripped[10..], IsSpace))
      else if Has(stripped, " px,") && Has(stripped, "Hz") then Mode(ModeText(stripped, rate), Has(stripped, "current"))
      else Other
  }

  // ---- The loop ----

  /** The loop's variables: the outputs so far and the block being read. */
  datatype Scan = Scan(outputs: seq<DisplayOutput>, block: DisplayOutput)

  const NO_BLOCK := DisplayOutput("", true, "", [], "normal")

  /** A block without a name, such as the lines before the first header, is dropped. */
  function Flush(s: Scan): seq<DisplayOutput> {
    if s.block.name != "" then s.outputs + [s.block] else s.outputs
  }

  function Feed(s: Scan, l: Line): Scan {
    match l
    case Header(name) => Scan(Flush(s), NO_BLOCK.(name := name))
    case Enabled(on) => s.(block := s.block.(enabled := on))
    case Transform(v) => s.(block := s.block.(transform := v))
    case Mode(mode, current) =>
      s.(block := s.block.(modes := s.block.modes + [mode],
                           currentMode := if current then mode else s.block.currentMode))
    case Other => s
  }

  function FeedAll(s: Scan, lines: seq<Line>): Scan {
    if lines == [] then s else Feed(FeedAll(s, lines[..|lines| - 1]), lines[|lines| - 1])
  }

  function Listed(lines: seq<Line>): seq<DisplayOutput> {
    Flush(FeedAll(Scan([], NO_BLOCK), lines))
  }

  function ClassifyAll(lines: seq<string>, rate: Rate): seq<Line> {
    seq(|lines|, i requires 0 <= i < |lines| => Classify(lines[i], rate))
  }

  method ListOutputs(lines: seq<string>, rate: Rate) returns (outputs: seq<DisplayOutput>)
    ensures outputs == Listed(ClassifyAll(lines, rate))
  {
    outputs := [];
    var block := NO_BLOCK;
    var all := ClassifyAll(lines, rate);
    for i := 0 to |lines|
      invariant Scan(outputs, block) == FeedAll(Scan([], NO_BLOCK), all[..i])
    {
      assert all[..i + 1][..i] == all[..i];
      match Classify(lines[i], rate)
      case Header(name) =>
        if block.name != "" {
          outputs := outputs + [block];
        }
        block := NO_BLOCK.(name := name);
      case Enabled(on) => block := block.(enabled := on);
      case Transform(v) => block := block.(transform := v);
      case Mode(mode, current) =>
        if current {
          block := block.(currentMode := mode);
        }
        block := block.(modes := block.modes + [mode]);
      case Other =>
    }
    assert all[..|lines|] == all;
    if block.name != "" {
      outputs := outputs + [block];
    }
  }

  // ---- What a block means ----

  predicate NoHeader(body: seq<Line>) {
    forall i | 0 <= i < |body| :: !body[i].Header?
  }

  function Modes(body: seq<Line>): seq<string> {
    if body == [] then []
    else Modes(body[..|body| - 1]) + if body[|body| - 1].Mode? then [body[|body| - 1].mode] else []
  }

  /** The last line of a kind decides; without one the default stands. */
  ghost predicate Described(o: DisplayOutput, name: string, body: seq<Line>) {
    && o.name == name && o.modes == Modes(body)
    && o.enabled == (var i := LastOf(body, (l: Line) => l.Enabled?); if i < 0 then true else body[i].on)
    && o.transform == (var i := LastOf(body, (l: Line) => l.Transform?); if i < 0 then "normal" else body[i].value)
    && o.currentMode == (var i := LastOf(body, (l: Line) => l.Mode? && l.current); if i < 0 then "" else body[i].mode)
  }

  function LastOf(body: seq<Line>, wanted: Line -> bool): (i: int)
    ensures i < |body| && (i >= 0 ==> wanted(body[i]))
  {
    if body == [] then -1
    else if wanted(body[|body| - 1]) then |body| - 1
    else LastOf(body[..|body| - 1], wanted)
  }

  lemma {:induction false} BodyFillsBlock(s: Scan, body: seq<Line>, name: string)
    requires NoHeader(body) && s.block == NO_BLOCK.(name := name)
    ensures FeedAll(s, body).outputs == s.outputs
    ensures Described(FeedAll(s, body).block, name, body)
  {
    if body != [] {
      BodyFillsBlock(s, body[..|body| - 1], name);
      DescribedStep(FeedAll(s, body[..|body| - 1]), body, name);
    }
  }

  lemma DescribedStep(s: Scan, body: seq<Line>, name: string)
    requires NoHeader(body) && body != [] && Described(s.block, name, body[..|body| - 1])
    ensures Described(Feed(s, body[|body| - 1]).block, name, body)
    ensures Feed(s, body[|body| - 1]).outputs == s.outputs
  {
  }

  lemma {:induction false} FeedConcat(s: Scan, a: seq<Line>, b: seq<Line>)
    ensures FeedAll(s, a + b) == FeedAll(FeedAll(s, a), b)
  {
    if b == [] {
      assert a + b == a;
    } else {
      FeedConcat(s, a, b[..|b| - 1]);
      assert (a + b)[..|a + b| - 1] == a + b[..|b| - 1];
    }
  }

  /** Blocks are independent: whatever came before, one more named block adds exactly one
      output, described by that block's own lines, and changes none of the others. */
  lemma OneMoreBlock(before: seq<Line>, name: string, body: seq<Line>)
    requires NoHeader(body)
    ensures
      var all := Listed(before + [Header(name)] + body);
      if name == "" then all == Listed(before)
      else |all| == |Listed(before)| + 1 && all[..|all| - 1] == Listed(before) && Described(all[|all| - 1], name, body)
  {
    var start := Scan([], NO_BLOCK);
    var s := FeedAll(start, before);
    FeedConcat(start, before + [Header(name)], body);
    assert (before + [Header(name)])[..|before|] == before;
    BodyFillsBlock(Feed(s, Header(name)), body, name);
  }

  /** Lines before the first header list nothing. */
  lemma NothingBeforeHeaders(body: seq<Line>)
    requires NoHeader(body)
    ensures Listed(body) == []
  {
    BodyFillsBlock(Scan([], NO_BLOCK), body, "");
  }
}
