/** The display tool's report, character by character: what it prints for any outputs is read
    back as those outputs. */
module DisplayReports {
  import opened Basics
  import opened ConfigText
  import opened FileNames
  import opened DisplayListing

  // ---- What the tool prints ----

  datatype PrintedMode = PrintedMode(size: string, hz: string, preferred: bool, current: bool)

  datatype Printed = Printed(name: string, maker: string, on: bool, modes: seq<PrintedMode>, transform: string)

  function HeaderLine(name: string, maker: string): string {
    name + " " + maker
  }

  function EnabledLine(on: bool): string {
    "  Enabled: " + if on then "yes" else "no"
  }

  /** What follows the unit. */
  function Marks(m: PrintedMode): string {
    if m.current then (if m.preferred then " (preferred, current)" else " (current)")
    else if m.preferred then " (preferred)" else ""
  }

  function ModeTail(m: PrintedMode): string {
    m.hz + (" Hz" + Marks(m))
  }

  function ModeBody(m: PrintedMode): string {
    m.size + (" px, " + ModeTail(m))
  }

  function ModeLine(m: PrintedMode): string {
    "    " + ModeBody(m)
  }

  function TransformLine(v: string): string {
    "  Transform: " + v
  }

  function ModeLines(modes: seq<PrintedMode>): seq<string> {
    seq(|modes|, i requires 0 <= i < |modes| => ModeLine(modes[i]))
  }

  function BlockLines(o: Printed): seq<string> {
    [HeaderLine(o.name, o.maker)]
    + ([EnabledLine(o.on)] + ["  Modes:"] + ModeLines(o.modes) + [TransformLine(o.transform)])
  }

  function Report(outputs: seq<Printed>): seq<string> {
    if outputs == [] then [] else Report(outputs[..|outputs| - 1]) + BlockLines(outputs[|outputs| - 1])
  }

  /** Text without blanks. */
  predicate Word(s: string) {
    s != "" && forall i | 0 <= i < |s| :: !IsSpace(s[i])
  }

  /** A resolution or a refresh rate. */
  predicate Figures(s: string) {
    s != "" && forall i | 0 <= i < |s| :: '0' <= s[i] <= '9' || s[i] == 'x' || s[i] == '.'
  }

  predicate Printable(o: Printed) {
    && Word(o.name) && Word(o.transform)
    && forall i | 0 <= i < |o.modes| :: Figures(o.modes[i].size) && Figures(o.modes[i].hz)
  }

  // ---- What is to be read ----

  function Text(m: PrintedMode, rate: Rate): string {
    if rate(m.hz) != 0 then m.size + "@" + Decimal(rate(m.hz)) + "Hz" else m.size
  }

  function Texts(modes: seq<PrintedMode>, rate: Rate): seq<string> {
    seq(|modes|, i requires 0 <= i < |modes| => Text(modes[i], rate))
  }

  /** The last mode marked current, or what there was before. */
  function CurrentOf(modes: seq<PrintedMode>, rate: Rate, before: string): string {
    if modes == [] then before
    else
      var last := modes[|modes| - 1];
      if last.current then Text(last, rate) else CurrentOf(modes[..|modes| - 1], rate, before)
  }

  function AsOutput(o: Printed, rate: Rate): DisplayOutput {
    DisplayOutput(o.name, o.on, CurrentOf(o.modes, rate, ""), Texts(o.modes, rate), o.transform)
  }

  function AsOutputs(outputs: seq<Printed>, rate: Rate): seq<DisplayOutput> {
    seq(|outputs|, i requires 0 <= i < |outputs| => AsOutput(outputs[i], rate))
  }

  // ---- Searching and stripping ----

  /** The search finds the first occurrence. */
  lemma {:induction false} FirstOccurrence(before: string, part: string, after: string)
    requires forall i | 0 <= i < |before| :: !(part <= (before + (part + after))[i..])
    ensures IndexOf(before + (part + after), part) == |before| && Has(before + (part + after), part)
  {
    var s := before + (part + after);
    if before == "" {
      assert s == part + after;
    } else {
      assert s[1..] == before[1..] + (part + after);
      forall i | 0 <= i < |before[1..]| ensures !(part <= (before[1..] + (part + after))[i..]) {
        assert s[1..][i..] == s[i + 1..];
      }
      assert !(part <= s) by { assert s[0..] == s; }
      FirstOccurrence(before[1..], part, after);
      assert s[|before|..] == part + after;
    }
  }

  predicate Without(s: string, c: char) {
    forall i | 0 <= i < |s| :: s[i] != c
  }

  /** Text without the first character of what is looked for holds no occurrence. */
  lemma NoOccurrence(s: string, part: string)
    requires part != "" && Without(s, part[0])
    ensures !Has(s, part)
  {
    var at := IndexOf(s, part);
    assert s[at..] == "" || s[at..][0] == s[at];
  }

  /** So what is looked for, starting with a character that the text before it has not, is found
      right after that text. */
  lemma FoundAfter(before: string, part: string, after: string)
    requires part != "" && Without(before, part[0])
    ensures IndexOf(before + (part + after), part) == |before| && Has(before + (part + after), part)
  {
    var s := before + (part + after);
    forall i | 0 <= i < |before| ensures !(part <= s[i..]) {
      assert s[i..][0] == before[i];
    }
    FirstOccurrence(before, part, after);
  }

  /** Blanks around text that neither starts nor ends with one are stripped. */
  lemma StripBlanks(before: string, s: string)
    requires (forall i | 0 <= i < |before| :: before[i] == ' ') && s != "" && !IsSpace(s[0]) && !IsSpace(s[|s| - 1])
    ensures Trim(before + s, IsSpace) == s
  {
    var padded := before + s;
    assert padded[|before|..|padded|] == s && padded[|before|] == s[0] && padded[|padded| - 1] == s[|s| - 1];
    TrimExact(padded, IsSpace, |before|, |padded|);
  }

  lemma WordIsItself(s: string)
    requires Word(s)
    ensures Trim(s, IsSpace) == s
  {
    StripBlanks("", s);
    assert "" + s == s;
  }

  lemma FiguresAreWords(s: string)
    requires Figures(s)
    ensures Word(s) && Without(s, ' ') && Without(s, 'c') && Without(s, 'H')
  {
  }

  lemma FirstWordOf(w: string, rest: string)
    requires Word(w)
    ensures FirstWord(w + (" " + rest)) == w
  {
    FoundAfter(w, " ", rest);
  }

  // ---- Line by line ----

  lemma HeaderRead(name: string, maker: string, rate: Rate)
    requires Word(name)
    ensures Classify(HeaderLine(name, maker), rate) == Header(name)
  {
    FirstWordOf(name, maker);
    WordIsItself(name);
    assert name + (" " + maker) == name + " " + maker;
    assert HeaderLine(name, maker)[0] == name[0];
  }

  lemma EnabledRead(on: bool, rate: Rate)
    ensures Classify(EnabledLine(on), rate) == Enabled(on)
  {
    var s := "Enabled: " + if on then "yes" else "no";
    assert "  " + s == EnabledLine(on);
    StripBlanks("  ", s);
    assert "Enabled:" <= s;
    var lower := "enabled: " + if on then "yes" else "no";
    assert Lower(s) == lower;
    if on {
      FoundAfter("enabled: ", "yes", "");
      assert "enabled: " + ("yes" + "") == lower;
    } else {
      NoOccurrence(lower, "yes");
    }
  }

  lemma ModesRead(rate: Rate)
    ensures Classify("  Modes:", rate) == Other
  {
    assert "  " + "Modes:" == "  Modes:";
    StripBlanks("  ", "Modes:");
    NoOccurrence("Modes:", " px,");
  }

  lemma TransformRead(v: string, rate: Rate)
    requires Word(v)
    ensures Classify(TransformLine(v), rate) == Transform(v)
  {
    var s := "Transform: " + v;
    assert "  " + s == TransformLine(v);
    StripBlanks("  ", s);
    assert "Transform:" <= s && s[10..] == " " + v;
    StripBlanks(" ", v);
  }

  lemma SplitMode(m: PrintedMode)
    requires Figures(m.size)
    ensures
      var s := ModeBody(m);
      && IndexOf(s, " px,") == |m.size| && Has(s, " px,") && |s| >= |m.size| + 4
      && s[..|m.size|] == m.size && s[|m.size| + 4..] == " " + ModeTail(m)
  {
    FiguresAreWords(m.size);
    FoundAfter(m.size, " px,", " " + ModeTail(m));
    assert " px," + (" " + ModeTail(m)) == " px, " + ModeTail(m);
  }

  lemma RateRead(m: PrintedMode)
    requires Figures(m.hz)
    ensures FirstWord(Trim(" " + ModeTail(m), IsSpace)) == m.hz
  {
    FiguresAreWords(m.hz);
    StripBlanks(" ", ModeTail(m));
    FirstWordOf(m.hz, "Hz" + Marks(m));
    assert " Hz" + Marks(m) == " " + ("Hz" + Marks(m));
  }

  lemma ModeTextRead(m: PrintedMode, rate: Rate)
    requires Figures(m.size) && Figures(m.hz)
    ensures ModeText(ModeBody(m), rate) == Text(m, rate)
  {
    SplitMode(m);
    FiguresAreWords(m.size);
    WordIsItself(m.size);
    RateRead(m);
  }

  /** A mode line up to its unit. */
  function ToUnit(m: PrintedMode): string {
    m.size + " px, " + m.hz + " "
  }

  lemma ToUnitIsPlain(m: PrintedMode)
    requires Figures(m.size) && Figures(m.hz)
    ensures Without(ToUnit(m), 'H') && Without(ToUnit(m), 'c')
    ensures ModeBody(m) == ToUnit(m) + ("Hz" + Marks(m))
  {
    FiguresAreWords(m.size);
    FiguresAreWords(m.hz);
    assert " Hz" + Marks(m) == " " + ("Hz" + Marks(m));
  }

  lemma UnitRead(m: PrintedMode)
    requires Figures(m.size) && Figures(m.hz)
    ensures Has(ModeBody(m), "Hz")
  {
    ToUnitIsPlain(m);
    FoundAfter(ToUnit(m), "Hz", Marks(m));
  }

  lemma WithoutConcat(a: string, b: string, c: char)
    requires Without(a, c) && Without(b, c)
    ensures Without(a + b, c)
  {
  }

  lemma MarkFound(before: string, mark: string)
    requires Without(before, 'c') && Without(mark, 'c')
    ensures Has(before + (mark + ("current" + ")")), "current")
  {
    WithoutConcat(before, mark, 'c');
    FoundAfter(before + mark, "current", ")");
    assert (before + mark) + ("current" + ")") == before + (mark + ("current" + ")"));
  }

  lemma MarkSpelt(m: PrintedMode)
    requires m.current
    ensures "Hz" + Marks(m) == (if m.preferred then "Hz (preferred, " else "Hz (") + ("current" + ")")
  {
  }

  lemma UnmarkedIsPlain(m: PrintedMode)
    requires !m.current
    ensures Without("Hz" + Marks(m), 'c')
  {
  }

  lemma CurrentRead(m: PrintedMode)
    requires Figures(m.size) && Figures(m.hz)
    ensures Has(ModeBody(m), "current") <==> m.current
  {
    ToUnitIsPlain(m);
    if m.current {
      MarkFound(ToUnit(m), if m.preferred then "Hz (preferred, " else "Hz (");
      MarkSpelt(m);
    } else {
      UnmarkedIsPlain(m);
      WithoutConcat(ToUnit(m), "Hz" + Marks(m), 'c');
      NoOccurrence(ModeBody(m), "current");
    }
  }

  lemma ModeStripped(m: PrintedMode)
    requires Figures(m.size)
    ensures Trim(ModeLine(m), IsSpace) == ModeBody(m) && ModeLine(m)[0] == ' '
    ensures !("Enabled:" <= ModeBody(m)) && !("Transform:" <= ModeBody(m))
  {
    FiguresAreWords(m.size);
    assert ModeBody(m)[0] == m.size[0];
    assert !IsSpace(ModeBody(m)[|ModeBody(m)| - 1]);
    StripBlanks("    ", ModeBody(m));
  }

  lemma ModeRead(m: PrintedMode, rate: Rate)
    requires Figures(m.size) && Figures(m.hz)
    ensures Classify(ModeLine(m), rate) == Mode(Text(m, rate), m.current)
  {
    ModeStripped(m);
    SplitMode(m);
    ModeTextRead(m, rate);
    UnitRead(m);
    CurrentRead(m);
  }

  // ---- Block by block ----

  function ModeEntries(modes: seq<PrintedMode>, rate: Rate): seq<Line> {
    seq(|modes|, i requires 0 <= i < |modes| => Mode(Text(modes[i], rate), modes[i].current))
  }

  function BodyOf(o: Printed, rate: Rate): seq<Line> {
    [Enabled(o.on)] + [Other] + ModeEntries(o.modes, rate) + [Transform(o.transform)]
  }

  lemma ModesAreRead(modes: seq<PrintedMode>, rate: Rate)
    requires forall i | 0 <= i < |modes| :: Figures(modes[i].size) && Figures(modes[i].hz)
    ensures ClassifyAll(ModeLines(modes), rate) == ModeEntries(modes, rate)
  {
    forall i | 0 <= i < |modes| ensures Classify(ModeLine(modes[i]), rate) == ModeEntries(modes, rate)[i] {
      ModeRead(modes[i], rate);
    }
  }

  lemma ClassifyOne(line: string, rate: Rate)
    ensures ClassifyAll([line], rate) == [Classify(line, rate)]
  {
  }

  lemma BlockRead(o: Printed, rate: Rate)
    requires Printable(o)
    ensures ClassifyAll(BlockLines(o), rate) == [Header(o.name)] + BodyOf(o, rate)
  {
    var (head, end) := ([HeaderLine(o.name, o.maker)], [TransformLine(o.transform)]);
    var (top, modes) := ([EnabledLine(o.on)] + ["  Modes:"], ModeLines(o.modes));
    ClassifyConcat(head, top + modes + end, rate);
    ClassifyConcat(top + modes, end, rate);
    ClassifyConcat(top, modes, rate);
    ClassifyConcat([EnabledLine(o.on)], ["  Modes:"], rate);
    ClassifyOne(HeaderLine(o.name, o.maker), rate);
    ClassifyOne(EnabledLine(o.on), rate);
    ClassifyOne("  Modes:", rate);
    ClassifyOne(TransformLine(o.transform), rate);
    HeaderRead(o.name, o.maker, rate);
    EnabledRead(o.on, rate);
    ModesRead(rate);
    ModesAreRead(o.modes, rate);
    TransformRead(o.transform, rate);
  }

  lemma ModesGrow(modes: seq<PrintedMode>, rate: Rate)
    requires modes != []
    ensures
      var (before, last) := (modes[..|modes| - 1], modes[|modes| - 1]);
      && ModeEntries(modes, rate) == ModeEntries(before, rate) + [Mode(Text(last, rate), last.current)]
      && Texts(modes, rate) == Texts(before, rate) + [Text(last, rate)]
  {
  }

  lemma {:induction false} FeedModes(s: Scan, modes: seq<PrintedMode>, rate: Rate)
    ensures FeedAll(s, ModeEntries(modes, rate))
         == s.(block := s.block.(modes := s.block.modes + Texts(modes, rate),
                                 currentMode := CurrentOf(modes, rate, s.block.currentMode)))
  {
    if modes == [] {
      assert s.block.modes + [] == s.block.modes;
    } else {
      var (before, last) := (modes[..|modes| - 1], modes[|modes| - 1]);
      FeedModes(s, before, rate);
      ModesGrow(modes, rate);
      FeedConcat(s, ModeEntries(before, rate), [Mode(Text(last, rate), last.current)]);
      FeedOne(FeedAll(s, ModeEntries(before, rate)), Mode(Text(last, rate), last.current));
      assert s.block.modes + Texts(modes, rate) == s.block.modes + Texts(before, rate) + [Text(last, rate)];
    }
  }

  lemma FeedOne(s: Scan, l: Line)
    ensures FeedAll(s, [l]) == Feed(s, l)
  {
    assert [l][..0] == [];
  }

  lemma FeedBody(s: Scan, o: Printed, rate: Rate)
    requires s.block == NO_BLOCK.(name := o.name)
    ensures FeedAll(s, BodyOf(o, rate)) == Scan(s.outputs, AsOutput(o, rate))
  {
    var entries := ModeEntries(o.modes, rate);
    FeedConcat(s, [Enabled(o.on)] + [Other] + entries, [Transform(o.transform)]);
    FeedConcat(s, [Enabled(o.on)] + [Other], entries);
    FeedConcat(s, [Enabled(o.on)], [Other]);
    FeedOne(s, Enabled(o.on));
    FeedOne(Feed(s, Enabled(o.on)), Other);
    var s1 := FeedAll(s, [Enabled(o.on)] + [Other]);
    FeedModes(s1, o.modes, rate);
    FeedOne(FeedAll(s1, entries), Transform(o.transform));
    assert [] + Texts(o.modes, rate) == Texts(o.modes, rate);
  }

  lemma FeedBlock(s: Scan, o: Printed, rate: Rate)
    requires Printable(o)
    ensures FeedAll(s, ClassifyAll(BlockLines(o), rate)) == Scan(Flush(s), AsOutput(o, rate))
  {
    BlockRead(o, rate);
    FeedConcat(s, [Header(o.name)], BodyOf(o, rate));
    FeedOne(s, Header(o.name));
    FeedBody(Feed(s, Header(o.name)), o, rate);
  }

  lemma ClassifyConcat(a: seq<string>, b: seq<string>, rate: Rate)
    ensures ClassifyAll(a + b, rate) == ClassifyAll(a, rate) + ClassifyAll(b, rate)
  {
  }

  lemma OneMoreOutput(before: seq<string>, o: Printed, rate: Rate)
    requires Printable(o)
    ensures Listed(ClassifyAll(before + BlockLines(o), rate)) == Listed(ClassifyAll(before, rate)) + [AsOutput(o, rate)]
  {
    var start := Scan([], NO_BLOCK);
    ClassifyConcat(before, BlockLines(o), rate);
    FeedConcat(start, ClassifyAll(before, rate), ClassifyAll(BlockLines(o), rate));
    FeedBlock(FeedAll(start, ClassifyAll(before, rate)), o, rate);
  }

  lemma OutputsGrow(outputs: seq<Printed>, rate: Rate)
    requires outputs != []
    ensures AsOutputs(outputs, rate)
         == AsOutputs(outputs[..|outputs| - 1], rate) + [AsOutput(outputs[|outputs| - 1], rate)]
  {
  }

  lemma NothingReported(rate: Rate)
    ensures Listed(ClassifyAll([], rate)) == []
  {
    assert ClassifyAll([], rate) == [];
  }

  /** Whatever outputs the tool reports, they are read back one by one, in order, with their
      names, states, modes, current modes and rotations. */
  lemma {:induction false} ReportReadsBack(outputs: seq<Printed>, rate: Rate)
    requires forall i | 0 <= i < |outputs| :: Printable(outputs[i])
    ensures Listed(ClassifyAll(Report(outputs), rate)) == AsOutputs(outputs, rate)
  {
    if outputs == [] {
      NothingReported(rate);
    } else {
      var (before, last) := (outputs[..|outputs| - 1], outputs[|outputs| - 1]);
      ReportReadsBack(before, rate);
      OneMoreOutput(Report(before), last, rate);
      OutputsGrow(outputs, rate);
    }
  }
}
