/** How long a path survives saving and loading: exactly when its line fits the line buffer. */
module ConfigLimits {
  import opened ConfigText
  import opened ConfigStore
  import opened ConfigRoundTrip

  // ---- A path line too long for one chunk --------------------------------

  function LongLine(path: string): string {
    KeyLine("path", "   ", Quote(path))
  }

  /** What the second chunk of the line starts from: the end of the path and the closing quote. */
  function Overhang(path: string): string
    requires |path| > LONGEST_PATH
  {
    path[LONGEST_PATH + 1..] + "\""
  }

  lemma LongLineSplits(path: string)
    requires |path| > LONGEST_PATH
    ensures |LongLine(path)| >= LINE_BUFFER
    ensures LongLine(path)[..LINE_BUFFER - 1] == KeyLine("path", "   ", "\"" + path[..LONGEST_PATH + 1])
    ensures LongLine(path)[LINE_BUFFER - 1..] == Overhang(path)
  {
    assert LongLine(path) == KeyLine("path", "   ", "\"" + path[..LONGEST_PATH + 1]) + Overhang(path);
  }

  /** An opening quote without a closing one is no string. */
  lemma Unclosed(s: string)
    requires '"' !in s
    ensures ExtractString(" " + ("\"" + s), 260) == NotQuoted
  {
    var rhs := " " + ("\"" + s);
    assert rhs[1..] == "\"" + s && LTrim(rhs) == "\"" + s;
    assert ("\"" + s)[1..] == s;
    IndexOfAbsent(s, '"');
  }

  /** The only quote stands at the end, or there is none. */
  predicate QuoteLast(s: string) {
    forall i :: 0 <= i < |s| - 1 ==> s[i] != '"'
  }

  lemma {:induction false} TrimKeepsQuoteLast(s: string)
    requires QuoteLast(s)
    ensures QuoteLast(LTrim(s))
  {
    if s != "" && IsSpace(s[0]) {
      TrimKeepsQuoteLast(s[1..]);
    }
  }

  lemma LastQuoteIsNoString(s: string, size: nat)
    requires QuoteLast(s) && size > 0
    ensures ExtractString(s, size) == NotQuoted
  {
    TrimKeepsQuoteLast(s);
    var p := LTrim(s);
    if p != "" && p[0] == '"' {
      assert |p| == 1;
    }
  }

  lemma KeyValueKeepsQuoteLast(line: string)
    requires QuoteLast(line)
    ensures Classify(line).KeyValue? ==> QuoteLast(Classify(line).rhs)
  {
    TrimKeepsQuoteLast(line);
  }

  // ---- A rule that has lost its path -------------------------------------

  /** Rule n is in the table without its path. */
  predicate Lost(l: Loader, n: nat) {
    |l.cfg.processRules| > n && l.cfg.processRules[n].path == ""
  }

  /** Rule n is about to be committed without its path. */
  predicate Losing(l: Loader, n: nat) {
    && l.section == Process && l.process.name != "" && l.process.path == ""
    && |l.cfg.processRules| == n < MAX_PROCESS_RULES
  }

  lemma StaysLost(l: Loader, line: Line, n: nat)
    requires Lost(l, n)
    ensures Lost(Step(l, line), n) && Lost(Commit(l), n)
  {
  }

  lemma LosingIsLost(l: Loader, n: nat)
    requires Losing(l, n)
    ensures Lost(Commit(l), n)
  {
  }

  lemma {:induction false} RunStaysLost(l: Loader, text: string, n: nat)
    requires Lost(l, n)
    ensures Lost(Run(l, text), n)
    decreases |text|
  {
    if text != "" {
      var c := ChunkLength(text, LINE_BUFFER - 1);
      var line := Classify(StripEol(CString(text[..c])));
      StaysLost(l, line, n);
      RunStaysLost(Step(l, line), text[c..], n);
    }
  }

  lemma OverhangTakesNoPath(l: Loader, path: string, n: nat)
    requires Losing(l, n) && |path| > LONGEST_PATH && CleanText(path)
    ensures Lost(Step(l, Classify(Overhang(path))), n) || Losing(Step(l, Classify(Overhang(path))), n)
  {
    var line := Classify(Overhang(path));
    KeyValueKeepsQuoteLast(Overhang(path));
    match line
    case KeyValue(key, rhs) =>
      LastQuoteIsNoString(rhs, 64);
      LastQuoteIsNoString(rhs, 260);
      LastQuoteIsNoString(rhs, 16);
    case _ =>
  }

  lemma ActionKeepsLosing(l: Loader, value: string, n: nat)
    requires Losing(l, n)
    ensures Losing(Step(l, KeyValue("action", value)), n)
  {
  }

  // ---- Through the block of that rule ------------------------------------

  /** What follows the block: nothing, or the header of the next printed rule. */
  ghost predicate NextBlock(rest: string) {
    rest == "" || exists more :: rest == "[[process]]" + "\n" + more
  }

  lemma LostToTheEnd(l: Loader, text: string, n: nat)
    requires Lost(l, n)
    ensures Lost(Commit(Run(l, text)), n)
  {
    RunStaysLost(l, text, n);
    StaysLost(Run(l, text), Ignored, n);
  }

  lemma LostAtHeader(l: Loader, header: string, more: string, n: nat)
    requires Losing(l, n) && Classify(header) == ProcessHeader && FitsBuffer(header)
    ensures Lost(Commit(Run(l, header + "\n" + more)), n)
  {
    RunLine(l, header, more);
    LosingIsLost(l, n);
    LostToTheEnd(Step(l, ProcessHeader), more, n);
  }

  lemma EndsLost(l: Loader, rest: string, n: nat)
    requires Lost(l, n) || (Losing(l, n) && NextBlock(rest))
    ensures Lost(Commit(Run(l, rest)), n)
  {
    if Lost(l, n) {
      LostToTheEnd(l, rest, n);
    } else if rest == "" {
      LosingIsLost(l, n);
    } else {
      ProcessHeaderRead();
      HeadersFit();
      var more :| rest == "[[process]]" + "\n" + more;
      LostAtHeader(l, "[[process]]", more, n);
    }
  }

  lemma TailLost(l: Loader, action: string, rest: string, n: nat)
    requires Lost(l, n) || (Losing(l, n) && NextBlock(rest))
    requires action in {"never", "freq", "vcache"}
    ensures Lost(Commit(Run(l, KeyLine("action", " ", Quote(action)) + "\n" + ("" + "\n" + rest))), n)
  {
    var line := KeyLine("action", " ", Quote(action));
    QuotePlain(action);
    KeyLineFits("action", " ", Quote(action));
    KeyLineRead("action", " ", Quote(action));
    var l1 := Step(l, Classify(line));
    RunLine(l, line, "" + "\n" + rest);
    if Lost(l, n) {
      StaysLost(l, Classify(line), n);
    } else {
      ActionKeepsLosing(l, " " + Quote(action), n);
    }
    RunLine(l1, "", rest);
    EndsLost(l1, rest, n);
  }

  /** The first chunk sets nothing: its quote is not closed. */
  lemma FirstChunkIgnored(l: Loader, path: string, more: string)
    requires l.section == Process && |path| > LONGEST_PATH && CleanText(path)
    ensures Run(l, LongLine(path) + "\n" + more) == Run(l, Overhang(path) + "\n" + more)
  {
    var head := path[..LONGEST_PATH + 1];
    KeyLinePlain(path);
    LongLineSplits(path);
    KeyLineRead("path", "   ", "\"" + head);
    Unclosed(head);
    RunChunk(l, LongLine(path), more);
    NoPathSet(l, " " + ("\"" + head));
  }

  lemma NoPathSet(l: Loader, value: string)
    requires l.section == Process && ExtractString(value, 260) == NotQuoted
    ensures Step(l, KeyValue("path", value)) == l
  {
  }

  lemma PathLineLost(l: Loader, path: string, more: string, n: nat)
    returns (after: Loader)
    requires Losing(l, n) && |path| > LONGEST_PATH && CleanText(path) && |path| < 260
    ensures Lost(after, n) || Losing(after, n)
    ensures Run(l, LongLine(path) + "\n" + more) == Run(after, more)
  {
    KeyLinePlain(path);
    FirstChunkIgnored(l, path, more);
    RunChunk(l, Overhang(path), more);
    after := Step(l, Classify(Overhang(path)));
    OverhangTakesNoPath(l, path, n);
  }

  lemma KeyLinePlain(path: string)
    requires Plain(path)
    ensures Plain(LongLine(path)) && (|path| > LONGEST_PATH ==> Plain(Overhang(path)))
  {
    QuotePlain(path);
    assert Plain("path") && Plain("   ") && Plain("= ");
    PlainConcat("path", "   ");
    PlainConcat("path" + "   ", "= ");
    PlainConcat("path" + "   " + "= ", Quote(path));
  }

  lemma NameStep(cfg: AgentConfig, l: Loader, value: string, name: string)
    requires Settled(l, cfg) && ExtractString(value, 64) == Text(name)
    ensures Step(Step(l, ProcessHeader), KeyValue("name", value)) == Loader(cfg, Process, NO_OVERRIDE, NO_RULE.(name := name))
  {
    assert Step(l, ProcessHeader) == Loader(cfg, Process, NO_OVERRIDE, NO_RULE);
  }

  lemma TwoLines(l: Loader, first: string, second: string, rest: string)
    requires FitsBuffer(first) && FitsBuffer(second)
    ensures Run(l, first + "\n" + (second + "\n" + rest)) == Run(Step(Step(l, Classify(first)), Classify(second)), rest)
  {
    RunLine(l, first, second + "\n" + rest);
    RunLine(Step(l, Classify(first)), second, rest);
  }

  lemma NameLineFits(name: string)
    requires CleanText(name) && |name| < 64
    ensures FitsBuffer(KeyLine("name", "   ", Quote(name)))
    ensures Classify(KeyLine("name", "   ", Quote(name))) == KeyValue("name", " " + Quote(name))
  {
    QuotePlain(name);
    KeyLineFits("name", "   ", Quote(name));
    KeyLineRead("name", "   ", Quote(name));
  }

  lemma NameLineRead(cfg: AgentConfig, l: Loader, name: string, rest: string)
    requires Settled(l, cfg) && CleanText(name) && |name| < 64
    ensures Run(l, "[[process]]" + "\n" + (KeyLine("name", "   ", Quote(name)) + "\n" + rest))
         == Run(Loader(cfg, Process, NO_OVERRIDE, NO_RULE.(name := name)), rest)
  {
    ProcessHeaderRead();
    HeadersFit();
    NameLineFits(name);
    QuotedRead(name, 64);
    NameStep(cfg, l, " " + Quote(name), name);
    TwoLines(l, "[[process]]", KeyLine("name", "   ", Quote(name)), rest);
  }

  lemma BlockText(r: ProcessRule, rest: string)
    requires r.name != ""
    ensures Join(ProcessLines(r)) + rest
         == "[[process]]" + "\n" + (KeyLine("name", "   ", Quote(r.name)) + "\n" +
              (LongLine(r.path) + "\n" + (KeyLine("action", " ", Quote(ActionText(r.action))) + "\n" + ("" + "\n" + rest))))
  {
    JoinFive("[[process]]", KeyLine("name", "   ", Quote(r.name)), LongLine(r.path),
             KeyLine("action", " ", Quote(ActionText(r.action))), "", rest);
  }

  lemma JoinFive(a: string, b: string, c: string, d: string, e: string, rest: string)
    ensures Join([a, b, c, d, e]) + rest
         == a + "\n" + (b + "\n" + (c + "\n" + (d + "\n" + (e + "\n" + rest))))
  {
    assert [a, b, c, d, e][1..] == [b, c, d, e] && [b, c, d, e][1..] == [c, d, e];
    assert [c, d, e][1..] == [d, e] && [d, e][1..] == [e] && [e][1..] == [];
    assert Join([e]) == e + "\n";
    assert Join([d, e]) == d + "\n" + (e + "\n");
    assert Join([c, d, e]) == c + "\n" + (d + "\n" + (e + "\n"));
  }

  lemma BlockLosesPath(l: Loader, cfg: AgentConfig, r: ProcessRule, rest: string)
    requires Settled(l, cfg) && |cfg.processRules| < MAX_PROCESS_RULES
    requires r.name != "" && CleanRule(r) && !PathFits(r) && NextBlock(rest)
    ensures Lost(Commit(Run(l, Join(ProcessLines(r)) + rest)), |cfg.processRules|)
  {
    var n := |cfg.processRules|;
    var action := ActionText(r.action);
    var tail := KeyLine("action", " ", Quote(action)) + "\n" + ("" + "\n" + rest);
    BlockText(r, rest);
    NameLineRead(cfg, l, r.name, LongLine(r.path) + "\n" + tail);
    var named := Loader(cfg, Process, NO_OVERRIDE, NO_RULE.(name := r.name));
    var after := PathLineLost(named, r.path, tail, n);
    TailLost(after, action, rest, n);
  }

  // ---- The whole file ----------------------------------------------------

  lemma {:induction false} ProcessLinesConcat(a: seq<ProcessRule>, b: seq<ProcessRule>)
    ensures AllProcessLines(a + b) == AllProcessLines(a) + AllProcessLines(b)
  {
    hide ProcessLines;
    if b == [] {
      assert a + b == a;
    } else {
      assert (a + b)[..|a + b| - 1] == a + b[..|b| - 1];
      ProcessLinesConcat(a, b[..|b| - 1]);
    }
  }

  lemma {:induction false} ReturnedConcat(a: seq<ProcessRule>, b: seq<ProcessRule>)
    ensures ReturnedRules(a + b) == ReturnedRules(a) + ReturnedRules(b)
  {
    if b == [] {
      assert a + b == a;
    } else {
      assert (a + b)[..|a + b| - 1] == a + b[..|b| - 1];
      ReturnedConcat(a, b[..|b| - 1]);
    }
  }

  lemma BlockIsHeaded(r: ProcessRule, rest: string)
    requires r.name != ""
    ensures Join(ProcessLines(r)) + rest == "[[process]]" + "\n" + (Join(ProcessLines(r)[1..]) + rest)
  {
  }

  lemma OneBlock(r: ProcessRule, rest: string)
    requires NextBlock(rest)
    ensures NextBlock(Join(ProcessLines(r)) + rest)
  {
    if r.name != "" {
      BlockIsHeaded(r, rest);
    } else {
      assert Join(ProcessLines(r)) + rest == rest;
    }
  }

  lemma JoinThen(a: seq<string>, b: seq<string>, rest: string)
    ensures Join(a + b) + rest == Join(a) + (Join(b) + rest)
  {
    JoinConcat(a, b);
  }

  lemma {:induction false} TailIsNextBlock(rules: seq<ProcessRule>, rest: string)
    requires NextBlock(rest)
    ensures NextBlock(Join(AllProcessLines(rules)) + rest)
  {
    if rules == [] {
      assert Join(AllProcessLines(rules)) + rest == rest;
    } else {
      var front, last := rules[..|rules| - 1], rules[|rules| - 1];
      JoinThen(AllProcessLines(front), ProcessLines(last), rest);
      OneBlock(last, rest);
      TailIsNextBlock(front, Join(ProcessLines(last)) + rest);
    }
  }

  /** The first rule whose path does not fit loads back without it. */
  lemma LongPathIsLost(cfg: AgentConfig, k: nat)
    requires Clean(cfg) && k < |cfg.processRules|
    requires PathsFit(cfg.processRules[..k]) && !PathFits(cfg.processRules[k])
    ensures LoadText(SaveText(cfg)) != Reloaded(cfg)
  {
    var rules, r := cfg.processRules, cfg.processRules[k];
    var n := |ReturnedRules(rules[..k])|;
    var rest := Join(AllProcessLines(rules[k + 1..]));
    SavedText(cfg, k);
    ReadThrough(cfg, k);
    RunThrough(cfg, k, Join(ProcessLines(r)) + rest);
    TailIsNextBlock(rules[k + 1..], "");
    assert rest + "" == rest;
    BlockLosesPath(RunLines(START, LinesThrough(cfg, k)), ReloadedThrough(cfg, k), r, rest);
    ReturnedAt(rules, k);
    assert Reloaded(cfg).processRules[n].path == r.path != "";
  }

  /** Where rule k of the configuration stands among those that are printed. */
  lemma ReturnedAt(rules: seq<ProcessRule>, k: nat)
    requires k < |rules| && rules[k].name != ""
    ensures |ReturnedRules(rules[..k])| < |ReturnedRules(rules)|
    ensures ReturnedRules(rules)[|ReturnedRules(rules[..k])|] == ReturnedRule(rules[k])
  {
    assert rules == rules[..k] + ([rules[k]] + rules[k + 1..]);
    ReturnedConcat(rules[..k], [rules[k]] + rules[k + 1..]);
    ReturnedConcat([rules[k]], rules[k + 1..]);
    assert ReturnedRules([rules[k]]) == [ReturnedRule(rules[k])];
  }

  lemma RulesSplit(rules: seq<ProcessRule>, k: nat)
    requires k < |rules|
    ensures AllProcessLines(rules)
         == AllProcessLines(rules[..k]) + (ProcessLines(rules[k]) + AllProcessLines(rules[k + 1..]))
  {
    var r := rules[k];
    assert rules == rules[..k] + ([r] + rules[k + 1..]);
    ProcessLinesConcat(rules[..k], [r] + rules[k + 1..]);
    ProcessLinesConcat([r], rules[k + 1..]);
    assert [r][..0] == [];
    assert AllProcessLines([r]) == AllProcessLines([]) + ProcessLines(r) == ProcessLines(r);
  }

  lemma JoinSplit(front: seq<string>, first: seq<string>, block: seq<string>, tail: seq<string>)
    ensures Join(front + (first + (block + tail))) == Join(front + first) + (Join(block) + Join(tail))
  {
    assert front + (first + (block + tail)) == (front + first) + (block + tail);
    JoinConcat(front + first, block + tail);
    JoinConcat(block, tail);
  }

  lemma SavedText(cfg: AgentConfig, k: nat)
    requires k < |cfg.processRules|
    ensures SaveText(cfg)
         == Join(LinesThrough(cfg, k)) +
            (Join(ProcessLines(cfg.processRules[k])) + Join(AllProcessLines(cfg.processRules[k + 1..])))
  {
    var rules := cfg.processRules;
    var front := FrontLines(cfg) + AllRuleLines(cfg.overrides) + ProcessComment();
    RulesSplit(rules, k);
    JoinSplit(front, AllProcessLines(rules[..k]), ProcessLines(rules[k]), AllProcessLines(rules[k + 1..]));
    assert SaveLines(cfg) == front + AllProcessLines(rules);
    assert LinesThrough(cfg, k) == front + AllProcessLines(rules[..k]);
  }

  /** The exact limit of the round trip, for every configuration the tables can hold: a path comes
      back when its line fits the parser's buffer, and a longer one does not. */
  lemma RoundTripIffPathsFit(cfg: AgentConfig)
    requires Clean(cfg)
    ensures LoadText(SaveText(cfg)) == Reloaded(cfg) <==> PathsFit(cfg.processRules)
  {
    if PathsFit(cfg.processRules) {
      LoadOfSave(cfg);
    } else {
      var k := FirstMisfit(cfg.processRules);
      LongPathIsLost(cfg, k);
    }
  }

  lemma {:induction false} FirstMisfit(rules: seq<ProcessRule>) returns (k: nat)
    requires !PathsFit(rules)
    ensures k < |rules| && PathsFit(rules[..k]) && !PathFits(rules[k])
  {
    k := 0;
    while PathFits(rules[k])
      invariant k < |rules| && PathsFit(rules[..k])
      invariant exists i :: k <= i < |rules| && !PathFits(rules[i])
      decreases |rules| - k
    {
      k := k + 1;
    }
  }
}
