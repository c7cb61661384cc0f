/** Loading what was saved. */
module ConfigRoundTrip {
  import opened Common
  import opened ConfigText
  import opened ConfigStore

  // ---- Lines come back ---------------------------------------------------

  predicate Plain(s: string) {
    forall i :: 0 <= i < |s| ==> s[i] != '\n' && s[i] != '\r' && s[i] != '\0'
  }

  /** A printed line that one fgets takes whole - if it fills the buffer, without its newline. */
  predicate FitsBuffer(line: string) {
    Plain(line) && |line| < LINE_BUFFER
  }

  function RunLines(l: Loader, lines: seq<string>): Loader
    decreases |lines|
  {
    if lines == [] then l else RunLines(Step(l, Classify(lines[0])), lines[1..])
  }

  lemma {:induction false} ChunkIsLine(line: string, rest: string, limit: nat)
    requires Plain(line)
    ensures |line| < limit ==> ChunkLength(line + "\n" + rest, limit) == |line| + 1
    ensures |line| >= limit ==> ChunkLength(line + "\n" + rest, limit) == limit
  {
    if line == "" {
      assert (line + "\n" + rest)[0] == '\n';
    } else if limit > 0 {
      assert (line + "\n" + rest)[1..] == line[1..] + "\n" + rest;
      ChunkIsLine(line[1..], rest, limit - 1);
    }
  }

  lemma {:induction false} IndexOfAbsent(s: string, c: char)
    requires c !in s
    ensures IndexOf(s, c) == |s|
  {
  }

  lemma StripPlain(line: string)
    requires Plain(line)
    ensures StripEol(CString(line + "\n")) == line
  {
    IndexOfAbsent(line + "\n", '\0');
    assert (line + "\n")[..|line + "\n"|] == line + "\n";
    assert (line + "\n")[..|line|] == line;
  }

  lemma StripUnbroken(line: string)
    requires Plain(line)
    ensures StripEol(CString(line)) == line
  {
    IndexOfAbsent(line, '\0');
    assert line[..|line|] == line;
  }

  /** One printed line, however long: a first chunk of at most 255 characters, then the others. */
  lemma RunChunk(l: Loader, line: string, rest: string)
    requires Plain(line)
    ensures Run(l, line + "\n" + rest)
         == if |line| < LINE_BUFFER - 1 then Run(Step(l, Classify(line)), rest)
            else Run(Step(l, Classify(line[..LINE_BUFFER - 1])), line[LINE_BUFFER - 1..] + "\n" + rest)
  {
    var text, n := line + "\n" + rest, LINE_BUFFER - 1;
    ChunkIsLine(line, rest, n);
    if |line| < n {
      assert text[..|line| + 1] == line + "\n" && text[|line| + 1..] == rest;
      StripPlain(line);
    } else {
      assert text[..n] == line[..n] && text[n..] == line[n..] + "\n" + rest;
      StripUnbroken(line[..n]);
    }
  }

  lemma RunLine(l: Loader, line: string, rest: string)
    requires FitsBuffer(line)
    ensures Run(l, line + "\n" + rest) == Run(Step(l, Classify(line)), rest)
  {
    RunChunk(l, line, rest);
    if |line| == LINE_BUFFER - 1 {
      assert line[..|line|] == line && line[|line|..] == "";
      RunChunk(Step(l, Classify(line)), "", rest);
    }
  }

  lemma {:induction false} RunIsLines(l: Loader, lines: seq<string>, rest: string)
    requires forall line :: line in lines ==> FitsBuffer(line)
    ensures Run(l, Join(lines) + rest) == Run(RunLines(l, lines), rest)
    decreases |lines|
  {
    if lines == [] {
      assert Join(lines) + rest == rest;
    } else {
      var line, more := lines[0], Join(lines[1..]) + rest;
      assert Join(lines) + rest == line + "\n" + more;
      RunLine(l, line, more);
      RunIsLines(Step(l, Classify(line)), lines[1..], rest);
    }
  }

  lemma {:induction false} RunLinesConcat(l: Loader, a: seq<string>, b: seq<string>)
    ensures RunLines(l, a + b) == RunLines(RunLines(l, a), b)
    decreases |a|
  {
    if a == [] {
      assert a + b == b;
    } else {
      assert (a + b)[1..] == a[1..] + b;
      RunLinesConcat(Step(l, Classify(a[0])), a[1..], b);
    }
  }

  // ---- Keys and values come back -----------------------------------------

  predicate IsKey(key: string) {
    && 0 < |key| < 63 && key[0] != '#' && key[0] != '['
    && forall i :: 0 <= i < |key| ==> !IsSpace(key[i]) && key[i] != '='
  }

  predicate Blank(pad: string) {
    forall i :: 0 <= i < |pad| ==> pad[i] == ' '
  }

  lemma {:induction false} IndexOfFirst(a: string, c: char, b: string)
    requires c !in a
    ensures IndexOf(a + [c] + b, c) == |a|
  {
    if a == "" {
      assert (a + [c] + b)[0] == c;
    } else {
      assert (a + [c] + b)[1..] == a[1..] + [c] + b;
      IndexOfFirst(a[1..], c, b);
    }
  }

  lemma {:induction false} TrimKey(key: string, pad: string)
    requires IsKey(key) && Blank(pad)
    ensures RTrim(key + pad) == key
  {
    if pad == "" {
      assert key + pad == key;
    } else {
      assert (key + pad)[..|key + pad| - 1] == key + pad[..|pad| - 1];
      TrimKey(key, pad[..|pad| - 1]);
    }
  }

  lemma KeyLineRead(key: string, pad: string, value: string)
    requires IsKey(key) && Blank(pad)
    ensures Classify(KeyLine(key, pad, value)) == KeyValue(key, " " + value)
  {
    var line, rhs := KeyLine(key, pad, value), " " + value;
    assert line[0] == key[0];
    assert LTrim(line) == line;
    assert line == (key + pad) + ['='] + rhs;
    assert '=' !in key + pad;
    IndexOfFirst(key + pad, '=', rhs);
    var eq := IndexOf(line, '=');
    assert line[..eq] == key + pad && line[eq + 1..] == rhs;
    TrimKey(key, pad);
  }

  lemma QuotedRead(s: string, size: nat)
    requires '"' !in s && |s| < size
    ensures ExtractString(" " + Quote(s), size) == Text(s)
  {
    var rhs := " " + Quote(s);
    assert rhs[1..] == Quote(s);
    assert LTrim(rhs) == Quote(s);
    assert Quote(s)[1..] == s + ['"'] + "";
    IndexOfFirst(s, '"', "");
  }

  lemma BoolRead(b: bool)
    ensures ExtractBool(" " + BoolText(b)) == b
  {
    assert (" " + BoolText(b))[1..] == BoolText(b);
    assert LTrim(" " + BoolText(b)) == BoolText(b);
  }

  lemma UintRead(n: U64, rest: string)
    requires rest == "" || DigitValue(rest[0], 10) == 10
    ensures ExtractUint(" " + (Print(n, 10) + rest)) == n
  {
    var v := Print(n, 10) + rest;
    PrintStartsWithDigit(n, 10);
    assert v[0] == Print(n, 10)[0];
    assert (" " + v)[1..] == v && LTrim(" " + v) == v;
    DecimalRoundTrip(n, rest);
  }

  lemma MaskRead(n: U64)
    ensures ExtractMask(" " + ("0x" + Print(n, 16))) == n
  {
    var v := "0x" + Print(n, 16);
    assert (" " + v)[1..] == v && v[0] == '0' && v[1] == 'x';
    assert LTrim(" " + v) == v;
    HexRoundTrip(n);
  }

  lemma DefaultConfidenceRead()
    ensures ExtractUint(" " + DefaultConfidence()) == 255
  {
    Print255();
    UintRead(255, "  # use rule default");
  }

  lemma Print255()
    ensures Print(255, 10) == "255"
  {
    assert Print(2, 10) == "2";
    assert Print(25, 10) == "25";
  }

  lemma ZeroMaskRead(rest: string)
    requires rest != "" && rest[0] == ' '
    ensures ExtractMask(" " + ("0" + rest)) == 0
  {
    var v := "0" + rest;
    assert (" " + v)[1..] == v && v[0] == '0' && v[1] == ' ';
    assert LTrim(" " + v) == v;
    assert Print(0, 10) == "0";
    DecimalRoundTrip(0, rest);
  }

  lemma DefaultMaskRead()
    ensures ExtractMask(" " + DefaultMask()) == 0
  {
    ZeroMaskRead("    # use rule default");
  }

  // ---- What comes back ---------------------------------------------------

  function Returned(o: PolicyOverride): PolicyOverride {
    o.(confidence := if o.confidence <= 100 then o.confidence else 255)
  }

  function ReturnedRule(r: ProcessRule): ProcessRule {
    r.(action := if r.action <= 2 then r.action else 0)
  }

  function ReturnedOverrides(rules: seq<PolicyOverride>): (out: seq<PolicyOverride>)
    ensures |out| <= |rules|
  {
    if rules == [] then []
    else
      var o := rules[|rules| - 1];
      ReturnedOverrides(rules[..|rules| - 1]) + (if o.name == "" then [] else [Returned(o)])
  }

  function ReturnedRules(rules: seq<ProcessRule>): (out: seq<ProcessRule>)
    ensures |out| <= |rules|
  {
    if rules == [] then []
    else
      var r := rules[|rules| - 1];
      ReturnedRules(rules[..|rules| - 1]) +
      (if r.name == "" then [] else [ReturnedRule(r)])
  }

  /** The current version, no blank-named rules, and out-of-range confidences and actions at the
      values that mean "default" and "never"; everything else as it was. */
  function Reloaded(cfg: AgentConfig): AgentConfig {
    cfg.(version := VERSION, overrides := ReturnedOverrides(cfg.overrides), processRules := ReturnedRules(cfg.processRules))
  }

  // ---- What can be printed -----------------------------------------------

  predicate CleanText(s: string) {
    Plain(s) && '"' !in s
  }

  predicate PrintableOverride(o: PolicyOverride) {
    CleanText(o.name) && |o.name| < 40
  }

  /** path = "..." is at most 255 characters long. */
  const LONGEST_PATH := 244

  /** Fits the fields char name[64] and char path[260]. A blank-named rule is not printed. */
  predicate CleanRule(r: ProcessRule) {
    r.name == "" || (CleanText(r.name) && |r.name| < 64 && CleanText(r.path) && |r.path| < 260)
  }

  predicate PathFits(r: ProcessRule) {
    r.name == "" || |r.path| <= LONGEST_PATH
  }

  predicate PrintableRule(r: ProcessRule) {
    CleanRule(r) && PathFits(r)
  }

  /** Within the table limits, and with strings that can stand between quotes on one line. */
  predicate Clean(cfg: AgentConfig) {
    && |cfg.overrides| <= MAX_RULES && |cfg.processRules| <= MAX_PROCESS_RULES
    && (forall i :: 0 <= i < |cfg.overrides| ==> PrintableOverride(cfg.overrides[i]))
    && (forall i :: 0 <= i < |cfg.processRules| ==> CleanRule(cfg.processRules[i]))
  }

  predicate PathsFit(rules: seq<ProcessRule>) {
    forall i :: 0 <= i < |rules| ==> PathFits(rules[i])
  }

  // ---- Every printed line fits -------------------------------------------

  lemma {:induction false} PrintIsPlain(n: nat, base: nat)
    requires base == 10 || base == 16
    ensures Plain(Print(n, base))
  {
    if n >= base {
      DivMod(n, base);
      PrintIsPlain(n / base, base);
    }
  }

  function Pow16(k: nat): nat {
    if k == 0 then 1 else 16 * Pow16(k - 1)
  }

  lemma {:induction false} HexIsShort(n: nat, k: nat)
    requires k > 0 && n < Pow16(k)
    ensures |Print(n, 16)| <= k
  {
    if n >= 16 {
      assert Pow16(1) == 16 * Pow16(0);
      HexIsShort(n / 16, k - 1);
    }
  }

  lemma Pow16Is64Bits()
    ensures Pow16(16) == 0x1_0000_0000_0000_0000
  {
    assert Pow16(4) == 0x1_0000;
    assert Pow16(8) == 0x1_0000_0000;
    assert Pow16(12) == 0x1_0000_0000_0000;
  }

  lemma ByteIsShort(n: Byte)
    ensures |Print(n, 10)| <= 3
  {
    assert n >= 10 ==> Print(n, 10) == Print(n / 10, 10) + [DigitChar(n % 10)];
    assert n >= 100 ==> |Print(n / 100, 10)| == 1;
  }

  lemma PlainConcat(a: string, b: string)
    requires Plain(a) && Plain(b)
    ensures Plain(a + b)
  {
  }

  lemma KeyLineFits(key: string, pad: string, value: string)
    requires Plain(key) && Blank(pad) && Plain(value) && |key| + |pad| + |value| + 2 < LINE_BUFFER
    ensures FitsBuffer(KeyLine(key, pad, value))
  {
    assert Plain(pad) && Plain("= ");
    PlainConcat(key, pad);
    PlainConcat(key + pad, "= ");
    PlainConcat(key + pad + "= ", value);
  }

  lemma QuotePlain(s: string)
    requires Plain(s)
    ensures Plain(Quote(s)) && |Quote(s)| == |s| + 2
  {
    PlainConcat("\"", s);
    PlainConcat("\"" + s, "\"");
  }

  lemma RuleLinesFit(o: PolicyOverride)
    requires PrintableOverride(o)
    ensures forall line :: line in RuleLines(o) ==> FitsBuffer(line)
  {
    QuotePlain(o.name);
    ConfidencePlain(o.confidence);
    MaskPlain(o.coreMask);
    KeyLineFits("name", "       ", Quote(o.name));
    KeyLineFits("enabled", "    ", BoolText(o.enabled));
    KeyLineFits("confidence", " ", ConfidenceText(o.confidence));
    KeyLineFits("core_mask", "  ", MaskText(o.coreMask));
    HeadersFit();
  }

  lemma HeadersFit()
    ensures FitsBuffer("[[rule]]") && FitsBuffer("[[process]]") && FitsBuffer("[corral]") && FitsBuffer("")
  {
  }

  lemma ConfidencePlain(c: Byte)
    ensures Plain(ConfidenceText(c)) && |ConfidenceText(c)| < 30
  {
    PrintIsPlain(c, 10);
    ByteIsShort(c);
  }

  lemma MaskPlain(m: U64)
    ensures Plain(MaskText(m)) && |MaskText(m)| < 30
  {
    PrintIsPlain(m, 16);
    Pow16Is64Bits();
    HexIsShort(m, 16);
    PlainConcat("0x", Print(m, 16));
  }

  lemma ProcessLinesFit(r: ProcessRule)
    requires PrintableRule(r)
    ensures forall line :: line in ProcessLines(r) ==> FitsBuffer(line)
  {
    if r.name == "" {
      return;
    }
    QuotePlain(r.name);
    QuotePlain(r.path);
    QuotePlain(ActionText(r.action));
    KeyLineFits("name", "   ", Quote(r.name));
    KeyLineFits("path", "   ", Quote(r.path));
    KeyLineFits("action", " ", Quote(ActionText(r.action)));
    HeadersFit();
  }

  lemma {:induction false} AllRuleLinesFit(rules: seq<PolicyOverride>)
    requires forall i :: 0 <= i < |rules| ==> PrintableOverride(rules[i])
    ensures forall line :: line in AllRuleLines(rules) ==> FitsBuffer(line)
  {
    if rules != [] {
      AllRuleLinesFit(rules[..|rules| - 1]);
      RuleLinesFit(rules[|rules| - 1]);
    }
  }

  lemma {:induction false} AllProcessLinesFit(rules: seq<ProcessRule>)
    requires forall i :: 0 <= i < |rules| ==> PrintableRule(rules[i])
    ensures forall line :: line in AllProcessLines(rules) ==> FitsBuffer(line)
  {
    if rules != [] {
      AllProcessLinesFit(rules[..|rules| - 1]);
      ProcessLinesFit(rules[|rules| - 1]);
    }
  }

  predicate AllFit(lines: seq<string>) {
    forall line <- lines :: FitsBuffer(line)
  }

  lemma CommentFits(line: string, a: string, b: string)
    requires line == a + b && Plain(a) && Plain(b) && |a| + |b| < 200
    ensures FitsBuffer(line)
  {
    PlainConcat(a, b);
  }

  lemma GeneratedByFits()
    ensures FitsBuffer(GeneratedBy())
  {
    CommentFits(GeneratedBy(), "# Generated by Phynned v0.2.2-", "experimental \U{2014} edit with care.");
  }

  lemma ProfileCommentFits()
    ensures FitsBuffer(ProfileComment())
  {
    CommentFits(ProfileComment(), "# profile: \"monitor\" | \"games\"", " | \"games_corral\" | \"full\"");
  }

  lemma CorralCommentFits()
    ensures FitsBuffer(CorralCommentA()) && FitsBuffer(CorralCommentB())
  {
    CommentFits(CorralCommentA(), "# Background corral: moves active ", "non-game background off the V-Cache");
    CommentFits(CorralCommentB(), "# CCD onto the frequency CCD. ", "`enabled` survives an agent restart.");
  }

  lemma ProcessCommentAFits()
    ensures FitsBuffer(ProcessCommentA())
  {
    CommentFits(ProcessCommentA(), "# Per-process user rules. ", "action: \"never\" | \"freq\" | \"vcache\".");
  }

  lemma ProcessCommentBFits()
    ensures FitsBuffer(ProcessCommentB())
  {
    CommentFits(ProcessCommentB(), "# name = exe basename (required). ", "path = optional; \"\" matches any path.");
  }

  lemma CommentsFit()
    ensures AllFit(Header()) && AllFit(CorralComment()) && AllFit(ProcessComment())
  {
    GeneratedByFits();
    ProfileCommentFits();
    CorralCommentFits();
    ProcessCommentAFits();
    ProcessCommentBFits();
    assert FitsBuffer("# Phynned policies configuration");
    assert FitsBuffer("# op_mode: \"auto\" | \"assist\" | \"manual\"");
    HeadersFit();
  }

  lemma FrontLinesFit(cfg: AgentConfig)
    ensures AllFit(RootLines(cfg)) && AllFit(CorralLines(cfg))
  {
    assert Print(VERSION, 10) == "2";
    QuotePlain(OpModeText(cfg.opMode));
    QuotePlain(ProfileText(cfg.profile));
    KeyLineFits("version", " ", Print(VERSION, 10));
    KeyLineFits("op_mode", " ", Quote(OpModeText(cfg.opMode)));
    KeyLineFits("profile", " ", Quote(ProfileText(cfg.profile)));
    KeyLineFits("enabled", "                    ", BoolText(cfg.corralEnabled));
    KeyLineFits("keep_placements_on_disable", " ", BoolText(cfg.keepOnDisable));
    HeadersFit();
  }

  /** The saved lines through the first k process rules. */
  function LinesThrough(cfg: AgentConfig, k: nat): seq<string>
    requires k <= |cfg.processRules|
  {
    FrontLines(cfg) + AllRuleLines(cfg.overrides) +
    (if cfg.processRules != [] then ProcessComment() else []) + AllProcessLines(cfg.processRules[..k])
  }

  lemma LinesThroughFit(cfg: AgentConfig, k: nat)
    requires Clean(cfg) && k <= |cfg.processRules| && PathsFit(cfg.processRules[..k])
    ensures AllFit(LinesThrough(cfg, k))
  {
    CommentsFit();
    FrontLinesFit(cfg);
    AllRuleLinesFit(cfg.overrides);
    AllProcessLinesFit(cfg.processRules[..k]);
  }

  // ---- Blocks come back --------------------------------------------------

  predicate IsComment(line: string) {
    line == "" || line[0] == '#'
  }

  lemma CommentsStart()
    ensures forall line <- Header() :: IsComment(line)
    ensures forall line <- CorralComment() :: IsComment(line)
    ensures forall line <- ProcessComment() :: IsComment(line)
  {
  }

  lemma {:induction false} CommentsIgnored(l: Loader, lines: seq<string>)
    requires forall line <- lines :: IsComment(line)
    ensures RunLines(l, lines) == l
    decreases |lines|
  {
    if lines != [] {
      assert lines[0] in lines;
      CommentsIgnored(l, lines[1..]);
    }
  }

  /** A block line by line, as far as the parser sees it. */
  function Steps(l: Loader, lines: seq<Line>): Loader
    decreases |lines|
  {
    if lines == [] then l else Steps(Step(l, lines[0]), lines[1..])
  }

  lemma {:induction false} RunIsSteps(l: Loader, lines: seq<string>, seen: seq<Line>)
    requires |seen| == |lines| && forall i :: 0 <= i < |lines| ==> Classify(lines[i]) == seen[i]
    ensures RunLines(l, lines) == Steps(l, seen)
    decreases |lines|
  {
    if lines != [] {
      RunIsSteps(Step(l, seen[0]), lines[1..], seen[1..]);
    }
  }

  lemma RuleHeaderRead()
    ensures Classify("[[rule]]") == RuleHeader
  {
    StartsWithSelf("[[rule]]");
  }

  lemma ProcessHeaderRead()
    ensures Classify("[[process]]") == ProcessHeader
  {
    StartsWithSelf("[[process]]");
    DifferAt("[[process]]", "[[rule]]", 2);
  }

  lemma CorralHeaderRead()
    ensures Classify("[corral]") == CorralHeader
  {
    StartsWithSelf("[corral]");
    DifferAt("[corral]", "[[rule]]", 1);
    DifferAt("[corral]", "[[process]]", 1);
  }

  lemma {:induction false} DifferAt(s: string, prefix: string, i: nat)
    requires i < |s| && i < |prefix| && s[i] != prefix[i]
    ensures !StartsWith(s, prefix)
  {
    if i > 0 {
      DifferAt(s[1..], prefix[1..], i - 1);
    }
  }

  lemma RuleLinesRead(name: string, enabled: string, confidence: string, mask: string)
    ensures Classify(KeyLine("name", "       ", name)) == KeyValue("name", " " + name)
    ensures Classify(KeyLine("enabled", "    ", enabled)) == KeyValue("enabled", " " + enabled)
    ensures Classify(KeyLine("confidence", " ", confidence)) == KeyValue("confidence", " " + confidence)
    ensures Classify(KeyLine("core_mask", "  ", mask)) == KeyValue("core_mask", " " + mask)
  {
    RuleKeys();
    KeyLineRead("name", "       ", name);
    KeyLineRead("enabled", "    ", enabled);
    KeyLineRead("confidence", " ", confidence);
    KeyLineRead("core_mask", "  ", mask);
  }

  lemma RuleKeys()
    ensures IsKey("name") && IsKey("enabled") && IsKey("confidence") && IsKey("core_mask")
    ensures Blank("       ") && Blank("    ") && Blank(" ") && Blank("  ")
  {
  }

  lemma ProcessLinesRead(name: string, path: string, action: string)
    ensures Classify(KeyLine("name", "   ", name)) == KeyValue("name", " " + name)
    ensures Classify(KeyLine("path", "   ", path)) == KeyValue("path", " " + path)
    ensures Classify(KeyLine("action", " ", action)) == KeyValue("action", " " + action)
  {
    KeyLineRead("name", "   ", name);
    KeyLineRead("path", "   ", path);
    KeyLineRead("action", " ", action);
  }

  lemma RootLinesRead(version: string, mode: string, profile: string)
    ensures Classify(KeyLine("version", " ", version)) == KeyValue("version", " " + version)
    ensures Classify(KeyLine("op_mode", " ", mode)) == KeyValue("op_mode", " " + mode)
    ensures Classify(KeyLine("profile", " ", profile)) == KeyValue("profile", " " + profile)
  {
    KeyLineRead("version", " ", version);
    KeyLineRead("op_mode", " ", mode);
    KeyLineRead("profile", " ", profile);
  }

  lemma CorralLinesRead(enabled: string, keep: string)
    ensures Classify(KeyLine("enabled", "                    ", enabled)) == KeyValue("enabled", " " + enabled)
    ensures Classify(KeyLine("keep_placements_on_disable", " ", keep))
         == KeyValue("keep_placements_on_disable", " " + keep)
  {
    KeyLineRead("enabled", "                    ", enabled);
    KeyLineRead("keep_placements_on_disable", " ", keep);
  }

  lemma ConfidenceRead(c: Byte)
    ensures ExtractUint(" " + ConfidenceText(c)) == c
  {
    if c != 255 {
      UintRead(c, "");
      assert Print(c, 10) + "" == Print(c, 10);
    } else {
      DefaultConfidenceRead();
    }
  }

  lemma MaskTextRead(m: U64)
    ensures ExtractMask(" " + MaskText(m)) == m
  {
    if m != 0 {
      MaskRead(m);
    } else {
      DefaultMaskRead();
    }
  }

  lemma SetsRule(l: Loader, name: string, enabled: string, confidence: string, mask: string, o: PolicyOverride)
    requires l.section == Rule && l.rule == NO_OVERRIDE
    requires ExtractString(name, 40) == Text(o.name) && ExtractBool(enabled) == o.enabled
    requires ExtractUint(confidence) == o.confidence && ExtractMask(mask) == o.coreMask
    ensures Steps(l, [KeyValue("name", name), KeyValue("enabled", enabled), KeyValue("confidence", confidence),
                      KeyValue("core_mask", mask), Ignored]) == l.(rule := Returned(o))
  {
    FiveSteps(l, KeyValue("name", name), KeyValue("enabled", enabled), KeyValue("confidence", confidence),
              KeyValue("core_mask", mask), Ignored);
  }

  lemma SetRuleReads(l: Loader, o: PolicyOverride)
    requires l.section == Rule && l.rule == NO_OVERRIDE && PrintableOverride(o)
    ensures Steps(l, RuleBody(o)) == l.(rule := Returned(o))
  {
    QuotedRead(o.name, 40);
    BoolRead(o.enabled);
    ConfidenceRead(o.confidence);
    MaskTextRead(o.coreMask);
    SetsRule(l, " " + Quote(o.name), " " + BoolText(o.enabled), " " + ConfidenceText(o.confidence), " " + MaskText(o.coreMask), o);
  }

  lemma FiveSteps(l: Loader, a: Line, b: Line, c: Line, d: Line, e: Line)
    ensures Steps(l, [a, b, c, d, e]) == Step(Step(Step(Step(Step(l, a), b), c), d), e)
  {
    FourSteps(Step(l, a), b, c, d, e);
    assert [a, b, c, d, e][1..] == [b, c, d, e];
  }

  lemma FourSteps(l: Loader, a: Line, b: Line, c: Line, d: Line)
    ensures Steps(l, [a, b, c, d]) == Step(Step(Step(Step(l, a), b), c), d)
  {
    ThreeSteps(Step(l, a), b, c, d);
    assert [a, b, c, d][1..] == [b, c, d];
  }

  lemma ThreeSteps(l: Loader, a: Line, b: Line, c: Line)
    ensures Steps(l, [a, b, c]) == Step(Step(Step(l, a), b), c)
  {
    var l1 := Step(l, a);
    var l2 := Step(l1, b);
    assert [a, b, c][1..] == [b, c] && [b, c][1..] == [c] && [c][1..] == [];
    assert Steps(l2, [c]) == Steps(Step(l2, c), []);
    assert Steps(l1, [b, c]) == Steps(l2, [c]);
  }

  lemma FirstStep(l: Loader, a: Line, lines: seq<Line>)
    ensures Steps(l, [a] + lines) == Steps(Step(l, a), lines)
  {
    assert ([a] + lines)[1..] == lines;
  }

  lemma SetProcessReads(l: Loader, r: ProcessRule)
    requires l.section == Process && l.process == NO_RULE && PrintableRule(r) && r.name != ""
    ensures Steps(l, ProcessBody(r)) == l.(process := ReturnedRule(r))
  {
    QuotedRead(r.name, 64);
    QuotedRead(r.path, 260);
    QuotedRead(ActionText(r.action), 16);
    var b := ProcessBody(r);
    FourSteps(l, b[0], b[1], b[2], b[3]);
  }

  /** Between blocks: nothing half-read but the record the open section still holds. */
  predicate Settled(l: Loader, cfg: AgentConfig) {
    var c := Commit(l);
    c.cfg == cfg && c.rule == NO_OVERRIDE && c.process == NO_RULE
  }

  ghost predicate Reads(lines: seq<string>, seen: seq<Line>) {
    |seen| == |lines| && forall i :: 0 <= i < |lines| ==> Classify(lines[i]) == seen[i]
  }

  function RuleBody(o: PolicyOverride): seq<Line> {
    [KeyValue("name", " " + Quote(o.name)), KeyValue("enabled", " " + BoolText(o.enabled)),
     KeyValue("confidence", " " + ConfidenceText(o.confidence)), KeyValue("core_mask", " " + MaskText(o.coreMask)), Ignored]
  }

  function ProcessBody(r: ProcessRule): seq<Line> {
    [KeyValue("name", " " + Quote(r.name)), KeyValue("path", " " + Quote(r.path)),
     KeyValue("action", " " + Quote(ActionText(r.action))), Ignored]
  }

  lemma ReadsCons(line: string, kind: Line, lines: seq<string>, seen: seq<Line>)
    requires Classify(line) == kind && Reads(lines, seen)
    ensures Reads([line] + lines, [kind] + seen)
  {
  }

  lemma RuleBodyReads(name: string, enabled: string, confidence: string, mask: string)
    ensures Reads([KeyLine("name", "       ", name), KeyLine("enabled", "    ", enabled),
                   KeyLine("confidence", " ", confidence), KeyLine("core_mask", "  ", mask), ""],
                  [KeyValue("name", " " + name), KeyValue("enabled", " " + enabled),
                   KeyValue("confidence", " " + confidence), KeyValue("core_mask", " " + mask), Ignored])
  {
    RuleLinesRead(name, enabled, confidence, mask);
  }

  lemma RuleBlockReads(o: PolicyOverride)
    requires o.name != ""
    ensures Reads(RuleLines(o), [RuleHeader] + RuleBody(o))
  {
    RuleHeaderRead();
    RuleBodyReads(Quote(o.name), BoolText(o.enabled), ConfidenceText(o.confidence), MaskText(o.coreMask));
    ReadsCons("[[rule]]", RuleHeader, RuleLines(o)[1..], RuleBody(o));
  }

  lemma ProcessBlockReads(r: ProcessRule)
    requires r.name != ""
    ensures Reads(ProcessLines(r), [ProcessHeader] + ProcessBody(r))
  {
    ProcessHeaderRead();
    ProcessLinesRead(Quote(r.name), Quote(r.path), Quote(ActionText(r.action)));
  }

  /** A block whose lines are a header and a body. */
  lemma ReadBlock(l: Loader, lines: seq<string>, header: Line, body: seq<Line>)
    requires Reads(lines, [header] + body)
    ensures RunLines(l, lines) == Steps(Step(l, header), body)
  {
    RunIsSteps(l, lines, [header] + body);
    FirstStep(l, header, body);
  }

  lemma ReadRuleBlock(l: Loader, cfg: AgentConfig, o: PolicyOverride)
    requires Settled(l, cfg) && o.name != "" && PrintableOverride(o)
    ensures RunLines(l, RuleLines(o)) == Loader(cfg, Rule, Returned(o), NO_RULE)
  {
    RuleBlockReads(o);
    ReadBlock(l, RuleLines(o), RuleHeader, RuleBody(o));
    SetRuleReads(Step(l, RuleHeader), o);
  }

  lemma ReadProcessBlock(l: Loader, cfg: AgentConfig, r: ProcessRule)
    requires Settled(l, cfg) && r.name != "" && PrintableRule(r)
    ensures RunLines(l, ProcessLines(r))
         == Loader(cfg, Process, NO_OVERRIDE, ReturnedRule(r))
  {
    ProcessBlockReads(r);
    ReadBlock(l, ProcessLines(r), ProcessHeader, ProcessBody(r));
    SetProcessReads(Step(l, ProcessHeader), r);
  }

  lemma {:induction false} ReadAllRules(l: Loader, cfg: AgentConfig, rules: seq<PolicyOverride>)
    requires Settled(l, cfg) && cfg.overrides == [] && |rules| <= MAX_RULES
    requires forall i :: 0 <= i < |rules| ==> PrintableOverride(rules[i])
    ensures Settled(RunLines(l, AllRuleLines(rules)), cfg.(overrides := ReturnedOverrides(rules)))
  {
    if rules != [] {
      var front, o := rules[..|rules| - 1], rules[|rules| - 1];
      ReadAllRules(l, cfg, front);
      RunLinesConcat(l, AllRuleLines(front), RuleLines(o));
      if o.name != "" {
        ReadRuleBlock(RunLines(l, AllRuleLines(front)), cfg.(overrides := ReturnedOverrides(front)), o);
      }
    }
  }

  lemma CommitsRule(cfg: AgentConfig, r: ProcessRule)
    requires r.name != "" && |cfg.processRules| < MAX_PROCESS_RULES
    ensures Settled(Loader(cfg, Process, NO_OVERRIDE, r), cfg.(processRules := cfg.processRules + [r]))
  {
  }

  lemma NextProcess(l: Loader, cfg: AgentConfig, r: ProcessRule)
    requires Settled(l, cfg) && |cfg.processRules| < MAX_PROCESS_RULES && PrintableRule(r)
    ensures Settled(RunLines(l, ProcessLines(r)),
                    if r.name == "" then cfg
                    else cfg.(processRules := cfg.processRules + [ReturnedRule(r)]))
  {
    if r.name != "" {
      ReadProcessBlock(l, cfg, r);
      CommitsRule(cfg, ReturnedRule(r));
    }
  }

  lemma {:induction false} ReadAllProcesses(l: Loader, cfg: AgentConfig, rules: seq<ProcessRule>)
    requires Settled(l, cfg) && cfg.processRules == [] && |rules| <= MAX_PROCESS_RULES
    requires forall i :: 0 <= i < |rules| ==> PrintableRule(rules[i])
    ensures Settled(RunLines(l, AllProcessLines(rules)), cfg.(processRules := ReturnedRules(rules)))
  {
    if rules != [] {
      var front, r := rules[..|rules| - 1], rules[|rules| - 1];
      ReadAllProcesses(l, cfg, front);
      RunLinesConcat(l, AllProcessLines(front), ProcessLines(r));
      NextProcess(RunLines(l, AllProcessLines(front)), cfg.(processRules := ReturnedRules(front)), r);
    }
  }

  function RootBody(cfg: AgentConfig): seq<Line> {
    [KeyValue("version", " " + Print(VERSION, 10)), KeyValue("op_mode", " " + Quote(OpModeText(cfg.opMode))),
     KeyValue("profile", " " + Quote(ProfileText(cfg.profile)))]
  }

  lemma RootReads(cfg: AgentConfig)
    ensures Reads(RootLines(cfg), RootBody(cfg))
  {
    RootLinesRead(Print(VERSION, 10), Quote(OpModeText(cfg.opMode)), Quote(ProfileText(cfg.profile)));
  }

  lemma RootSteps(cfg: AgentConfig)
    ensures Steps(START, RootBody(cfg)) == START.(cfg := DEFAULT_CONFIG.(opMode := cfg.opMode, profile := cfg.profile))
  {
    hide Print, Steps;
    UintRead(VERSION, "");
    assert Print(VERSION, 10) + "" == Print(VERSION, 10);
    QuotedRead(OpModeText(cfg.opMode), 16);
    QuotedRead(ProfileText(cfg.profile), 24);
    var b := RootBody(cfg);
    ThreeSteps(START, b[0], b[1], b[2]);
  }

  lemma ReadRoot(cfg: AgentConfig)
    ensures RunLines(START, RootLines(cfg)) == START.(cfg := DEFAULT_CONFIG.(opMode := cfg.opMode, profile := cfg.profile))
  {
    RootReads(cfg);
    RunIsSteps(START, RootLines(cfg), RootBody(cfg));
    RootSteps(cfg);
  }

  function CorralBody(cfg: AgentConfig): seq<Line> {
    [KeyValue("enabled", " " + BoolText(cfg.corralEnabled)),
     KeyValue("keep_placements_on_disable", " " + BoolText(cfg.keepOnDisable)), Ignored]
  }

  lemma CorralReads(cfg: AgentConfig)
    ensures Reads(CorralLines(cfg), [CorralHeader] + CorralBody(cfg))
  {
    CorralHeaderRead();
    CorralLinesRead(BoolText(cfg.corralEnabled), BoolText(cfg.keepOnDisable));
  }

  lemma ReadCorral(l: Loader, cfg: AgentConfig)
    requires l.section == Root
    ensures RunLines(l, CorralLines(cfg))
         == l.(section := Corral, cfg := l.cfg.(corralEnabled := cfg.corralEnabled, keepOnDisable := cfg.keepOnDisable))
  {
    CorralReads(cfg);
    ReadBlock(l, CorralLines(cfg), CorralHeader, CorralBody(cfg));
    CorralSteps(Step(l, CorralHeader), cfg);
  }

  lemma CorralSteps(l: Loader, cfg: AgentConfig)
    requires l.section == Corral
    ensures Steps(l, CorralBody(cfg))
         == l.(cfg := l.cfg.(corralEnabled := cfg.corralEnabled, keepOnDisable := cfg.keepOnDisable))
  {
    BoolRead(cfg.corralEnabled);
    BoolRead(cfg.keepOnDisable);
    var b := CorralBody(cfg);
    ThreeSteps(l, b[0], b[1], b[2]);
  }

  lemma ReadFront(cfg: AgentConfig)
    ensures RunLines(START, FrontLines(cfg))
         == Loader(DEFAULT_CONFIG.(opMode := cfg.opMode, profile := cfg.profile, corralEnabled := cfg.corralEnabled,
                                   keepOnDisable := cfg.keepOnDisable),
                   Corral, NO_OVERRIDE, NO_RULE)
  {
    var head, root, comment, corral := Header(), RootLines(cfg), CorralComment(), CorralLines(cfg);
    var l1 := START.(cfg := DEFAULT_CONFIG.(opMode := cfg.opMode, profile := cfg.profile));
    RunLinesConcat(START, head + root + comment, corral);
    RunLinesConcat(START, head + root, comment);
    RunLinesConcat(START, head, root);
    CommentsStart();
    CommentsIgnored(START, head);
    ReadRoot(cfg);
    CommentsIgnored(l1, comment);
    ReadCorral(l1, cfg);
  }

  /** The configuration read so far once the first k process rules are in. */
  function ReloadedThrough(cfg: AgentConfig, k: nat): AgentConfig
    requires k <= |cfg.processRules|
  {
    cfg.(version := VERSION, overrides := ReturnedOverrides(cfg.overrides),
         processRules := ReturnedRules(cfg.processRules[..k]))
  }

  lemma RunFourParts(l: Loader, a: seq<string>, b: seq<string>, c: seq<string>, d: seq<string>)
    ensures RunLines(l, a + b + c + d) == RunLines(RunLines(RunLines(RunLines(l, a), b), c), d)
  {
    RunLinesConcat(l, a + b + c, d);
    RunLinesConcat(l, a + b, c);
    RunLinesConcat(l, a, b);
  }

  lemma ReadRules(l: Loader, base: AgentConfig, cfg: AgentConfig, k: nat, comment: seq<string>)
    requires Clean(cfg) && k <= |cfg.processRules| && PathsFit(cfg.processRules[..k])
    requires Settled(l, base) && base.overrides == [] && base.processRules == []
    requires forall line <- comment :: IsComment(line)
    ensures Settled(RunLines(RunLines(RunLines(l, AllRuleLines(cfg.overrides)), comment), AllProcessLines(cfg.processRules[..k])),
                    base.(overrides := ReturnedOverrides(cfg.overrides), processRules := ReturnedRules(cfg.processRules[..k])))
  {
    ReadAllRules(l, base, cfg.overrides);
    var l2 := RunLines(l, AllRuleLines(cfg.overrides));
    CommentsIgnored(l2, comment);
    ReadAllProcesses(l2, Commit(l2).cfg, cfg.processRules[..k]);
  }

  lemma ReadThrough(cfg: AgentConfig, k: nat)
    requires Clean(cfg) && k <= |cfg.processRules| && PathsFit(cfg.processRules[..k])
    ensures Settled(RunLines(START, LinesThrough(cfg, k)), ReloadedThrough(cfg, k))
  {
    hide RunLines, FrontLines, AllRuleLines, AllProcessLines, ProcessComment;
    var comment := if cfg.processRules != [] then ProcessComment() else [];
    RunFourParts(START, FrontLines(cfg), AllRuleLines(cfg.overrides), comment, AllProcessLines(cfg.processRules[..k]));
    ReadFront(cfg);
    var l1 := RunLines(START, FrontLines(cfg));
    CommentsStart();
    ReadRules(l1, l1.cfg, cfg, k, comment);
  }

  /** The parser's state after the lines through rule k, in front of any further text. */
  lemma RunThrough(cfg: AgentConfig, k: nat, rest: string)
    requires Clean(cfg) && k <= |cfg.processRules| && PathsFit(cfg.processRules[..k])
    ensures Run(START, Join(LinesThrough(cfg, k)) + rest) == Run(RunLines(START, LinesThrough(cfg, k)), rest)
  {
    LinesThroughFit(cfg, k);
    RunIsLines(START, LinesThrough(cfg, k), rest);
  }

  /** The round trip: what was saved loads as itself, with the current version, without blank-named
      rules, and with every bit of every core mask. */
  lemma LoadOfSave(cfg: AgentConfig)
    requires Clean(cfg) && PathsFit(cfg.processRules)
    ensures LoadText(SaveText(cfg)) == Reloaded(cfg)
  {
    hide RunLines, FrontLines, AllRuleLines, AllProcessLines, ProcessComment, Join;
    var n := |cfg.processRules|;
    assert cfg.processRules[..n] == cfg.processRules;
    ReadThrough(cfg, n);
    RunThrough(cfg, n, "");
    assert Join(SaveLines(cfg)) + "" == Join(SaveLines(cfg));
  }
}
