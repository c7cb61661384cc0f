/** policies.toml: the printer and the parser. */
module ConfigStore {
  import opened Common
  import opened ConfigText

  datatype OpMode = Auto | Assist | Manual

  datatype PolicyOverride = PolicyOverride(name: string, enabled: bool, confidence: Byte, coreMask: U64)

  datatype ProcessRule = ProcessRule(name: string, path: string, action: Byte)

  datatype AgentConfig = AgentConfig(
    version: U32,
    opMode: OpMode,
    profile: Profile,
    corralEnabled: bool,
    keepOnDisable: bool,
    overrides: seq<PolicyOverride>,
    processRules: seq<ProcessRule>)

  const VERSION: U32 := 2
  const MAX_RULES := 32
  const MAX_PROCESS_RULES := 128

  const DEFAULT_CONFIG := AgentConfig(VERSION, Auto, GamesCorral, false, false, [], [])
  const NO_OVERRIDE := PolicyOverride("", false, 255, 0)
  const NO_RULE := ProcessRule("", "", 0)

  // ---- Enumerations as text ----------------------------------------------

  function ParseOpMode(s: string): OpMode {
    if s == "assist" then Assist else if s == "manual" then Manual else Auto
  }

  function OpModeText(m: OpMode): string {
    match m case Assist => "assist" case Manual => "manual" case Auto => "auto"
  }

  function ParseProfile(s: string): Profile {
    if s == "monitor" then Monitor
    else if s == "games" then Games
    else if s == "games_corral" then GamesCorral
    else if s == "full" then Full
    else GamesCorral
  }

  function ProfileText(p: Profile): string {
    match p case Monitor => "monitor" case Games => "games" case Full => "full" case GamesCorral => "games_corral"
  }

  function ParseAction(s: string): Byte {
    if s == "freq" then 1 else if s == "vcache" then 2 else 0
  }

  function ActionText(a: Byte): string {
    if a == 1 then "freq" else if a == 2 then "vcache" else "never"
  }

  function BoolText(b: bool): string {
    if b then "true" else "false"
  }

  // ---- The parser --------------------------------------------------------

  datatype Section = Root | Rule | Corral | Process

  datatype Loader = Loader(cfg: AgentConfig, section: Section, rule: PolicyOverride, process: ProcessRule)

  const START := Loader(DEFAULT_CONFIG, Root, NO_OVERRIDE, NO_RULE)

  /** commit_pending */
  function Commit(l: Loader): Loader {
    match l.section
    case Rule =>
      var keep := l.rule.name != "" && |l.cfg.overrides| < MAX_RULES;
      l.(cfg := if keep then l.cfg.(overrides := l.cfg.overrides + [l.rule]) else l.cfg, rule := NO_OVERRIDE)
    case Process =>
      var keep := l.process.name != "" && |l.cfg.processRules| < MAX_PROCESS_RULES;
      l.(cfg := if keep then l.cfg.(processRules := l.cfg.processRules + [l.process]) else l.cfg, process := NO_RULE)
    case _ => l
  }

  function SetRoot(cfg: AgentConfig, key: string, rhs: string): AgentConfig {
    if key == "version" then cfg.(version := ExtractUint(rhs) % 0x1_0000_0000)
    else if key == "op_mode" then
      match ExtractString(rhs, 16) case Text(s) => cfg.(opMode := ParseOpMode(s)) case NotQuoted => cfg
    else if key == "profile" then
      match ExtractString(rhs, 24) case Text(s) => cfg.(profile := ParseProfile(s)) case NotQuoted => cfg
    else cfg
  }

  function SetRule(o: PolicyOverride, key: string, rhs: string): PolicyOverride {
    if key == "name" then
      match ExtractString(rhs, 40) case Text(s) => o.(name := s) case NotQuoted => o
    else if key == "enabled" then o.(enabled := ExtractBool(rhs))
    else if key == "confidence" then o.(confidence := if ExtractUint(rhs) <= 100 then ExtractUint(rhs) else 255)
    else if key == "core_mask" then o.(coreMask := ExtractMask(rhs))
    else o
  }

  function SetCorral(cfg: AgentConfig, key: string, rhs: string): AgentConfig {
    if key == "enabled" then cfg.(corralEnabled := ExtractBool(rhs))
    else if key == "keep_placements_on_disable" then cfg.(keepOnDisable := ExtractBool(rhs))
    else cfg
  }

  function SetProcess(r: ProcessRule, key: string, rhs: string): ProcessRule {
    if key == "name" then
      match ExtractString(rhs, 64) case Text(s) => r.(name := s) case NotQuoted => r
    else if key == "path" then
      match ExtractString(rhs, 260) case Text(s) => r.(path := s) case NotQuoted => r
    else if key == "action" then
      match ExtractString(rhs, 16) case Text(s) => r.(action := ParseAction(s)) case NotQuoted => r
    else r
  }

  function Step(l: Loader, line: Line): Loader {
    match line
    case Ignored => l
    case RuleHeader => Commit(l).(section := Rule)
    case ProcessHeader => Commit(l).(section := Process)
    case CorralHeader => Commit(l).(section := Corral)
    case KeyValue(key, rhs) =>
      match l.section
      case Root => l.(cfg := SetRoot(l.cfg, key, rhs))
      case Rule => l.(rule := SetRule(l.rule, key, rhs))
      case Corral => l.(cfg := SetCorral(l.cfg, key, rhs))
      case Process => l.(process := SetProcess(l.process, key, rhs))
  }

  function Run(l: Loader, text: string): Loader
    decreases |text|
  {
    if text == "" then l
    else
      var n := ChunkLength(text, LINE_BUFFER - 1);
      Run(Step(l, Classify(StripEol(CString(text[..n])))), text[n..])
  }

  function LoadText(text: string): AgentConfig {
    Commit(Run(START, text)).cfg
  }

  /** The accumulators and the state of the section machine, updated line by line. */
  class PolicyLoader {
    var cfg: AgentConfig
    var section: Section
    var rule: PolicyOverride
    var process: ProcessRule

    function State(): Loader
      reads this
    {
      Loader(cfg, section, rule, process)
    }

    constructor ()
      ensures State() == START
    {
      cfg, section, rule, process := DEFAULT_CONFIG, Root, NO_OVERRIDE, NO_RULE;
    }

    method CommitPending()
      modifies this
      ensures State() == Commit(old(State()))
    {
      if section == Rule {
        if rule.name != "" && |cfg.overrides| < MAX_RULES {
          cfg := cfg.(overrides := cfg.overrides + [rule]);
        }
        rule := NO_OVERRIDE;
      } else if section == Process {
        if process.name != "" && |cfg.processRules| < MAX_PROCESS_RULES {
          cfg := cfg.(processRules := cfg.processRules + [process]);
        }
        process := NO_RULE;
      }
    }

    method OpenSection(next: Section)
      modifies this
      ensures State() == Commit(old(State())).(section := next)
    {
      CommitPending();
      section := next;
    }

    method TakeLine(line: string)
      modifies this
      ensures State() == Step(old(State()), Classify(line))
    {
      match Classify(line)
      case Ignored =>
      case RuleHeader => OpenSection(Rule);
      case ProcessHeader => OpenSection(Process);
      case CorralHeader => OpenSection(Corral);
      case KeyValue(key, rhs) =>
        match section
        case Root => cfg := SetRoot(cfg, key, rhs);
        case Rule => rule := SetRule(rule, key, rhs);
        case Corral => cfg := SetCorral(cfg, key, rhs);
        case Process => process := SetProcess(process, key, rhs);
    }
  }

  /** `found` says whether the file could be opened; without one the defaults are returned. */
  method LoadPolicies(found: bool, text: string) returns (cfg: AgentConfig)
    ensures cfg == if found then LoadText(text) else DEFAULT_CONFIG
  {
    if !found {
      return DEFAULT_CONFIG;
    }
    var loader := new PolicyLoader();
    var rest := text;
    while rest != ""
      invariant Run(loader.State(), rest) == Run(START, text)
      decreases |rest|
    {
      var n := ChunkLength(rest, LINE_BUFFER - 1);
      loader.TakeLine(StripEol(CString(rest[..n])));
      rest := rest[n..];
    }
    loader.CommitPending();
    cfg := loader.cfg;
  }

  // ---- The printer -------------------------------------------------------

  /** key, padding, equals sign, value */
  function KeyLine(key: string, pad: string, value: string): string {
    key + pad + "= " + value
  }

  function Quote(s: string): string {
    "\"" + s + "\""
  }

  // Comment lines, in pieces that are easy on the eye and on the solver.

  function GeneratedBy(): string {
    "# Generated by Phynned v0.2.2-" + "experimental \U{2014} edit with care."
  }

  function ProfileComment(): string {
    "# profile: \"monitor\" | \"games\"" + " | \"games_corral\" | \"full\""
  }

  function Header(): seq<string> {
    ["# Phynned policies configuration",
     GeneratedBy(),
     "# op_mode: \"auto\" | \"assist\" | \"manual\"",
     ProfileComment(),
     ""]
  }

  function CorralCommentA(): string {
    "# Background corral: moves active " + "non-game background off the V-Cache"
  }

  function CorralCommentB(): string {
    "# CCD onto the frequency CCD. " + "`enabled` survives an agent restart."
  }

  function CorralComment(): seq<string> {
    ["", CorralCommentA(), CorralCommentB()]
  }

  function ProcessCommentA(): string {
    "# Per-process user rules. " + "action: \"never\" | \"freq\" | \"vcache\"."
  }

  function ProcessCommentB(): string {
    "# name = exe basename (required). " + "path = optional; \"\" matches any path."
  }

  function ProcessComment(): seq<string> {
    [ProcessCommentA(), ProcessCommentB()]
  }

  function RootLines(cfg: AgentConfig): seq<string> {
    [KeyLine("version", " ", Print(VERSION, 10)),
     KeyLine("op_mode", " ", Quote(OpModeText(cfg.opMode))),
     KeyLine("profile", " ", Quote(ProfileText(cfg.profile)))]
  }

  function CorralLines(cfg: AgentConfig): seq<string> {
    ["[corral]",
     KeyLine("enabled", "                    ", BoolText(cfg.corralEnabled)),
     KeyLine("keep_placements_on_disable", " ", BoolText(cfg.keepOnDisable)),
     ""]
  }

  function DefaultConfidence(): string {
    "255" + "  # use rule default"
  }

  function ConfidenceText(c: Byte): string {
    if c != 255 then Print(c, 10) else DefaultConfidence()
  }

  function DefaultMask(): string {
    "0" + "    # use rule default"
  }

  function MaskText(m: U64): string {
    if m != 0 then "0x" + Print(m, 16) else DefaultMask()
  }

  function RuleLines(o: PolicyOverride): seq<string> {
    if o.name == "" then []
    else
      ["[[rule]]",
       KeyLine("name", "       ", Quote(o.name)),
       KeyLine("enabled", "    ", BoolText(o.enabled)),
       KeyLine("confidence", " ", ConfidenceText(o.confidence)),
       KeyLine("core_mask", "  ", MaskText(o.coreMask)),
       ""]
  }

  function ProcessLines(r: ProcessRule): seq<string> {
    if r.name == "" then []
    else
      ["[[process]]",
       KeyLine("name", "   ", Quote(r.name)),
       KeyLine("path", "   ", Quote(r.path)),
       KeyLine("action", " ", Quote(ActionText(r.action))),
       ""]
  }

  function AllRuleLines(rules: seq<PolicyOverride>): seq<string> {
    if rules == [] then [] else AllRuleLines(rules[..|rules| - 1]) + RuleLines(rules[|rules| - 1])
  }

  function AllProcessLines(rules: seq<ProcessRule>): seq<string> {
    if rules == [] then [] else AllProcessLines(rules[..|rules| - 1]) + ProcessLines(rules[|rules| - 1])
  }

  function FrontLines(cfg: AgentConfig): seq<string> {
    Header() + RootLines(cfg) + CorralComment() + CorralLines(cfg)
  }

  function SaveLines(cfg: AgentConfig): seq<string> {
    FrontLines(cfg) + AllRuleLines(cfg.overrides) +
    (if cfg.processRules != [] then ProcessComment() else []) + AllProcessLines(cfg.processRules)
  }

  function Join(lines: seq<string>): string {
    if lines == [] then "" else lines[0] + "\n" + Join(lines[1..])
  }

  function SaveText(cfg: AgentConfig): string {
    Join(SaveLines(cfg))
  }

  lemma {:induction false} JoinConcat(a: seq<string>, b: seq<string>)
    ensures Join(a + b) == Join(a) + Join(b)
  {
    if a == [] {
      assert a + b == b;
    } else {
      assert (a + b)[1..] == a[1..] + b;
      JoinConcat(a[1..], b);
    }
  }

  /** The file content that save_policies prints. */
  method SavePolicies(cfg: AgentConfig) returns (text: string)
    ensures text == SaveText(cfg)
  {
    var rules := PrintRules(cfg.overrides);
    var comment := if cfg.processRules != [] then ProcessComment() else [];
    var processes := PrintProcessRules(cfg.processRules);
    text := Join(FrontLines(cfg)) + rules + Join(comment) + processes;
    JoinBlocks(FrontLines(cfg), AllRuleLines(cfg.overrides), comment, AllProcessLines(cfg.processRules));
  }

  lemma JoinBlocks(a: seq<string>, b: seq<string>, c: seq<string>, d: seq<string>)
    ensures Join(a + b + c + d) == Join(a) + Join(b) + Join(c) + Join(d)
  {
    JoinConcat(a, b);
    JoinConcat(a + b, c);
    JoinConcat(a + b + c, d);
  }

  method PrintRules(rules: seq<PolicyOverride>) returns (text: string)
    ensures text == Join(AllRuleLines(rules))
  {
    text := "";
    for i := 0 to |rules|
      invariant text == Join(AllRuleLines(rules[..i]))
    {
      assert rules[..i + 1][..i] == rules[..i];
      JoinConcat(AllRuleLines(rules[..i]), RuleLines(rules[i]));
      text := text + Join(RuleLines(rules[i]));
    }
    assert rules[..|rules|] == rules;
  }

  method PrintProcessRules(rules: seq<ProcessRule>) returns (text: string)
    ensures text == Join(AllProcessLines(rules))
  {
    text := "";
    for i := 0 to |rules|
      invariant text == Join(AllProcessLines(rules[..i]))
    {
      assert rules[..i + 1][..i] == rules[..i];
      JoinConcat(AllProcessLines(rules[..i]), ProcessLines(rules[i]));
      text := text + Join(ProcessLines(rules[i]));
    }
    assert rules[..|rules|] == rules;
  }
}
