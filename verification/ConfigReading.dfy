/** What the parser makes of a file that a user has edited: comments, words it does not know, sections it
    has not seen, tables that are full, and files of the first version. */
module ConfigReadings {
  import opened Common
  import opened ConfigText
  import opened ConfigStore
  import opened ConfigRoundTrip

  // ---- Comments and blanks -----------------------------------------------

  predicate Blank(s: string) {
    forall i :: 0 <= i < |s| ==> s[i] <= ' '
  }

  lemma {:induction false} TrimBlank(indent: string, rest: string)
    requires Blank(indent) && (rest == "" || rest[0] > ' ')
    ensures LTrim(indent + rest) == rest
  {
    if indent == "" {
      assert indent + rest == rest;
    } else {
      assert (indent + rest)[1..] == indent[1..] + rest;
      TrimBlank(indent[1..], rest);
    }
  }

  /** A line that holds nothing, or nothing but a comment, wherever it stands and however it is indented,
      changes nothing. */
  lemma CommentChangesNothing(l: Loader, indent: string, comment: string, rest: string)
    requires Blank(indent) && Plain(indent) && Plain(comment) && (comment == "" || comment[0] == '#')
    requires |indent| + |comment| < 256
    ensures Run(l, indent + comment + "\n" + rest) == Run(l, rest)
  {
    RunLine(l, indent + comment, rest);
    TrimBlank(indent, comment);
  }

  // ---- Words -------------------------------------------------------------

  /** The action of a user rule: only the two words that place a process do so, any other vetoes. */
  lemma ActionWords(l: Loader, word: string)
    requires l.section == Process && '"' !in word && |word| < 16
    ensures var r := Step(l, KeyValue("action", " " + Quote(word)));
            && r == l.(process := r.process) && r.process.name == l.process.name && r.process.path == l.process.path
            && r.process.action == if word == "freq" then 1 else if word == "vcache" then 2 else 0
  {
    QuotedRead(word, 16);
  }

  /** The profile: a word that is none of the four means the corral profile. */
  lemma ProfileWords(l: Loader, word: string)
    requires l.section == Root && '"' !in word && |word| < 24
    ensures var r := Step(l, KeyValue("profile", " " + Quote(word)));
            && r == l.(cfg := l.cfg.(profile := r.cfg.profile))
            && (word == "monitor" <==> r.cfg.profile == Monitor)
            && (word == "games" <==> r.cfg.profile == Games)
            && (word == "full" <==> r.cfg.profile == Full)
  {
    QuotedRead(word, 24);
  }

  lemma ModeWords(l: Loader, word: string)
    requires l.section == Root && '"' !in word && |word| < 16
    ensures var r := Step(l, KeyValue("op_mode", " " + Quote(word)));
            && r == l.(cfg := l.cfg.(opMode := r.cfg.opMode))
            && (word == "assist" <==> r.cfg.opMode == Assist)
            && (word == "manual" <==> r.cfg.opMode == Manual)
  {
    QuotedRead(word, 16);
  }

  /** A confidence above 100 means the rule's own, as 255 does. */
  lemma ConfidenceRange(l: Loader, n: U64)
    requires l.section == Rule
    ensures Step(l, KeyValue("confidence", " " + Print(n, 10))) == l.(rule := l.rule.(confidence := if n <= 100 then n else 255))
  {
    hide Print, ExtractUint;
    UintRead(n, "");
    assert Print(n, 10) + "" == Print(n, 10);
  }

  // ---- Values ------------------------------------------------------------

  /** A quoted value, however it is indented and whatever follows it, is what stands between the quotes, cut to
      the field. */
  lemma QuotedCut(indent: string, word: string, tail: string, size: nat)
    requires Blank(indent) && '"' !in word && size > 0
    ensures ExtractString(indent + (Quote(word) + tail), size) == Text(if |word| < size then word else word[..size - 1])
  {
    var p := Quote(word) + tail;
    TrimBlank(indent, p);
    assert p[1..] == word + ['"'] + tail;
    IndexOfFirst(word, '"', tail);
  }

  /** Without a closing quote it is no value. */
  lemma NotClosed(indent: string, word: string, size: nat)
    requires Blank(indent) && '"' !in word && size > 0
    ensures ExtractString(indent + ("\"" + word), size) == NotQuoted
  {
    TrimBlank(indent, "\"" + word);
    assert ("\"" + word)[1..] == word;
  }

  /** The largest number a field of 64 bits holds. */
  const TOP: U64 := 0xFFFF_FFFF_FFFF_FFFF

  function Saturated(n: nat): U64 {
    if n > TOP then TOP else n
  }

  lemma DecimalValue(n: nat, rest: string)
    requires rest == "" || DigitValue(rest[0], 10) == 10
    ensures Digits(Print(n, 10) + rest, 10, 0) == n
    ensures IsDigit((Print(n, 10) + rest)[0])
  {
    PrintStartsWithDigit(n, 10);
    DigitsOfPrint(n, 10, 0, rest);
    ReadInZero(n, 10);
  }

  /** A decimal number counts up to the first character that is no digit, and saturates. */
  lemma NumbersSaturate(indent: string, n: nat, rest: string)
    requires Blank(indent) && (rest == "" || DigitValue(rest[0], 10) == 10)
    ensures ExtractUint(indent + (Print(n, 10) + rest)) == Saturated(n)
    ensures rest == "" || (rest[0] != 'x' && rest[0] != 'X') ==> ExtractMask(indent + (Print(n, 10) + rest)) == Saturated(n)
  {
    hide Digits;
    var p := Print(n, 10) + rest;
    DecimalValue(n, rest);
    TrimBlank(indent, p);
    PrintedDigits(n);
    if |p| >= 2 {
      SecondCharacter(n, rest);
    }
  }

  lemma {:induction false} PrintedDigits(n: nat)
    ensures forall c <- Print(n, 10) :: IsDigit(c)
    ensures if n < 10 then |Print(n, 10)| == 1 else |Print(n, 10)| >= 2
  {
    if n >= 10 {
      PrintedDigits(n / 10);
    }
  }

  lemma SecondCharacter(n: nat, rest: string)
    requires rest != "" || n >= 10
    ensures var p := Print(n, 10) + rest; |p| >= 2 && if n < 10 then p[1] == rest[0] else IsDigit(p[1])
  {
    PrintedDigits(n);
    if n >= 10 {
      assert Print(n, 10)[1] in Print(n, 10);
    }
  }

  /** A negative number is no number, except as a mask: there it counts down from two to the 64. */
  lemma NegativeNumbers(indent: string, n: nat, rest: string)
    requires Blank(indent) && (rest == "" || DigitValue(rest[0], 10) == 10)
    ensures ExtractUint(indent + ("-" + (Print(n, 10) + rest))) == 0
    ensures ExtractMask(indent + ("-" + (Print(n, 10) + rest))) == if n > TOP then TOP else (TOP + 1 - n) % (TOP + 1)
  {
    hide Digits;
    var p := "-" + (Print(n, 10) + rest);
    DecimalValue(n, rest);
    TrimBlank(indent, p);
    assert p[1..] == Print(n, 10) + rest;
  }

  /** A hexadecimal mask, with either prefix, counts up to the first character that is no digit, and saturates. */
  lemma HexSaturates(indent: string, x: char, n: nat, rest: string)
    requires Blank(indent) && (x == 'x' || x == 'X') && (rest == "" || DigitValue(rest[0], 16) == 16)
    ensures ExtractMask(indent + ("0" + [x] + (Print(n, 16) + rest))) == Saturated(n)
  {
    hide Digits;
    var digits := Print(n, 16) + rest;
    var p := "0" + [x] + digits;
    TrimBlank(indent, p);
    PrintStartsWithDigit(n, 16);
    assert p[2..] == digits && p[2] == Print(n, 16)[0];
    DigitsOfPrint(n, 16, 0, rest);
    ReadInZero(n, 16);
    NoMoreDigits(rest, 16, n);
  }

  lemma NoMoreDigits(rest: string, base: nat, acc: nat)
    requires base > 0 && (rest == "" || DigitValue(rest[0], base) == base)
    ensures Digits(rest, base, acc) == acc
  {
  }

  /** A switch is on exactly if its value begins with the word true. */
  lemma Switches(indent: string, value: string)
    requires Blank(indent) && value != "" && value[0] > ' '
    ensures ExtractBool(indent + value) <==> |value| >= 4 && value[0] == 't' && value[1] == 'r' && value[2] == 'u' && value[3] == 'e'
  {
    TrimBlank(indent, value);
  }

  // ---- Sections ----------------------------------------------------------

  /** What a key in this section may change. */
  predicate ChangesOnly(l: Loader, r: Loader) {
    match l.section
    case Root => r == l.(cfg := l.cfg.(version := r.cfg.version, opMode := r.cfg.opMode, profile := r.cfg.profile))
    case Rule => r == l.(rule := r.rule)
    case Corral => r == l.(cfg := l.cfg.(corralEnabled := r.cfg.corralEnabled, keepOnDisable := r.cfg.keepOnDisable))
    case Process => r == l.(process := r.process)
  }

  /** The keys that mean something in a section. */
  predicate Means(section: Section, key: string) {
    match section
    case Root => key == "version" || key == "op_mode" || key == "profile"
    case Rule => key == "name" || key == "enabled" || key == "confidence" || key == "core_mask"
    case Corral => key == "enabled" || key == "keep_placements_on_disable"
    case Process => key == "name" || key == "path" || key == "action"
  }

  /** A key belongs to the section it stands in; in any other it says nothing. */
  lemma KeysStayInTheirSection(l: Loader, key: string, rhs: string)
    ensures ChangesOnly(l, Step(l, KeyValue(key, rhs)))
    ensures !Means(l.section, key) ==> Step(l, KeyValue(key, rhs)) == l
  {
    hide ExtractString, ExtractUint, ExtractBool, ExtractMask;
  }

  /** A header ends the section before it: what it described is kept if it has a name and the table has room. */
  lemma HeaderCommits(l: Loader, line: Line)
    requires line == RuleHeader || line == ProcessHeader || line == CorralHeader
    ensures var r := Step(l, line);
            && r.section == (if line == RuleHeader then Rule else if line == ProcessHeader then Process else Corral)
            && r.cfg == l.cfg.(overrides := r.cfg.overrides, processRules := r.cfg.processRules)
            && r.cfg.overrides == l.cfg.overrides +
                 (if l.section == Rule && l.rule.name != "" && |l.cfg.overrides| < 32 then [l.rule] else [])
            && r.cfg.processRules == l.cfg.processRules +
                 (if l.section == Process && l.process.name != "" && |l.cfg.processRules| < 128 then [l.process] else [])
            && (l.section == Rule ==> r.rule == PolicyOverride("", false, 255, 0))
            && (l.section == Process ==> r.process == ProcessRule("", "", 0))
  {
    assert l.cfg.overrides + [] == l.cfg.overrides && l.cfg.processRules + [] == l.cfg.processRules;
  }

  // ---- Whole files -------------------------------------------------------

  predicate TablesFit(cfg: AgentConfig) {
    |cfg.overrides| <= 32 && |cfg.processRules| <= 128
  }

  lemma {:induction false} RunFits(l: Loader, text: string)
    requires TablesFit(l.cfg)
    ensures TablesFit(Run(l, text).cfg)
    decreases |text|
  {
    hide Classify, StripEol, CString, SetRoot, SetRule, SetProcess, SetCorral;
    if text != "" {
      var n := ChunkLength(text, LINE_BUFFER - 1);
      var line := Classify(StripEol(CString(text[..n])));
      StepFits(l, line);
      RunFits(Step(l, line), text[n..]);
    }
  }

  lemma StepFits(l: Loader, line: Line)
    requires TablesFit(l.cfg)
    ensures TablesFit(Step(l, line).cfg)
  {
    if line.KeyValue? {
      KeysStayInTheirSection(l, line.key, line.rhs);
    }
  }

  /** Whatever the file holds, the tables do not overflow. */
  lemma LoadedTablesFit(text: string)
    ensures TablesFit(LoadText(text))
  {
    RunFits(START, text);
  }

  function JoinWithReturns(lines: seq<string>): string {
    if lines == [] then "" else lines[0] + "\r\n" + JoinWithReturns(lines[1..])
  }

  lemma {:induction false} ChunkBeforeReturn(line: string, rest: string, limit: nat)
    requires Plain(line)
    ensures ChunkLength(line + "\r\n" + rest, limit) == if |line| + 2 <= limit then |line| + 2 else limit
  {
    var text := line + "\r\n" + rest;
    if limit == 0 {
    } else if line == "" {
      assert text[0] == '\r' && text[1..][0] == '\n';
      assert limit > 1 ==> ChunkLength(text[1..], limit - 1) == 1;
    } else {
      assert text[1..] == line[1..] + "\r\n" + rest;
      ChunkBeforeReturn(line[1..], rest, limit - 1);
    }
  }

  lemma StripReturn(line: string)
    requires Plain(line)
    ensures StripEol(CString(line + "\r\n")) == line
  {
    var s := line + "\r\n";
    IndexOfAbsent(s, '\0');
    assert s[..|s|] == s && s[..|line|] == line;
  }

  lemma ReadsReturn(l: Loader, line: string, rest: string)
    requires FitsBuffer(line)
    ensures Run(l, line + "\r\n" + rest) == Run(Step(l, Classify(line)), rest)
  {
    hide Classify, Step, ChunkLength, CString, StripEol;
    if |line| + 2 <= LINE_BUFFER - 1 {
      var text := line + "\r\n" + rest;
      ChunkBeforeReturn(line, rest, LINE_BUFFER - 1);
      assert text[..|line| + 2] == line + "\r\n" && text[|line| + 2..] == rest;
      StripReturn(line);
    } else {
      SplitReturn(l, line, rest, LINE_BUFFER - 1 - |line|);
    }
  }

  /** A line so long that its end is in a second chunk. */
  lemma SplitReturn(l: Loader, line: string, rest: string, cut: nat)
    requires Plain(line) && cut < 2 && |line| + cut == LINE_BUFFER - 1
    ensures Run(l, line + "\r\n" + rest) == Run(Step(l, Classify(line)), rest)
  {
    hide Classify, Step, ChunkLength, CString, StripEol;
    var text, n := line + "\r\n" + rest, LINE_BUFFER - 1;
    var head, tail := line + "\r\n"[..cut], "\r\n"[cut..];
    ChunkBeforeReturn(line, rest, n);
    assert text[..n] == head && text[n..] == tail + rest;
    StripHead(line, cut);
    TailIsIgnored(Step(l, Classify(line)), tail, rest);
  }

  lemma StripHead(line: string, cut: nat)
    requires Plain(line) && cut < 2
    ensures StripEol(CString(line + "\r\n"[..cut])) == line
  {
    var head := line + "\r\n"[..cut];
    IndexOfAbsent(head, '\0');
    assert head[..|head|] == head && head[..|line|] == line;
  }

  lemma TailIsIgnored(l: Loader, tail: string, rest: string)
    requires tail == "\n" || tail == "\r\n"
    ensures Run(l, tail + rest) == Run(l, rest)
  {
    ChunkBeforeReturn("", rest, LINE_BUFFER - 1);
    assert tail == "\r\n" ==> "" + "\r\n" + rest == tail + rest;
    var text := tail + rest;
    assert text[..|tail|] == tail && text[|tail|..] == rest;
    IndexOfAbsent(tail, '\0');
  }

  lemma {:induction false} RunWithReturns(l: Loader, lines: seq<string>)
    requires forall line <- lines :: FitsBuffer(line)
    ensures Run(l, JoinWithReturns(lines)) == RunLines(l, lines)
    decreases |lines|
  {
    if lines != [] {
      ReadsReturn(l, lines[0], JoinWithReturns(lines[1..]));
      forall line | line in lines[1..] ensures FitsBuffer(line) {
        assert line in lines;
      }
      RunWithReturns(Step(l, Classify(lines[0])), lines[1..]);
    }
  }

  /** Lines may end in a carriage return and a newline as well as in a newline. */
  lemma ReturnsAreCut(lines: seq<string>)
    requires forall line <- lines :: FitsBuffer(line)
    ensures LoadText(JoinWithReturns(lines)) == LoadText(Join(lines))
  {
    RunWithReturns(START, lines);
    RunIsLines(START, lines, "");
    assert Join(lines) + "" == Join(lines);
  }

  /** A line that a file of the first version may hold: nothing, the rule header, or a key that is not the
      profile. */
  predicate FirstVersionLine(line: Line) {
    line == Ignored || line == RuleHeader || (line.KeyValue? && line.key != "profile")
  }

  predicate NothingOfUseModes(l: Loader) {
    && (l.section == Root || l.section == Rule)
    && l.cfg.profile == GamesCorral && !l.cfg.corralEnabled && !l.cfg.keepOnDisable && l.cfg.processRules == []
  }

  lemma {:induction false} FirstVersionRun(l: Loader, lines: seq<Line>)
    requires NothingOfUseModes(l) && forall line <- lines :: FirstVersionLine(line)
    ensures NothingOfUseModes(Steps(l, lines))
    decreases |lines|
  {
    hide ExtractString, ExtractUint, ExtractBool, ExtractMask;
    if lines != [] {
      var line := lines[0];
      assert FirstVersionLine(line) && NothingOfUseModes(Step(l, line));
      forall next | next in lines[1..] ensures FirstVersionLine(next) {
        assert next in lines;
      }
      FirstVersionRun(Step(l, line), lines[1..]);
    }
  }

  /** The promise to files of the first version: they have rules only, and leave the profile, the corral and
      the user rules at their defaults. */
  lemma FirstVersionKeepsDefaults(lines: seq<string>, seen: seq<Line>)
    requires (forall line <- lines :: FitsBuffer(line)) && Reads(lines, seen) && forall line <- seen :: FirstVersionLine(line)
    ensures var cfg := LoadText(Join(lines));
            cfg.profile == GamesCorral && !cfg.corralEnabled && !cfg.keepOnDisable && cfg.processRules == []
  {
    assert Join(lines) + "" == Join(lines);
    RunIsLines(START, lines, "");
    RunIsSteps(START, lines, seen);
    FirstVersionRun(START, seen);
  }
}
