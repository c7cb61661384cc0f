/** The zero-handle oracle of the anti-cheat gate: what a title and the names of running drivers and
    services say about a probe. */
module AcOracles {
  import opened Common

  // ---- The oracle --------------------------------------------------------

  datatype AcClass = NoAc | CleanBlockA | AllowB | SilentPunishC | UnknownAc

  predicate OccursAt(hay: string, needle: string, i: int) {
    0 <= i <= |hay| - |needle| && forall k :: 0 <= k < |needle| ==> Lower(hay[i + k]) == needle[k]
  }

  /** The needle, already in lower case, occurs somewhere. */
  predicate Contains(hay: string, needle: string) {
    needle != "" && exists i :: 0 <= i < |hay| && OccursAt(hay, needle, i)
  }

  /** contains_ci */
  method ContainsCi(hay: string, needle: string) returns (found: bool)
    ensures found == Contains(hay, needle)
  {
    if needle == "" {
      return false;
    }
    for h := 0 to |hay|
      invariant forall i :: 0 <= i < h ==> !OccursAt(hay, needle, i)
    {
      var k := 0;
      while h + k < |hay| && k < |needle| && Lower(hay[h + k]) == needle[k]
        invariant h + k <= |hay| && k <= |needle|
        invariant forall i :: 0 <= i < k ==> Lower(hay[h + i]) == needle[i]
      {
        k := k + 1;
      }
      if k == |needle| {
        assert OccursAt(hay, needle, h);
        return true;
      }
    }
    found := false;
  }

  datatype Title = Title(needle: string, class_: AcClass)

  function KnownTitles(): seq<Title> {
    [Title("league of legends.exe", AllowB), Title("valorant", AllowB),
     Title("mcc-win64-shipping.exe", CleanBlockA), Title("fortniteclient", CleanBlockA),
     Title("eldenring.exe", CleanBlockA), Title("armoredcore6.exe", CleanBlockA),
     Title("cod.exe", SilentPunishC), Title("modernwarfare", SilentPunishC), Title("destiny2.exe", SilentPunishC),
     Title("bf6.exe", UnknownAc), Title("battlefield6", UnknownAc)]
  }

  datatype Signature = Signature(needle: string, alwaysOn: bool)

  function KnownAc(): seq<Signature> {
    [Signature("vgk.sys", true), Signature("vgc", true), Signature("vanguard", true),
     Signature("easyanticheat", false), Signature("bedaisy", false), Signature("beservice", false),
     Signature("battleye", false), Signature("ricochet", false), Signature("gameguard", false),
     Signature("npggnt", false), Signature("xigncode", false), Signature("xhunter", false),
     Signature("denuvo", false), Signature("javelin", false), Signature("eaanticheat", false)]
  }

  function AcMarkers(): seq<string> {
    ["anticheat", "anti-cheat", "anti_cheat"]
  }

  /** The class of the first row that matches. */
  function FirstTitle(exe: string, titles: seq<Title>): AcClass {
    if titles == [] then NoAc
    else if Contains(exe, titles[0].needle) then titles[0].class_
    else FirstTitle(exe, titles[1..])
  }

  function ClassifyTitle(exe: string): AcClass {
    if exe == "" then NoAc else FirstTitle(exe, KnownTitles())
  }

  function FirstSignature(name: string, known: seq<Signature>): Option<Signature> {
    if known == [] then None
    else if Contains(name, known[0].needle) then Some(known[0])
    else FirstSignature(name, known[1..])
  }

  /** name_indicates_active_ac */
  predicate IndicatesActiveAc(name: string) {
    match FirstSignature(name, KnownAc())
    case Some(s) => !s.alwaysOn
    case None => exists m <- AcMarkers() :: Contains(name, m)
  }

  /** A known title decides; otherwise any running on-demand anti-cheat forbids the probe. */
  function Decide(exe: string, drivers: seq<string>, services: seq<string>): AcClass {
    var t := ClassifyTitle(exe);
    if t != NoAc then t
    else if (exists n <- services :: IndicatesActiveAc(n)) || (exists n <- drivers :: IndicatesActiveAc(n)) then UnknownAc
    else NoAc
  }

  predicate ProbeAllowed(c: AcClass) {
    c == NoAc || c == CleanBlockA || c == AllowB
  }

  // ---- What it decides ---------------------------------------------------

  predicate WordAt(text: string, word: string, i: int) {
    0 <= i <= |text| - |word| && !TextsDiffer(text[i..i + |word|], word)
  }

  /** The word occurs in the text, in whatever case. */
  predicate InAnyCase(text: string, word: string) {
    exists i :: 0 <= i <= |text| && WordAt(text, word, i)
  }

  predicate NamesOne(text: string, words: seq<string>) {
    exists w <- words :: InAnyCase(text, w)
  }

  /** Anti-cheats that are resident without a game. */
  const RESIDENT: seq<string> := ["vgk.sys", "vgc", "vanguard"]

  /** Anti-cheats that run with their game only, and what an unknown anti-cheat's name looks like. */
  const ON_DEMAND: seq<string> := ["easyanticheat", "bedaisy", "beservice", "battleye", "ricochet", "gameguard", "npggnt",
                                   "xigncode", "xhunter", "denuvo", "javelin", "eaanticheat"]
  const LOOKS_LIKE_ONE: seq<string> := ["anticheat", "anti-cheat", "anti_cheat"]

  const MAY_PROBE: seq<string> := ["league of legends.exe", "valorant", "mcc-win64-shipping.exe", "fortniteclient",
                                   "eldenring.exe", "armoredcore6.exe"]
  const MUST_NOT_PROBE: seq<string> := ["cod.exe", "modernwarfare", "destiny2.exe", "bf6.exe", "battlefield6"]

  /** The name of a running driver or service speaks for a live anti-cheat. */
  predicate SpeaksForAntiCheat(name: string) {
    !NamesOne(name, RESIDENT) && (NamesOne(name, ON_DEMAND) || NamesOne(name, LOOKS_LIKE_ONE))
  }

  /** A title that may be probed is, whatever runs; one that must not is not; for any other title a live
      anti-cheat among the drivers or the services forbids the probe. */
  predicate MustNotOpen(exe: string, drivers: seq<string>, services: seq<string>) {
    && !NamesOne(exe, MAY_PROBE)
    && (|| NamesOne(exe, MUST_NOT_PROBE)
        || (exists n <- drivers :: SpeaksForAntiCheat(n))
        || (exists n <- services :: SpeaksForAntiCheat(n)))
  }

  predicate LowerCase(word: string) {
    word != "" && forall k :: 0 <= k < |word| ==> !('A' <= word[k] <= 'Z')
  }

  lemma OccursMeaning(text: string, word: string, i: int)
    requires LowerCase(word)
    ensures OccursAt(text, word, i) <==> WordAt(text, word, i)
  {
    if 0 <= i <= |text| - |word| {
      var part := text[i..i + |word|];
      forall k | 0 <= k < |word| ensures part[k] == text[i + k] && (Lower(text[i + k]) == word[k] <==> Alike(part[k], word[k])) {
        LowerMeaning(text[i + k], word[k]);
      }
    }
  }

  lemma ContainsMeaning(text: string, word: string)
    requires LowerCase(word)
    ensures Contains(text, word) <==> InAnyCase(text, word)
  {
    hide OccursAt, WordAt;
    forall i ensures OccursAt(text, word, i) <==> WordAt(text, word, i) {
      OccursMeaning(text, word, i);
    }
    forall i | WordAt(text, word, i) ensures 0 <= i < |text| {
      WordInside(text, word, i);
    }
  }

  lemma WordInside(text: string, word: string, i: int)
    requires word != "" && WordAt(text, word, i)
    ensures 0 <= i < |text|
  {
  }

  lemma {:induction false} FirstSignatureMeaning(name: string, known: seq<Signature>)
    ensures var f := FirstSignature(name, known);
            if f.None? then forall s <- known :: !Contains(name, s.needle)
            else exists k :: MatchesFirst(name, known, k) && f.value == known[k]
  {
    hide Contains;
    if known != [] && !Contains(name, known[0].needle) {
      FirstSignatureMeaning(name, known[1..]);
      if FirstSignature(name, known[1..]).Some? {
        var k :| MatchesFirst(name, known[1..], k) && FirstSignature(name, known[1..]).value == known[1..][k];
        assert forall j :: 0 < j <= k + 1 ==> known[j] == known[1..][j - 1];
        assert MatchesFirst(name, known, k + 1);
      }
    } else if known != [] {
      assert MatchesFirst(name, known, 0);
    }
  }

  /** Row k is the first of the table that the name matches. */
  ghost predicate MatchesFirst(name: string, known: seq<Signature>, k: int) {
    && 0 <= k < |known| && Contains(name, known[k].needle)
    && forall j :: 0 <= j < k ==> !Contains(name, known[j].needle)
  }

  ghost predicate TitleFirst(exe: string, titles: seq<Title>, k: int) {
    && 0 <= k < |titles| && Contains(exe, titles[k].needle)
    && forall j :: 0 <= j < k ==> !Contains(exe, titles[j].needle)
  }

  lemma {:induction false} FirstTitleMeaning(exe: string, titles: seq<Title>)
    ensures var c := FirstTitle(exe, titles);
            || (c == NoAc && forall t <- titles :: !Contains(exe, t.needle))
            || exists k :: TitleFirst(exe, titles, k) && c == titles[k].class_
  {
    hide Contains;
    if titles != [] && !Contains(exe, titles[0].needle) {
      FirstTitleMeaning(exe, titles[1..]);
      var c := FirstTitle(exe, titles[1..]);
      if exists k :: TitleFirst(exe, titles[1..], k) && c == titles[1..][k].class_ {
        var k :| TitleFirst(exe, titles[1..], k) && c == titles[1..][k].class_;
        assert forall j :: 0 < j <= k + 1 ==> titles[j] == titles[1..][j - 1];
        assert TitleFirst(exe, titles, k + 1);
      }
    } else if titles != [] {
      assert TitleFirst(exe, titles, 0);
    }
  }

  lemma WordsMeaning(text: string, words: seq<string>)
    requires forall w <- words :: LowerCase(w)
    ensures NamesOne(text, words) <==> exists k :: 0 <= k < |words| && Contains(text, words[k])
  {
    hide LowerCase, Contains, InAnyCase;
    forall w | w in words ensures Contains(text, w) <==> InAnyCase(text, w) {
      ContainsMeaning(text, w);
    }
    if NamesOne(text, words) {
      var w :| w in words && InAnyCase(text, w);
      var k :| 0 <= k < |words| && words[k] == w;
      assert Contains(text, words[k]);
    }
  }

  lemma WordsAreLower()
    ensures forall w <- RESIDENT :: LowerCase(w)
    ensures forall w <- ON_DEMAND :: LowerCase(w)
    ensures forall w <- LOOKS_LIKE_ONE :: LowerCase(w)
  {
  }

  lemma TitlesAreLower()
    ensures forall w <- MAY_PROBE :: LowerCase(w)
    ensures forall w <- MUST_NOT_PROBE :: LowerCase(w)
  {
  }

  lemma SignatureTable()
    ensures |KnownAc()| == 15 && |RESIDENT| == 3 && |ON_DEMAND| == 12
    ensures forall k :: 0 <= k < 3 ==> KnownAc()[k] == Signature(RESIDENT[k], true)
    ensures forall k :: 0 <= k < 12 ==> KnownAc()[k + 3] == Signature(ON_DEMAND[k], false)
  {
  }

  lemma TitleTable()
    ensures |KnownTitles()| == 11 && |MAY_PROBE| == 6 && |MUST_NOT_PROBE| == 5
    ensures forall k :: 0 <= k < 6 ==> KnownTitles()[k].needle == MAY_PROBE[k] && ProbeAllowed(KnownTitles()[k].class_)
    ensures forall k :: 0 <= k < 5 ==> KnownTitles()[k + 6].needle == MUST_NOT_PROBE[k] && !ProbeAllowed(KnownTitles()[k + 6].class_)
    ensures forall t <- KnownTitles() :: t.class_ != NoAc
  {
  }

  lemma NameMeaning(name: string)
    ensures IndicatesActiveAc(name) <==> SpeaksForAntiCheat(name)
  {
    hide Contains, NamesOne, KnownAc, LowerCase;
    WordsAreLower();
    SignatureTable();
    WordsMeaning(name, RESIDENT);
    WordsMeaning(name, ON_DEMAND);
    WordsMeaning(name, LOOKS_LIKE_ONE);
    FirstSignatureMeaning(name, KnownAc());
    var known, f := KnownAc(), FirstSignature(name, KnownAc());
    if f.Some? {
      var k :| MatchesFirst(name, known, k) && f.value == known[k];
      if k < 3 {
        assert Contains(name, RESIDENT[k]);
      } else {
        assert Contains(name, ON_DEMAND[k - 3]);
        assert forall j :: 0 <= j < 3 ==> known[j].needle == RESIDENT[j];
      }
    } else {
      NoSignature(name);
      MarkerMeaning(name);
    }
  }

  lemma NoSignature(name: string)
    requires forall s <- KnownAc() :: !Contains(name, s.needle)
    ensures forall k :: 0 <= k < 3 ==> !Contains(name, RESIDENT[k])
    ensures forall k :: 0 <= k < 12 ==> !Contains(name, ON_DEMAND[k])
  {
    hide Contains, KnownAc;
    SignatureTable();
    forall k | 0 <= k < 3 ensures !Contains(name, RESIDENT[k]) {
      assert KnownAc()[k] in KnownAc();
    }
    forall k | 0 <= k < 12 ensures !Contains(name, ON_DEMAND[k]) {
      assert KnownAc()[k + 3] in KnownAc();
    }
  }

  lemma MarkerMeaning(name: string)
    ensures (exists m <- AcMarkers() :: Contains(name, m)) <==> exists k :: 0 <= k < |LOOKS_LIKE_ONE| && Contains(name, LOOKS_LIKE_ONE[k])
  {
    hide Contains;
    assert AcMarkers() == LOOKS_LIKE_ONE;
  }

  /** A title alone: what it forbids, and what it leaves to the scan. */
  lemma TitleMeaning(exe: string)
    ensures ClassifyTitle(exe) == NoAc <==> !NamesOne(exe, MAY_PROBE) && !NamesOne(exe, MUST_NOT_PROBE)
    ensures !ProbeAllowed(ClassifyTitle(exe)) <==> !NamesOne(exe, MAY_PROBE) && NamesOne(exe, MUST_NOT_PROBE)
  {
    hide Contains, NamesOne, KnownTitles, LowerCase;
    TitlesAreLower();
    TitleTable();
    WordsMeaning(exe, MAY_PROBE);
    WordsMeaning(exe, MUST_NOT_PROBE);
    FirstTitleMeaning(exe, KnownTitles());
    var titles, c := KnownTitles(), FirstTitle(exe, KnownTitles());
    if exe == "" {
      NothingInEmpty();
    } else if k :| TitleFirst(exe, titles, k) && c == titles[k].class_ {
      assert titles[k] in titles;
      if k < 6 {
        assert Contains(exe, MAY_PROBE[k]);
      } else {
        assert Contains(exe, MUST_NOT_PROBE[k - 6]);
        assert forall j :: 0 <= j < 6 ==> titles[j].needle == MAY_PROBE[j];
      }
    } else {
      NoTitle(exe);
    }
  }

  lemma NothingInEmpty()
    ensures forall w :: !Contains("", w)
  {
  }

  lemma NoTitle(exe: string)
    requires forall t <- KnownTitles() :: !Contains(exe, t.needle)
    ensures forall k :: 0 <= k < 6 ==> !Contains(exe, MAY_PROBE[k])
    ensures forall k :: 0 <= k < 5 ==> !Contains(exe, MUST_NOT_PROBE[k])
  {
    hide Contains, KnownTitles;
    TitleTable();
    forall k | 0 <= k < 6 ensures !Contains(exe, MAY_PROBE[k]) {
      assert KnownTitles()[k] in KnownTitles();
    }
    forall k | 0 <= k < 5 ensures !Contains(exe, MUST_NOT_PROBE[k]) {
      assert KnownTitles()[k + 6] in KnownTitles();
    }
  }

  /** What the oracle decides: known titles first, then any driver or service that speaks for a live
      anti-cheat. */
  lemma OracleMeaning(exe: string, drivers: seq<string>, services: seq<string>)
    ensures !ProbeAllowed(Decide(exe, drivers, services)) <==> MustNotOpen(exe, drivers, services)
  {
    hide IndicatesActiveAc, SpeaksForAntiCheat, NamesOne, ClassifyTitle;
    TitleMeaning(exe);
    forall n ensures IndicatesActiveAc(n) <==> SpeaksForAntiCheat(n) {
      NameMeaning(n);
    }
  }

  /** Vanguard waits in the kernel for no game in particular: alone it forbids nothing. */
  lemma ResidentAloneIsNoReason(exe: string, drivers: seq<string>, services: seq<string>)
    requires !NamesOne(exe, MUST_NOT_PROBE)
    requires forall n <- drivers + services :: NamesOne(n, RESIDENT)
    ensures ProbeAllowed(Decide(exe, drivers, services))
  {
    hide NamesOne, Decide;
    OracleMeaning(exe, drivers, services);
    forall n | n in drivers || n in services ensures NamesOne(n, RESIDENT) {
      assert n in drivers + services;
    }
  }
}
