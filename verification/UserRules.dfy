/** The table of per-process user rules: lookup, the two commands that change it, and the generation
    number that guards a removal by slot. */
module UserRules {
  import opened Common
  import opened Placement
  import opened RevertEffects

  /** action: 0 = never, 1 = frequency CCD, 2 = V-Cache CCD. An empty path matches any path. */
  datatype UserRule = UserRule(name: Name, path: Name, action: nat)

  const MAX_PROCESS_RULES := 128
  const NO_RULE := UserRule([], [], 0)
  const TWO_32 := 0x1_0000_0000

  // ---- Lookup ------------------------------------------------------------

  predicate RuleMatches(r: UserRule, exe: Name, path: Option<Name>) {
    SameName(r.name, exe) && (r.path == [] || (path.Some? && SameName(r.path, path.value)))
  }

  /** find_process_rule: the first rule that matches. */
  function FindRule(rules: seq<UserRule>, exe: Name, path: Option<Name>): Option<UserRule> {
    if exe == [] || rules == [] then None
    else if RuleMatches(rules[0], exe, path) then Some(rules[0])
    else FindRule(rules[1..], exe, path)
  }

  predicate HasPathRule(rules: seq<UserRule>, exe: Name) {
    exists r <- rules :: r.path != [] && SameName(r.name, exe)
  }

  /** find_user_rule_for. `imagePath` is what the system answers; a do-not-probe title is never asked. */
  function FindUserRule(rules: seq<UserRule>, exe: Name, doNotProbe: bool, imagePath: Option<Name>): Option<UserRule> {
    var plain := FindRule(rules, exe, None);
    if plain.Some? then plain
    else if !HasPathRule(rules, exe) || doNotProbe || imagePath.None? then None
    else FindRule(rules, exe, imagePath)
  }

  // ---- The commands ------------------------------------------------------

  predicate IsPlain(r: UserRule, name: Name) {
    SameName(r.name, name) && r.path == []
  }

  /** The slot a SetProcessRule updates, or the length. */
  function PlainSlot(rules: seq<UserRule>, name: Name): (i: nat)
    ensures i <= |rules| && (i < |rules| ==> IsPlain(rules[i], name)) && forall j :: 0 <= j < i ==> !IsPlain(rules[j], name)
  {
    if rules == [] || IsPlain(rules[0], name) then 0 else 1 + PlainSlot(rules[1..], name)
  }

  function PutRule(rules: seq<UserRule>, name: Name, action: nat): seq<UserRule> {
    var i := PlainSlot(rules, name);
    if i < |rules| then rules[i := rules[i].(action := action)]
    else if |rules| < MAX_PROCESS_RULES then rules + [UserRule(name, [], action)]
    else rules
  }

  function WithoutSlot(rules: seq<UserRule>, slot: nat): seq<UserRule>
    requires slot < |rules|
  {
    rules[..slot] + rules[slot + 1..]
  }

  /** What one command does to the table; `resolved` is the exe name of the pid, empty when unknown. */
  datatype Change = SetRule(resolved: Name, action: nat) | RemoveRule(slot: nat, generation: U32)

  datatype Table = Table(rules: seq<UserRule>, generation: U32)

  predicate Accepted(t: Table, c: Change) {
    match c
    case SetRule(resolved, action) => resolved != [] && action <= 2
    case RemoveRule(slot, gen) => gen == t.generation && slot < |t.rules|
  }

  function Changed(t: Table, c: Change): Table {
    if !Accepted(t, c) then t
    else
      var rules := match c
        case SetRule(resolved, action) => PutRule(t.rules, resolved, action)
        case RemoveRule(slot, _) => WithoutSlot(t.rules, slot);
      Table(rules, (t.generation + 1) % TWO_32)
  }

  // ---- What the commands and the lookup mean -----------------------------

  /** Rule i is the first one for any path of that exe. */
  ghost predicate FirstForName(rules: seq<UserRule>, i: nat, name: Name) {
    && i < |rules| && rules[i].path == [] && !NamesDiffer(rules[i].name, name)
    && forall j :: 0 <= j < i ==> rules[j].path != [] || NamesDiffer(rules[j].name, name)
  }

  /** Rule i is the first one for that exe and that path. */
  ghost predicate FirstForPath(rules: seq<UserRule>, i: nat, name: Name, path: Name) {
    && i < |rules| && rules[i].path != [] && !NamesDiffer(rules[i].name, name) && !NamesDiffer(rules[i].path, path)
    && forall j :: 0 <= j < i ==> rules[j].path == [] || NamesDiffer(rules[j].name, name) || NamesDiffer(rules[j].path, path)
  }

  ghost predicate HasForName(rules: seq<UserRule>, name: Name) {
    exists i: nat :: FirstForName(rules, i, name)
  }

  /** SetProcessRule: the first rule for the name and any path takes the action; without one it is added,
      as long as there are fewer than 128. */
  ghost predicate RuleSet(t: Table, u: Table, name: Name, action: nat) {
    && u.generation == (t.generation + 1) % 0x1_0000_0000
    && (forall i: nat :: FirstForName(t.rules, i, name) ==> u.rules == t.rules[i := t.rules[i].(action := action)])
    && (!HasForName(t.rules, name) ==>
          u.rules == if |t.rules| < 128 then t.rules + [UserRule(name, [], action)] else t.rules)
  }

  /** RemoveProcessRule: the slot goes, the later rules move down. */
  ghost predicate RuleRemoved(t: Table, u: Table, slot: nat) {
    slot < |t.rules| && u == Table(t.rules[..slot] + t.rules[slot + 1..], (t.generation + 1) % 0x1_0000_0000)
  }

  lemma {:induction false} PlainSlotMeaning(rules: seq<UserRule>, name: Name)
    ensures PlainSlot(rules, name) < |rules| <==> HasForName(rules, name)
    ensures forall i: nat :: FirstForName(rules, i, name) ==> i == PlainSlot(rules, name)
  {
    var s := PlainSlot(rules, name);
    forall r: UserRule ensures IsPlain(r, name) <==> r.path == [] && !NamesDiffer(r.name, name) {
      SameNameMeaning(r.name, name);
    }
    if s < |rules| {
      assert FirstForName(rules, s, name);
    }
  }

  lemma ChangeMeaning(t: Table, c: Change)
    ensures match c
            case SetRule(name, action) =>
              if name != [] && action <= 2 then RuleSet(t, Changed(t, c), name, action) else Changed(t, c) == t
            case RemoveRule(slot, gen) =>
              if gen == t.generation && slot < |t.rules| then RuleRemoved(t, Changed(t, c), slot) else Changed(t, c) == t
  {
    match c
    case SetRule(name, action) => PlainSlotMeaning(t.rules, name);
    case RemoveRule(_, _) =>
  }

  lemma {:induction false} FindRuleMeaning(rules: seq<UserRule>, exe: Name, path: Option<Name>)
    ensures var f := FindRule(rules, exe, path);
            if f.None? then exe == [] || forall r <- rules :: !RuleMatches(r, exe, path)
            else exe != [] && exists i :: 0 <= i < |rules| && f.value == rules[i] && RuleMatches(rules[i], exe, path)
                                       && forall j :: 0 <= j < i ==> !RuleMatches(rules[j], exe, path)
  {
    if exe != [] && rules != [] && !RuleMatches(rules[0], exe, path) {
      FindRuleMeaning(rules[1..], exe, path);
      if FindRule(rules[1..], exe, path).Some? {
        var i :| 0 <= i < |rules[1..]| && FindRule(rules[1..], exe, path).value == rules[1..][i] && RuleMatches(rules[1..][i], exe, path)
              && forall j :: 0 <= j < i ==> !RuleMatches(rules[1..][j], exe, path);
        assert rules[i + 1] == rules[1..][i];
        assert forall j :: 0 < j < i + 1 ==> rules[j] == rules[1..][j - 1];
      }
    }
  }

  /** Which rule governs a process: the first for its name and any path; without one, and unless its title
      must not be asked for its path, the first for its name and path. */
  lemma GoverningRule(rules: seq<UserRule>, exe: Name, doNotProbe: bool, imagePath: Option<Name>)
    ensures var f := FindUserRule(rules, exe, doNotProbe, imagePath);
            && (exe == [] ==> f == None)
            && (exe != [] ==> forall i: nat :: FirstForName(rules, i, exe) ==> f == Some(rules[i]))
            && (exe != [] && !HasForName(rules, exe) && !doNotProbe && imagePath.Some? ==>
                  forall i: nat :: FirstForPath(rules, i, exe, imagePath.value) ==> f == Some(rules[i]))
            && (f.Some? ==> exists i: nat :: FirstForName(rules, i, exe) ||
                                        (!doNotProbe && imagePath.Some? && FirstForPath(rules, i, exe, imagePath.value)))
  {
    forall r: UserRule ensures RuleMatches(r, exe, None) <==> r.path == [] && !NamesDiffer(r.name, exe) {
      SameNameMeaning(r.name, exe);
    }
    FindRuleMeaning(rules, exe, None);
    var plain := FindRule(rules, exe, None);
    if plain.Some? {
      var i: nat :| i < |rules| && plain.value == rules[i] && RuleMatches(rules[i], exe, None)
                 && forall j :: 0 <= j < i ==> !RuleMatches(rules[j], exe, None);
      assert FirstForName(rules, i, exe);
    } else if imagePath.Some? {
      NoPlainRule(rules, exe, imagePath.value);
    }
  }

  /** Without a rule for any path, a match is a rule for the path. */
  lemma NoPlainRule(rules: seq<UserRule>, exe: Name, path: Name)
    requires exe != [] ==> forall r <- rules :: r.path != [] || NamesDiffer(r.name, exe)
    ensures exe != [] ==> forall i: nat :: FirstForPath(rules, i, exe, path) ==>
              HasPathRule(rules, exe) && FindRule(rules, exe, Some(path)) == Some(rules[i])
    ensures FindRule(rules, exe, Some(path)).Some? ==> exists i: nat :: FirstForPath(rules, i, exe, path)
  {
    FindRuleMeaning(rules, exe, Some(path));
    forall r: UserRule ensures SameName(r.name, exe) <==> !NamesDiffer(r.name, exe) {
      SameNameMeaning(r.name, exe);
    }
    forall r: UserRule ensures SameName(r.path, path) <==> !NamesDiffer(r.path, path) {
      SameNameMeaning(r.path, path);
    }
    if exe != [] {
      forall i | 0 <= i < |rules|
        ensures RuleMatches(rules[i], exe, Some(path)) <==>
                rules[i].path != [] && !NamesDiffer(rules[i].name, exe) && !NamesDiffer(rules[i].path, path)
      {
        assert rules[i] in rules;
      }
      var f := FindRule(rules, exe, Some(path));
      if f.Some? {
        var i: nat :| i < |rules| && f.value == rules[i] && RuleMatches(rules[i], exe, Some(path))
                   && forall j :: 0 <= j < i ==> !RuleMatches(rules[j], exe, Some(path));
        assert FirstForPath(rules, i, exe, path);
      }
    }
  }

  // ---- The table in place ------------------------------------------------

  class RuleTable {
    const slots: array<UserRule>
    var n: nat
    var generation: U32

    ghost predicate Valid()
      reads this, slots
    {
      slots.Length == MAX_PROCESS_RULES && n <= MAX_PROCESS_RULES
    }

    ghost function State(): Table
      reads this, slots
      requires Valid()
    {
      Table(slots[..n], generation)
    }

    /** The rules of the loaded configuration. */
    constructor (loaded: seq<UserRule>)
      requires |loaded| <= MAX_PROCESS_RULES
      ensures Valid() && fresh(slots) && State() == Table(loaded, 0)
    {
      slots := new UserRule[MAX_PROCESS_RULES](i => if 0 <= i < |loaded| then loaded[i] else NO_RULE);
      n, generation := |loaded|, 0;
      new;
      assert slots[..n] == loaded;
    }

    /** kPhynnedCmdSetProcessRule: update the name-only rule of that exe, or add one. */
    method Set(resolved: Name, action: nat) returns (accepted: bool)
      requires Valid()
      modifies this, slots
      ensures Valid() && accepted == Accepted(old(State()), SetRule(resolved, action))
      ensures State() == Changed(old(State()), SetRule(resolved, action))
      ensures accepted <==> resolved != [] && action <= 2
      ensures if accepted then RuleSet(old(State()), State(), resolved, action) else State() == old(State())
    {
      ChangeMeaning(State(), SetRule(resolved, action));
      accepted := resolved != [] && action <= 2;
      if !accepted {
        return;
      }
      ghost var rules := slots[..n];
      var i := 0;
      while i < n && !IsPlain(slots[i], resolved)
        invariant i <= n && forall j :: 0 <= j < i ==> !IsPlain(slots[j], resolved)
      {
        i := i + 1;
      }
      assert i == PlainSlot(rules, resolved);
      if i < n {
        slots[i] := slots[i].(action := action);
      } else if n < MAX_PROCESS_RULES {
        slots[n] := UserRule(resolved, [], action);
        n := n + 1;
      }
      assert slots[..n] == PutRule(rules, resolved, action);
      generation := (generation + 1) % TWO_32;
    }

    /** kPhynnedCmdRemoveProcessRule: the later rules move down by one. */
    method Remove(slot: nat, gen: U32) returns (removed: Option<Name>)
      requires Valid()
      modifies this, slots
      ensures Valid() && State() == Changed(old(State()), RemoveRule(slot, gen))
      ensures removed == if Accepted(old(State()), RemoveRule(slot, gen)) then Some(old(slots[..n])[slot].name) else None
      ensures removed.Some? <==> gen == old(generation) && slot < old(n)
      ensures if removed.Some? then RuleRemoved(old(State()), State(), slot) else State() == old(State())
    {
      ChangeMeaning(State(), RemoveRule(slot, gen));
      if gen != generation || slot >= n {
        return None;
      }
      ghost var rules := slots[..n];
      removed := Some(slots[slot].name);
      ShiftDown(slot);
      n := n - 1;
      slots[n] := NO_RULE;
      assert slots[..n] == WithoutSlot(rules, slot);
      generation := (generation + 1) % TWO_32;
    }

    method ShiftDown(slot: nat)
      requires Valid() && slot < n
      modifies slots
      ensures forall k :: 0 <= k < slot ==> slots[k] == old(slots[k])
      ensures forall k :: slot <= k < n - 1 ==> slots[k] == old(slots[k + 1])
    {
      var j := slot;
      while j + 1 < n
        invariant slot <= j < n
        invariant forall k :: 0 <= k < slot ==> slots[k] == old(slots[k])
        invariant forall k :: slot <= k < j ==> slots[k] == old(slots[k + 1])
        invariant forall k :: j <= k < n ==> slots[k] == old(slots[k])
      {
        slots[j] := slots[j + 1];
        j := j + 1;
      }
    }
  }

  // ---- Removal by slot is safe -------------------------------------------

  /** The tables that a list of commands goes through, and how many of the commands were accepted. */
  function ChangedBy(t: Table, cs: seq<Change>): Table {
    if cs == [] then t else Changed(ChangedBy(t, cs[..|cs| - 1]), cs[|cs| - 1])
  }

  function Mutations(t: Table, cs: seq<Change>): nat {
    if cs == [] then 0
    else
      Mutations(t, cs[..|cs| - 1]) + (if Accepted(ChangedBy(t, cs[..|cs| - 1]), cs[|cs| - 1]) then 1 else 0)
  }

  lemma {:induction false} GenerationCounts(t: Table, cs: seq<Change>)
    ensures ChangedBy(t, cs).generation == (t.generation + Mutations(t, cs)) % TWO_32
    ensures Mutations(t, cs) == 0 ==> ChangedBy(t, cs) == t
  {
    if cs != [] {
      GenerationCounts(t, cs[..|cs| - 1]);
    }
  }

  lemma SameGeneration(g: U32, m: nat)
    ensures (g + m) % TWO_32 == g <==> m % TWO_32 == 0
  {
  }

  /** When a request that carries the generation of an earlier snapshot gets through. */
  lemma AcceptedIff(seen: Table, cs: seq<Change>, slot: nat)
    ensures Accepted(ChangedBy(seen, cs), RemoveRule(slot, seen.generation))
       <==> Mutations(seen, cs) % TWO_32 == 0 && slot < |ChangedBy(seen, cs).rules|
  {
    GenerationCounts(seen, cs);
    SameGeneration(seen.generation, Mutations(seen, cs));
  }

  /** The UI saw the table `seen` and asks to remove slot `slot` of it; other commands came in between.
      If the request is accepted, what goes is the rule the UI saw in that slot, and the other rules it
      saw stay as they were, in their order. */
  lemma StaleIndexIsSafe(seen: Table, cs: seq<Change>, slot: nat)
    requires Mutations(seen, cs) < TWO_32
    requires Accepted(ChangedBy(seen, cs), RemoveRule(slot, seen.generation))
    ensures slot < |seen.rules|
    ensures Changed(ChangedBy(seen, cs), RemoveRule(slot, seen.generation)).rules == seen.rules[..slot] + seen.rules[slot + 1..]
  {
    AcceptedIff(seen, cs, slot);
    GenerationCounts(seen, cs);
  }

  // ---- What a rule set by the UI does ------------------------------------

  /** After SetProcessRule the name is governed by that action, unless the table was full. */
  lemma {:induction false} SetRuleGoverns(rules: seq<UserRule>, exe: Name, action: nat, doNotProbe: bool, path: Option<Name>)
    requires exe != []
    requires PlainSlot(rules, exe) < |rules| || |rules| < MAX_PROCESS_RULES
    ensures var r := FindUserRule(PutRule(rules, exe, action), exe, doNotProbe, path);
            r.Some? && r.value.action == action
  {
    FirstPlainIsFound(PutRule(rules, exe, action), exe, PlainSlot(rules, exe));
  }

  lemma {:induction false} FirstPlainIsFound(rules: seq<UserRule>, exe: Name, i: nat)
    requires exe != [] && i < |rules| && IsPlain(rules[i], exe)
    requires forall j :: 0 <= j < i ==> !IsPlain(rules[j], exe)
    ensures FindRule(rules, exe, None) == Some(rules[i])
  {
    if i > 0 {
      assert rules[1..][i - 1] == rules[i];
      FirstPlainIsFound(rules[1..], exe, i - 1);
    }
  }
}
