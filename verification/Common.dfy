/** Types and notions that several components share. */
module Common {
  type Byte = b: int | 0 <= b < 0x100
  type U32 = n: int | 0 <= n < 0x1_0000_0000
  type U64 = n: int | 0 <= n < 0x1_0000_0000_0000_0000

  datatype Option<T> = None | Some(value: T)

  /** profile of the configuration file and of the agent. */
  datatype Profile = Monitor | Games | GamesCorral | Full

  datatype TargetKind = UnknownKind | Game | Stream | Comm | Browser | Productivity | System

  datatype ActionKind = NoAction | PinAffinity | SetPriority | RevertAction

  function Lower(c: char): char {
    if 'A' <= c <= 'Z' then c - 'A' + 'a' else c
  }

  /** _stricmp(a, b) == 0 */
  predicate SameText(a: string, b: string) {
    |a| == |b| && forall i :: 0 <= i < |a| ==> Lower(a[i]) == Lower(b[i])
  }

  /** The same character, or the same letter in another case. */
  predicate Alike(c: char, d: char) {
    c == d || ('A' <= c <= 'Z' && d as int == c as int + 32) || ('A' <= d <= 'Z' && c as int == d as int + 32)
  }

  predicate TextsDiffer(a: string, b: string) {
    |a| != |b| || exists i :: 0 <= i < |a| && !Alike(a[i], b[i])
  }

  lemma LowerMeaning(c: char, d: char)
    ensures Lower(c) == Lower(d) <==> Alike(c, d)
  {
  }

  lemma SameTextMeaning(a: string, b: string)
    ensures SameText(a, b) <==> !TextsDiffer(a, b)
  {
    forall c, d ensures Lower(c) == Lower(d) <==> Alike(c, d) {
      LowerMeaning(c, d);
    }
  }

  lemma SameTextIsEquivalence(a: string, b: string, c: string)
    ensures SameText(a, a) && (SameText(a, b) ==> SameText(b, a)) && (SameText(a, b) && SameText(b, c) ==> SameText(a, c))
  {
  }
}
