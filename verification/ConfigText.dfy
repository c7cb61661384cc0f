/** The line grammar of policies.toml as the parser reads it: fgets lines, keys, quoted strings,
    and the numbers of strtoull. Strings are C strings: they hold no NUL. */
module ConfigText {
  import opened Common

  const U64_MAX: U64 := 0xFFFF_FFFF_FFFF_FFFF

  /** sizeof(line) */
  const LINE_BUFFER := 256

  predicate IsSpace(c: char) {
    c <= ' '
  }

  function LTrim(s: string): (t: string)
    ensures |t| <= |s|
  {
    if s != "" && IsSpace(s[0]) then LTrim(s[1..]) else s
  }

  function RTrim(s: string): string {
    if s != "" && IsSpace(s[|s| - 1]) then RTrim(s[..|s| - 1]) else s
  }

  /** strchr: the first position of c, or the length. */
  function IndexOf(s: string, c: char): (i: nat)
    ensures i <= |s| && (i < |s| ==> s[i] == c) && forall j :: 0 <= j < i ==> s[j] != c
  {
    if s == "" || s[0] == c then 0 else 1 + IndexOf(s[1..], c)
  }

  // ---- Lines -------------------------------------------------------------

  /** Characters that one fgets takes: through the newline, at most `limit`. */
  function ChunkLength(text: string, limit: nat): (n: nat)
    ensures n <= |text| && n <= limit && (text != "" && limit > 0 ==> n > 0)
  {
    if text == "" || limit == 0 then 0
    else if text[0] == '\n' then 1
    else 1 + ChunkLength(text[1..], limit - 1)
  }

  /** The C string that fgets leaves in the buffer. */
  function CString(s: string): string {
    s[..IndexOf(s, '\0')]
  }

  /** Trailing newline and carriage return are cut off; both tests use the length before cutting. */
  function StripEol(line: string): string {
    var n := |line|;
    var a := if n > 0 && (line[n - 1] == '\n' || line[n - 1] == '\r') then line[..n - 1] else line;
    if n > 1 && line[n - 2] == '\r' then line[..n - 2] else a
  }

  // ---- Line kinds --------------------------------------------------------

  datatype Line =
    | Ignored
    | RuleHeader
    | ProcessHeader
    | CorralHeader
    | KeyValue(key: string, rhs: string)

  /** strncmp(s, prefix, strlen(prefix)) == 0 */
  predicate StartsWith(s: string, prefix: string) {
    prefix == "" || (s != "" && s[0] == prefix[0] && StartsWith(s[1..], prefix[1..]))
  }

  lemma {:induction false} StartsWithSelf(s: string)
    ensures StartsWith(s, s)
  {
    if s != "" {
      StartsWithSelf(s[1..]);
    }
  }

  function Classify(line: string): Line {
    var p := LTrim(line);
    if p == "" || p[0] == '#' then Ignored
    else if StartsWith(p, "[[rule]]") then RuleHeader
    else if StartsWith(p, "[[process]]") then ProcessHeader
    else if StartsWith(p, "[corral]") then CorralHeader
    else
      var eq := IndexOf(p, '=');
      if eq == |p| then Ignored
      else
        var key := RTrim(p[..eq]);
        KeyValue(if |key| < 63 then key else key[..63], p[eq + 1..])
  }

  // ---- Values ------------------------------------------------------------

  datatype Quoted = NotQuoted | Text(value: string)

  /** extract_string into a buffer of `size` characters. */
  function ExtractString(rhs: string, size: nat): Quoted
    requires size > 0
  {
    var p := LTrim(rhs);
    if p == "" || p[0] != '"' then NotQuoted
    else
      var len := IndexOf(p[1..], '"');
      if len == |p[1..]| then NotQuoted
      else Text(p[1..][..if len < size - 1 then len else size - 1])
  }

  function ExtractBool(rhs: string): bool {
    "true" <= LTrim(rhs)
  }

  predicate IsDigit(c: char) {
    '0' <= c <= '9'
  }

  /** Value of a digit in a base up to 16, or the base when it is none. */
  function DigitValue(c: char, base: nat): nat {
    var v := if '0' <= c <= '9' then (c - '0') as int
             else if 'a' <= c <= 'f' then (c - 'a') as int + 10
             else if 'A' <= c <= 'F' then (c - 'A') as int + 10
             else base;
    if v < base then v else base
  }

  /** The unbounded value of the digits at the front of s. */
  function Digits(s: string, base: nat, acc: nat): nat
    requires base > 0
  {
    if s == "" || DigitValue(s[0], base) == base then acc
    else Digits(s[1..], base, acc * base + DigitValue(s[0], base))
  }

  /** strtoull on an already trimmed string: optional sign, in base 16 an optional 0x that a digit
      follows, saturation at the maximum, and negation modulo two to the 64. */
  function StrToULL(s: string, base: nat): U64
    requires base == 10 || base == 16
  {
    var signed := s != "" && (s[0] == '-' || s[0] == '+');
    var t := if signed then s[1..] else s;
    var u := if base == 16 && |t| > 2 && t[0] == '0' && (t[1] == 'x' || t[1] == 'X') && DigitValue(t[2], 16) < 16
             then t[2..] else t;
    var v := Digits(u, base, 0);
    if v > U64_MAX then U64_MAX
    else if signed && s[0] == '-' && v > 0 then U64_MAX + 1 - v
    else v
  }

  function ExtractUint(rhs: string): U64 {
    var p := LTrim(rhs);
    if p == "" || !IsDigit(p[0]) then 0 else StrToULL(p, 10)
  }

  /** core_mask: hexadecimal with a 0x prefix, otherwise decimal. */
  function ExtractMask(rhs: string): U64 {
    var p := LTrim(rhs);
    if |p| >= 2 && p[0] == '0' && (p[1] == 'x' || p[1] == 'X') then StrToULL(p, 16) else StrToULL(p, 10)
  }

  // ---- Printed numbers ---------------------------------------------------

  function DigitChar(v: nat): char
    requires v < 16
  {
    "0123456789abcdef"[v]
  }

  /** %u and %llx */
  function Print(n: nat, base: nat): (s: string)
    requires base == 10 || base == 16
    ensures s != ""
  {
    if n < base then [DigitChar(n)]
    else
      DivMod(n, base);
      Print(n / base, base) + [DigitChar(n % base)]
  }

  lemma DigitBack(v: nat, base: nat)
    requires v < base && (base == 10 || base == 16)
    ensures DigitValue(DigitChar(v), base) == v
  {
  }

  /** The accumulator after the digits of n have been read. */
  function ReadIn(n: nat, base: nat, acc: nat): nat
    requires base == 10 || base == 16
  {
    if n < base then acc * base + n
    else
      DivMod(n, base);
      ReadIn(n / base, base, acc) * base + n % base
  }

  lemma {:induction false} ReadInZero(n: nat, base: nat)
    requires base == 10 || base == 16
    ensures ReadIn(n, base, 0) == n
  {
    if n >= base {
      DivMod(n, base);
      ReadInZero(n / base, base);
    }
  }

  /** Reading printed digits back consumes exactly them, whatever follows. */
  lemma {:induction false} DigitsOfPrint(n: nat, base: nat, acc: nat, rest: string)
    requires base == 10 || base == 16
    ensures Digits(Print(n, base) + rest, base, acc) == Digits(rest, base, ReadIn(n, base, acc))
    decreases n
  {
    hide Digits;
    if n < base {
      ReadDigit(n, base, acc, rest);
    } else {
      DivMod(n, base);
      var hi, lo := n / base, n % base;
      var last := [DigitChar(lo)];
      SplitPrint(n, base, rest);
      DigitsOfPrint(hi, base, acc, last + rest);
      ReadDigit(lo, base, ReadIn(hi, base, acc), rest);
      ReadInStep(n, base, acc);
    }
  }

  lemma ReadInStep(n: nat, base: nat, acc: nat)
    requires n >= base && (base == 10 || base == 16)
    ensures n / base >= 0 && ReadIn(n, base, acc) == ReadIn(n / base, base, acc) * base + n % base
  {
    DivMod(n, base);
  }

  lemma SplitPrint(n: nat, base: nat, rest: string)
    requires n >= base && (base == 10 || base == 16)
    ensures n / base < n && 0 <= n % base < base
    ensures Print(n, base) + rest == Print(n / base, base) + ([DigitChar(n % base)] + rest)
  {
    DivMod(n, base);
  }

  lemma DivMod(n: nat, base: nat)
    requires n >= base && (base == 10 || base == 16)
    ensures 0 <= n / base < n && 0 <= n % base < base && (n / base) * base + n % base == n
  {
  }

  lemma ReadDigit(v: nat, base: nat, acc: nat, rest: string)
    requires v < base && (base == 10 || base == 16)
    ensures Digits([DigitChar(v)] + rest, base, acc) == Digits(rest, base, acc * base + v)
  {
    DigitBack(v, base);
    assert ([DigitChar(v)] + rest)[1..] == rest;
  }

  lemma PrintStartsWithDigit(n: nat, base: nat)
    requires base == 10 || base == 16
    ensures DigitValue(Print(n, base)[0], base) < base
    ensures base == 10 ==> IsDigit(Print(n, base)[0])
  {
    if n < base {
      DigitBack(n, base);
    } else {
      PrintStartsWithDigit(n / base, base);
    }
  }

  /** A printed number is read back, followed by anything that is not a digit. */
  lemma DecimalRoundTrip(n: U64, rest: string)
    requires rest == "" || DigitValue(rest[0], 10) == 10
    ensures StrToULL(Print(n, 10) + rest, 10) == n
  {
    var s := Print(n, 10) + rest;
    PrintStartsWithDigit(n, 10);
    assert s[0] == Print(n, 10)[0];
    DigitsOfPrint(n, 10, 0, rest);
    ReadInZero(n, 10);
  }

  lemma HexRoundTrip(n: U64)
    ensures StrToULL("0x" + Print(n, 16), 16) == n
  {
    var s := "0x" + Print(n, 16);
    PrintStartsWithDigit(n, 16);
    assert s[2] == Print(n, 16)[0] && s[2..] == Print(n, 16);
    DigitsOfPrint(n, 16, 0, "");
    ReadInZero(n, 16);
    assert Print(n, 16) + "" == Print(n, 16);
  }
}
