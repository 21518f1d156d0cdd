/** The few java.lang.String operations the modelled code relies on, over `seq<char>`. */
module JavaText {
  import opened Wrappers

  /** String.startsWith */
  predicate StartsWith(s: string, prefix: string) {
    |prefix| <= |s| && s[..|prefix|] == prefix
  }

  /** String.endsWith */
  predicate EndsWith(s: string, suffix: string) {
    |suffix| <= |s| && s[|s| - |suffix|..] == suffix
  }

  /** String.indexOf(char): the first position of `c`, or -1. */
  function IndexOf(s: string, c: char): (r: int)
    ensures -1 <= r < |s|
    ensures r == -1 <==> c !in s
    ensures r >= 0 ==> s[r] == c && c !in s[..r]
  {
    if |s| == 0 then -1
    else if s[0] == c then 0
    else
      var r := IndexOf(s[1..], c);
      assert s == [s[0]] + s[1..];
      if r == -1 then -1 else (assert s[..r + 1] == [s[0]] + s[1..][..r]; r + 1)
  }

  /** A position holding `c` with no earlier `c` is what indexOf returns. */
  lemma {:induction false} IndexOfFirst(s: string, c: char, k: nat)
    requires k < |s| && s[k] == c && c !in s[..k]
    ensures IndexOf(s, c) == k
  {
    if k > 0 {
      assert s[0] == s[..k][0];
      assert s[1..][..k - 1] == s[1..k];
      assert s[1..k] == s[..k][1..];
      IndexOfFirst(s[1..], c, k - 1);
    }
  }

  /** String.lastIndexOf(char): the last position of `c`, or -1. */
  function LastIndexOf(s: string, c: char): (r: int)
    ensures -1 <= r < |s|
    ensures r == -1 <==> c !in s
    ensures r >= 0 ==> s[r] == c && c !in s[r + 1..]
  {
    if |s| == 0 then -1
    else if s[|s| - 1] == c then |s| - 1
    else
      var init := s[..|s| - 1];
      var r := LastIndexOf(init, c);
      assert s == init + [s[|s| - 1]];
      assert c in s <==> c in init;
      assert r >= 0 ==> s[r] == init[r] && s[r + 1..] == init[r + 1..] + [s[|s| - 1]];
      r
  }

  /** Character.toLowerCase restricted to ASCII letters. */
  function LowerChar(c: char): char {
    if 'A' <= c <= 'Z' then (c as int + 32) as char else c
  }

  /** String.toLowerCase, ASCII letters only. */
  function ToLower(s: string): string {
    seq(|s|, i requires 0 <= i < |s| => LowerChar(s[i]))
  }

  /** Lower-casing keeps the length, leaves no ASCII capital, and changes only
      ASCII capitals, each to the letter 32 code points above it. */
  lemma LowerCaseShape(s: string)
    ensures var r := ToLower(s);
      && |r| == |s|
      && (forall i :: 0 <= i < |s| ==> !('A' <= r[i] <= 'Z'))
      && forall i :: 0 <= i < |s| && r[i] != s[i] ==> 'A' <= s[i] <= 'Z' && r[i] as int == s[i] as int + 32
  {
  }

  /** String.equalsIgnoreCase, ASCII letters only. */
  predicate EqualsIgnoreCase(a: string, b: string) {
    ToLower(a) == ToLower(b)
  }

  /** StringUtils.isEmpty: null or of length zero. */
  predicate IsEmpty(s: Option<string>) {
    s.None? || s.value == ""
  }

  /** Character.isWhitespace: the Unicode space separators other than the
      no-break spaces, and the ASCII controls TAB, LF, VT, FF, CR and FS..US. */
  predicate IsWhitespace(c: char) {
    || c == ' ' || ('\t' <= c <= '\r') || ('\U{1C}' <= c <= '\U{1F}')
    || c == '\U{1680}' || ('\U{2000}' <= c <= '\U{2006}') || ('\U{2008}' <= c <= '\U{200A}')
    || c == '\U{2028}' || c == '\U{2029}' || c == '\U{205F}' || c == '\U{3000}'
  }

  /** StringUtils.isBlank: null, empty, or whitespace only. */
  predicate IsBlank(s: Option<string>): (b: bool)
    ensures b && s.Some? && (forall i :: 0 <= i < |s.value| ==> s.value[i] < '\U{80}') ==> Trim(s.value) == ""
  {
    if s.None? then true
    else
      var b := forall i :: 0 <= i < |s.value| ==> IsWhitespace(s.value[i]);
      if b && forall i :: 0 <= i < |s.value| ==> s.value[i] < '\U{80}' then
        BlankAsciiTrimsEmpty(s.value);
        b
      else b
  }

  lemma BlankAsciiTrimsEmpty(s: string)
    requires forall i :: 0 <= i < |s| ==> IsWhitespace(s[i]) && s[i] < '\U{80}'
    ensures Trim(s) == ""
  {
    forall i | 0 <= i < |s| ensures s[i] <= ' ' {
      assert IsWhitespace(s[i]);
    }
    TrimEmptyIff(s);
  }

  /** String.trim: drops every leading and trailing character up to U+0020. */
  function Trim(s: string): (r: string)
    ensures r == [] || (r[0] > ' ' && r[|r| - 1] > ' ')
    ensures |r| <= |s|
    ensures |s| > 0 && s[0] > ' ' ==> r != [] && r[0] == s[0]
  {
    TrimEnd(TrimStart(s))
  }

  function TrimStart(s: string): (r: string)
    ensures |r| <= |s| && r == s[|s| - |r|..]
    ensures r == [] || r[0] > ' '
    ensures forall i :: 0 <= i < |s| - |r| ==> s[i] <= ' '
  {
    if |s| > 0 && s[0] <= ' ' then TrimStart(s[1..]) else s
  }

  function TrimEnd(s: string): (r: string)
    ensures |r| <= |s| && r == s[..|r|]
    ensures r == [] || r[|r| - 1] > ' '
    ensures forall i :: |r| <= i < |s| ==> s[i] <= ' '
  {
    if |s| > 0 && s[|s| - 1] <= ' ' then TrimEnd(s[..|s| - 1]) else s
  }

  /** A string trims to nothing exactly when every character is at most U+0020. */
  lemma TrimEmptyIff(s: string)
    ensures Trim(s) == "" <==> forall i :: 0 <= i < |s| ==> s[i] <= ' '
  {
    var t := TrimStart(s);
    if Trim(s) != "" {
      var r := Trim(s);
      assert t[0] == r[0];
      assert s[|s| - |t|] == t[0];
    }
  }

  /** The pieces of `s` between occurrences of `c`, including empty ones
      (String.split with a negative limit). */
  function SplitAll(s: string, c: char): (parts: seq<string>)
    ensures |parts| >= 1
    ensures forall i :: 0 <= i < |parts| ==> c !in parts[i]
    decreases |s|
  {
    var i := IndexOf(s, c);
    if i == -1 then [s] else [s[..i]] + SplitAll(s[i + 1..], c)
  }

  /** Drops trailing empty strings, as String.split with limit zero does. */
  function DropTrailingEmpty(parts: seq<string>): (r: seq<string>)
    ensures |r| <= |parts| && r == parts[..|r|]
    ensures r == [] || r[|r| - 1] != ""
    ensures forall i :: |r| <= i < |parts| ==> parts[i] == ""
  {
    if |parts| > 0 && parts[|parts| - 1] == "" then DropTrailingEmpty(parts[..|parts| - 1]) else parts
  }

  /** String.split for a one-character, non-metacharacter separator: a string
      without the separator is returned whole; otherwise the pieces, with
      trailing empty pieces removed. */
  function Split(s: string, c: char): (parts: seq<string>)
    ensures c !in s ==> parts == [s]
    ensures forall i :: 0 <= i < |parts| ==> c !in parts[i]
    ensures parts == [] || parts[|parts| - 1] != "" || parts == [""]
  {
    if c !in s then [s] else DropTrailingEmpty(SplitAll(s, c))
  }

  /** Joining two separator-free strings, the second non-empty, splits back
      into exactly those two strings. */
  lemma {:induction false} SplitJoin(a: string, b: string, c: char)
    requires c !in a && c !in b && b != ""
    ensures Split(a + [c] + b, c) == [a, b]
  {
    var s := a + [c] + b;
    assert s[..|a|] == a;
    IndexOfFirst(s, c, |a|);
    assert s[|a| + 1..] == b;
    assert SplitAll(s, c) == [a, b];
  }

  /** The inverse of SplitAll: the pieces with the separator between them. */
  function Join(parts: seq<string>, c: char): string
    requires |parts| >= 1
  {
    if |parts| == 1 then parts[0] else parts[0] + [c] + Join(parts[1..], c)
  }

  lemma {:induction false} JoinSplitAll(s: string, c: char)
    ensures Join(SplitAll(s, c), c) == s
    decreases |s|
  {
    var i := IndexOf(s, c);
    if i != -1 {
      var rest := s[i + 1..];
      var tail := SplitAll(rest, c);
      JoinSplitAll(rest, c);
      assert SplitAll(s, c) == [s[..i]] + tail;
      JoinCons(s[..i], tail, c);
      CutAround(s, i, c);
    }
  }

  /** A string is what comes before a position, the character there, and what follows. */
  lemma CutAround(s: string, i: nat, c: char)
    requires i < |s| && s[i] == c
    ensures s == s[..i] + [c] + s[i + 1..]
  {
    assert s[..i] + [c] == s[..i + 1];
  }

  lemma JoinCons(a: string, parts: seq<string>, c: char)
    requires |parts| >= 1
    ensures Join([a] + parts, c) == a + [c] + Join(parts, c)
  {
    assert ([a] + parts)[1..] == parts;
  }

  lemma {:induction false} JoinEmpties(es: seq<string>, c: char)
    requires |es| >= 1 && forall i :: 0 <= i < |es| ==> es[i] == ""
    ensures Join(es, c) == seq(|es| - 1, _ => c)
  {
    if |es| > 1 {
      JoinEmpties(es[1..], c);
    }
  }

  lemma {:induction false} JoinEmptyTail(parts: seq<string>, k: nat, c: char)
    requires 1 <= k <= |parts|
    requires forall i :: k <= i < |parts| ==> parts[i] == ""
    ensures Join(parts, c) == Join(parts[..k], c) + seq(|parts| - k, _ => c)
  {
    if k == 1 {
      if |parts| > 1 {
        JoinEmpties(parts[1..], c);
        assert [c] + seq(|parts| - 2, _ => c) == seq(|parts| - 1, _ => c);
      }
    } else {
      JoinEmptyTail(parts[1..], k - 1, c);
      assert parts[1..][..k - 1] == parts[..k][1..];
    }
  }

  /** What a two-piece split reveals about the split string: the first piece,
      the separator, the second (non-empty) piece, then only separators. */
  lemma {:induction false} SplitTwo(s: string, c: char)
    requires |Split(s, c)| == 2
    ensures var p := Split(s, c);
      && c !in p[0] && c !in p[1] && p[1] != ""
      && |p[0]| + 1 + |p[1]| <= |s|
      && s == p[0] + [c] + p[1] + seq(|s| - |p[0]| - 1 - |p[1]|, _ => c)
  {
    var p := Split(s, c);
    var all := SplitAll(s, c);
    assert p == all[..2];
    JoinSplitAll(s, c);
    JoinEmptyTail(all, 2, c);
    assert Join(all[..2], c) == p[0] + [c] + p[1];
  }

  /** Number of bytes String.getBytes(UTF_8) produces for one code point. */
  function Utf8Width(c: char): nat {
    if c as int < 0x80 then 1
    else if c as int < 0x800 then 2
    else if c as int < 0x1_0000 then 3
    else 4
  }

  /** Length of the UTF-8 encoding of `s`. */
  function Utf8Length(s: string): (n: nat)
    ensures |s| <= n <= 4 * |s|
  {
    if s == [] then 0 else Utf8Length(s[..|s| - 1]) + Utf8Width(s[|s| - 1])
  }

  /** The byte length equals the character count exactly when every
      character is ASCII. */
  lemma {:induction false} Utf8LengthAsciiIff(s: string)
    ensures Utf8Length(s) == |s| <==> forall i :: 0 <= i < |s| ==> s[i] as int < 0x80
  {
    if s != [] {
      var init := s[..|s| - 1];
      Utf8LengthAsciiIff(init);
      assert forall i :: 0 <= i < |init| ==> init[i] == s[i];
    }
  }
}
