/** The pieces of Rust's `str` API that the sources use, as functions on
    `seq<char>`: trimming, `split_whitespace`, `split`, `lines`, `find`,
    `contains`, `starts_with`, `join`, ASCII upper-casing and the UTF-8 byte
    length that `str::len` reports. */
module Text {
  import opened Wrappers

  /** Unicode White_Space, the set tested by Rust's `char::is_whitespace`
      (and so by `trim` and `split_whitespace`). */
  predicate IsWhitespace(c: char) {
    c == ' ' || ('\t' <= c <= '\r') || c == '\U{0085}' || c == '\U{00A0}' || c == '\U{1680}'
    || ('\U{2000}' <= c <= '\U{200A}') || c == '\U{2028}' || c == '\U{2029}'
    || c == '\U{202F}' || c == '\U{205F}' || c == '\U{3000}'
  }

  predicate NoWhitespace(s: string) {
    forall i :: 0 <= i < |s| ==> !IsWhitespace(s[i])
  }

  lemma NoWhitespaceNoLineBreak(s: string)
    requires NoWhitespace(s)
    ensures '\n' !in s && '\r' !in s
  {
    assert forall i :: 0 <= i < |s| ==> s[i] != '\n' && s[i] != '\r';
  }

  predicate IsAsciiAlpha(c: char) {
    'a' <= c <= 'z' || 'A' <= c <= 'Z'
  }

  predicate AllAsciiAlpha(s: string) {
    forall i :: 0 <= i < |s| ==> IsAsciiAlpha(s[i])
  }

  lemma AppendAssoc<T>(a: seq<T>, b: seq<T>, c: seq<T>)
    ensures (a + b) + c == a + (b + c)
  {
  }

  predicate StartsWith(s: string, p: string) {
    |p| <= |s| && s[..|p|] == p
  }

  predicate EndsWith(s: string, p: string) {
    |p| <= |s| && s[|s| - |p|..] == p
  }

  /** `p` occurs in `s` at index `j`. */
  predicate At(s: string, p: string, j: nat) {
    j + |p| <= |s| && s[j..j + |p|] == p
  }

  // ---------------------------------------------------------------- trimming

  /** The first position at or after `i` that is not whitespace, or `|s|`. */
  function SkipWhitespaceFrom(s: string, i: nat): (j: nat)
    requires i <= |s|
    ensures i <= j <= |s|
    ensures j < |s| ==> !IsWhitespace(s[j])
    decreases |s| - i
  {
    if i < |s| && IsWhitespace(s[i]) then SkipWhitespaceFrom(s, i + 1) else i
  }

  /** The position just after the last non-whitespace character before `j`,
      or 0. */
  function SkipWhitespaceBefore(s: string, j: nat): (i: nat)
    requires j <= |s|
    ensures i <= j
    ensures 0 < i ==> !IsWhitespace(s[i - 1])
  {
    if 0 < j && IsWhitespace(s[j - 1]) then SkipWhitespaceBefore(s, j - 1) else j
  }

  /** `str::trim_start`. */
  function TrimStart(s: string): (r: string)
    ensures r == [] || !IsWhitespace(r[0])
  {
    s[SkipWhitespaceFrom(s, 0)..]
  }

  /** `str::trim_end`. */
  function TrimEnd(s: string): (r: string)
    ensures r == [] || !IsWhitespace(r[|r| - 1])
  {
    s[..SkipWhitespaceBefore(s, |s|)]
  }

  /** `str::trim`: both ends stripped of whitespace. */
  function Trim(s: string): (r: string)
    ensures r == [] || (!IsWhitespace(r[0]) && !IsWhitespace(r[|r| - 1]))
  {
    TrimEnd(TrimStart(s))
  }

  /** What the skip passes over is whitespace. */
  lemma {:induction false} SkippedFromWhitespace(s: string, i: nat)
    requires i <= |s|
    ensures forall k :: i <= k < SkipWhitespaceFrom(s, i) ==> IsWhitespace(s[k])
    decreases |s| - i
  {
    if i < |s| && IsWhitespace(s[i]) {
      SkippedFromWhitespace(s, i + 1);
    }
  }

  lemma {:induction false} SkippedBeforeWhitespace(s: string, j: nat)
    requires j <= |s|
    ensures forall k :: SkipWhitespaceBefore(s, j) <= k < j ==> IsWhitespace(s[k])
  {
    if 0 < j && IsWhitespace(s[j - 1]) {
      SkippedBeforeWhitespace(s, j - 1);
    }
  }

  lemma TrimIdentity(s: string)
    requires s == [] || (!IsWhitespace(s[0]) && !IsWhitespace(s[|s| - 1]))
    ensures Trim(s) == s
  {
  }

  /** `trim` leaves nothing exactly when the text is all whitespace. */
  lemma TrimEmptyIffAllWhitespace(s: string)
    ensures Trim(s) == [] <==> forall i :: 0 <= i < |s| ==> IsWhitespace(s[i])
  {
    var a := SkipWhitespaceFrom(s, 0);
    SkippedFromWhitespace(s, 0);
    var t := s[a..];
    SkippedBeforeWhitespace(t, |t|);
    if Trim(s) == [] {
      assert SkipWhitespaceBefore(t, |t|) == 0;
    }
  }

  // ------------------------------------------------------- split_whitespace

  /** Length of the leading run of non-whitespace characters. */
  function TokenLength(s: string): (n: nat)
    ensures n <= |s|
    ensures forall i :: 0 <= i < n ==> !IsWhitespace(s[i])
    ensures n < |s| ==> IsWhitespace(s[n])
  {
    if s == [] || IsWhitespace(s[0]) then 0 else 1 + TokenLength(s[1..])
  }

  /** `str::split_whitespace`: the maximal non-whitespace runs, in order. */
  function SplitWhitespace(s: string): (r: seq<string>)
    ensures forall k :: 0 <= k < |r| ==> r[k] != [] && NoWhitespace(r[k])
    decreases |s|
  {
    if s == [] then []
    else if IsWhitespace(s[0]) then SplitWhitespace(s[1..])
    else
      var n := TokenLength(s);
      [s[..n]] + SplitWhitespace(s[n..])
  }

  lemma {:induction false} TokenLengthOfToken(t: string, rest: string)
    requires NoWhitespace(t)
    requires rest == [] || IsWhitespace(rest[0])
    ensures TokenLength(t + rest) == |t|
    decreases |t|
  {
    if t != [] {
      assert (t + rest)[1..] == t[1..] + rest;
      TokenLengthOfToken(t[1..], rest);
    }
  }

  /** A whitespace-free token followed by whitespace (or nothing) is the
      first field that `split_whitespace` yields. */
  lemma SplitWhitespaceCons(t: string, rest: string)
    requires t != [] && NoWhitespace(t)
    requires rest == [] || IsWhitespace(rest[0])
    ensures SplitWhitespace(t + rest) == [t] + SplitWhitespace(rest)
  {
    TokenLengthOfToken(t, rest);
    assert (t + rest)[..|t|] == t;
    assert (t + rest)[|t|..] == rest;
  }

  lemma SplitWhitespaceSkip(c: char, rest: string)
    requires IsWhitespace(c)
    ensures SplitWhitespace([c] + rest) == SplitWhitespace(rest)
  {
    assert ([c] + rest)[1..] == rest;
  }

  lemma SplitWhitespaceSingle(t: string)
    requires t != [] && NoWhitespace(t)
    ensures SplitWhitespace(t) == [t]
  {
    SplitWhitespaceCons(t, []);
    assert t + [] == t;
  }

  /** `split_whitespace` finds no field exactly when `trim` leaves nothing. */
  lemma {:induction false} SplitWhitespaceEmpty(s: string)
    ensures SplitWhitespace(s) == [] <==> forall i :: 0 <= i < |s| ==> IsWhitespace(s[i])
    decreases |s|
  {
    if s != [] && IsWhitespace(s[0]) {
      SplitWhitespaceEmpty(s[1..]);
      assert forall i :: 1 <= i < |s| ==> s[i] == s[1..][i - 1];
    }
  }

  // ------------------------------------------------------------------ split

  /** Index of the first occurrence of `c` in `s`. */
  function IndexOfChar(s: string, c: char): (i: nat)
    requires c in s
    ensures i < |s| && s[i] == c && c !in s[..i]
  {
    if s[0] == c then 0
    else
      assert c in s[1..];
      var j := IndexOfChar(s[1..], c);
      assert s[..j + 1] == [s[0]] + s[1..][..j];
      j + 1
  }

  /** `str::split(c)`: the pieces between occurrences of `c`; never empty. */
  function Split(s: string, sep: char): (r: seq<string>)
    ensures |r| >= 1
    ensures forall k :: 0 <= k < |r| ==> sep !in r[k]
    decreases |s|
  {
    if sep in s then
      var i := IndexOfChar(s, sep);
      [s[..i]] + Split(s[i + 1..], sep)
    else [s]
  }

  /** `IndexOfChar` finds `c` at `k` when it is the first occurrence. */
  lemma {:induction false} IndexOfCharIs(s: string, c: char, k: nat)
    requires k < |s| && s[k] == c && c !in s[..k]
    ensures IndexOfChar(s, c) == k
  {
    if k > 0 {
      assert s[0] == s[..k][0];
      assert s[1..][..k - 1] == s[..k][1..];
      IndexOfCharIs(s[1..], c, k - 1);
    }
  }

  lemma SplitTwo(a: string, b: string, sep: char)
    requires sep !in a && sep !in b
    ensures Split(a + [sep] + b, sep) == [a, b]
  {
    var s := a + [sep] + b;
    assert s[..|a|] == a;
    IndexOfCharIs(s, sep, |a|);
    assert s[|a| + 1..] == b;
  }

  /** Splitting a text that starts with a separator-free piece and a
      separator: that piece, then the pieces of the rest. */
  lemma SplitCons(a: string, rest: string, sep: char)
    requires sep !in a
    ensures Split(a + [sep] + rest, sep) == [a] + Split(rest, sep)
  {
    var s := a + [sep] + rest;
    assert s[..|a|] == a;
    IndexOfCharIs(s, sep, |a|);
    assert s[|a| + 1..] == rest;
  }

  /** `[T]::join(sep)`. */
  function Join(parts: seq<string>, sep: string): string
  {
    if |parts| == 0 then []
    else if |parts| == 1 then parts[0]
    else parts[0] + sep + Join(parts[1..], sep)
  }

  /** Tokens joined by single spaces split back into themselves. */
  lemma {:induction false} SplitJoinedTokens(ts: seq<string>)
    requires forall k :: 0 <= k < |ts| ==> ts[k] != [] && NoWhitespace(ts[k])
    ensures SplitWhitespace(Join(ts, " ")) == ts
  {
    if |ts| == 1 {
      SplitWhitespaceSingle(ts[0]);
    } else if |ts| > 1 {
      var rest := Join(ts[1..], " ");
      SplitJoinedTokens(ts[1..]);
      SplitWhitespaceCons(ts[0], " " + rest);
      SplitWhitespaceSkip(' ', rest);
      assert ts[0] + " " + rest == ts[0] + (" " + rest);
      assert ts == [ts[0]] + ts[1..];
    }
  }

  /** Tokens joined by single spaces start with the first token's first
      character and end with the last token's last character. */
  lemma {:induction false} JoinedTokensEnds(ts: seq<string>)
    requires ts != [] && forall k :: 0 <= k < |ts| ==> ts[k] != [] && NoWhitespace(ts[k])
    ensures Join(ts, " ") != []
    ensures Join(ts, " ")[0] == ts[0][0]
    ensures Join(ts, " ")[|Join(ts, " ")| - 1] == ts[|ts| - 1][|ts[|ts| - 1]| - 1]
  {
    if |ts| > 1 {
      JoinedTokensEnds(ts[1..]);
    }
  }

  /** A text holding the separator splits into at least two pieces. */
  lemma SplitAtSeparator(s: string, sep: char)
    requires sep in s
    ensures |Split(s, sep)| >= 2
  {
  }

  /** Splitting on `sep` and joining back with `sep` gives the original text. */
  lemma {:induction false} JoinSplit(s: string, sep: char)
    ensures Join(Split(s, sep), [sep]) == s
    decreases |s|
  {
    if sep in s {
      var i := IndexOfChar(s, sep);
      var rest := Split(s[i + 1..], sep);
      JoinSplit(s[i + 1..], sep);
      assert s == s[..i] + [sep] + s[i + 1..];
    }
  }

  // ------------------------------------------------------------------ lines

  /** A line's terminating `\r`, dropped only when `\n` followed it. */
  function DropCr(line: string): string {
    if line != [] && line[|line| - 1] == '\r' then line[..|line| - 1] else line
  }

  /** `str::lines`: split at `\n` or `\r\n`; no empty line after a final
      terminator; a last line without `\n` is kept verbatim. */
  function Lines(s: string): (r: seq<string>)
    ensures forall k :: 0 <= k < |r| ==> '\n' !in r[k]
    decreases |s|
  {
    if s == [] then []
    else if '\n' in s then
      var i := IndexOfChar(s, '\n');
      [DropCr(s[..i])] + Lines(s[i + 1..])
    else [s]
  }

  /** A line is free of terminators: no `\n` and no trailing `\r`. */
  predicate TerminatorFree(line: string) {
    '\n' !in line && (line == [] || line[|line| - 1] != '\r')
  }

  lemma LinesCons(line: string, rest: string)
    requires TerminatorFree(line)
    ensures Lines(line + "\n" + rest) == [line] + Lines(rest)
  {
    var s := line + "\n" + rest;
    assert s[..|line|] == line;
    IndexOfCharIs(s, '\n', |line|);
    assert s[|line| + 1..] == rest;
  }

  lemma LinesLast(line: string)
    requires '\n' !in line && line != []
    ensures Lines(line) == [line]
  {
  }

  /** `lines` undoes writing each line followed by `\n`. */
  lemma {:induction false} LinesOfTerminated(ls: seq<string>)
    requires forall k :: 0 <= k < |ls| ==> TerminatorFree(ls[k])
    ensures Lines(Terminated(ls)) == ls
    decreases |ls|
  {
    if ls != [] {
      assert Terminated(ls) == ls[0] + "\n" + Terminated(ls[1..]);
      LinesCons(ls[0], Terminated(ls[1..]));
      LinesOfTerminated(ls[1..]);
    }
  }

  /** Each line followed by `\n`, as `writeln!` produces them. */
  function Terminated(ls: seq<string>): string
  {
    if ls == [] then [] else ls[0] + "\n" + Terminated(ls[1..])
  }

  lemma TerminatedCons(l: string, ls: seq<string>)
    ensures Terminated([l] + ls) == l + "\n" + Terminated(ls)
  {
    assert ([l] + ls)[1..] == ls;
  }

  lemma {:induction false} TerminatedAppend(a: seq<string>, b: seq<string>)
    ensures Terminated(a + b) == Terminated(a) + Terminated(b)
    decreases |a|
  {
    if a != [] {
      assert a + b == [a[0]] + (a[1..] + b);
      assert a == [a[0]] + a[1..];
      TerminatedCons(a[0], a[1..] + b);
      TerminatedCons(a[0], a[1..]);
      TerminatedAppend(a[1..], b);
      AppendAssoc(a[0] + "\n", Terminated(a[1..]), Terminated(b));
    } else {
      assert a + b == b;
    }
  }

  /** `lines` reads terminated lines back one by one, whatever follows. */
  lemma {:induction false} LinesAfterTerminated(ls: seq<string>, rest: string)
    requires forall k :: 0 <= k < |ls| ==> TerminatorFree(ls[k])
    ensures Lines(Terminated(ls) + rest) == ls + Lines(rest)
    decreases |ls|
  {
    if ls != [] {
      var tail := Terminated(ls[1..]);
      assert Terminated(ls) + rest == ls[0] + "\n" + (tail + rest) by {
        assert ls == [ls[0]] + ls[1..];
        TerminatedCons(ls[0], ls[1..]);
        AppendAssoc(ls[0] + "\n", tail, rest);
      }
      assert Lines(ls[0] + "\n" + (tail + rest)) == [ls[0]] + Lines(tail + rest) by {
        LinesCons(ls[0], tail + rest);
      }
      assert Lines(tail + rest) == ls[1..] + Lines(rest) by {
        LinesAfterTerminated(ls[1..], rest);
      }
      assert ls == [ls[0]] + ls[1..];
      AppendAssoc([ls[0]], ls[1..], Lines(rest));
    } else {
      assert Terminated(ls) + rest == rest;
    }
  }

  /** `lines` undoes joining with `\n` when the last line is not empty. */
  lemma {:induction false} LinesOfJoin(ls: seq<string>)
    requires forall k :: 0 <= k < |ls| ==> TerminatorFree(ls[k])
    requires ls == [] || ls[|ls| - 1] != []
    ensures Lines(Join(ls, "\n")) == ls
    decreases |ls|
  {
    if |ls| == 1 {
      LinesLast(ls[0]);
    } else if |ls| > 1 {
      var tail := Join(ls[1..], "\n");
      assert Join(ls, "\n") == ls[0] + "\n" + tail;
      assert Lines(ls[0] + "\n" + tail) == [ls[0]] + Lines(tail) by {
        LinesCons(ls[0], tail);
      }
      assert Lines(tail) == ls[1..] by {
        LinesOfJoin(ls[1..]);
      }
      assert ls == [ls[0]] + ls[1..];
    }
  }

  // --------------------------------------------------------- find, contains

  /** An occurrence in `s` past its first character is one in `s[1..]`. */
  lemma AtShift(s: string, p: string)
    requires s != []
    ensures forall j :: 1 <= j ==> (At(s, p, j) <==> At(s[1..], p, j - 1))
  {
    forall j | 1 <= j
      ensures At(s, p, j) <==> At(s[1..], p, j - 1)
    {
      if j + |p| <= |s| {
        var u, v := s[j..j + |p|], s[1..][j - 1..j - 1 + |p|];
        assert |u| == |v| && forall k | 0 <= k < |u| :: u[k] == v[k];
      }
    }
  }

  /** `str::find`: the first index at which `p` occurs. */
  function Find(s: string, p: string): (r: Option<nat>)
    ensures r.Some? ==> At(s, p, r.value)
    ensures r.Some? ==> forall j :: 0 <= j < r.value ==> !At(s, p, j)
    ensures r.None? ==> forall j :: 0 <= j ==> !At(s, p, j)
    decreases |s|
  {
    if StartsWith(s, p) then Some(0)
    else if s == [] then None
    else
      AtShift(s, p);
      match Find(s[1..], p)
      case None => None
      case Some(i) => Some(i + 1)
  }

  /** `str::contains`. */
  predicate Contains(s: string, p: string) {
    Find(s, p).Some?
  }

  lemma ContainsAt(s: string, p: string, j: nat)
    requires At(s, p, j)
    ensures Contains(s, p)
  {
  }

  /** `Find` reports the first occurrence. */
  lemma FindIs(s: string, p: string, j: nat)
    requires At(s, p, j)
    requires forall k :: 0 <= k < j ==> !At(s, p, k)
    ensures Find(s, p) == Some(j)
  {
  }

  /** An occurrence of a text occurs at every part of it. */
  lemma ContainsPart(s: string, a: string, p: string, b: string)
    requires Contains(s, a + p + b)
    ensures Contains(s, p)
  {
    var w := a + p + b;
    var j := Find(s, w).value;
    assert s[j..j + |w|] == w;
    var q := s[j + |a|..j + |a| + |p|];
    forall k | 0 <= k < |p|
      ensures q[k] == p[k]
    {
      calc {
        q[k];
        s[j..j + |w|][|a| + k];
        w[|a| + k];
        p[k];
      }
    }
    assert q == p;
    ContainsAt(s, p, j + |a|);
  }

  /** First index holding one of the characters in `cs` (`str::find` with a
      character predicate). */
  function FindAny(s: string, cs: set<char>): (r: Option<nat>)
    ensures r.Some? ==> r.value < |s| && s[r.value] in cs
    ensures r.Some? ==> forall j :: 0 <= j < r.value ==> s[j] !in cs
    ensures r.None? ==> forall j :: 0 <= j < |s| ==> s[j] !in cs
    decreases |s|
  {
    if s == [] then None
    else if s[0] in cs then Some(0)
    else match FindAny(s[1..], cs)
      case None => None
      case Some(i) => Some(i + 1)
  }

  // ------------------------------------------------------------ upper case

  function UpperChar(c: char): char {
    if 'a' <= c <= 'z' then (c as int - 32) as char else c
  }

  /** `str::to_uppercase`, for the ASCII letters. */
  function Upper(s: string): (r: string)
    ensures |r| == |s|
    ensures forall i :: 0 <= i < |s| ==> r[i] == UpperChar(s[i])
  {
    seq(|s|, i requires 0 <= i < |s| => UpperChar(s[i]))
  }

  lemma UpperIdempotent(s: string)
    ensures Upper(Upper(s)) == Upper(s)
  {
  }

  lemma UpperAppend(a: string, b: string)
    ensures Upper(a + b) == Upper(a) + Upper(b)
  {
  }

  /** An occurrence survives upper-casing both sides. */
  lemma UpperPreservesAt(s: string, p: string, j: nat)
    requires At(s, p, j)
    ensures At(Upper(s), Upper(p), j)
  {
    assert Upper(s)[j..j + |p|] == Upper(s[j..j + |p|]);
  }

  /** Upper-casing a text that already holds the upper-cased `p` keeps it. */
  lemma ContainsUpperOfUpper(s: string, p: string)
    requires Contains(s, Upper(p))
    ensures Contains(Upper(s), Upper(p))
  {
    var j := Find(s, Upper(p)).value;
    UpperPreservesAt(s, Upper(p), j);
    UpperIdempotent(p);
    ContainsAt(Upper(s), Upper(p), j);
  }

  // --------------------------------------------------------- byte lengths

  /** Bytes in the UTF-8 encoding of `c`. */
  function Utf8Width(c: char): nat {
    if c as int < 0x80 then 1
    else if c as int < 0x800 then 2
    else if c as int < 0x10000 then 3
    else 4
  }

  /** `str::len`: the length in bytes of the UTF-8 encoding. */
  function ByteLen(s: string): (n: nat)
    ensures n >= |s|
  {
    if s == [] then 0 else Utf8Width(s[0]) + ByteLen(s[1..])
  }

  predicate IsAscii(s: string) {
    forall i :: 0 <= i < |s| ==> s[i] as int < 0x80
  }

  lemma {:induction false} ByteLenAscii(s: string)
    requires IsAscii(s)
    ensures ByteLen(s) == |s|
    decreases |s|
  {
    if s != [] {
      ByteLenAscii(s[1..]);
    }
  }

  /** Two bytes, all ASCII letters: the same as two ASCII letters. */
  lemma TwoAsciiLetters(s: string)
    ensures (ByteLen(s) == 2 && AllAsciiAlpha(s)) <==> (|s| == 2 && AllAsciiAlpha(s))
  {
    if AllAsciiAlpha(s) {
      ByteLenAscii(s);
    }
  }
}
