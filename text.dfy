/**
 * The string primitives of the .NET runtime that the services rely on,
 * written out over `string` (a sequence of UTF-16 code units): the
 * whitespace class shared by `char.IsWhiteSpace` and the regular-expression
 * class `\s`, `string.IsNullOrWhiteSpace`, `Trim`, ordinal `Contains`,
 * `Split(char)`, the split on `\s{2,}` that the table parser uses, and the
 * decimal rendering of an `int`.
 */
module Text {

  /** `char.IsWhiteSpace`, which for UTF-16 code units is also the set matched by `\s`. */
  predicate IsWhiteSpace(c: char) {
    ('\U{9}' <= c <= '\U{D}') || c == ' ' || c == '\U{85}' || c == '\U{A0}' || c == '\U{1680}'
    || ('\U{2000}' <= c <= '\U{200A}') || c == '\U{2028}' || c == '\U{2029}' || c == '\U{202F}'
    || c == '\U{205F}' || c == '\U{3000}'
  }

  /** `string.IsNullOrWhiteSpace` (a null string is not modelled; the empty string stands for it). */
  predicate IsNullOrWhiteSpace(s: string)
    decreases |s|
  {
    |s| == 0 || (IsWhiteSpace(s[0]) && IsNullOrWhiteSpace(s[1..]))
  }

  /** Every character is whitespace. */
  predicate AllWhiteSpace(s: string) {
    forall i | 0 <= i < |s| :: IsWhiteSpace(s[i])
  }

  lemma {:induction false} IsNullOrWhiteSpaceMeans(s: string)
    ensures IsNullOrWhiteSpace(s) <==> AllWhiteSpace(s)
    decreases |s|
  {
    if |s| > 0 {
      IsNullOrWhiteSpaceMeans(s[1..]);
      assert forall i | 1 <= i < |s| :: s[i] == s[1..][i - 1];
    }
  }

  // ---------------------------------------------------------------------------
  // Trim

  /** Number of leading whitespace characters. */
  function LeadingWhiteSpace(s: string): (k: nat)
    ensures k <= |s|
    ensures forall i | 0 <= i < k :: IsWhiteSpace(s[i])
    ensures k < |s| ==> !IsWhiteSpace(s[k])
  {
    if |s| > 0 && IsWhiteSpace(s[0]) then 1 + LeadingWhiteSpace(s[1..]) else 0
  }

  /** `string.TrimStart()`: drops the leading whitespace characters. */
  function TrimStart(s: string): (r: string)
    ensures |r| <= |s|
    ensures r == "" <==> IsNullOrWhiteSpace(s)
    ensures r != "" ==> !IsWhiteSpace(r[0])
    decreases |s|
  {
    if |s| > 0 && IsWhiteSpace(s[0]) then TrimStart(s[1..]) else s
  }

  /** `string.TrimEnd()`: drops the trailing whitespace characters. */
  function TrimEnd(s: string): (r: string)
    ensures |r| <= |s|
    ensures r != "" ==> !IsWhiteSpace(r[|r| - 1])
    ensures |s| > 0 && !IsWhiteSpace(s[0]) ==> |r| > 0
    ensures |r| > 0 ==> r[0] == s[0]
    decreases |s|
  {
    if |s| > 0 && IsWhiteSpace(s[|s| - 1]) then
      assert |s| > 1 ==> s[..|s| - 1][0] == s[0];
      TrimEnd(s[..|s| - 1])
    else
      s
  }

  /** `string.Trim()`: removes every leading and trailing whitespace character. */
  function Trim(s: string): (r: string)
    ensures r == "" <==> IsNullOrWhiteSpace(s)
    ensures r != "" ==> !IsWhiteSpace(r[0]) && !IsWhiteSpace(r[|r| - 1])
  {
    var t := TrimStart(s);
    TrimEnd(t)
  }

  /** Trimming keeps a middle slice and drops only whitespace around it. */
  lemma TrimIsInnerSlice(s: string)
    ensures exists i, j | 0 <= i <= j <= |s| ::
              Trim(s) == s[i..j] && AllWhiteSpace(s[..i]) && AllWhiteSpace(s[j..])
  {
    TrimStartDropsWhiteSpace(s);
    var t := TrimStart(s);
    var i := |s| - |t|;
    TrimEndDropsWhiteSpace(t);
    var j := i + |TrimEnd(t)|;
    assert t == s[i..];
    assert s[i..][..j - i] == s[i..j];
    assert s[j..] == t[j - i..];
    assert Trim(s) == s[i..j];
  }

  lemma {:induction false} TrimStartDropsWhiteSpace(s: string)
    ensures TrimStart(s) == s[|s| - |TrimStart(s)|..]
    ensures AllWhiteSpace(s[..|s| - |TrimStart(s)|])
    decreases |s|
  {
    if |s| > 0 && IsWhiteSpace(s[0]) {
      TrimStartDropsWhiteSpace(s[1..]);
      assert s[1..][|s| - 1 - |TrimStart(s)|..] == s[|s| - |TrimStart(s)|..];
      var k := |s| - |TrimStart(s)|;
      assert forall i | 1 <= i < k :: s[..k][i] == s[1..][..k - 1][i - 1];
    }
  }

  lemma {:induction false} TrimEndDropsWhiteSpace(s: string)
    ensures TrimEnd(s) == s[..|TrimEnd(s)|]
    ensures AllWhiteSpace(s[|TrimEnd(s)|..])
    decreases |s|
  {
    if |s| > 0 && IsWhiteSpace(s[|s| - 1]) {
      var u := s[..|s| - 1];
      TrimEndDropsWhiteSpace(u);
      assert u[..|TrimEnd(s)|] == s[..|TrimEnd(s)|];
      var k := |TrimEnd(s)|;
      assert forall i | k <= i < |s| - 1 :: s[i] == u[i];
    }
  }

  /** A string that neither starts nor ends with whitespace is its own trim. */
  lemma TrimOfTrimmed(s: string)
    requires s == "" || (!IsWhiteSpace(s[0]) && !IsWhiteSpace(s[|s| - 1]))
    ensures Trim(s) == s
  {
  }

  lemma {:induction false} TrimStartAppend(s: string, t: string)
    requires !IsNullOrWhiteSpace(s)
    ensures TrimStart(s + t) == TrimStart(s) + t
    decreases |s|
  {
    var u := s + t;
    assert u[0] == s[0];
    if IsWhiteSpace(s[0]) {
      assert u[1..] == s[1..] + t;
      TrimStartAppend(s[1..], t);
    }
  }

  lemma {:induction false} NullOrWhiteSpaceAppend(s: string, c: char)
    requires IsWhiteSpace(c)
    ensures IsNullOrWhiteSpace(s + [c]) <==> IsNullOrWhiteSpace(s)
    decreases |s|
  {
    var u := s + [c];
    if |s| > 0 {
      assert u[0] == s[0];
      assert u[1..] == s[1..] + [c];
      NullOrWhiteSpaceAppend(s[1..], c);
    } else {
      assert u[1..] == [];
    }
  }

  /** Appending whitespace (such as the '\r' a CRLF line keeps after a split on '\n') does not change the trim. */
  lemma TrimIgnoresTrailingWhiteSpace(s: string, c: char)
    requires IsWhiteSpace(c)
    ensures Trim(s + [c]) == Trim(s)
    ensures IsNullOrWhiteSpace(s + [c]) <==> IsNullOrWhiteSpace(s)
  {
    NullOrWhiteSpaceAppend(s, c);
    if !IsNullOrWhiteSpace(s) {
      TrimStartAppend(s, [c]);
      var t := TrimStart(s);
      assert (t + [c])[..|t|] == t;
    }
  }

  // ---------------------------------------------------------------------------
  // Ordinal substring search

  /** `p` occurs in `s` at position `i`. */
  predicate OccursAt(s: string, p: string, i: nat) {
    i + |p| <= |s| && s[i..i + |p|] == p
  }

  /** Ordinal `string.StartsWith(string)`, compared character by character. */
  predicate StartsWith(s: string, p: string)
    decreases |p|
  {
    |p| == 0 || (|s| > 0 && s[0] == p[0] && StartsWith(s[1..], p[1..]))
  }

  /** Ordinal `string.Contains(string)`, searching from the front. */
  predicate Contains(s: string, p: string)
    decreases |s|
  {
    StartsWith(s, p) || (|s| > 0 && Contains(s[1..], p))
  }

  lemma {:induction false} StartsWithMeans(s: string, p: string)
    ensures StartsWith(s, p) <==> |p| <= |s| && s[..|p|] == p
    decreases |p|
  {
    if |p| > 0 && |s| > 0 {
      StartsWithMeans(s[1..], p[1..]);
      if |p| <= |s| {
        assert s[..|p|] == [s[0]] + s[1..][..|p| - 1];
        assert p == [p[0]] + p[1..];
      }
    }
  }

  /** The search finds `p` exactly when `p` occurs at some position of `s`. */
  lemma {:induction false} ContainsMeans(s: string, p: string)
    ensures Contains(s, p) <==> exists i | 0 <= i <= |s| - |p| :: OccursAt(s, p, i)
    decreases |s|
  {
    StartsWithMeans(s, p);
    assert OccursAt(s, p, 0) <==> StartsWith(s, p);
    if |s| > 0 {
      ContainsMeans(s[1..], p);
      forall i | 1 <= i <= |s| - |p| ensures OccursAt(s, p, i) <==> OccursAt(s[1..], p, i - 1) {
        assert s[i..i + |p|] == s[1..][i - 1..i - 1 + |p|];
      }
      if exists i | 0 <= i <= |s| - |p| :: OccursAt(s, p, i) {
        var i :| 0 <= i <= |s| - |p| && OccursAt(s, p, i);
        if i > 0 {
          assert OccursAt(s[1..], p, i - 1);
        }
      }
      if Contains(s[1..], p) {
        var i :| 0 <= i <= |s| - 1 - |p| && OccursAt(s[1..], p, i);
        assert OccursAt(s, p, i + 1);
      }
    }
  }

  /** A string that lacks some character of `p` cannot contain `p`. */
  lemma {:induction false} MissingCharNotContained(s: string, p: string, k: nat)
    requires k < |p| && p[k] !in s
    ensures !Contains(s, p)
    decreases |s|
  {
    StartsWithMeans(s, p);
    if |p| <= |s| {
      assert s[k] in s;
      assert s[..|p|][k] == s[k];
    }
    if |s| > 0 {
      assert forall c | c in s[1..] :: c in s;
      MissingCharNotContained(s[1..], p, k);
    }
  }

  /** A pattern that does not end in `c` is found in `s + [c]` exactly when it is found in `s`. */
  lemma {:induction false} ContainsIgnoresForeignSuffix(s: string, p: string, c: char)
    requires |p| > 0 && p[|p| - 1] != c
    ensures Contains(s + [c], p) <==> Contains(s, p)
    decreases |s|
  {
    var u := s + [c];
    StartsWithMeans(u, p);
    StartsWithMeans(s, p);
    if |p| <= |s| {
      assert u[..|p|] == s[..|p|];
    } else if |p| == |u| {
      assert u[..|p|] == u;
      assert u[|u| - 1] == c;
    }
    if |s| > 0 {
      assert u[1..] == s[1..] + [c];
      ContainsIgnoresForeignSuffix(s[1..], p, c);
    } else {
      assert u[1..] == [];
      StartsWithMeans([], p);
    }
  }

  /** Ordinal `string.EndsWith(string)`. */
  predicate EndsWith(s: string, suffix: string) {
    |suffix| <= |s| && s[|s| - |suffix|..] == suffix
  }

  // ---------------------------------------------------------------------------
  // string.Split(char) and its inverse

  /** Index of the first `c` in `s`, or `|s|` when there is none. */
  function IndexOf(s: string, c: char): (i: nat)
    ensures i <= |s|
    ensures i < |s| ==> s[i] == c
    ensures c !in s[..i]
  {
    if |s| == 0 then 0
    else if s[0] == c then 0
    else
      var i := IndexOf(s[1..], c);
      assert s[..i + 1] == [s[0]] + s[1..][..i];
      i + 1
  }

  /** `s.Split(c)`: the pieces between occurrences of `c`, always at least one. */
  function Split(s: string, c: char): (parts: seq<string>)
    ensures |parts| >= 1
    ensures forall k | 0 <= k < |parts| :: c !in parts[k]
    decreases |s|
  {
    var i := IndexOf(s, c);
    if i == |s| then
      assert s[..i] == s;
      [s]
    else
      [s[..i]] + Split(s[i + 1..], c)
  }

  /** `string.Join(c, parts)`. */
  function Join(parts: seq<string>, c: char): string
    requires |parts| >= 1
  {
    if |parts| == 1 then parts[0] else parts[0] + [c] + Join(parts[1..], c)
  }

  /** Splitting undoes joining when no piece contains the separator. */
  lemma {:induction false} SplitJoin(parts: seq<string>, c: char)
    requires |parts| >= 1
    requires forall k | 0 <= k < |parts| :: c !in parts[k]
    ensures Split(Join(parts, c), c) == parts
    decreases |parts|
  {
    var s := Join(parts, c);
    var p := parts[0];
    if |parts| == 1 {
      IndexOfAbsent(p, c);
      assert parts == [p] && s == p;
    } else {
      var rest := Join(parts[1..], c);
      assert s == p + ([c] + rest);
      IndexOfBefore(p, [c] + rest, c);
      assert s[..|p|] == p;
      assert s[|p| + 1..] == rest;
      SplitJoin(parts[1..], c);
      assert parts == [p] + parts[1..];
    }
  }

  /** Joining undoes splitting. */
  lemma {:induction false} JoinSplit(s: string, c: char)
    ensures Join(Split(s, c), c) == s
    decreases |s|
  {
    var i := IndexOf(s, c);
    if i < |s| {
      JoinSplit(s[i + 1..], c);
      assert s == s[..i] + [c] + s[i + 1..];
    } else {
      assert s[..i] == s;
    }
  }

  lemma IndexOfAbsent(s: string, c: char)
    requires c !in s
    ensures IndexOf(s, c) == |s|
  {
  }

  lemma {:induction false} IndexOfBefore(p: string, t: string, c: char)
    requires c !in p && |t| > 0 && t[0] == c
    ensures IndexOf(p + t, c) == |p|
    decreases |p|
  {
    if |p| > 0 {
      assert (p + t)[1..] == p[1..] + t;
      IndexOfBefore(p[1..], t, c);
    }
  }

  // ---------------------------------------------------------------------------
  // Regex.Split(s, @"\s{2,}")

  /** Position of the leftmost run of two or more whitespace characters, or `|s|`. */
  function RunStart(s: string): (k: nat)
    ensures k <= |s|
    ensures k < |s| ==> k + 1 < |s| && IsWhiteSpace(s[k]) && IsWhiteSpace(s[k + 1])
    ensures forall j | 0 <= j < k && j + 1 < |s| :: !(IsWhiteSpace(s[j]) && IsWhiteSpace(s[j + 1]))
  {
    if |s| < 2 then |s|
    else if IsWhiteSpace(s[0]) && IsWhiteSpace(s[1]) then 0
    else
      var k := RunStart(s[1..]);
      assert forall j | 1 <= j < k + 1 && j + 1 < |s| :: s[j] == s[1..][j - 1] && s[j + 1] == s[1..][j];
      k + 1
  }

  /**
   * The pieces `Regex.Split` returns for the pattern `\s{2,}`: matches are found
   * leftmost first and are greedy, so every maximal run of two or more
   * whitespace characters is one separator.
   */
  function SplitOnWhiteSpaceRuns(s: string): (parts: seq<string>)
    ensures |parts| >= 1
    decreases |s|
  {
    var k := RunStart(s);
    if k == |s| then [s]
    else
      var n := LeadingWhiteSpace(s[k..]);
      assert n >= 2 by {
        assert s[k..][0] == s[k] && s[k..][1] == s[k + 1];
      }
      [s[..k]] + SplitOnWhiteSpaceRuns(s[k + n..])
  }

  /** A table cell as the renderer writes it: not empty, not padded, and with no run of two whitespace characters. */
  predicate IsCell(f: string) {
    && |f| > 0
    && !IsWhiteSpace(f[0])
    && !IsWhiteSpace(f[|f| - 1])
    && NoWhiteSpaceRun(f)
  }

  /** Padding between two cells: at least two whitespace characters. */
  predicate IsPadding(p: string) {
    |p| >= 2 && AllWhiteSpace(p)
  }

  /** A table row: the cells, each followed by its padding except the last. */
  function RenderRow(cells: seq<string>, pads: seq<string>): string
    requires |cells| >= 1 && |pads| == |cells| - 1
  {
    if |cells| == 1 then cells[0] else cells[0] + pads[0] + RenderRow(cells[1..], pads[1..])
  }

  lemma {:induction false} RenderRowEnds(cells: seq<string>, pads: seq<string>)
    requires |cells| >= 1 && |pads| == |cells| - 1
    requires forall k | 0 <= k < |cells| :: IsCell(cells[k])
    ensures var r := RenderRow(cells, pads); |r| > 0 && !IsWhiteSpace(r[0]) && !IsWhiteSpace(r[|r| - 1])
    decreases |cells|
  {
    assert IsCell(cells[0]);
    if |cells| > 1 {
      RenderRowEnds(cells[1..], pads[1..]);
      var rest := RenderRow(cells[1..], pads[1..]);
      var r := cells[0] + pads[0] + rest;
      assert r[0] == cells[0][0];
      assert r[|r| - 1] == rest[|rest| - 1];
    }
  }

  /** The `\s{2,}` split recovers the cells of a rendered row, whatever the padding widths. */
  lemma {:induction false} SplitRenderedRow(cells: seq<string>, pads: seq<string>)
    requires |cells| >= 1 && |pads| == |cells| - 1
    requires forall k | 0 <= k < |cells| :: IsCell(cells[k])
    requires forall k | 0 <= k < |pads| :: IsPadding(pads[k])
    ensures SplitOnWhiteSpaceRuns(RenderRow(cells, pads)) == cells
    decreases |cells|
  {
    var f := cells[0];
    if |cells| == 1 {
      RunStartOfCell(f, "");
      assert f + "" == f;
    } else {
      var rest := RenderRow(cells[1..], pads[1..]);
      RenderRowEnds(cells[1..], pads[1..]);
      SplitCellThenRest(f, pads[0], rest);
      SplitRenderedRow(cells[1..], pads[1..]);
    }
  }

  /** One cell, its padding, and the rest of the row: the split takes the cell and goes on with the rest. */
  lemma SplitCellThenRest(f: string, p: string, rest: string)
    requires IsCell(f) && IsPadding(p)
    requires rest == "" || !IsWhiteSpace(rest[0])
    ensures SplitOnWhiteSpaceRuns(f + p + rest) == [f] + SplitOnWhiteSpaceRuns(rest)
  {
    var s := f + p + rest;
    assert f + (p + rest) == s;
    assert (p + rest)[0] == p[0] && (p + rest)[1] == p[1];
    RunStartOfCell(f, p + rest);
    assert s[|f|..] == p + rest;
    IsNullOrWhiteSpaceMeans(p);
    LeadingWhiteSpaceOfPadding(p, rest);
    assert s[..|f|] == f;
    assert s[|f| + |p|..] == rest;
  }

  /** No run of two whitespace characters. */
  predicate NoWhiteSpaceRun(f: string) {
    forall j | 0 <= j < |f| - 1 :: !(IsWhiteSpace(f[j]) && IsWhiteSpace(f[j + 1]))
  }

  lemma {:induction false} RunStartOfCell(f: string, t: string)
    requires |f| > 0 && !IsWhiteSpace(f[|f| - 1]) && NoWhiteSpaceRun(f)
    requires t == "" || (|t| >= 2 && IsWhiteSpace(t[0]) && IsWhiteSpace(t[1]))
    ensures RunStart(f + t) == |f|
    decreases |f|
  {
    var s := f + t;
    if |f| == 1 {
      if |s| >= 2 {
        assert s[1..] == t;
      }
    } else {
      assert s[1..] == f[1..] + t;
      assert s[0] == f[0] && s[1] == f[1];
      assert !(IsWhiteSpace(s[0]) && IsWhiteSpace(s[1]));
      assert NoWhiteSpaceRun(f[1..]) by {
        forall j | 0 <= j < |f| - 2 ensures !(IsWhiteSpace(f[1..][j]) && IsWhiteSpace(f[1..][j + 1])) {
          assert f[1..][j] == f[j + 1] && f[1..][j + 1] == f[j + 2];
        }
      }
      RunStartOfCell(f[1..], t);
    }
  }

  lemma {:induction false} LeadingWhiteSpaceOfPadding(p: string, t: string)
    requires IsNullOrWhiteSpace(p)
    requires t == "" || !IsWhiteSpace(t[0])
    ensures LeadingWhiteSpace(p + t) == |p|
    decreases |p|
  {
    if |p| > 0 {
      assert (p + t)[1..] == p[1..] + t;
      LeadingWhiteSpaceOfPadding(p[1..], t);
    } else {
      assert p + t == t;
    }
  }

  // ---------------------------------------------------------------------------
  // Decimal rendering of an int (string interpolation of an int)

  function DigitChar(d: nat): char
    requires d < 10
  {
    "0123456789"[d]
  }

  function DigitValue(c: char): nat {
    if '0' <= c <= '9' then (c as int - '0' as int) as nat else 0
  }

  /** The decimal digits of `n`, most significant first, without leading zeros. */
  function NatToString(n: nat): (s: string)
    ensures |s| >= 1
    ensures forall i | 0 <= i < |s| :: '0' <= s[i] <= '9'
  {
    if n < 10 then [DigitChar(n)] else NatToString(n / 10) + [DigitChar(n % 10)]
  }

  /** `n.ToString()` for an `int`: a minus sign before the digits of a negative value. */
  function IntToString(n: int): string {
    if n < 0 then "-" + NatToString(-n) else NatToString(n)
  }

  /** Reads decimal digits back, the reference against which the rendering is checked. */
  function ParseNat(s: string): nat {
    if |s| == 0 then 0 else 10 * ParseNat(s[..|s| - 1]) + DigitValue(s[|s| - 1])
  }

  function ParseInt(s: string): int {
    if |s| > 0 && s[0] == '-' then -(ParseNat(s[1..]) as int) else ParseNat(s)
  }

  lemma {:induction false} ParseNatToString(n: nat)
    ensures ParseNat(NatToString(n)) == n
  {
    if n >= 10 {
      var s := NatToString(n);
      assert s[..|s| - 1] == NatToString(n / 10);
      ParseNatToString(n / 10);
    }
  }

  /** The rendering is read back exactly, so distinct codes give distinct texts. */
  lemma IntToStringRoundTrip(n: int)
    ensures ParseInt(IntToString(n)) == n
  {
    if n < 0 {
      var s := IntToString(n);
      assert s == "-" + NatToString(-n);
      assert s[0] == '-' && s[1..] == NatToString(-n);
      ParseNatToString(-n);
    } else {
      var s := NatToString(n);
      assert '0' <= s[0] <= '9';
      ParseNatToString(n);
    }
  }

  lemma IntToStringInjective(a: int, b: int)
    requires IntToString(a) == IntToString(b)
    ensures a == b
  {
    IntToStringRoundTrip(a);
    IntToStringRoundTrip(b);
  }
}
