/**
 * String operations of the JavaScript runtime used by the core: `trim`,
 * `indexOf`, `lastIndexOf`, `startsWith`/`endsWith`, `slice`, `join` and ASCII
 * lower-casing. Strings are sequences of characters.
 */
module JsStrings {
  import opened Wrappers

  /**
   * The ECMAScript WhiteSpace and LineTerminator code points. `trim` removes
   * exactly these, and the regular-expression class `\s` matches exactly these.
   */
  predicate IsWs(c: char) {
    var n := c as int;
    n == 0x09 || n == 0x0A || n == 0x0B || n == 0x0C || n == 0x0D || n == 0x20
    || n == 0xA0 || n == 0x1680 || (0x2000 <= n <= 0x200A) || n == 0x2028
    || n == 0x2029 || n == 0x202F || n == 0x205F || n == 0x3000 || n == 0xFEFF
  }

  predicate AllWs(s: string) {
    forall i :: 0 <= i < |s| ==> IsWs(s[i])
  }

  /** Neither end of `s` is whitespace. */
  predicate Trimmed(s: string) {
    |s| > 0 ==> !IsWs(s[0]) && !IsWs(s[|s| - 1])
  }

  /** `s.trimStart()`: `s` with its leading whitespace removed. */
  function TrimStart(s: string): (r: string)
    ensures |r| <= |s| && r == s[|s| - |r|..]
    ensures AllWs(s[..|s| - |r|])
    ensures |r| > 0 ==> !IsWs(r[0])
  {
    if |s| > 0 && IsWs(s[0]) then
      var r := TrimStart(s[1..]);
      TrimStartStep(s, r);
      r
    else s
  }

  /** The recursive case of `TrimStart`: one more leading whitespace character removed. */
  lemma TrimStartStep(s: string, r: string)
    requires |s| > 0 && IsWs(s[0])
    requires |r| <= |s| - 1 && r == s[1..][|s| - 1 - |r|..] && AllWs(s[1..][..|s| - 1 - |r|])
    ensures r == s[|s| - |r|..] && AllWs(s[..|s| - |r|])
  {
    WsBeforeRun(s, |s| - |r|);
    DropAfterFirst(s, |s| - 1 - |r|);
  }

  /** A whitespace character followed by a whitespace run is a whitespace run. */
  lemma WsBeforeRun(s: string, k: nat)
    requires 1 <= k <= |s| && IsWs(s[0]) && AllWs(s[1..][..k - 1])
    ensures AllWs(s[..k])
  {
    forall i | 0 <= i < k ensures IsWs(s[..k][i]) {
      if i > 0 {
        assert s[..k][i] == s[1..][..k - 1][i - 1];
      }
    }
  }

  /** A whitespace run followed by a whitespace character is a whitespace run. */
  lemma WsAfterRun(s: string, k: nat)
    requires k < |s| && IsWs(s[|s| - 1]) && AllWs(s[..|s| - 1][k..])
    ensures AllWs(s[k..])
  {
    forall i | 0 <= i < |s| - k ensures IsWs(s[k..][i]) {
      if i < |s| - 1 - k {
        assert s[k..][i] == s[..|s| - 1][k..][i];
      }
    }
  }

  /** Dropping `k` after dropping the first character drops `k + 1`. */
  lemma DropAfterFirst(s: string, k: nat)
    requires 1 + k <= |s|
    ensures s[1..][k..] == s[k + 1..]
  {
  }

  /** A text is its prefix followed by the rest. */
  lemma SplitAt(s: string, k: nat)
    requires k <= |s|
    ensures s[..k] + s[k..] == s
  {
  }

  /** `s.trimEnd()`: `s` with its trailing whitespace removed. */
  function TrimEnd(s: string): (r: string)
    ensures |r| <= |s| && r == s[..|r|]
    ensures AllWs(s[|r|..])
    ensures |r| > 0 ==> !IsWs(r[|r| - 1])
  {
    if |s| > 0 && IsWs(s[|s| - 1]) then
      var r := TrimEnd(s[..|s| - 1]);
      WsAfterRun(s, |r|);
      r
    else s
  }

  /** `s.trim()`. */
  function Trim(s: string): (r: string)
    ensures |r| <= |s|
    ensures Trimmed(r)
  {
    var t := TrimStart(s);
    var r := TrimEnd(t);
    assert |r| > 0 ==> r[0] == t[0];
    r
  }

  /** Trimming leaves nothing exactly when the text is all whitespace. */
  lemma TrimEmptyIff(s: string)
    ensures Trim(s) == "" <==> AllWs(s)
  {
    var t := TrimStart(s);
    var k := |s| - |t|;
    assert s == s[..k] + t;
    assert |t| > 0 ==> t[0] == s[k];
    if Trim(s) == "" {
      assert AllWs(t[0..]);
      assert t[0..] == t;
      assert |t| == 0;
      assert s == s[..k];
    }
  }

  lemma {:induction false} TrimStartSkips(p: string, x: string)
    requires AllWs(p)
    requires |x| > 0 ==> !IsWs(x[0])
    ensures TrimStart(p + x) == x
  {
    if |p| > 0 {
      assert (p + x)[1..] == p[1..] + x;
      TrimStartSkips(p[1..], x);
    } else {
      assert p + x == x;
    }
  }

  lemma {:induction false} TrimEndSkips(x: string, q: string)
    requires AllWs(q)
    requires |x| > 0 ==> !IsWs(x[|x| - 1])
    ensures TrimEnd(x + q) == x
  {
    if |q| > 0 {
      assert (x + q)[..|x + q| - 1] == x + q[..|q| - 1];
      TrimEndSkips(x, q[..|q| - 1]);
    } else {
      assert x + q == x;
    }
  }

  /**
   * `trim` is characterised by the decomposition it undoes: whatever
   * whitespace surrounds a text with no whitespace at its ends, trimming
   * gives back exactly that text.
   */
  lemma TrimInverts(p: string, m: string, q: string)
    requires AllWs(p) && AllWs(q) && Trimmed(m)
    ensures Trim(p + m + q) == m
  {
    if m == "" {
      assert p + m + q == p + q;
      assert AllWs(p + q);
      TrimEmptyIff(p + q);
    } else {
      assert p + m + q == p + (m + q);
      TrimStartSkips(p, m + q);
      TrimEndSkips(m, q);
    }
  }

  /** Whitespace in front of a text does not change what it trims to. */
  lemma {:induction false} TrimSkipsLeadingWs(p: string, x: string)
    requires AllWs(p)
    ensures TrimStart(p + x) == TrimStart(x)
    ensures Trim(p + x) == Trim(x)
  {
    if |p| > 0 {
      assert (p + x)[1..] == p[1..] + x;
      TrimSkipsLeadingWs(p[1..], x);
    } else {
      assert p + x == x;
    }
  }

  /** Trimming removes characters and adds none. */
  lemma TrimKeepsOut(s: string, c: char)
    requires c !in s
    ensures c !in Trim(s)
  {
    var t := TrimStart(s);
    assert c !in t;
  }

  /** Trimming twice is trimming once. */
  lemma TrimIdempotent(s: string)
    ensures Trim(Trim(s)) == Trim(s)
  {
    var t := Trim(s);
    assert "" + t + "" == t;
    TrimInverts("", t, "");
  }

  /** `s.startsWith(p)` */
  predicate StartsWith(s: string, p: string) {
    |p| <= |s| && s[..|p|] == p
  }

  /** `s.endsWith(p)` */
  predicate EndsWith(s: string, p: string) {
    |p| <= |s| && s[|s| - |p|..] == p
  }

  /** A Markdown code fence, which both model replies may wrap their JSON in. */
  const Fence := "```"

  /** `s.slice(0, n)` for `n >= 0`: the first `n` characters, or all of `s`. */
  function Prefix(s: string, n: nat): (r: string)
    ensures |r| == if n < |s| then n else |s|
    ensures StartsWith(s, r)
  {
    if n < |s| then s[..n] else s
  }

  /** `pat` occurs in `s` starting at index `i`. */
  predicate OccursAt(s: string, pat: string, i: int) {
    0 <= i && i + |pat| <= |s| && s[i..i + |pat|] == pat
  }

  /** The first index at or after `from` where `pat` occurs, if any. */
  function IndexOfFrom(s: string, pat: string, from: nat): (r: Option<nat>)
    decreases |s| + 1 - from
    ensures r.Some? ==> from <= r.value && OccursAt(s, pat, r.value)
    ensures r.Some? ==> forall j :: from <= j < r.value ==> !OccursAt(s, pat, j)
    ensures r.None? ==> forall j :: from <= j ==> !OccursAt(s, pat, j)
  {
    if from + |pat| > |s| then None
    else if s[from..from + |pat|] == pat then Some(from)
    else IndexOfFrom(s, pat, from + 1)
  }

  /** `s.lastIndexOf(pat)` when it is not -1: the last index where `pat` occurs. */
  function LastIndexOf(s: string, pat: string): (r: Option<nat>)
    ensures r.Some? ==> OccursAt(s, pat, r.value)
    ensures r.Some? ==> forall j :: r.value < j ==> !OccursAt(s, pat, j)
    ensures r.None? ==> forall j :: !OccursAt(s, pat, j)
  {
    LastIndexBelow(s, pat, |s| + 1)
  }

  /** The last index below `bound` where `pat` occurs, if any. */
  function LastIndexBelow(s: string, pat: string, bound: nat): (r: Option<nat>)
    ensures r.Some? ==> r.value < bound && OccursAt(s, pat, r.value)
    ensures r.Some? ==> forall j :: r.value < j < bound ==> !OccursAt(s, pat, j)
    ensures r.None? ==> forall j :: j < bound ==> !OccursAt(s, pat, j)
  {
    if bound == 0 then None
    else if OccursAt(s, pat, bound - 1) then Some(bound - 1)
    else LastIndexBelow(s, pat, bound - 1)
  }

  /** `s.indexOf(c)` when it is not -1: the first index holding `c`. */
  function IndexOfChar(s: string, c: char): (r: Option<nat>)
    ensures r.Some? ==> r.value < |s| && s[r.value] == c && c !in s[..r.value]
    ensures r.None? <==> c !in s
  {
    if |s| == 0 then None
    else if s[0] == c then Some(0)
    else
      match IndexOfChar(s[1..], c)
      case None => None
      case Some(i) =>
        assert s[..i + 1] == [s[0]] + s[1..][..i];
        Some(i + 1)
  }

  /** `parts.join(sep)` */
  function Join(parts: seq<string>, sep: string): string
  {
    if |parts| == 0 then ""
    else if |parts| == 1 then parts[0]
    else parts[0] + sep + Join(parts[1..], sep)
  }

  function TotalLength(parts: seq<string>): nat {
    if |parts| == 0 then 0 else |parts[0]| + TotalLength(parts[1..])
  }

  /** Joining `n` parts inserts exactly `n - 1` separators. */
  lemma {:induction false} JoinLength(parts: seq<string>, sep: string)
    requires |parts| >= 1
    ensures |Join(parts, sep)| == TotalLength(parts) + (|parts| - 1) * |sep|
  {
    if |parts| > 1 {
      JoinLength(parts[1..], sep);
    }
  }

  /** ASCII lower-casing of one character. */
  function LowerChar(c: char): char {
    if 'A' <= c <= 'Z' then (c as int + 32) as char else c
  }

  /** `s.toLowerCase()` restricted to ASCII letters. */
  function LowerAscii(s: string): (r: string)
    ensures |r| == |s|
    ensures forall i :: 0 <= i < |s| ==> r[i] == LowerChar(s[i])
  {
    seq(|s|, i requires 0 <= i < |s| => LowerChar(s[i]))
  }
}
