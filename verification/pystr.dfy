/** The three Python `str` methods the application relies on: `strip()` with no
    argument, `startswith(prefix)` and `replace(old, new, 1)`. Strings are
    sequences of Unicode scalar values. A Python `str` may also hold lone
    surrogate code points (U+D800 to U+DFFF); such strings are outside this
    model.
 */
module PyStr {
  import opened Wrappers

  /** The per-character whitespace test behind `str.isspace()` and
      `str.strip()`: the characters whose bidirectional class is WS, B or S,
      or whose category is Zs. */
  predicate IsSpace(c: char) {
    var n := c as int;
    || 0x09 <= n <= 0x0D
    || 0x1C <= n <= 0x20
    || n == 0x85
    || n == 0xA0
    || n == 0x1680
    || 0x2000 <= n <= 0x200A
    || n == 0x2028
    || n == 0x2029
    || n == 0x202F
    || n == 0x205F
    || n == 0x3000
  }

  predicate AllSpace(s: string) {
    forall k :: 0 <= k < |s| ==> IsSpace(s[k])
  }

  /** Neither end of `s` is whitespace. */
  predicate IsStripped(s: string) {
    s == [] || (!IsSpace(s[0]) && !IsSpace(s[|s| - 1]))
  }

  /** `s.lstrip()`: drop the longest all-whitespace prefix. */
  function LStrip(s: string): (r: string)
    ensures |r| <= |s| && r == s[|s| - |r|..]
    ensures AllSpace(s[..|s| - |r|])
    ensures r == [] || !IsSpace(r[0])
  {
    if s != [] && IsSpace(s[0]) then LStrip(s[1..]) else s
  }

  /** `s.rstrip()`: drop the longest all-whitespace suffix. */
  function RStrip(s: string): (r: string)
    ensures |r| <= |s| && r == s[..|r|]
    ensures AllSpace(s[|r|..])
    ensures r == [] || !IsSpace(r[|r| - 1])
  {
    if s != [] && IsSpace(s[|s| - 1]) then RStrip(s[..|s| - 1]) else s
  }

  /** `s.strip()`: the text between the leading and the trailing whitespace. */
  function Strip(s: string): (r: string)
    ensures IsStripped(r)
    ensures |r| <= |s|
    ensures r == [] <==> AllSpace(s)
  {
    var l := LStrip(s);
    var r := RStrip(l);
    assert r == [] ==> AllSpace(s) by {
      if r == [] {
        assert s == s[..|s| - |l|] + l;
        assert l == l[|r|..];
      }
    }
    r
  }

  lemma {:induction false} LStripSpacePrefix(a: string, t: string)
    requires AllSpace(a)
    requires t == [] || !IsSpace(t[0])
    ensures LStrip(a + t) == t
    decreases |a|
  {
    if a != [] {
      assert (a + t)[1..] == a[1..] + t;
      LStripSpacePrefix(a[1..], t);
    } else {
      assert a + t == t;
    }
  }

  lemma {:induction false} RStripSpaceSuffix(t: string, b: string)
    requires AllSpace(b)
    requires t == [] || !IsSpace(t[|t| - 1])
    ensures RStrip(t + b) == t
    decreases |b|
  {
    if b != [] {
      assert (t + b)[..|t + b| - 1] == t + b[..|b| - 1];
      RStripSpaceSuffix(t, b[..|b| - 1]);
    } else {
      assert t + b == t;
    }
  }

  /** Whitespace on either side of a stripped text is exactly what `strip()`
      removes: any split `s == a + t + b` with all-whitespace `a` and `b` and a
      stripped `t` has `Strip(s) == t`. */
  lemma {:induction false} StripCharacterization(a: string, t: string, b: string)
    requires AllSpace(a) && AllSpace(b) && IsStripped(t)
    ensures Strip(a + t + b) == t
  {
    if t == [] {
      assert a + t + b == a + b;
      assert AllSpace(a + b);
      assert Strip(a + b) == [];
    } else {
      assert a + t + b == a + (t + b);
      LStripSpacePrefix(a, t + b);
      RStripSpaceSuffix(t, b);
    }
  }

  /** A text with no whitespace at either end is its own strip. */
  lemma StripOfStripped(t: string)
    requires IsStripped(t)
    ensures Strip(t) == t
  {
    assert [] + t + [] == t;
    StripCharacterization([], t, []);
  }

  /** Stripping twice is the same as stripping once. */
  lemma StripIdempotent(s: string)
    ensures Strip(Strip(s)) == Strip(s)
  {
    StripOfStripped(Strip(s));
  }

  /** The two-index scan CPython's `strip()` performs: advance from the left
      past whitespace, then retreat from the right past whitespace, and return
      the slice in between. */
  method StripSpan(s: string) returns (lo: nat, hi: nat)
    ensures lo <= hi <= |s|
    ensures s[lo..hi] == Strip(s)
    ensures AllSpace(s[..lo]) && AllSpace(s[hi..])
  {
    lo := 0;
    while lo < |s| && IsSpace(s[lo])
      invariant lo <= |s|
      invariant forall k :: 0 <= k < lo ==> IsSpace(s[k])
    {
      lo := lo + 1;
    }
    hi := |s|;
    while hi > lo && IsSpace(s[hi - 1])
      invariant lo <= hi <= |s|
      invariant forall k :: hi <= k < |s| ==> IsSpace(s[k])
    {
      hi := hi - 1;
    }
    assert AllSpace(s[..lo]);
    assert AllSpace(s[hi..]);
    assert s == s[..lo] + s[lo..hi] + s[hi..];
    StripCharacterization(s[..lo], s[lo..hi], s[hi..]);
  }

  /** `s.startswith(p)`. */
  predicate StartsWith(s: string, p: string) {
    |p| <= |s| && s[..|p|] == p
  }

  /** `pat` occurs in `s` at index `i`. */
  predicate MatchAt(s: string, pat: string, i: nat) {
    i + |pat| <= |s| && s[i..i + |pat|] == pat
  }

  /** `s.find(pat, i)`: the first index from `i` on where `pat` occurs. */
  function FindFrom(s: string, pat: string, i: nat): (r: Option<nat>)
    ensures r.Some? ==> i <= r.value && MatchAt(s, pat, r.value)
    ensures r.Some? ==> forall j: nat :: i <= j < r.value ==> !MatchAt(s, pat, j)
    ensures r.None? ==> forall j: nat :: i <= j ==> !MatchAt(s, pat, j)
    decreases |s| - i
  {
    if i + |pat| > |s| then None
    else if s[i..i + |pat|] == pat then Some(i)
    else FindFrom(s, pat, i + 1)
  }

  /** `s.replace(pat, repl, 1)`: the first occurrence of `pat`, if any, is
      replaced by `repl`. */
  function ReplaceFirst(s: string, pat: string, repl: string): (r: string)
    ensures (forall j: nat :: !MatchAt(s, pat, j)) ==> r == s
    ensures forall i: nat :: MatchAt(s, pat, i) && (forall j: nat :: j < i ==> !MatchAt(s, pat, j))
                             ==> r == s[..i] + repl + s[i + |pat|..]
  {
    match FindFrom(s, pat, 0)
    case None => s
    case Some(i) => s[..i] + repl + s[i + |pat|..]
  }

  /** When `s` starts with `pat`, the first occurrence is the prefix itself. */
  lemma ReplaceFirstAtPrefix(s: string, pat: string, repl: string)
    requires StartsWith(s, pat)
    ensures ReplaceFirst(s, pat, repl) == repl + s[|pat|..]
  {
    assert MatchAt(s, pat, 0);
  }
}
