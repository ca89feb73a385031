/**
 * The string operations the chat responder relies on: `str.lower`, `str.strip`
 * and the substring test `needle in haystack`.
 */
module Text {

  // ---------------------------------------------------------------------
  // lower()
  // ---------------------------------------------------------------------

  predicate IsUpper(c: char)
  {
    'A' <= c <= 'Z'
  }

  /** `c.lower()` for ASCII letters; every other character is left as it is. */
  function LowerChar(c: char): (d: char)
    ensures !IsUpper(d)
    ensures !IsUpper(c) ==> d == c
    ensures IsUpper(c) ==> d as int == c as int + 32
  {
    if IsUpper(c) then (c as int + 32) as char else c
  }

  /** `s.lower()`, character by character. */
  function Lower(s: string): (r: string)
    ensures |r| == |s|
    ensures forall i :: 0 <= i < |r| ==> !IsUpper(r[i])
    ensures forall i :: 0 <= i < |s| && !IsUpper(s[i]) ==> r[i] == s[i]
    ensures forall i :: 0 <= i < |s| && IsUpper(s[i]) ==> r[i] as int == s[i] as int + 32
  {
    seq(|s|, i requires 0 <= i < |s| => LowerChar(s[i]))
  }

  /** Lowering is idempotent, and a string with no upper-case letter is its own lower case. */
  lemma LowerFixesLowerCase(s: string)
    requires forall i :: 0 <= i < |s| ==> !IsUpper(s[i])
    ensures Lower(s) == s
  {
  }

  // ---------------------------------------------------------------------
  // strip()
  // ---------------------------------------------------------------------

  /** The characters Python's `str.isspace` accepts. */
  predicate IsSpace(c: char)
  {
    var n := c as int;
    || 0x09 <= n <= 0x0D || 0x1C <= n <= 0x20 || n == 0x85 || n == 0xA0 || n == 0x1680
    || 0x2000 <= n <= 0x200A || n == 0x2028 || n == 0x2029 || n == 0x202F || n == 0x205F || n == 0x3000
  }

  /** `s.lstrip()`: the suffix left after dropping leading whitespace. */
  function TrimStart(s: string): (r: string)
    ensures |r| <= |s|
    ensures r == s[|s| - |r|..]
    ensures forall k :: 0 <= k < |s| - |r| ==> IsSpace(s[k])
    ensures r != [] ==> !IsSpace(r[0])
    ensures forall c :: c in r ==> c in s
  {
    if s != [] && IsSpace(s[0]) then TrimStart(s[1..]) else s
  }

  /** `s.rstrip()`: the prefix left after dropping trailing whitespace. */
  function TrimEnd(s: string): (r: string)
    ensures |r| <= |s|
    ensures r == s[..|r|]
    ensures forall k :: |r| <= k < |s| ==> IsSpace(s[k])
    ensures r != [] ==> !IsSpace(r[|r| - 1])
    ensures forall c :: c in r ==> c in s
  {
    if s != [] && IsSpace(s[|s| - 1]) then TrimEnd(s[..|s| - 1]) else s
  }

  /** `r` is the slice of `s` at `i`, with only whitespace before and after it. */
  ghost predicate StrippedAt(s: string, r: string, i: int)
  {
    && 0 <= i && i + |r| <= |s| && s[i..i + |r|] == r
    && (forall k :: 0 <= k < i ==> IsSpace(s[k]))
    && (forall k :: i + |r| <= k < |s| ==> IsSpace(s[k]))
  }

  /** `r`, a prefix of the suffix `t` of `s`, sits in `s` where `t` starts. */
  lemma TrimmedSlice(s: string, t: string, r: string)
    requires |t| <= |s| && t == s[|s| - |t|..]
    requires |r| <= |t| && r == t[..|r|]
    requires forall k :: |r| <= k < |t| ==> IsSpace(t[k])
    ensures s[|s| - |t|..|s| - |t| + |r|] == r
    ensures forall k :: |s| - |t| + |r| <= k < |s| ==> IsSpace(s[k])
  {
    var i := |s| - |t|;
    forall k | i + |r| <= k < |s|
      ensures IsSpace(s[k])
    {
      assert s[k] == t[k - i];
    }
  }

  /** `s.strip()`: a slice of `s` with only whitespace cut off and none left at either end. */
  function Strip(s: string): (r: string)
    ensures StrippedAt(s, r, |s| - |TrimStart(s)|)
    ensures r != [] ==> !IsSpace(r[0]) && !IsSpace(r[|r| - 1])
    ensures forall c :: c in r ==> c in s
  {
    var t := TrimStart(s);
    var r := TrimEnd(t);
    TrimmedSlice(s, t, r);
    r
  }

  /** Stripping cannot introduce an upper-case letter. */
  lemma StripKeepsLowerCase(s: string)
    requires forall i :: 0 <= i < |s| ==> !IsUpper(s[i])
    ensures forall i :: 0 <= i < |Strip(s)| ==> !IsUpper(Strip(s)[i])
  {
    var r := Strip(s);
    forall i | 0 <= i < |r| ensures !IsUpper(r[i]) {
      assert r[i] in r;
    }
  }

  /** Stripping twice is stripping once. */
  lemma StripIdempotent(s: string)
    ensures Strip(Strip(s)) == Strip(s)
  {
    var r := Strip(s);
    if r != [] {
      assert TrimStart(r) == r;
      assert TrimEnd(r) == r;
    }
  }

  // ---------------------------------------------------------------------
  // needle in haystack
  // ---------------------------------------------------------------------

  /** `sub[j..]` occurs in `s` at position `i + j`. */
  predicate PrefixAt(s: string, sub: string, i: nat, j: nat)
    requires i + |sub| <= |s| && j <= |sub|
    decreases |sub| - j
  {
    j == |sub| || (s[i + j] == sub[j] && PrefixAt(s, sub, i, j + 1))
  }

  /** `sub` occurs in `s` at some position at or after `i`. */
  predicate ContainsFrom(s: string, sub: string, i: nat)
    decreases |s| - i
  {
    i + |sub| <= |s| && (PrefixAt(s, sub, i, 0) || ContainsFrom(s, sub, i + 1))
  }

  /** Python's `sub in s`; the empty string occurs in every string. */
  predicate Contains(s: string, sub: string)
  {
    ContainsFrom(s, sub, 0)
  }

  lemma {:induction false} PrefixAtSlice(s: string, sub: string, i: nat, j: nat)
    requires i + |sub| <= |s| && j <= |sub|
    ensures PrefixAt(s, sub, i, j) <==> s[i + j..i + |sub|] == sub[j..]
    decreases |sub| - j
  {
    if j < |sub| {
      PrefixAtSlice(s, sub, i, j + 1);
      assert s[i + j..i + |sub|] == [s[i + j]] + s[i + j + 1..i + |sub|];
      assert sub[j..] == [sub[j]] + sub[j + 1..];
    }
  }

  /** `sub` occurs in `s` starting at position `k`. */
  ghost predicate OccursAt(s: string, sub: string, k: int)
  {
    0 <= k && k + |sub| <= |s| && s[k..k + |sub|] == sub
  }

  lemma {:induction false} ContainsFromSlice(s: string, sub: string, i: nat)
    ensures ContainsFrom(s, sub, i) <==> exists k :: i <= k && OccursAt(s, sub, k)
    decreases |s| - i
  {
    if i + |sub| <= |s| {
      PrefixAtSlice(s, sub, i, 0);
      assert sub[0..] == sub;
      ContainsFromSlice(s, sub, i + 1);
      if PrefixAt(s, sub, i, 0) {
        assert OccursAt(s, sub, i);
      }
      if exists k :: i <= k && OccursAt(s, sub, k) {
        var k :| i <= k && OccursAt(s, sub, k);
        if k == i {
          assert PrefixAt(s, sub, i, 0);
        } else {
          assert i + 1 <= k && OccursAt(s, sub, k);
        }
      }
    }
  }

  /** `Contains` is exactly "occurs as a contiguous slice somewhere". */
  lemma ContainsIsSubstring(s: string, sub: string)
    ensures Contains(s, sub) <==> exists k :: OccursAt(s, sub, k)
  {
    ContainsFromSlice(s, sub, 0);
  }

  /** A string occurs in any extension of a string it occurs in. */
  lemma ContainsInExtension(s: string, sub: string, before: string, after: string)
    requires Contains(s, sub)
    ensures Contains(before + s + after, sub)
  {
    ContainsIsSubstring(s, sub);
    var k :| OccursAt(s, sub, k);
    var t := before + s + after;
    assert t[|before| + k..|before| + k + |sub|] == sub;
    assert OccursAt(t, sub, |before| + k);
    ContainsIsSubstring(t, sub);
  }

  /** Occurring is transitive: whatever occurs in `mid` occurs in every string `mid` occurs in. */
  lemma ContainsTransitive(s: string, mid: string, sub: string)
    requires Contains(s, mid) && Contains(mid, sub)
    ensures Contains(s, sub)
  {
    ContainsIsSubstring(s, mid);
    ContainsIsSubstring(mid, sub);
    var i :| OccursAt(s, mid, i);
    var j :| OccursAt(mid, sub, j);
    assert forall t :: 0 <= t < |sub| ==> sub[t] == mid[j + t] == s[i + j + t];
    assert s[i + j..i + j + |sub|] == sub;
    assert OccursAt(s, sub, i + j);
    ContainsIsSubstring(s, sub);
  }

  // ---------------------------------------------------------------------
  // any(w in s for w in words) and sum(1 for w in words if w in s)
  // ---------------------------------------------------------------------

  /** `any(w in s for w in words)`. */
  predicate ContainsAny(s: string, words: seq<string>)
  {
    exists i :: 0 <= i < |words| && Contains(s, words[i])
  }

  /** The entries of `words[k..]` that occur in `s`, in order. */
  function MatchesFrom(s: string, words: seq<string>, k: nat): (r: seq<string>)
    requires k <= |words|
    ensures |r| <= |words| - k
    ensures |r| == |set i | k <= i < |words| && Contains(s, words[i])|
    ensures forall w :: w in r <==> (exists i :: k <= i < |words| && words[i] == w) && Contains(s, w)
    decreases |words| - k
  {
    if k == |words| then
      []
    else
      var rest := MatchesFrom(s, words, k + 1);
      var later := set i | k + 1 <= i < |words| && Contains(s, words[i]);
      if Contains(s, words[k]) then
        assert (set i | k <= i < |words| && Contains(s, words[i])) == later + {k};
        [words[k]] + rest
      else
        assert (set i | k <= i < |words| && Contains(s, words[i])) == later;
        rest
  }

  /** The entries of `words` that occur in `s`; its length is Python's `sum(1 for w in words if w in s)`. */
  function Matches(s: string, words: seq<string>): (r: seq<string>)
    ensures |r| <= |words|
    ensures |r| == |set i | 0 <= i < |words| && Contains(s, words[i])|
    ensures forall w :: w in r <==> w in words && Contains(s, w)
    ensures r == [] <==> !ContainsAny(s, words)
  {
    var r := MatchesFrom(s, words, 0);
    assert forall w :: (exists i :: 0 <= i < |words| && words[i] == w) <==> w in words;
    assert r != [] ==> r[0] in r;
    r
  }
}
