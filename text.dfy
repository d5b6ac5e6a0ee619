/**
 * String primitives of the JavaScript runtime that the core relies on, over
 * UTF-16 code units modelled as `char`: `trim`, `toLowerCase`, `includes`,
 * `indexOf`, a global literal `replace`, `split` and `join`.
 */
module Text {

  // ---------------------------------------------------------------------------
  // Whitespace and trimming
  // ---------------------------------------------------------------------------

  /** The code points `String.prototype.trim` strips: ECMAScript WhiteSpace and LineTerminator. */
  predicate IsWs(c: char)
  {
    c == ' ' || c == '\t' || c == '\n' || c == '\r' || c == '\U{B}' || c == '\U{C}'
    || c == '\U{A0}' || c == '\U{1680}' || ('\U{2000}' <= c <= '\U{200A}')
    || c == '\U{2028}' || c == '\U{2029}' || c == '\U{202F}' || c == '\U{205F}'
    || c == '\U{3000}' || c == '\U{FEFF}'
  }

  predicate AllWs(s: string)
  {
    forall i :: 0 <= i < |s| ==> IsWs(s[i])
  }

  /** `s` has no whitespace at either end (so `trim` leaves it alone). */
  predicate IsTrimmed(s: string)
  {
    s != [] ==> !IsWs(s[0]) && !IsWs(s[|s| - 1])
  }

  function TrimStart(s: string): (r: string)
    ensures |r| <= |s| && r == s[|s| - |r|..]
    ensures r != [] ==> !IsWs(r[0])
    ensures AllWs(s[..|s| - |r|])
  {
    if s != [] && IsWs(s[0]) then
      var r := TrimStart(s[1..]);
      assert s[1..][..|s| - 1 - |r|] == s[1..|s| - |r|];
      r
    else s
  }

  function TrimEnd(s: string): (r: string)
    ensures |r| <= |s| && r == s[..|r|]
    ensures r != [] ==> !IsWs(r[|r| - 1])
    ensures AllWs(s[|r|..])
  {
    if s != [] && IsWs(s[|s| - 1]) then
      var r := TrimEnd(s[..|s| - 1]);
      var k := |r|;
      assert s[..|s| - 1][..k] == s[..k];
      assert AllWs(s[k..]) by {
        forall i | 0 <= i < |s| - k ensures IsWs(s[k..][i]) {
          if i < |s| - 1 - k {
            assert s[k..][i] == s[..|s| - 1][k..][i];
          }
        }
      }
      r
    else s
  }

  /** `String.prototype.trim`. */
  function Trim(s: string): string
  {
    TrimEnd(TrimStart(s))
  }

  /** The result of `trim` has no whitespace at either end. */
  lemma TrimSpec(s: string)
    ensures IsTrimmed(Trim(s))
  {
  }

  /** `trim` is the identity exactly on trimmed strings. */
  lemma {:induction false} TrimIdentity(s: string)
    ensures Trim(s) == s <==> IsTrimmed(s)
  {
    TrimSpec(s);
    if IsTrimmed(s) && s != [] {
      assert TrimStart(s) == s;
      assert TrimEnd(s) == s;
    }
  }

  /** `trim` yields the empty string exactly on all-whitespace input. */
  lemma {:induction false} TrimEmpty(s: string)
    ensures Trim(s) == [] <==> AllWs(s)
  {
    var t := TrimStart(s);
    if Trim(s) == [] {
      assert t[0..] == t;
      assert t == [];
      assert s[..|s|] == s;
    }
  }

  /** Leading whitespace never survives `trim`. */
  lemma {:induction false} TrimSkipsLeadingWs(w: string, s: string)
    requires AllWs(w)
    ensures Trim(w + s) == Trim(s)
  {
    if w != [] {
      assert (w + s)[1..] == w[1..] + s;
      TrimSkipsLeadingWs(w[1..], s);
    } else {
      assert w + s == s;
    }
  }

  // ---------------------------------------------------------------------------
  // Case mapping
  // ---------------------------------------------------------------------------

  /** `toLowerCase` on one code unit (ASCII letters only; see README). */
  function LowerChar(c: char): char
  {
    if 'A' <= c <= 'Z' then (c as int + 32) as char else c
  }

  /** `String.prototype.toLowerCase`: maps each code unit, keeping the length. */
  function Lower(s: string): (r: string)
    ensures |r| == |s| && forall i :: 0 <= i < |s| ==> r[i] == LowerChar(s[i])
  {
    seq(|s|, i requires 0 <= i < |s| => LowerChar(s[i]))
  }

  // ---------------------------------------------------------------------------
  // Substring search
  // ---------------------------------------------------------------------------

  /** `p` occurs in `s` starting at index `i`. */
  predicate OccursAt(s: string, p: string, i: nat)
  {
    i + |p| <= |s| && s[i..i + |p|] == p
  }

  /** `String.prototype.includes`. */
  predicate Contains(s: string, p: string)
  {
    exists i: nat | i <= |s| :: OccursAt(s, p, i)
  }

  lemma OccursAtStart(s: string, p: string)
    ensures OccursAt(s, p, 0) <==> p <= s
  {
    if p <= s {
      assert s[..|p|] == p;
    }
  }

  lemma OccursAtTail(s: string, p: string, i: nat)
    requires s != []
    ensures OccursAt(s, p, i + 1) <==> OccursAt(s[1..], p, i)
  {
    if i + 1 + |p| <= |s| {
      assert s[1..][i..i + |p|] == s[i + 1..i + 1 + |p|];
    }
  }

  /** `includes` looks at index 0, then at the rest. */
  lemma ContainsStep(s: string, p: string)
    requires s != []
    ensures Contains(s, p) <==> p <= s || Contains(s[1..], p)
  {
    OccursAtStart(s, p);
    if Contains(s, p) && !(p <= s) {
      var i: nat :| OccursAt(s, p, i);
      assert i != 0;
      OccursAtTail(s, p, i - 1);
    }
    if Contains(s[1..], p) {
      var i: nat :| OccursAt(s[1..], p, i);
      OccursAtTail(s, p, i);
    }
  }

  lemma ContainsEmpty(p: string)
    ensures Contains([], p) <==> p == []
  {
    if p == [] {
      assert OccursAt([], p, 0);
    }
  }

  /**
   * `String.prototype.indexOf`: the first index at which `p` occurs, or -1.
   */
  function IndexOf(s: string, p: string): (r: int)
    ensures -1 <= r <= |s|
    ensures r == -1 <==> !Contains(s, p)
    ensures r >= 0 ==> OccursAt(s, p, r) && forall j: nat :: j < r ==> !OccursAt(s, p, j)
    decreases |s|
  {
    OccursAtStart(s, p);
    if p <= s then 0
    else if s == [] then
      ContainsEmpty(p);
      -1
    else
      ContainsStep(s, p);
      var k := IndexOf(s[1..], p);
      if k < 0 then -1
      else
        OccursAtTail(s, p, k);
        forall j: nat | j < k + 1 ensures !OccursAt(s, p, j) {
          if j > 0 { OccursAtTail(s, p, j - 1); }
        }
        k + 1
  }

  // ---------------------------------------------------------------------------
  // Global literal replacement, counting, split and join
  // ---------------------------------------------------------------------------

  /**
   * `s.replace(/p/g, rep)` for a literal pattern and a replacement taken
   * literally: one left-to-right pass; after a match the scan resumes behind
   * it, and inserted text is never scanned again.
   */
  function ReplaceAll(s: string, p: string, rep: string): string
    requires p != []
    decreases |s|
  {
    if s == [] then []
    else if p <= s then rep + ReplaceAll(s[|p|..], p, rep)
    else [s[0]] + ReplaceAll(s[1..], p, rep)
  }

  /** The length of `s.match(/p/g)`: non-overlapping matches found left to right. */
  function Count(s: string, p: string): nat
    requires p != []
    decreases |s|
  {
    if s == [] then 0
    else if p <= s then 1 + Count(s[|p|..], p)
    else Count(s[1..], p)
  }

  /** `s.split(sep)` for a non-empty literal separator. */
  function SplitOn(s: string, sep: string): (parts: seq<string>)
    requires sep != []
    ensures |parts| >= 1
    decreases |s|
  {
    if s == [] then [[]]
    else if sep <= s then [[]] + SplitOn(s[|sep|..], sep)
    else
      var rest := SplitOn(s[1..], sep);
      [[s[0]] + rest[0]] + rest[1..]
  }

  /** `parts.join(sep)`. */
  function JoinWith(parts: seq<string>, sep: string): string
  {
    if parts == [] then []
    else if |parts| == 1 then parts[0]
    else parts[0] + sep + JoinWith(parts[1..], sep)
  }

  lemma JoinWithConsHead(c: char, parts: seq<string>, sep: string)
    requires parts != []
    ensures JoinWith([[c] + parts[0]] + parts[1..], sep) == [c] + JoinWith(parts, sep)
  {
    var q := [[c] + parts[0]] + parts[1..];
    assert q[1..] == parts[1..];
  }

  lemma JoinWithConsEmpty(parts: seq<string>, sep: string)
    requires parts != []
    ensures JoinWith([[]] + parts, sep) == sep + JoinWith(parts, sep)
  {
    assert ([[]] + parts)[1..] == parts;
  }

  /** A string that does not contain `p` comes back from the replacement unchanged. */
  lemma {:induction false} ReplaceAllAbsent(s: string, p: string, rep: string)
    requires p != [] && !Contains(s, p)
    ensures ReplaceAll(s, p, rep) == s
    decreases |s|
  {
    if s != [] {
      ContainsStep(s, p);
      ReplaceAllAbsent(s[1..], p, rep);
      assert [s[0]] + s[1..] == s;
    }
  }

  /** No match is counted exactly when the pattern does not occur. */
  lemma {:induction false} CountZero(s: string, p: string)
    requires p != []
    ensures Count(s, p) == 0 <==> !Contains(s, p)
    decreases |s|
  {
    if s == [] {
      ContainsEmpty(p);
    } else {
      ContainsStep(s, p);
      if !(p <= s) {
        CountZero(s[1..], p);
      }
    }
  }

  /**
   * Replacing is splitting at the matches and joining the pieces with the
   * replacement; there is one more piece than there are matches.
   */
  lemma {:induction false} ReplaceAllIsSplitJoin(s: string, p: string, rep: string)
    requires p != []
    ensures ReplaceAll(s, p, rep) == JoinWith(SplitOn(s, p), rep)
    ensures |SplitOn(s, p)| == Count(s, p) + 1
    decreases |s|
  {
    if s == [] {
    } else if p <= s {
      var t := s[|p|..];
      ReplaceAllIsSplitJoin(t, p, rep);
      assert SplitOn(s, p) == [[]] + SplitOn(t, p);
      JoinWithConsEmpty(SplitOn(t, p), rep);
    } else {
      var t := s[1..];
      ReplaceAllIsSplitJoin(t, p, rep);
      var rest := SplitOn(t, p);
      assert SplitOn(s, p) == [[s[0]] + rest[0]] + rest[1..];
      JoinWithConsHead(s[0], rest, rep);
    }
  }

  /** Joining the pieces back with the separator rebuilds the string. */
  lemma {:induction false} JoinSplit(s: string, p: string)
    requires p != []
    ensures JoinWith(SplitOn(s, p), p) == s
    decreases |s|
  {
    if s == [] {
    } else if p <= s {
      var t := s[|p|..];
      JoinSplit(t, p);
      assert SplitOn(s, p) == [[]] + SplitOn(t, p);
      JoinWithConsEmpty(SplitOn(t, p), p);
      assert s == p + t;
    } else {
      var t := s[1..];
      JoinSplit(t, p);
      var rest := SplitOn(t, p);
      assert SplitOn(s, p) == [[s[0]] + rest[0]] + rest[1..];
      JoinWithConsHead(s[0], rest, p);
      assert s == [s[0]] + t;
    }
  }

  /** Each match of length `|p|` becomes `rep`; nothing else changes length. */
  lemma {:induction false} ReplaceAllLength(s: string, p: string, rep: string)
    requires p != []
    ensures |ReplaceAll(s, p, rep)| == |s| + Count(s, p) * (|rep| - |p|)
    decreases |s|
  {
    if s == [] {
    } else if p <= s {
      var t := s[|p|..];
      ReplaceAllLength(t, p, rep);
      assert |ReplaceAll(s, p, rep)| == |rep| + |ReplaceAll(t, p, rep)|;
      assert Count(s, p) == 1 + Count(t, p);
      MulSucc(Count(t, p), |rep| - |p|);
    } else {
      ReplaceAllLength(s[1..], p, rep);
    }
  }

  lemma MulSucc(c: int, k: int)
    ensures (1 + c) * k == k + c * k
  {
  }

  /** Replacing a pattern by itself changes nothing. */
  lemma ReplaceAllSelf(s: string, p: string)
    requires p != []
    ensures ReplaceAll(s, p, p) == s
  {
    ReplaceAllIsSplitJoin(s, p, p);
    JoinSplit(s, p);
  }

  /**
   * The scan copies everything before the first match at `i`, replaces that
   * match and carries on behind it.
   */
  lemma ReplaceAllAtFirst(s: string, p: string, rep: string, i: nat)
    requires p != [] && OccursAt(s, p, i)
    requires forall j: nat :: j < i ==> !OccursAt(s, p, j)
    ensures ReplaceAll(s, p, rep) == s[..i] + rep + ReplaceAll(s[i + |p|..], p, rep)
    ensures Count(s, p) == 1 + Count(s[i + |p|..], p)
  {
    ReplaceAtFirst(s, p, rep, i);
    CountAtFirst(s, p, i);
  }

  lemma ReplaceAtFirst(s: string, p: string, rep: string, i: nat)
    requires p != [] && OccursAt(s, p, i)
    requires forall j: nat :: j < i ==> !OccursAt(s, p, j)
    ensures ReplaceAll(s, p, rep) == s[..i] + rep + ReplaceAll(s[i + |p|..], p, rep)
  {
    ReplaceUpTo(s, p, rep, i);
    MatchAt(s, p, i);
    assert ReplaceAll(s[i..], p, rep) == rep + ReplaceAll(s[i..][|p|..], p, rep);
  }

  lemma CountAtFirst(s: string, p: string, i: nat)
    requires p != [] && OccursAt(s, p, i)
    requires forall j: nat :: j < i ==> !OccursAt(s, p, j)
    ensures Count(s, p) == 1 + Count(s[i + |p|..], p)
  {
    CountUpTo(s, p, i);
    MatchAt(s, p, i);
    assert Count(s[i..], p) == 1 + Count(s[i..][|p|..], p);
  }

  /** A match at `i` is a prefix of `s[i..]`, and the scan resumes at `s[i + |p|..]`. */
  lemma MatchAt(s: string, p: string, i: nat)
    requires OccursAt(s, p, i)
    ensures p <= s[i..] && s[i..][|p|..] == s[i + |p|..]
  {
    assert s[i..][..|p|] == s[i..i + |p|];
  }

  /** No match at `k` means `s[k..]` does not start with `p`; the scan moves one code unit on. */
  lemma NoMatchAt(s: string, p: string, k: nat)
    requires k < |s| && !OccursAt(s, p, k)
    ensures !(p <= s[k..]) && s[k..] != [] && s[k..][0] == s[k] && s[k..][1..] == s[k + 1..]
  {
    if k + |p| <= |s| {
      assert s[k..][..|p|] == s[k..k + |p|];
    }
  }

  /** Before the first match, the replacement copies the text unchanged. */
  lemma {:induction false} ReplaceUpTo(s: string, p: string, rep: string, k: nat)
    requires p != [] && k <= |s|
    requires forall j: nat :: j < k ==> !OccursAt(s, p, j)
    ensures ReplaceAll(s, p, rep) == s[..k] + ReplaceAll(s[k..], p, rep)
    decreases k
  {
    if k == 0 {
      assert s[0..] == s;
    } else {
      ReplaceUpTo(s, p, rep, k - 1);
      NoMatchAt(s, p, k - 1);
      var tail := ReplaceAll(s[k..], p, rep);
      assert ReplaceAll(s[k - 1..], p, rep) == [s[k - 1]] + tail;
      assert s[..k - 1] + ([s[k - 1]] + tail) == s[..k] + tail;
    }
  }

  /** Before the first match, nothing is counted. */
  lemma {:induction false} CountUpTo(s: string, p: string, k: nat)
    requires p != [] && k <= |s|
    requires forall j: nat :: j < k ==> !OccursAt(s, p, j)
    ensures Count(s, p) == Count(s[k..], p)
    decreases k
  {
    if k == 0 {
      assert s[0..] == s;
    } else {
      CountUpTo(s, p, k - 1);
      NoMatchAt(s, p, k - 1);
      assert Count(s[k - 1..], p) == Count(s[k..], p);
    }
  }

  /** With a one-character separator, `split` undoes `join` of pieces free of that character. */
  lemma {:induction false} SplitJoinChar(parts: seq<string>, c: char)
    requires |parts| >= 1
    requires forall k :: 0 <= k < |parts| ==> c !in parts[k]
    ensures SplitOn(JoinWith(parts, [c]), [c]) == parts
    decreases |parts|, |parts[0]|
  {
    var s := JoinWith(parts, [c]);
    if parts[0] == [] {
      if |parts| == 1 {
      } else {
        assert s == [c] + JoinWith(parts[1..], [c]);
        assert [c] <= s;
        assert s[1..] == JoinWith(parts[1..], [c]);
        SplitJoinChar(parts[1..], c);
        assert parts == [[]] + parts[1..];
      }
    } else {
      var x := parts[0][0];
      var tail := [parts[0][1..]] + parts[1..];
      assert x in parts[0];
      assert tail[0] == parts[0][1..];
      forall k | 0 <= k < |tail| ensures c !in tail[k] {
        if k == 0 {
          assert forall y :: y in parts[0][1..] ==> y in parts[0];
        } else {
          assert tail[k] == parts[k];
        }
      }
      assert tail[1..] == parts[1..];
      assert JoinWith(tail, [c]) == s[1..] by {
        if |parts| == 1 {
        } else {
          assert s == parts[0] + [c] + JoinWith(parts[1..], [c]);
        }
      }
      SplitJoinChar(tail, c);
      assert s[0] == x;
      assert !([c] <= s);
      assert [x] + tail[0] == parts[0];
      assert [parts[0]] + parts[1..] == parts;
    }
  }
}
