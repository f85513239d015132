/** String operations the order actions rely on: JavaScript's `slice(0, n)`,
    ASCII case folding, substring search and splitting at a separator. */
module Text {
  import opened Results

  /** `s.slice(0, n)`: the first `n` characters of `s`, or all of `s` when it is shorter. */
  function Take(s: string, n: nat): (r: string)
    ensures |r| == if |s| < n then |s| else n
    ensures r == s[..|r|]
  {
    if |s| <= n then s else s[..n]
  }

  predicate IsUpper(c: char) {
    'A' <= c <= 'Z'
  }

  /** ASCII lower-casing of one character; every other character is left alone. */
  function LowerChar(c: char): (d: char)
    ensures IsUpper(c) ==> 'a' <= d <= 'z' && d as int == c as int + 32
    ensures !IsUpper(c) ==> d == c
    ensures !IsUpper(d)
  {
    if IsUpper(c) then (c as int + 32) as char else c
  }

  function Lower(s: string): (r: string)
    ensures |r| == |s|
    ensures forall i :: 0 <= i < |s| ==> r[i] == LowerChar(s[i])
  {
    seq(|s|, i requires 0 <= i < |s| => LowerChar(s[i]))
  }

  /** Lower-casing twice is lower-casing once. */
  lemma LowerIdempotent(s: string)
    ensures Lower(Lower(s)) == Lower(s)
  {
  }

  predicate IsHexDigit(c: char) {
    '0' <= c <= '9' || 'a' <= c <= 'f' || 'A' <= c <= 'F'
  }

  /** `needle` occurs in `hay` at index `i`. */
  predicate OccursAt(needle: string, hay: string, i: nat) {
    i + |needle| <= |hay| && hay[i..i + |needle|] == needle
  }

  /** Left-to-right substring search. */
  predicate Contains(hay: string, needle: string)
    ensures Contains(hay, needle) ==> |needle| <= |hay|
    ensures |needle| == 0 ==> Contains(hay, needle)
    decreases |hay|
  {
    |needle| <= |hay| && (hay[..|needle|] == needle || (|hay| > 0 && Contains(hay[1..], needle)))
  }

  /** The search finds `needle` exactly when it occurs somewhere in `hay`. */
  lemma {:induction false} ContainsIff(hay: string, needle: string)
    ensures Contains(hay, needle) <==> exists i: nat :: OccursAt(needle, hay, i)
    decreases |hay|
  {
    if |needle| <= |hay| && hay[..|needle|] == needle {
      assert OccursAt(needle, hay, 0);
    } else if |needle| <= |hay| {
      assert |hay| > 0;
      ContainsIff(hay[1..], needle);
      if Contains(hay, needle) {
        var i: nat :| OccursAt(needle, hay[1..], i);
        assert hay[1..][i..i + |needle|] == hay[i + 1..i + 1 + |needle|];
        assert OccursAt(needle, hay, i + 1);
      }
      if exists i: nat :: OccursAt(needle, hay, i) {
        var i: nat :| OccursAt(needle, hay, i);
        assert i != 0;
        assert hay[1..][i - 1..i - 1 + |needle|] == hay[i..i + |needle|];
        assert OccursAt(needle, hay[1..], i - 1);
      }
    }
  }

  /** A case-insensitive substring match of `pattern` in `s`, ASCII letters folded. */
  predicate MatchesIgnoreCase(s: string, pattern: string)
    ensures MatchesIgnoreCase(s, pattern) <==> exists i: nat :: OccursAt(Lower(pattern), Lower(s), i)
  {
    ContainsIff(Lower(s), Lower(pattern));
    Contains(Lower(s), Lower(pattern))
  }

  /** The empty pattern matches every string. */
  lemma EmptyPatternMatchesAll(s: string)
    ensures MatchesIgnoreCase(s, "")
  {
    assert Lower(s)[..0] == Lower("");
  }

  /** A pattern that occurs verbatim in `s` matches it. */
  lemma {:induction false} OccurrenceMatches(s: string, pattern: string, i: nat)
    requires OccursAt(pattern, s, i)
    ensures MatchesIgnoreCase(s, pattern)
  {
    assert Lower(s)[i..i + |pattern|] == Lower(pattern) by {
      forall k | 0 <= k < |pattern|
        ensures Lower(s)[i..i + |pattern|][k] == Lower(pattern)[k]
      {
        assert s[i..i + |pattern|][k] == pattern[k];
      }
    }
    assert OccursAt(Lower(pattern), Lower(s), i);
    ContainsIff(Lower(s), Lower(pattern));
  }

  /** The match does not see the case of either string. */
  lemma MatchIgnoresCase(s: string, pattern: string)
    ensures MatchesIgnoreCase(Lower(s), pattern) == MatchesIgnoreCase(s, pattern)
    ensures MatchesIgnoreCase(s, Lower(pattern)) == MatchesIgnoreCase(s, pattern)
  {
    LowerIdempotent(s);
    LowerIdempotent(pattern);
  }

  /** Splits `s` at the first occurrence of `sep`. */
  function SplitAtFirst(s: string, sep: char): (r: Option<(string, string)>)
    ensures r.None? <==> sep !in s
    ensures r.Some? ==> s == r.value.0 + [sep] + r.value.1 && sep !in r.value.0
  {
    if |s| == 0 then None
    else if s[0] == sep then Some(([], s[1..]))
    else match SplitAtFirst(s[1..], sep)
      case None => None
      case Some((a, b)) => Some(([s[0]] + a, b))
  }

  /** Splitting undoes joining with a separator the first part does not contain. */
  lemma {:induction false} SplitJoin(a: string, sep: char, b: string)
    requires sep !in a
    ensures SplitAtFirst(a + [sep] + b, sep) == Some((a, b))
  {
    if |a| == 0 {
      assert a + [sep] + b == [sep] + b;
    } else {
      SplitJoin(a[1..], sep, b);
      assert (a + [sep] + b)[1..] == a[1..] + [sep] + b;
      assert [a[0]] + a[1..] == a;
    }
  }
}
