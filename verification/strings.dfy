/** The two string primitives the shell relies on: an anchored prefix test
    (what `^literal` regular expressions reduce to) and JavaScript's
    `String.prototype.includes`, together with `String.prototype.substring`
    called with a single start index. Strings are sequences of characters. */
module Strings {

  /** `p` is a prefix of `s`. */
  predicate IsPrefix(p: string, s: string) {
    |p| <= |s| && s[..|p|] == p
  }

  /** `sub` occurs in `s` starting at index `i`. */
  predicate OccursAt(s: string, sub: string, i: int) {
    0 <= i && i + |sub| <= |s| && s[i..i + |sub|] == sub
  }

  /** `s.includes(sub)`: does `sub` occur anywhere in `s`? The empty string
      occurs in every string, at index 0. */
  function Includes(s: string, sub: string): (r: bool)
    ensures r <==> exists i :: OccursAt(s, sub, i)
    decreases |s|
  {
    if |s| == 0 then
      assert |sub| == 0 ==> OccursAt(s, sub, 0);
      |sub| == 0
    else
      OccurrenceSplit(s, sub);
      IsPrefix(sub, s) || Includes(s[1..], sub)
  }

  /** An occurrence in a non-empty string is either at its head or an
      occurrence in its tail, shifted by one. */
  lemma OccurrenceSplit(s: string, sub: string)
    requires |s| > 0
    ensures (exists i :: OccursAt(s, sub, i))
        <==> IsPrefix(sub, s) || exists j :: OccursAt(s[1..], sub, j)
  {
    var t := s[1..];
    forall j | OccursAt(t, sub, j)
      ensures OccursAt(s, sub, j + 1)
    {
      assert t[j..j + |sub|] == s[j + 1..j + 1 + |sub|];
    }
    forall i | OccursAt(s, sub, i) && !IsPrefix(sub, s)
      ensures OccursAt(t, sub, i - 1)
    {
      assert s[..|sub|] == s[0..|sub|];
      assert i != 0;
      assert t[i - 1..i - 1 + |sub|] == s[i..i + |sub|];
    }
    if IsPrefix(sub, s) {
      assert OccursAt(s, sub, 0);
    }
  }

  /** `s.substring(start)` for a non-negative start: the characters from
      index `start` on, or the empty string when `start` is at or past the
      end. */
  function Substring(s: string, start: nat): (r: string)
    ensures |r| == if start <= |s| then |s| - start else 0
    ensures forall k :: 0 <= k < |r| ==> r[k] == s[start + k]
    ensures start <= |s| ==> s[..start] + r == s
  {
    if start < |s| then s[start..] else ""
  }
}
