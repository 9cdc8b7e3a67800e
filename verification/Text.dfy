/** String operations of the host language that the engines rely on. */
module Text {

  predicate StartsWith(s: string, prefix: string) { |prefix| <= |s| && s[..|prefix|] == prefix }

  /** `s` without the whitespace at its end. */
  function RStrip(space: char -> bool, s: string): string {
    if s != "" && space(s[|s| - 1]) then RStrip(space, s[..|s| - 1]) else s
  }

  /** `pat` occurs in `s` at index `i`. */
  predicate OccursAt(s: string, pat: string, i: int) {
    0 <= i <= |s| - |pat| && forall k :: 0 <= k < |pat| ==> s[i + k] == pat[k]
  }

  /** The first index at or after `from` where `pat` occurs, or -1. */
  function FindFrom(s: string, pat: string, from: nat): (r: int)
    requires from <= |s|
    ensures r == -1 || (from <= r && OccursAt(s, pat, r))
    ensures forall i :: from <= i && OccursAt(s, pat, i) ==> 0 <= r <= i
    decreases |s| - from
  {
    if OccursAt(s, pat, from) then from
    else if from < |s| then FindFrom(s, pat, from + 1)
    else -1
  }

  /** The leftmost occurrence, or -1. */
  function Find(s: string, pat: string): (r: int)
    ensures r == -1 || OccursAt(s, pat, r)
    ensures forall i :: OccursAt(s, pat, i) ==> 0 <= r <= i
  {
    FindFrom(s, pat, 0)
  }

  lemma OccursSlice(s: string, pat: string, i: int)
    ensures OccursAt(s, pat, i) <==> 0 <= i <= |s| - |pat| && s[i..i + |pat|] == pat
  {
    if 0 <= i <= |s| - |pat| {
      var slice := s[i..i + |pat|];
      assert forall k :: 0 <= k < |pat| ==> slice[k] == s[i + k];
    }
  }

  /** Searching for one character. */
  lemma FindChar(s: string, c: char)
    ensures Find(s, [c]) == -1 <==> c !in s
    ensures Find(s, [c]) != -1 ==> s[Find(s, [c])] == c && c !in s[..Find(s, [c])]
  {
    var r := Find(s, [c]);
    assert r != -1 ==> s[r + 0] == [c][0];
    forall i | 0 <= i < |s| && s[i] == c ensures 0 <= r <= i { assert OccursAt(s, [c], i); }
  }

  lemma FoundBy(s: string, c: char, i: nat)
    requires i < |s| && s[i] == c
    ensures 0 <= Find(s, [c]) <= i
  {
    assert OccursAt(s, [c], i);
  }

  lemma FirstChar(s: string, c: char, i: nat)
    requires i < |s| && s[i] == c && c !in s[..i]
    ensures Find(s, [c]) == i
  {
    FindChar(s, c);
    var r := Find(s, [c]);
    assert OccursAt(s, [c], i);
    assert s[r] == c;
    assert forall k :: 0 <= k < i ==> s[k] in s[..i];
  }

  lemma PrefixAt(s: string, prefix: string, i: nat)
    requires i < |prefix|
    ensures StartsWith(s, prefix) ==> i < |s| && s[i] == prefix[i]
  {
    if StartsWith(s, prefix) { assert s[i] == s[..|prefix|][i]; }
  }

  /** Concatenation of all strings of a sequence. */
  function Concat(parts: seq<string>): string {
    if parts == [] then "" else parts[0] + Concat(parts[1..])
  }

  lemma {:induction false} ConcatSnoc(parts: seq<string>, last: string)
    ensures Concat(parts + [last]) == Concat(parts) + last
  {
    if parts == [] {
      assert parts + [last] == [last];
    } else {
      assert (parts + [last])[1..] == parts[1..] + [last];
      ConcatSnoc(parts[1..], last);
    }
  }
}
