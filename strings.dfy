/** The string operations of the search query: SQL LOWER, restricted to ASCII letters,
    and the `LIKE '%q%'` substring test, without wildcards inside the query. */
module Strings {

  /** ASCII lower-casing of one character; every other character is kept. */
  function ToLower(c: char): char {
    if 'A' <= c <= 'Z' then (c as int + 32) as char else c
  }

  /** ASCII upper-casing of one character; every other character is kept. */
  function ToUpper(c: char): char {
    if 'a' <= c <= 'z' then (c as int - 32) as char else c
  }

  /** LOWER(s): every character lower-cased, in place. */
  function Lower(s: string): (r: string)
    ensures |r| == |s|
    ensures forall i {:trigger r[i]} :: 0 <= i < |s| ==> r[i] == ToLower(s[i])
  {
    if s == [] then [] else [ToLower(s[0])] + Lower(s[1..])
  }

  /** UPPER(s): every character upper-cased, in place. */
  function Upper(s: string): (r: string)
    ensures |r| == |s|
    ensures forall i {:trigger r[i]} :: 0 <= i < |s| ==> r[i] == ToUpper(s[i])
  {
    if s == [] then [] else [ToUpper(s[0])] + Upper(s[1..])
  }

  /** Lower-casing forgets the case a string was written in. */
  lemma LowerOfUpper(s: string)
    ensures Lower(Upper(s)) == Lower(s)
  {
    assert forall i :: 0 <= i < |s| ==> Lower(Upper(s))[i] == Lower(s)[i];
  }

  /** Reference definition of "needle occurs in hay at offset k". */
  predicate ContainsAt(needle: string, hay: string, k: int) {
    0 <= k && k + |needle| <= |hay| && hay[k..k + |needle|] == needle
  }

  /** A slice of the tail is the slice of the whole one place further on. */
  lemma TailSlice(hay: string, k: int, n: int)
    requires 1 <= k && 0 <= n && k + n <= |hay|
    ensures hay[1..][k - 1..k - 1 + n] == hay[k..k + n]
  {
  }

  /** When the needle is not a prefix of hay, its occurrences in hay are those in the
      tail of hay, one place further on. */
  lemma ShiftOccurrence(needle: string, hay: string)
    requires |needle| <= |hay| && hay[..|needle|] != needle
    ensures hay != []
    ensures (exists k :: ContainsAt(needle, hay, k)) <==> (exists k :: ContainsAt(needle, hay[1..], k))
  {
    var tail := hay[1..];
    if exists k :: ContainsAt(needle, tail, k) {
      var k :| ContainsAt(needle, tail, k);
      TailSlice(hay, k + 1, |needle|);
      assert ContainsAt(needle, hay, k + 1);
    }
    if exists k :: ContainsAt(needle, hay, k) {
      var k :| ContainsAt(needle, hay, k);
      assert hay[..|needle|] == hay[0..|needle|];
      assert k != 0;
      TailSlice(hay, k, |needle|);
      assert ContainsAt(needle, tail, k - 1);
    }
  }

  /** `hay LIKE '%' || needle || '%'`: it holds exactly when the needle occurs in hay at
      some offset. */
  function Contains(needle: string, hay: string): (b: bool)
    ensures b <==> exists k :: ContainsAt(needle, hay, k)
    decreases |hay|
  {
    if |needle| > |hay| then
      assert forall k :: !ContainsAt(needle, hay, k);
      false
    else if hay[..|needle|] == needle then
      assert ContainsAt(needle, hay, 0);
      true
    else
      ShiftOccurrence(needle, hay);
      Contains(needle, hay[1..])
  }

  /** The empty needle occurs in every string. */
  lemma EmptyContained(hay: string)
    ensures Contains([], hay)
  {
    assert ContainsAt([], hay, 0);
  }

  /** Occurrence is transitive: a piece of a piece of hay is a piece of hay. */
  lemma ContainsTransitive(a: string, b: string, c: string)
    requires Contains(a, b) && Contains(b, c)
    ensures Contains(a, c)
  {
    var i :| ContainsAt(a, b, i);
    var j :| ContainsAt(b, c, j);
    assert c[j + i..j + i + |a|] == a by {
      forall n | 0 <= n < |a|
        ensures c[j + i..j + i + |a|][n] == a[n]
      {
        assert a[n] == b[i + n] == c[j + i + n];
      }
    }
    assert ContainsAt(a, c, j + i);
  }

  /** Lower-casing commutes with taking a slice. */
  lemma LowerSlice(s: string, lo: int, hi: int)
    requires 0 <= lo <= hi <= |s|
    ensures Lower(s)[lo..hi] == Lower(s[lo..hi])
  {
    var whole, piece := Lower(s), s[lo..hi];
    var l, r := whole[lo..hi], Lower(piece);
    assert |l| == |r| == hi - lo;
    forall i | 0 <= i < hi - lo
      ensures l[i] == r[i]
    {
      assert l[i] == whole[lo + i] == ToLower(s[lo + i]);
      assert r[i] == ToLower(piece[i]);
      assert piece[i] == s[lo + i];
    }
  }

  /** Lower-casing both sides keeps an occurrence. */
  lemma ContainsLower(a: string, b: string)
    requires Contains(a, b)
    ensures Contains(Lower(a), Lower(b))
  {
    var k :| ContainsAt(a, b, k);
    LowerSlice(b, k, k + |a|);
    assert ContainsAt(Lower(a), Lower(b), k);
  }
}
