/**
 * The deterministic edge identifier "e" + source + "-" + target.
 * Mongo ObjectIds are 24 lower-case hexadecimal digits, so they never contain
 * a hyphen; for such a source the key can be split back into its two ids,
 * which makes the key injective and the two directions of a pair distinct.
 */
module EdgeKeys {
  import opened Wrappers

  /** The key under which the edge from `source` to `target` is stored. */
  function EdgeKey(source: string, target: string): (k: string)
    ensures |k| == |source| + |target| + 2 && k[0] == 'e'
  {
    "e" + source + "-" + target
  }

  /** The key reads "e", then the source, a hyphen, then the target. */
  lemma EdgeKeyLayout(source: string, target: string)
    ensures EdgeKey(source, target)[|source| + 1] == '-'
    ensures EdgeKey(source, target)[1..|source| + 1] == source
    ensures EdgeKey(source, target)[|source| + 2..] == target
  {
  }

  predicate IsHexDigit(c: char) {
    '0' <= c <= '9' || 'a' <= c <= 'f'
  }

  /** The textual form of a Mongo ObjectId. */
  predicate IsObjectId(s: string) {
    |s| == 24 && forall i | 0 <= i < |s| :: IsHexDigit(s[i])
  }

  predicate HyphenFree(s: string) {
    '-' !in s
  }

  lemma ObjectIdIsHyphenFree(s: string)
    requires IsObjectId(s)
    ensures HyphenFree(s)
  {
  }

  /** The index of the first occurrence of `c` in `s`, if any. */
  function FirstIndex(s: string, c: char): (r: Option<nat>)
    ensures r.None? <==> c !in s
    ensures r.Some? ==> r.value < |s| && s[r.value] == c && c !in s[..r.value]
  {
    if s == [] then None
    else if s[0] == c then Some(0)
    else match FirstIndex(s[1..], c)
      case None => None
      case Some(i) =>
        assert s[..i + 1] == [s[0]] + s[1..][..i];
        Some(i + 1)
  }

  /** Read a key back as (source, target), splitting at the first hyphen after the leading 'e'. */
  function SplitKey(k: string): (r: Option<(string, string)>)
    ensures r.Some? ==> HyphenFree(r.value.0)
  {
    if |k| == 0 || k[0] != 'e' then None
    else match FirstIndex(k[1..], '-')
      case None => None
      case Some(i) => Some((k[1..][..i], k[1..][i + 1..]))
  }

  lemma {:induction false} FirstHyphenAfterHyphenFree(s: string, t: string)
    requires HyphenFree(s)
    ensures FirstIndex(s + "-" + t, '-') == Some(|s|)
  {
    if s != [] {
      assert (s + "-" + t)[1..] == s[1..] + "-" + t;
      FirstHyphenAfterHyphenFree(s[1..], t);
    }
  }

  /** Splitting the key of a hyphen-free source recovers both ids. */
  lemma {:induction false} SplitKeyRoundTrip(source: string, target: string)
    requires HyphenFree(source)
    ensures SplitKey(EdgeKey(source, target)) == Some((source, target))
  {
    var k := EdgeKey(source, target);
    var rest := source + "-" + target;
    assert k[1..] == rest;
    FirstHyphenAfterHyphenFree(source, target);
    assert rest[..|source|] == source;
    assert rest[|source| + 1..] == target;
  }

  /** Keys of hyphen-free sources identify the ordered pair. */
  lemma EdgeKeyInjective(s1: string, t1: string, s2: string, t2: string)
    requires HyphenFree(s1) && HyphenFree(s2)
    ensures EdgeKey(s1, t1) == EdgeKey(s2, t2) <==> s1 == s2 && t1 == t2
  {
    if EdgeKey(s1, t1) == EdgeKey(s2, t2) {
      SplitKeyRoundTrip(s1, t1);
      SplitKeyRoundTrip(s2, t2);
    }
  }

  /** (A, B) and (B, A) are stored under different keys, so both directions can coexist. */
  lemma ReverseKeyDistinct(a: string, b: string)
    requires IsObjectId(a) && IsObjectId(b) && a != b
    ensures EdgeKey(a, b) != EdgeKey(b, a)
  {
    ObjectIdIsHyphenFree(a);
    ObjectIdIsHyphenFree(b);
    EdgeKeyInjective(a, b, b, a);
  }

  /** Without hyphen-free ids the key is not injective: two different pairs share one key. */
  lemma KeyCollidesWithHyphens()
    ensures EdgeKey("a-b", "c") == EdgeKey("a", "b-c")
  {
  }
}
