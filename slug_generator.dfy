/**
  The slug generator of the create handler: six characters, each picked from a
  36-character alphabet by a random index. The random source is a supplied
  sequence of draws; the source computes each draw as `floor(random() * 36)`,
  which lies in [0, 36). `Slug` and `GenerateSlug` accept any integers;
  `SlugAlphabet` and `SlugLengthBound` hold for all of them and say what an
  out-of-range draw does (`charAt` yields the empty string, so it adds nothing);
  the content, decoding and injectivity lemmas assume every draw is in [0, 36).
*/
module SlugGenerator {

  const Alphabet: string := "abcdefghijklmnopqrstuvwxyz0123456789"
  const SlugLength: nat := 6

  /** A draw that names a character of the alphabet. */
  predicate InRange(d: int) {
    0 <= d < |Alphabet|
  }

  predicate AllInRange(draws: seq<int>) {
    forall i :: 0 <= i < |draws| ==> InRange(draws[i])
  }

  /** JavaScript's `String.prototype.charAt` on an integer position. */
  function CharAt(s: string, i: int): (r: string)
    ensures |r| <= 1
    ensures forall k :: 0 <= k < |r| ==> r[k] in s
  {
    if 0 <= i < |s| then [s[i]] else ""
  }

  /** The string built by appending `charAt(Alphabet, d)` for each draw `d` in turn. */
  function Slug(draws: seq<int>): string
  {
    if draws == [] then "" else Slug(draws[..|draws| - 1]) + CharAt(Alphabet, draws[|draws| - 1])
  }

  /** Position of an alphabet character: the left inverse of indexing the alphabet. */
  function IndexOfChar(c: char): int
  {
    if 'a' <= c <= 'z' then c as int - 'a' as int
    else if '0' <= c <= '9' then 26 + (c as int - '0' as int)
    else -1
  }

  /** The draws that produce a given string, one index per character. */
  function Indices(s: string): (d: seq<int>)
    ensures |d| == |s|
  {
    if s == [] then [] else Indices(s[..|s| - 1]) + [IndexOfChar(s[|s| - 1])]
  }

  /** IndexOfChar undoes indexing: the alphabet has no repeated character. */
  lemma IndexOfAlphabet(i: int)
    requires 0 <= i < |Alphabet|
    ensures IndexOfChar(Alphabet[i]) == i
  {
  }

  /** Indexing undoes IndexOfChar on the alphabet's characters. */
  lemma AlphabetAtIndexOf(c: char)
    requires c in Alphabet
    ensures InRange(IndexOfChar(c)) && Alphabet[IndexOfChar(c)] == c
  {
    var i :| 0 <= i < |Alphabet| && Alphabet[i] == c;
    IndexOfAlphabet(i);
  }

  /** generateSlug: a counted loop appending one character per draw. */
  method GenerateSlug(draws: seq<int>) returns (slug: string)
    requires |draws| == SlugLength
    ensures slug == Slug(draws)
    ensures |slug| <= SlugLength
    ensures forall k :: 0 <= k < |slug| ==> slug[k] in Alphabet
    ensures AllInRange(draws) ==> |slug| == SlugLength
    ensures AllInRange(draws) ==> forall k :: 0 <= k < SlugLength ==> slug[k] == Alphabet[draws[k]]
  {
    slug := "";
    for i := 0 to SlugLength
      invariant slug == Slug(draws[..i])
    {
      assert draws[..i + 1][..i] == draws[..i];
      slug := slug + CharAt(Alphabet, draws[i]);
    }
    assert draws[..SlugLength] == draws;
    SlugAlphabet(draws);
    SlugLengthBound(draws);
    if AllInRange(draws) {
      forall k | 0 <= k < SlugLength ensures slug[k] == Alphabet[draws[k]] {
        SlugAt(draws, k);
      }
    }
  }

  /** Every character of a slug comes from the alphabet, whatever the draws. */
  lemma {:induction false} SlugAlphabet(draws: seq<int>)
    ensures forall k :: 0 <= k < |Slug(draws)| ==> Slug(draws)[k] in Alphabet
  {
    if draws != [] {
      SlugAlphabet(draws[..|draws| - 1]);
    }
  }

  /**
    A slug is never longer than its draws, and it is exactly as long iff
    every draw is in range.
  */
  lemma {:induction false} SlugLengthBound(draws: seq<int>)
    ensures |Slug(draws)| <= |draws|
    ensures |Slug(draws)| == |draws| <==> AllInRange(draws)
  {
    if draws != [] {
      var init := draws[..|draws| - 1];
      SlugLengthBound(init);
      assert forall i :: 0 <= i < |init| ==> init[i] == draws[i];
    }
  }

  /** With in-range draws, the k-th character is the alphabet character the k-th draw names. */
  lemma {:induction false} SlugAt(draws: seq<int>, k: int)
    requires AllInRange(draws)
    requires 0 <= k < |draws|
    ensures |Slug(draws)| == |draws|
    ensures Slug(draws)[k] == Alphabet[draws[k]]
  {
    SlugLengthBound(draws);
    var init := draws[..|draws| - 1];
    assert AllInRange(init) by {
      assert forall i :: 0 <= i < |init| ==> init[i] == draws[i];
    }
    SlugLengthBound(init);
    if k < |draws| - 1 {
      SlugAt(init, k);
    }
  }

  /** Decoding a slug recovers the in-range draws that produced it. */
  lemma {:induction false} IndicesOfSlug(draws: seq<int>)
    requires AllInRange(draws)
    ensures Indices(Slug(draws)) == draws
  {
    if draws != [] {
      var init, last := draws[..|draws| - 1], draws[|draws| - 1];
      assert AllInRange(init) by {
        assert forall i :: 0 <= i < |init| ==> init[i] == draws[i];
      }
      IndicesOfSlug(init);
      IndicesSnoc(Slug(init), Alphabet[last]);
      IndexOfAlphabet(last);
      assert draws == init + [last];
    }
  }

  lemma IndicesSnoc(s: string, c: char)
    ensures Indices(s + [c]) == Indices(s) + [IndexOfChar(c)]
  {
    assert (s + [c])[..|s|] == s;
  }

  /** Every string over the alphabet is the slug of its own indices. */
  lemma {:induction false} SlugOfIndices(s: string)
    requires forall k :: 0 <= k < |s| ==> s[k] in Alphabet
    ensures AllInRange(Indices(s))
    ensures Slug(Indices(s)) == s
  {
    if s != [] {
      var init := s[..|s| - 1];
      SlugOfIndices(init);
      AlphabetAtIndexOf(s[|s| - 1]);
      var d := Indices(s);
      assert d[..|d| - 1] == Indices(init);
      assert AllInRange(d) by {
        forall i | 0 <= i < |d| ensures InRange(d[i]) {
          if i < |d| - 1 { assert d[i] == Indices(init)[i]; }
        }
      }
      assert s == init + [s[|s| - 1]];
    }
  }

  /** Distinct in-range draws give distinct slugs: the generator is injective. */
  lemma SlugInjective(d1: seq<int>, d2: seq<int>)
    requires AllInRange(d1) && AllInRange(d2)
    requires Slug(d1) == Slug(d2)
    ensures d1 == d2
  {
    IndicesOfSlug(d1);
    IndicesOfSlug(d2);
  }
}
