/**
  The bounded slug allocator of the create handler: generate a candidate, then
  up to five times look it up and either accept it (no row found) or replace it
  by a fresh candidate. After five collisions the sixth candidate is accepted
  without a lookup; the store's insert is left to reject a duplicate.

  `existing` is the set of slugs for which the lookup returns a row. Candidate
  k is the slug generated from draws 6k .. 6k+5 of the random source.
*/
module SlugAllocator {
  import opened SlugGenerator

  const MaxAttempts: nat := 5

  /** Draws consumed when every one of the MaxAttempts + 1 generations happens. */
  const DrawsNeeded: nat := 36

  /** The k-th generated candidate. */
  function Candidate(draws: seq<int>, k: nat): string
    requires k <= MaxAttempts && |draws| >= DrawsNeeded
  {
    Slug(draws[6 * k .. 6 * k + 6])
  }

  /** The candidates looked up first, in order: candidates 0 .. n-1. */
  function Candidates(draws: seq<int>, n: nat): (cs: seq<string>)
    requires n <= MaxAttempts && |draws| >= DrawsNeeded
    ensures |cs| == n
    ensures forall j :: 0 <= j < n ==> cs[j] == Candidate(draws, j)
  {
    if n == 0 then [] else Candidates(draws, n - 1) + [Candidate(draws, n - 1)]
  }

  /**
    The index of the accepted candidate when the search starts at candidate k:
    the first free one among k .. MaxAttempts-1, else MaxAttempts.
  */
  function AcceptedFrom(existing: set<string>, draws: seq<int>, k: nat): (n: nat)
    requires k <= MaxAttempts && |draws| >= DrawsNeeded
    ensures k <= n <= MaxAttempts
    ensures n < MaxAttempts ==> Candidate(draws, n) !in existing
    ensures forall j :: k <= j < n ==> Candidate(draws, j) in existing
    decreases MaxAttempts - k
  {
    if k == MaxAttempts then MaxAttempts
    else if Candidate(draws, k) !in existing then k
    else AcceptedFrom(existing, draws, k + 1)
  }

  /** The index of the candidate the allocator accepts. */
  function Accepted(existing: set<string>, draws: seq<int>): (n: nat)
    requires |draws| >= DrawsNeeded
    ensures n <= MaxAttempts
    ensures forall j :: 0 <= j < n ==> Candidate(draws, j) in existing
    ensures n < MaxAttempts ==> Candidate(draws, n) !in existing
  {
    AcceptedFrom(existing, draws, 0)
  }

  /**
    The allocation loop. `checked` lists the slugs looked up, in order, and
    `generations` counts the calls of the generator.
  */
  method AllocateSlug(existing: set<string>, draws: seq<int>)
    returns (slug: string, checked: seq<string>, generations: nat)
    requires |draws| >= DrawsNeeded
    ensures 1 <= generations <= MaxAttempts + 1 && |checked| <= MaxAttempts
    ensures generations == Accepted(existing, draws) + 1
    ensures slug == Candidate(draws, generations - 1)
    ensures checked == Candidates(draws, |checked|)
    ensures forall j :: 0 <= j < generations - 1 ==> Candidate(draws, j) in existing
    // left through the break: the accepted slug is the one just looked up, and it was free
    ensures Accepted(existing, draws) < MaxAttempts ==>
              |checked| == generations && checked[|checked| - 1] == slug && slug !in existing
    // all lookups collided: the sixth candidate is accepted without a lookup
    ensures Accepted(existing, draws) == MaxAttempts <==>
              (forall j :: 0 <= j < MaxAttempts ==> Candidate(draws, j) in existing)
    ensures Accepted(existing, draws) == MaxAttempts ==>
              |checked| == MaxAttempts && generations == MaxAttempts + 1
  {
    slug := GenerateSlug(draws[0 .. 6]);
    generations := 1;
    checked := [];
    var attempts := 0;
    while attempts < MaxAttempts
      invariant 0 <= attempts <= MaxAttempts
      invariant generations == attempts + 1
      invariant checked == Candidates(draws, attempts)
      invariant slug == Candidate(draws, attempts)
      invariant AcceptedFrom(existing, draws, attempts) == Accepted(existing, draws)
    {
      checked := checked + [slug];
      var found := slug in existing;
      if !found {
        break;
      }
      slug := GenerateSlug(draws[6 * (attempts + 1) .. 6 * (attempts + 1) + 6]);
      generations := generations + 1;
      attempts := attempts + 1;
    }
  }

  /**
    With in-range draws every candidate, and so the accepted slug whether it
    was looked up or not, has the generator's shape: six alphabet characters.
  */
  lemma CandidateShape(draws: seq<int>, k: nat)
    requires k <= MaxAttempts && |draws| >= DrawsNeeded
    requires AllInRange(draws)
    ensures |Candidate(draws, k)| == SlugLength
    ensures forall i :: 0 <= i < SlugLength ==> Candidate(draws, k)[i] in Alphabet
  {
    var part := draws[6 * k .. 6 * k + 6];
    assert AllInRange(part) by {
      assert forall i :: 0 <= i < |part| ==> part[i] == draws[6 * k + i];
    }
    SlugLengthBound(part);
    SlugAlphabet(part);
  }
}
