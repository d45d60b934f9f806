/** The uniqueness filter (src/services/UniquenessService.ts). `generateHash` and
    `calculateSimilarity` live in a module that is not part of this model, so they are
    parameters: no symmetry, range or canonicalisation is assumed of either. */
module UniquenessService {
  import opened Wrappers
  import opened Models
  import opened PostRepository

  const SIMILARITY_THRESHOLD: real := 0.85
  /** How many recent posts the similarity scan looks at. */
  const RECENT_WINDOW: nat := 100

  /** Why a quote was accepted or refused; `TooSimilar(k)` names the position, in the
      recent window, of the post that stopped the scan. */
  datatype Verdict = Unique | ExactDuplicate | TooSimilar(index: nat)

  predicate TooClose(similarity: (string, string) -> real, quote: string, p: Post) {
    similarity(quote, p.quote) >= SIMILARITY_THRESHOLD
  }

  /** The scan of lines 24-31: the first recent post at or above the threshold. */
  function FirstTooSimilar(similarity: (string, string) -> real, quote: string, recent: seq<Post>): (r: Option<nat>)
    ensures r.None? <==> forall k :: 0 <= k < |recent| ==> !TooClose(similarity, quote, recent[k])
    ensures r.Some? ==> r.value < |recent| && TooClose(similarity, quote, recent[r.value])
    ensures r.Some? ==> forall k :: 0 <= k < r.value ==> !TooClose(similarity, quote, recent[k])
    decreases |recent|
  {
    if |recent| == 0 then None
    else if TooClose(similarity, quote, recent[0]) then Some(0)
    else
      var rest := FirstTooSimilar(similarity, quote, recent[1..]);
      assert forall k :: 1 <= k < |recent| ==> recent[k] == recent[1..][k - 1];
      match rest
      case None => None
      case Some(k) => Some(k + 1)
  }

  /** The whole check: exact hash first, then the similarity scan. */
  function Check(s: PostStore, quote: string, hash: string -> string,
                 similarity: (string, string) -> real): (r: Verdict)
    ensures r == ExactDuplicate <==> HasHash(s, hash(quote))
    ensures r.TooSimilar? ==>
      var recent := FindRecent(s, RECENT_WINDOW);
      && r.index < |recent|
      && TooClose(similarity, quote, recent[r.index])
      && forall k :: 0 <= k < r.index ==> !TooClose(similarity, quote, recent[k])
    ensures r == Unique <==>
      && !HasHash(s, hash(quote))
      && forall k :: 0 <= k < |FindRecent(s, RECENT_WINDOW)| ==>
           !TooClose(similarity, quote, FindRecent(s, RECENT_WINDOW)[k])
  {
    if FindByHash(s, hash(quote)).Some? then ExactDuplicate
    else
      match FirstTooSimilar(similarity, quote, FindRecent(s, RECENT_WINDOW))
      case None => Unique
      case Some(k) => TooSimilar(k)
  }

  /** `isQuoteUnique(quote)`: true exactly when no stored post has the quote's hash
      and none of the 100 newest posts is at least 85% similar to it. */
  function IsQuoteUnique(s: PostStore, quote: string, hash: string -> string,
                         similarity: (string, string) -> real): (r: bool)
    ensures r <==>
      && !HasHash(s, hash(quote))
      && forall k :: 0 <= k < |FindRecent(s, RECENT_WINDOW)| ==>
           similarity(quote, FindRecent(s, RECENT_WINDOW)[k].quote) < 0.85
  {
    Check(s, quote, hash, similarity) == Unique
  }

  /** `generateQuoteHash(quote)`: the very hash `isQuoteUnique` looks up, so a post
      stored under it makes the same quote a duplicate. */
  function GenerateQuoteHash(quote: string, hash: string -> string): (h: string)
    ensures forall s: PostStore, similarity: (string, string) -> real ::
              HasHash(s, h) ==> !IsQuoteUnique(s, quote, hash, similarity)
  {
    hash(quote)
  }

  /** A post at exactly the threshold already counts as too similar. */
  lemma ThresholdIsInclusive(s: PostStore, quote: string, hash: string -> string,
                             similarity: (string, string) -> real, k: nat)
    requires k < |FindRecent(s, RECENT_WINDOW)|
    requires similarity(quote, FindRecent(s, RECENT_WINDOW)[k].quote) == 0.85
    ensures !IsQuoteUnique(s, quote, hash, similarity)
  {
  }

  /** Once more than 100 posts are stored the similarity scan sees exactly 100 of
      them, and some stored post lies outside the window it compares against. */
  lemma OldPostsAreNotScanned(s: PostStore, quote: string, hash: string -> string,
                              similarity: (string, string) -> real)
    requires |s.posts| > RECENT_WINDOW
    ensures |FindRecent(s, RECENT_WINDOW)| == RECENT_WINDOW
    ensures exists p :: p in multiset(s.posts) - multiset(FindRecent(s, RECENT_WINDOW))
  {
    var r := FindRecent(s, RECENT_WINDOW);
    assert |multiset(s.posts) - multiset(r)| > 0 by {
      assert |multiset(s.posts)| == |s.posts|;
      assert |multiset(r)| == |r|;
      assert multiset(r) <= multiset(s.posts);
      assert |multiset(s.posts) - multiset(r)| == |multiset(s.posts)| - |multiset(r)|;
    }
    var p :| p in multiset(s.posts) - multiset(r);
  }
}
