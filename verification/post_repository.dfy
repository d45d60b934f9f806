/** The `posts` collection (src/repositories/PostRepository.ts) as an in-memory
    sequence in insertion order, with the unique index on `hash` enforced. */
module PostRepository {
  import opened Wrappers
  import opened Models

  datatype PostStore = PostStore(posts: seq<Post>)

  /** Error raised by the unique `hash` index. */
  const DUPLICATE_HASH: string := "E11000 duplicate key error (index: hash_1)"

  predicate HashesDistinct(posts: seq<Post>) {
    forall i, j :: 0 <= i < j < |posts| ==> posts[i].hash != posts[j].hash
  }

  /** The store invariant the unique hash index maintains. */
  predicate Valid(s: PostStore) {
    HashesDistinct(s.posts)
  }

  predicate HasHash(s: PostStore, h: string) {
    exists i :: 0 <= i < |s.posts| && s.posts[i].hash == h
  }

  /** `count()`. */
  function Count(s: PostStore): nat {
    |s.posts|
  }

  /** `create(post)`: one `insertOne`, refused by the unique index when the hash is
      already stored. */
  function Create(s: PostStore, p: Post): (r: Result<PostStore>)
    ensures r.Success? <==> !HasHash(s, p.hash)
    ensures r.Failure? ==> r.error == DUPLICATE_HASH
    ensures r.Success? ==> r.value.posts == s.posts + [p]
    ensures r.Success? ==> Count(r.value) == Count(s) + 1
    ensures Valid(s) && r.Success? ==> Valid(r.value)
  {
    if HasHash(s, p.hash) then Failure(DUPLICATE_HASH) else Success(PostStore(s.posts + [p]))
  }

  /** `findByHash(hash)`: the first stored post with that hash, or null. */
  function FindByHash(s: PostStore, h: string): (r: Option<Post>)
    ensures r.Some? <==> HasHash(s, h)
    ensures r.Some? ==> r.value in s.posts && r.value.hash == h
  {
    FindHashFrom(s.posts, h)
  }

  function FindHashFrom(posts: seq<Post>, h: string): (r: Option<Post>)
    ensures r.Some? <==> exists i :: 0 <= i < |posts| && posts[i].hash == h
    ensures r.Some? ==> r.value in posts && r.value.hash == h
    decreases |posts|
  {
    if |posts| == 0 then None
    else if posts[0].hash == h then Some(posts[0])
    else
      var r := FindHashFrom(posts[1..], h);
      assert forall i :: 1 <= i < |posts| ==> posts[i] == posts[1..][i - 1];
      r
  }

  /** Newest first: `postedAt` never increases along the sequence. */
  predicate NewestFirst(xs: seq<Post>) {
    forall i, j :: 0 <= i < j < |xs| ==> xs[i].postedAt >= xs[j].postedAt
  }

  /** Places `p` in a newest-first sequence, after every strictly newer post and before
      the rest, posts with the same `postedAt` included. */
  function Insert(p: Post, xs: seq<Post>): (r: seq<Post>)
    requires NewestFirst(xs)
    ensures NewestFirst(r)
    ensures multiset(r) == multiset(xs) + multiset{p}
    ensures |r| == |xs| + 1
    ensures r[0] == p || (|xs| > 0 && r[0] == xs[0])
    decreases |xs|
  {
    if |xs| == 0 then [p]
    else if xs[0].postedAt <= p.postedAt then [p] + xs
    else
      assert NewestFirst(xs[1..]) by { TailNewestFirst(xs); }
      var rest := Insert(p, xs[1..]);
      assert xs == [xs[0]] + xs[1..];
      ConsNewestFirst(xs[0], rest);
      [xs[0]] + rest
  }

  lemma TailNewestFirst(xs: seq<Post>)
    requires |xs| > 0 && NewestFirst(xs)
    ensures NewestFirst(xs[1..])
  {
    forall i, j | 0 <= i < j < |xs| - 1 ensures xs[1..][i].postedAt >= xs[1..][j].postedAt {
      assert xs[1..][i] == xs[i + 1] && xs[1..][j] == xs[j + 1];
    }
  }

  /** A post at least as new as the head of a newest-first sequence may lead it. */
  lemma ConsNewestFirst(x: Post, ys: seq<Post>)
    requires NewestFirst(ys)
    requires |ys| == 0 || x.postedAt >= ys[0].postedAt
    ensures NewestFirst([x] + ys)
  {
    var zs := [x] + ys;
    forall i, j | 0 <= i < j < |zs| ensures zs[i].postedAt >= zs[j].postedAt {
      assert zs[j] == ys[j - 1];
      if i > 0 {
        assert zs[i] == ys[i - 1];
      } else {
        assert ys[0].postedAt >= ys[j - 1].postedAt;
      }
    }
  }

  /** The `sort({ postedAt: -1 })` stage; the order among equal timestamps, which the
      database leaves open, is fixed here by insertion. */
  function SortNewestFirst(xs: seq<Post>): (r: seq<Post>)
    ensures NewestFirst(r)
    ensures multiset(r) == multiset(xs)
    ensures |r| == |xs|
    decreases |xs|
  {
    if |xs| == 0 then []
    else
      assert xs == [xs[0]] + xs[1..];
      Insert(xs[0], SortNewestFirst(xs[1..]))
  }

  /** The number of documents `.limit(limit)` lets through; a limit of 0 means none. */
  function Limited(limit: nat, n: nat): nat {
    if limit == 0 || n < limit then n else limit
  }

  /** In a newest-first sequence, nothing after position `k` is newer than anything before it. */
  lemma PrefixIsNewest(sorted: seq<Post>, k: nat)
    requires NewestFirst(sorted) && k <= |sorted|
    ensures forall p, q :: p in sorted[k..] && q in sorted[..k] ==> p.postedAt <= q.postedAt
  {
    forall p, q | p in sorted[k..] && q in sorted[..k]
      ensures p.postedAt <= q.postedAt
    {
      var i :| 0 <= i < |sorted[k..]| && sorted[k..][i] == p;
      var j :| 0 <= j < |sorted[..k]| && sorted[..k][j] == q;
      assert sorted[k + i] == p && sorted[j] == q;
    }
  }

  /** A prefix of a newest-first arrangement of `all` is a newest-first selection of
      `all` that leaves out nothing newer than what it keeps. */
  lemma PrefixSelectsNewest(all: seq<Post>, sorted: seq<Post>, k: nat)
    requires multiset(sorted) == multiset(all) && NewestFirst(sorted) && k <= |sorted|
    ensures NewestFirst(sorted[..k])
    ensures multiset(sorted[..k]) <= multiset(all)
    ensures forall p, q :: p in multiset(all) - multiset(sorted[..k]) && q in sorted[..k] ==> p.postedAt <= q.postedAt
  {
    var r := sorted[..k];
    assert sorted == r + sorted[k..];
    assert multiset(all) - multiset(r) == multiset(sorted[k..]);
    PrefixIsNewest(sorted, k);
  }

  /** `findRecent(limit)`: at most `limit` posts, newest first, and no post left out
      is newer than a post returned. */
  function FindRecent(s: PostStore, limit: nat): (r: seq<Post>)
    ensures limit > 0 ==> |r| <= limit
    ensures |r| == Limited(limit, |s.posts|)
    ensures NewestFirst(r)
    ensures multiset(r) <= multiset(s.posts)
    ensures forall p, q :: p in multiset(s.posts) - multiset(r) && q in r ==> p.postedAt <= q.postedAt
  {
    var sorted := SortNewestFirst(s.posts);
    var k := Limited(limit, |sorted|);
    PrefixSelectsNewest(s.posts, sorted, k);
    sorted[..k]
  }
}
