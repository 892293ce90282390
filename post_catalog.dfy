/** The post list: what delete-account leaves of it, and how post ids are
    assigned. */
module PostCatalog {
  import opened Domain

  /** The posts of a list that were not made by `phone`, in their original
      order: the list delete-account leaves behind. */
  function RemoveByPoster(posts: seq<Post>, phone: string): (r: seq<Post>)
    ensures |r| <= |posts|
  {
    if posts == [] then []
    else (if posts[0].posterPhone == phone then [] else [posts[0]])
         + RemoveByPoster(posts[1..], phone)
  }

  /** A post survives the removal iff it was in the list and is not by
      `phone`; in particular no post by `phone` survives. */
  lemma {:induction false} RemoveByPosterMembers(posts: seq<Post>, phone: string)
    ensures forall p :: p in RemoveByPoster(posts, phone) <==> p in posts && p.posterPhone != phone
    ensures forall i :: 0 <= i < |RemoveByPoster(posts, phone)| ==> RemoveByPoster(posts, phone)[i].posterPhone != phone
  {
    if posts != [] {
      RemoveByPosterMembers(posts[1..], phone);
      assert posts == [posts[0]] + posts[1..];
    }
  }

  /** One step of a removal that walks the list from index i on. */
  lemma RemoveByPosterStep(posts: seq<Post>, i: nat, phone: string)
    requires i < |posts|
    ensures RemoveByPoster(posts[i..], phone)
         == (if posts[i].posterPhone == phone then [] else [posts[i]]) + RemoveByPoster(posts[i + 1..], phone)
  {
    assert posts[i..][0] == posts[i];
    assert posts[i..][1..] == posts[i + 1..];
  }

  /** Splitting at index i a list made of a prefix of `before` up to i and
      some rest: element i is before[i], and what lies on either side of it
      is the shorter prefix and the rest. */
  lemma SplitAt(before: seq<Post>, rest: seq<Post>, i: nat)
    requires i < |before|
    ensures var s := before[..i + 1] + rest;
      && s[i] == before[i] && s[..i] == before[..i] && s[i + 1..] == rest
      && s == before[..i] + ([before[i]] + rest)
  {
    var s := before[..i + 1] + rest;
    assert before[..i + 1] == before[..i] + [before[i]];
    assert s[..i] == before[..i];
    assert s[i + 1..] == rest;
  }

  /** Removal works element by element, so it keeps the relative order:
      removing from a concatenation is concatenating the removals. */
  lemma {:induction false} RemoveByPosterAppend(a: seq<Post>, b: seq<Post>, phone: string)
    ensures RemoveByPoster(a + b, phone) == RemoveByPoster(a, phone) + RemoveByPoster(b, phone)
  {
    if a == [] {
      assert a + b == b;
    } else {
      assert (a + b)[0] == a[0];
      assert (a + b)[1..] == a[1..] + b;
      RemoveByPosterAppend(a[1..], b, phone);
    }
  }

  /** A list with no post by `phone` is left as it is. */
  lemma {:induction false} RemoveByPosterNoMatch(posts: seq<Post>, phone: string)
    requires forall i :: 0 <= i < |posts| ==> posts[i].posterPhone != phone
    ensures RemoveByPoster(posts, phone) == posts
  {
    if posts != [] {
      RemoveByPosterNoMatch(posts[1..], phone);
    }
  }

  /** Removing twice removes nothing more. */
  lemma RemoveByPosterIdempotent(posts: seq<Post>, phone: string)
    ensures RemoveByPoster(RemoveByPoster(posts, phone), phone) == RemoveByPoster(posts, phone)
  {
    RemoveByPosterMembers(posts, phone);
    RemoveByPosterNoMatch(RemoveByPoster(posts, phone), phone);
  }

  /** The number of posts by `phone` in a list. */
  function CountByPoster(posts: seq<Post>, phone: string): nat {
    if posts == [] then 0
    else (if posts[0].posterPhone == phone then 1 else 0) + CountByPoster(posts[1..], phone)
  }

  /** Exactly the posts by `phone` go: the list shrinks by their number. */
  lemma {:induction false} RemoveByPosterLength(posts: seq<Post>, phone: string)
    ensures |RemoveByPoster(posts, phone)| == |posts| - CountByPoster(posts, phone)
  {
    if posts != [] {
      RemoveByPosterLength(posts[1..], phone);
    }
  }

  /** The id post-item gives a new post: one more than the current length of
      the list (not a counter, so ids can repeat once posts are removed). */
  function NextId(posts: seq<Post>): (id: int)
    ensures id >= 1 && id > |posts|
  {
    |posts| + 1
  }

  /** While no post has been removed, the ids are 1, 2, ..., n in order. */
  predicate DenseIds(posts: seq<Post>) {
    forall i :: 0 <= i < |posts| ==> posts[i].id == i + 1
  }

  /** Dense ids are pairwise distinct. */
  lemma DenseIdsDistinct(posts: seq<Post>)
    requires DenseIds(posts)
    ensures forall i, j :: 0 <= i < j < |posts| ==> posts[i].id != posts[j].id
  {
  }

  /** Appending a post numbered by NextId keeps the ids dense. */
  lemma DenseIdsAppend(posts: seq<Post>, p: Post)
    requires DenseIds(posts) && p.id == NextId(posts)
    ensures DenseIds(posts + [p])
  {
  }
}
