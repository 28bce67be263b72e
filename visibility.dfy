/** The filter both list routes apply to the posts they fetch: a post is
    shown when it is active, or when the requester is logged in and wrote it. */
module Visibility {
  import opened Model

  /** `post.active || (req.user && post.author.id === req.user.id)`. */
  predicate Visible(p: Post, user: Option<User>)
    ensures p.active ==> Visible(p, user)
    ensures user.None? ==> (Visible(p, user) <==> p.active)
    ensures user.Some? && p.authorId == user.value.id ==> Visible(p, user)
  {
    p.active || (user.Some? && p.authorId == user.value.id)
  }

  /** `allPosts.filter(...)` with the visibility test. */
  function FilterVisible(ps: seq<Post>, user: Option<User>): (r: seq<Post>)
    ensures |r| <= |ps|
    ensures forall p :: p in r <==> p in ps && Visible(p, user)
  {
    if ps == [] then []
    else (if Visible(ps[0], user) then [ps[0]] else []) + FilterVisible(ps[1..], user)
  }

  /** `a` is `b` with some elements left out, the rest in their order. */
  ghost predicate IsSubsequence(a: seq<Post>, b: seq<Post>)
    decreases |b|
  {
    a == [] || (b != [] && (if a[0] == b[0] then IsSubsequence(a[1..], b[1..]) else IsSubsequence(a, b[1..])))
  }

  /** The filter keeps the fetched order: its result is a subsequence of its
      input. */
  lemma {:induction false} FilterIsSubsequence(ps: seq<Post>, user: Option<User>)
    ensures IsSubsequence(FilterVisible(ps, user), ps)
  {
    if ps != [] {
      var r := FilterVisible(ps, user);
      var rest := FilterVisible(ps[1..], user);
      FilterIsSubsequence(ps[1..], user);
      if Visible(ps[0], user) {
        assert r == [ps[0]] + rest;
        assert r[1..] == rest;
      } else {
        assert r == rest;
        if r != [] {
          assert r[0] in rest;
        }
      }
    }
  }

  /** Every visible post is kept as often as it was fetched, and no other
      post is kept. */
  lemma {:induction false} FilterCounts(ps: seq<Post>, user: Option<User>)
    ensures forall p :: multiset(FilterVisible(ps, user))[p] == if Visible(p, user) then multiset(ps)[p] else 0
  {
    if ps != [] {
      FilterCounts(ps[1..], user);
      assert ps == [ps[0]] + ps[1..];
      assert multiset(ps) == multiset([ps[0]]) + multiset(ps[1..]);
    }
  }

  /** Without a logged-in user the filter keeps exactly the active posts:
      each active post as often as it was fetched, no inactive post. */
  lemma AnonymousSeesActive(ps: seq<Post>)
    ensures forall p :: multiset(FilterVisible(ps, None))[p] == if p.active then multiset(ps)[p] else 0
  {
    FilterCounts(ps, None);
  }

  /** A logged-in user sees every fetched post they wrote, active or not,
      and of other authors' posts only the active ones. */
  lemma AuthorSeesOwnPosts(ps: seq<Post>, u: User)
    ensures forall p ::
              multiset(FilterVisible(ps, Some(u)))[p] == if p.active || p.authorId == u.id then multiset(ps)[p] else 0
  {
    FilterCounts(ps, Some(u));
  }

  /** When nothing is hidden the filter returns its input unchanged. */
  lemma {:induction false} FilterKeepsAllVisible(ps: seq<Post>, user: Option<User>)
    requires forall k :: 0 <= k < |ps| ==> Visible(ps[k], user)
    ensures FilterVisible(ps, user) == ps
  {
    if ps != [] {
      FilterKeepsAllVisible(ps[1..], user);
      assert ps == [ps[0]] + ps[1..];
    }
  }
}
