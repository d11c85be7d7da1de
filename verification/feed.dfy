/**
 * The feed page `Dashboard` (pages/Dashboard.tsx): the posts loaded from the
 * service, the search text and the posts that match it, with the optimistic
 * like and the local delete.
 */
module Feed {
  import opened Types
  import opened Seqs
  import Service

  // ---------------------------------------------------------------------------
  // Search

  /** `text.includes(query)`: `query` occurs in `text` at some position. */
  predicate Includes(text: string, query: string)
  {
    query <= text || (text != [] && Includes(text[1..], query))
  }

  /** `Includes` agrees with the definition of a substring by its position. */
  lemma {:induction false} IncludesIffSomePosition(text: string, query: string)
    ensures Includes(text, query) <==> exists k :: 0 <= k <= |text| && query <= text[k..]
  {
    if text != [] {
      IncludesIffSomePosition(text[1..], query);
      if Includes(text, query) && !(query <= text) {
        var k :| 0 <= k <= |text[1..]| && query <= text[1..][k..];
        assert text[1..][k..] == text[k + 1..];
      }
      if exists k :: 0 <= k <= |text| && query <= text[k..] {
        var k :| 0 <= k <= |text| && query <= text[k..];
        if k > 0 {
          assert text[1..][k - 1..] == text[k..];
        }
      }
    }
  }

  /** The search test of one post, given the lower-cased query and the lower-casing function. */
  predicate MatchesQuery(p: Post, lowerQuery: string, lower: string -> string)
  {
    || Includes(lower(p.title), lowerQuery)
    || Includes(lower(p.description), lowerQuery)
    || Includes(lower(p.user.name), lowerQuery)
  }

  function SearchTest(query: string, lower: string -> string): Post -> bool
  {
    (p: Post) => MatchesQuery(p, lower(query), lower)
  }

  /** The posts the search effect keeps. */
  function Search(posts: seq<Post>, query: string, lower: string -> string): seq<Post>
  {
    Filter(posts, SearchTest(query, lower))
  }

  /**
   * The search result is the order-preserving subsequence of the posts made
   * of exactly those whose lower-cased title, description or author name
   * contains the lower-cased query.
   */
  lemma SearchSelects(posts: seq<Post>, query: string, lower: string -> string)
    ensures var r, idx := Search(posts, query, lower), KeptIndices(posts, SearchTest(query, lower));
      && |idx| == |r|
      && StrictlyIncreasing(idx)
      && (forall k :: 0 <= k < |idx| ==> idx[k] < |posts| && r[k] == posts[idx[k]])
      && (forall i: nat :: i < |posts| ==> (MatchesQuery(posts[i], lower(query), lower) <==> i in idx))
  {
    FilterSelects(posts, SearchTest(query, lower));
  }

  /** A query that lower-cases to the empty string keeps every post. */
  lemma EmptyQueryKeepsAll(posts: seq<Post>, query: string, lower: string -> string)
    requires lower(query) == []
    ensures Search(posts, query, lower) == posts
  {
    forall i | 0 <= i < |posts|
      ensures SearchTest(query, lower)(posts[i])
    {
      assert Includes(lower(posts[i].title), []);
    }
    FilterKeepsAll(posts, SearchTest(query, lower));
  }

  // ---------------------------------------------------------------------------
  // The optimistic like

  /** The map step of handleLike for the post being liked. */
  function LikedOptimistically(p: Post): Post
  {
    p.(likes := if p.isLikedByCurrentUser then p.likes - 1 else p.likes + 1,
       isLikedByCurrentUser := !p.isLikedByCurrentUser)
  }

  /** handleLike's update of the local list: every post with that id is liked optimistically. */
  function LikeLocally(posts: seq<Post>, id: string): seq<Post>
  {
    seq(|posts|, i requires 0 <= i < |posts| =>
      if posts[i].id == id then LikedOptimistically(posts[i]) else posts[i])
  }

  /** The optimistic like computes the same count and flag as the service's toggle. */
  lemma OptimisticLikeMatchesToggle(p: Post)
    ensures LikedOptimistically(p) == Service.Toggled(p)
  {
  }

  /**
   * On a list whose ids are unique, the optimistic update of the whole list is
   * the service's toggleLike applied to the same list.
   */
  lemma {:induction false} LikeLocallyMatchesService(posts: seq<Post>, id: string)
    requires Service.PostIdsUnique(posts)
    ensures LikeLocally(posts, id) == Service.ToggledAt(posts, id)
  {
    var local := LikeLocally(posts, id);
    match FindFirst(posts, Service.PostIdIs(id))
    case None =>
      assert forall i :: 0 <= i < |posts| ==> !Service.PostIdIs(id)(posts[i]);
      assert forall i :: 0 <= i < |posts| ==> local[i] == posts[i];
    case Some(k) =>
      assert posts[k].id == id;
      assert forall i :: 0 <= i < |posts| && i != k ==> posts[i].id != id;
      var remote := posts[k := Service.Toggled(posts[k])];
      assert forall i :: 0 <= i < |posts| ==> local[i] == remote[i];
  }

  // ---------------------------------------------------------------------------
  // The page

  class Dashboard {
    var posts: seq<Post>
    var filteredPosts: seq<Post>
    var searchQuery: string
    var isLoading: bool

    constructor ()
      ensures posts == [] && filteredPosts == [] && searchQuery == [] && isLoading
    {
      posts, filteredPosts, searchQuery, isLoading := [], [], [], true;
    }

    /** Fetches the posts and shows all of them; loading ends. */
    method LoadPosts(api: Service.MockApi)
      modifies this`posts, this`filteredPosts, this`isLoading
      ensures posts == filteredPosts && posts == Service.SortNewestFirst(api.Posts())
      ensures multiset(posts) == multiset(api.Posts()) && Service.NewestFirst(posts)
      ensures !isLoading
    {
      isLoading := true;
      var data := api.GetPosts();
      posts := data;
      filteredPosts := data;
      isLoading := false;
    }

    method SetSearchQuery(query: string)
      modifies this`searchQuery
      ensures searchQuery == query
    {
      searchQuery := query;
    }

    /** The search effect, run whenever the query or the posts change. */
    method RefreshFilter(lower: string -> string)
      modifies this`filteredPosts
      ensures filteredPosts == Search(posts, searchQuery, lower)
      ensures |filteredPosts| <= |posts|
      ensures forall k :: 0 <= k < |filteredPosts| ==>
                filteredPosts[k] in posts && MatchesQuery(filteredPosts[k], lower(searchQuery), lower)
      ensures forall i :: 0 <= i < |posts| && MatchesQuery(posts[i], lower(searchQuery), lower) ==>
                posts[i] in filteredPosts
    {
      SearchSelects(posts, searchQuery, lower);
      filteredPosts := Filter(posts, SearchTest(searchQuery, lower));
      forall i | 0 <= i < |posts| && MatchesQuery(posts[i], lower(searchQuery), lower)
        ensures posts[i] in filteredPosts
      {
        var idx := KeptIndices(posts, SearchTest(searchQuery, lower));
        var k :| 0 <= k < |idx| && idx[k] == i;
        assert filteredPosts[k] == posts[i];
      }
    }

    /**
     * Likes optimistically in the local list, then asks the service to toggle
     * the like when someone is signed in; a failure of the service is ignored
     * and the local change is kept.
     */
    method HandleLike(id: string, user: Option<User>, api: Service.MockApi)
      modifies this`posts, api`postsSlot
      ensures posts == LikeLocally(old(posts), id)
      ensures |posts| == |old(posts)|
      ensures forall i :: 0 <= i < |posts| ==>
                posts[i] == if old(posts)[i].id == id then Service.Toggled(old(posts)[i]) else old(posts)[i]
      ensures user.None? ==> api.postsSlot == old(api.postsSlot)
      ensures user.Some? ==> api.Posts() == Service.ToggledAt(old(api.Posts()), id)
    {
      posts := LikeLocally(posts, id);
      if user.Some? {
        var _ := api.ToggleLike(id, user.value.id);
      }
    }

    /** When confirmed, deletes the post in the service and drops it from the local list. */
    method HandleDelete(id: string, confirmed: bool, api: Service.MockApi)
      modifies this`posts, api`postsSlot
      ensures !confirmed ==> posts == old(posts) && api.postsSlot == old(api.postsSlot)
      ensures confirmed ==> posts == Filter(old(posts), Service.PostIdIsNot(id))
      ensures confirmed ==> api.postsSlot == Some(Filter(old(api.Posts()), Service.PostIdIsNot(id)))
      ensures confirmed ==> forall k :: 0 <= k < |posts| ==> posts[k].id != id
    {
      if confirmed {
        api.DeletePost(id);
        var kept := Filter(posts, Service.PostIdIsNot(id));
        forall k | 0 <= k < |kept|
          ensures kept[k].id != id
        {
          assert kept[k] in kept;
          assert Service.PostIdIsNot(id)(kept[k]);
        }
        posts := kept;
      }
    }
  }
}
