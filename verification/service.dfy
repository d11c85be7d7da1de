/**
 * The data service `mockApi` (services/mockApi.ts): two tables, `users` and
 * `posts`, kept under two keys of the browser's local store. Every operation
 * reads the tables it needs whole (the seed data when a key is absent); each
 * writing operation that succeeds stores the tables it changed whole again,
 * and `login`, `getPosts` and every failure write nothing.
 */
module Service {
  import opened Types
  import opened Seqs

  // ---------------------------------------------------------------------------
  // Seed data

  // The long texts of the seed data
  const JaneAvatar := "https://picsum.photos/id/1027/200/200"
  const JaneBio := "Digital nomad & coffee enthusiast. \U{2615}\U{FE0F}"
  const JohnAvatar := "https://picsum.photos/id/1012/200/200"
  const JohnBio := "Tech lead. Building the future."
  const SunsetTitle := "Sunset at the Beach"
  const SunsetText := "Had an amazing time walking down the coast this evening. The colors were unreal!"
  const SunsetPicture := "https://picsum.photos/id/10/800/600"
  const RoadmapTitle := "Project Update: Q4 Goals"
  const RoadmapText := "Just wrapped up the quarterly planning session. Here are the key takeaways (see PDF)."

  /** Jane Doe and John Smith, who joined on 2023-01-15 and 2023-02-20 (UTC midnight). */
  function SeedUsers(): seq<User>
  {
    [ User("u1", "Jane Doe", "jane@example.com", Some(JaneAvatar), Some(JaneBio), 1673740800000, USER),
      User("u2", "John Smith", "john@example.com", Some(JohnAvatar), Some(JohnBio), 1676851200000, USER) ]
  }

  /**
   * The two seed posts; their timestamps are taken when the module is loaded
   * (`loadTime`): created two hours and one day before it, event date and
   * comment date at it. The source reads the clock once per timestamp; the
   * model takes these reads as one instant.
   */
  function SeedPosts(loadTime: Timestamp): seq<Post>
  {
    var jane, john := SeedUsers()[0], SeedUsers()[1];
    [ Post("p1", "u1", jane, SunsetTitle, SunsetText,
           loadTime - 1000 * 60 * 60 * 2, Some(loadTime),
           [Attachment("a1", IMAGE, SunsetPicture, "sunset.jpg")],
           PUBLIC, 12, [], false),
      Post("p2", "u2", john, RoadmapTitle, RoadmapText,
           loadTime - 1000 * 60 * 60 * 24, Some(loadTime),
           [Attachment("a2", PDF, "#", "Q4_Roadmap.pdf")],
           FRIENDS, 5,
           [Comment("c1", "u1", "Jane Doe", jane.avatar, "Great work team!", loadTime)],
           true) ]
  }

  // ---------------------------------------------------------------------------
  // Invariants of the tables

  predicate HasEmail(users: seq<User>, email: string)
  {
    exists i :: 0 <= i < |users| && users[i].email == email
  }

  ghost predicate EmailsUnique(users: seq<User>)
  {
    forall a, b :: 0 <= a < b < |users| ==> users[a].email != users[b].email
  }

  ghost predicate UserIdsUnique(users: seq<User>)
  {
    forall a, b :: 0 <= a < b < |users| ==> users[a].id != users[b].id
  }

  ghost predicate PostIdsUnique(posts: seq<Post>)
  {
    forall a, b :: 0 <= a < b < |posts| ==> posts[a].id != posts[b].id
  }

  /** The like count of one post is not negative, and at least 1 while the post is liked. */
  ghost predicate LikeCountConsistent(p: Post)
  {
    p.likes >= 0 && (p.isLikedByCurrentUser ==> p.likes >= 1)
  }

  ghost predicate LikesConsistent(posts: seq<Post>)
  {
    forall i :: 0 <= i < |posts| ==> LikeCountConsistent(posts[i])
  }

  /** Every post whose author is in `users` embeds that author's current record. */
  ghost predicate AuthorsSynced(users: seq<User>, posts: seq<Post>)
  {
    forall i, j :: 0 <= i < |users| && 0 <= j < |posts| && users[i].id == posts[j].userId ==>
      posts[j].user == users[i]
  }

  /** The order `getPosts` promises: creation time non-increasing. */
  ghost predicate NewestFirst(posts: seq<Post>)
  {
    forall a, b :: 0 <= a < b < |posts| ==> posts[a].createdAt >= posts[b].createdAt
  }

  /**
   * The seed data satisfies every invariant of the tables: distinct user ids
   * and emails, distinct post ids, consistent like counts (12 not liked, 5
   * liked), authors embedded as their seed records, and newest first.
   */
  lemma SeedIsConsistent(loadTime: Timestamp)
    ensures EmailsUnique(SeedUsers()) && UserIdsUnique(SeedUsers())
    ensures PostIdsUnique(SeedPosts(loadTime))
    ensures LikesConsistent(SeedPosts(loadTime))
    ensures AuthorsSynced(SeedUsers(), SeedPosts(loadTime))
    ensures NewestFirst(SeedPosts(loadTime))
  {
    var users, posts := SeedUsers(), SeedPosts(loadTime);
    assert users[0].id == "u1" && users[1].id == "u2";
    assert users[0].email == "jane@example.com" && users[1].email == "john@example.com";
    assert posts[0].id == "p1" && posts[1].id == "p2";
    assert posts[0].userId == "u1" && posts[0].user == users[0];
    assert posts[1].userId == "u2" && posts[1].user == users[1];
  }

  // ---------------------------------------------------------------------------
  // The lookups the operations pass to `find`, `findIndex` and `filter`

  function EmailIs(email: string): User -> bool
  {
    (u: User) => u.email == email
  }

  function UserIdIs(id: string): User -> bool
  {
    (u: User) => u.id == id
  }

  function PostIdIs(id: string): Post -> bool
  {
    (p: Post) => p.id == id
  }

  function PostIdIsNot(id: string): Post -> bool
  {
    (p: Post) => p.id != id
  }

  // ---------------------------------------------------------------------------
  // getPosts: the sort by creation time, newest first

  /** Inserts `p` before the first post that is not newer than it, which keeps the sort stable. */
  function InsertByDate(p: Post, sorted: seq<Post>): seq<Post>
  {
    if sorted == [] || p.createdAt >= sorted[0].createdAt then [p] + sorted
    else [sorted[0]] + InsertByDate(p, sorted[1..])
  }

  function SortNewestFirst(posts: seq<Post>): seq<Post>
  {
    if posts == [] then [] else InsertByDate(posts[0], SortNewestFirst(posts[1..]))
  }

  lemma {:induction false} InsertByDateMembers(p: Post, sorted: seq<Post>)
    ensures multiset(InsertByDate(p, sorted)) == multiset(sorted) + multiset{p}
    ensures forall x :: x in InsertByDate(p, sorted) ==> x == p || x in sorted
  {
    if sorted != [] && p.createdAt < sorted[0].createdAt {
      InsertByDateMembers(p, sorted[1..]);
      assert sorted == [sorted[0]] + sorted[1..];
    }
  }

  lemma {:induction false} InsertByDateSorts(p: Post, sorted: seq<Post>)
    requires NewestFirst(sorted)
    ensures NewestFirst(InsertByDate(p, sorted))
  {
    if sorted != [] && p.createdAt < sorted[0].createdAt {
      var head, rest := sorted[0], sorted[1..];
      InsertByDateSorts(p, rest);
      InsertByDateMembers(p, rest);
      var ins := InsertByDate(p, rest);
      assert InsertByDate(p, sorted) == [head] + ins;
      forall k | 0 <= k < |ins|
        ensures head.createdAt >= ins[k].createdAt
      {
        if ins[k] != p {
          assert ins[k] in rest;
          var m :| 0 <= m < |rest| && rest[m] == ins[k];
          assert sorted[m + 1] == ins[k];
        }
      }
    }
  }

  /** The sort returns a permutation of its input, newest first. */
  lemma {:induction false} SortNewestFirstSorts(posts: seq<Post>)
    ensures NewestFirst(SortNewestFirst(posts))
    ensures multiset(SortNewestFirst(posts)) == multiset(posts)
  {
    if posts != [] {
      SortNewestFirstSorts(posts[1..]);
      InsertByDateSorts(posts[0], SortNewestFirst(posts[1..]));
      InsertByDateMembers(posts[0], SortNewestFirst(posts[1..]));
      assert posts == [posts[0]] + posts[1..];
    }
  }

  /** The posts created at instant `t`. */
  function CreatedAtIs(t: Timestamp): Post -> bool
  {
    (p: Post) => p.createdAt == t
  }

  /**
   * Insertion is stable: among the posts created at any one instant, the
   * inserted post comes first, before those already in the list, and those
   * keep their order.
   */
  lemma {:induction false} InsertByDateIsStable(p: Post, sorted: seq<Post>, t: Timestamp)
    ensures Filter(InsertByDate(p, sorted), CreatedAtIs(t)) == Filter([p] + sorted, CreatedAtIs(t))
  {
    if sorted != [] && p.createdAt < sorted[0].createdAt {
      var head, rest := sorted[0], sorted[1..];
      assert InsertByDate(p, sorted) == [head] + InsertByDate(p, rest);
      assert sorted == [head] + rest;
      InsertByDateIsStable(p, rest, t);
      FilterConsCongruent(head, InsertByDate(p, rest), [p] + rest, CreatedAtIs(t));
      // `head` is strictly newer than `p`, so at most one of them is kept
      FilterSwap(head, p, rest, CreatedAtIs(t));
    }
  }

  /**
   * The sort is stable: the posts created at any one instant appear in the
   * result in the order they have in the input.
   */
  lemma {:induction false} SortNewestFirstIsStable(posts: seq<Post>, t: Timestamp)
    ensures Filter(SortNewestFirst(posts), CreatedAtIs(t)) == Filter(posts, CreatedAtIs(t))
  {
    if posts != [] {
      var head, rest := posts[0], posts[1..];
      SortNewestFirstIsStable(rest, t);
      InsertByDateIsStable(head, SortNewestFirst(rest), t);
      FilterCons(head, SortNewestFirst(rest), CreatedAtIs(t));
      FilterCons(head, rest, CreatedAtIs(t));
      assert posts == [head] + rest;
    }
  }

  /**
   * After `createPost` with a creation time no earlier than every stored
   * post's, the feed `getPosts` returns starts with the new post: it is the
   * newest, and among posts created at the same instant it was stored first.
   */
  lemma NewestPostComesFirst(p: Post, posts: seq<Post>)
    requires forall j :: 0 <= j < |posts| ==> posts[j].createdAt <= p.createdAt
    ensures |SortNewestFirst([p] + posts)| > 0 && SortNewestFirst([p] + posts)[0] == p
  {
    assert ([p] + posts)[1..] == posts;
    var sorted := SortNewestFirst(posts);
    if sorted != [] {
      SortNewestFirstSorts(posts);
      assert sorted[0] in multiset(posts);
    }
  }

  // ---------------------------------------------------------------------------
  // deletePost, on whole tables

  /**
   * The posts table after `deletePost(postId)` holds no post with that id, is
   * the table itself when no post had that id, and keeps the invariants of
   * like counts, order and embedded authors.
   */
  lemma DeleteKeepsInvariants(users: seq<User>, posts: seq<Post>, postId: string)
    ensures var kept := Filter(posts, PostIdIsNot(postId));
      && (forall j :: 0 <= j < |kept| ==> kept[j].id != postId)
      && ((forall j :: 0 <= j < |posts| ==> posts[j].id != postId) ==> kept == posts)
      && (LikesConsistent(posts) ==> LikesConsistent(kept))
      && (NewestFirst(posts) ==> NewestFirst(kept))
      && (AuthorsSynced(users, posts) ==> AuthorsSynced(users, kept))
  {
    var kept := Filter(posts, PostIdIsNot(postId));
    FilterSelects(posts, PostIdIsNot(postId));
    if forall j :: 0 <= j < |posts| ==> posts[j].id != postId {
      FilterKeepsAll(posts, PostIdIsNot(postId));
    }
    forall j | 0 <= j < |kept|
      ensures kept[j].id != postId
    {
      assert kept[j] in kept;
    }
  }

  // ---------------------------------------------------------------------------
  // toggleLike and updateProfile, on whole tables

  /** The toggle of one post: unlike and count one less, or like and count one more. */
  function Toggled(p: Post): Post
  {
    if p.isLikedByCurrentUser then p.(likes := p.likes - 1, isLikedByCurrentUser := false)
    else p.(likes := p.likes + 1, isLikedByCurrentUser := true)
  }

  /** The posts table after `toggleLike(postId)`: the first post with that id is toggled. */
  function ToggledAt(posts: seq<Post>, postId: string): seq<Post>
  {
    match FindFirst(posts, PostIdIs(postId))
    case None => posts
    case Some(i) => posts[i := Toggled(posts[i])]
  }

  /** `{ ...u, ...updates }`: every field present in the update replaces the old one. */
  function Merged(u: User, upd: UserUpdate): User
  {
    User(
      if upd.id.Some? then upd.id.value else u.id,
      if upd.name.Some? then upd.name.value else u.name,
      if upd.email.Some? then upd.email.value else u.email,
      if upd.avatar.Some? then upd.avatar.value else u.avatar,
      if upd.bio.Some? then upd.bio.value else u.bio,
      if upd.joinDate.Some? then upd.joinDate.value else u.joinDate,
      if upd.role.Some? then upd.role.value else u.role)
  }

  /** The posts table after a profile update: the posts of `userId` embed `u`. */
  function WithAuthor(posts: seq<Post>, userId: string, u: User): seq<Post>
  {
    seq(|posts|, j requires 0 <= j < |posts| =>
      if posts[j].userId == userId then posts[j].(user := u) else posts[j])
  }

  lemma WithAuthorKeepsLikes(posts: seq<Post>, userId: string, u: User)
    ensures |WithAuthor(posts, userId, u)| == |posts|
    ensures forall j :: 0 <= j < |posts| ==> WithAuthor(posts, userId, u)[j].likes == posts[j].likes
    ensures LikesConsistent(posts) ==> LikesConsistent(WithAuthor(posts, userId, u))
  {
  }

  /** A like only changes the count by one and the flag, and keeps the count consistent. */
  lemma ToggledChangesOnlyTheLike(p: Post)
    ensures Toggled(p).isLikedByCurrentUser == !p.isLikedByCurrentUser
    ensures Toggled(p).likes == p.likes + (if p.isLikedByCurrentUser then -1 else 1)
    ensures Toggled(p).(likes := p.likes, isLikedByCurrentUser := p.isLikedByCurrentUser) == p
    ensures LikeCountConsistent(p) ==> LikeCountConsistent(Toggled(p))
  {
  }

  /** Toggling a post twice gives back the post. */
  lemma ToggledTwice(p: Post)
    ensures Toggled(Toggled(p)) == p
  {
  }

  /** Calling `toggleLike` twice with the same id restores the posts table. */
  lemma {:induction false} ToggleLikeTwiceRestores(posts: seq<Post>, postId: string)
    ensures ToggledAt(ToggledAt(posts, postId), postId) == posts
  {
    match FindFirst(posts, PostIdIs(postId))
    case None =>
    case Some(i) =>
      var once := ToggledAt(posts, postId);
      assert forall j :: 0 <= j < |posts| ==> once[j].id == posts[j].id;
      assert FindFirst(once, PostIdIs(postId)) == Some(i);
      ToggledTwice(posts[i]);
      assert once[i := Toggled(once[i])] == posts;
  }

  /** A profile update that leaves the id as it is keeps every embedded author current. */
  lemma {:induction false} UpdateKeepsAuthorsSynced(users: seq<User>, posts: seq<Post>, k: nat, upd: UserUpdate)
    requires k < |users| && UserIdsUnique(users) && AuthorsSynced(users, posts)
    requires upd.id.None? || upd.id.value == users[k].id
    ensures AuthorsSynced(users[k := Merged(users[k], upd)], WithAuthor(posts, users[k].id, Merged(users[k], upd)))
  {
    var u := Merged(users[k], upd);
    var users', posts' := users[k := u], WithAuthor(posts, users[k].id, u);
    forall i, j | 0 <= i < |users'| && 0 <= j < |posts'| && users'[i].id == posts'[j].userId
      ensures posts'[j].user == users'[i]
    {
      if i != k {
        assert users'[i] == users[i];
        assert posts[j].userId == users[i].id;
      }
    }
  }

  /** A profile update keeps emails unique unless it brings in an email another user holds. */
  lemma UpdateKeepsEmailsUnique(users: seq<User>, k: nat, upd: UserUpdate)
    requires k < |users| && EmailsUnique(users)
    requires upd.email.None? || forall i :: 0 <= i < |users| && i != k ==> users[i].email != upd.email.value
    ensures EmailsUnique(users[k := Merged(users[k], upd)])
  {
  }

  /**
   * The invariants `updateProfile` keeps, on whole tables: like counts always;
   * embedded authors when user ids are unique and the id is not updated;
   * unique emails when the update brings no email.
   */
  lemma UpdateKeepsInvariants(users: seq<User>, posts: seq<Post>, k: nat, upd: UserUpdate)
    requires k < |users|
    ensures var u := Merged(users[k], upd);
      && (LikesConsistent(posts) ==> LikesConsistent(WithAuthor(posts, users[k].id, u)))
      && (UserIdsUnique(users) && AuthorsSynced(users, posts) && (upd.id.None? || upd.id.value == users[k].id) ==>
            AuthorsSynced(users[k := u], WithAuthor(posts, users[k].id, u)))
      && (EmailsUnique(users) && upd.email.None? ==> EmailsUnique(users[k := u]))
  {
    var u := Merged(users[k], upd);
    WithAuthorKeepsLikes(posts, users[k].id, u);
    if UserIdsUnique(users) && AuthorsSynced(users, posts) && (upd.id.None? || upd.id.value == users[k].id) {
      UpdateKeepsAuthorsSynced(users, posts, k, upd);
    }
    if EmailsUnique(users) && upd.email.None? {
      UpdateKeepsEmailsUnique(users, k, upd);
    }
  }

  // ---------------------------------------------------------------------------
  // The service

  class MockApi {
    /** The 'users' and 'posts' keys of the local store; None while the key is absent. */
    var usersSlot: Option<seq<User>>
    var postsSlot: Option<seq<Post>>
    /** The instant the module was loaded, from which the seed posts take their timestamps. */
    const loadTime: Timestamp

    constructor (storedUsers: Option<seq<User>>, storedPosts: Option<seq<Post>>, loadTime: Timestamp)
      ensures usersSlot == storedUsers && postsSlot == storedPosts && this.loadTime == loadTime
    {
      usersSlot, postsSlot := storedUsers, storedPosts;
      this.loadTime := loadTime;
    }

    /** `getStorage('users', SEED_USERS)`. */
    function Users(): seq<User>
      reads this
    {
      match usersSlot
      case Some(users) => users
      case None => SeedUsers()
    }

    /** `getStorage('posts', SEED_POSTS)`. */
    function Posts(): seq<Post>
      reads this
    {
      match postsSlot
      case Some(posts) => posts
      case None => SeedPosts(loadTime)
    }

    /** Succeeds with the first user with that email, whatever the password. */
    method Login(email: string, password: string) returns (r: Result<User>)
      ensures r.Ok? <==> HasEmail(Users(), email)
      ensures r.Ok? ==> exists i :: 0 <= i < |Users()| && r.value == Users()[i] && r.value.email == email &&
                          forall j :: 0 <= j < i ==> Users()[j].email != email
      ensures r.Err? ==> r.error == NotFound("Invalid credentials")
    {
      var users := Users();
      var found := FindFirst(users, EmailIs(email));
      if found.None? {
        return Err(NotFound("Invalid credentials"));
      }
      r := Ok(users[found.value]);
    }

    /** Fails on a taken email; otherwise appends a new user with role USER and the default avatar. */
    method Signup(name: string, email: string, password: string, id: string, now: Timestamp)
      returns (r: Result<User>)
      modifies this`usersSlot
      ensures old(HasEmail(Users(), email)) ==>
                r == Err(Conflict("User already exists")) && usersSlot == old(usersSlot)
      ensures !old(HasEmail(Users(), email)) ==>
                && r == Ok(User(id, name, email, Some(DefaultAvatar), None, now, USER))
                && usersSlot == Some(old(Users()) + [r.value])
      ensures EmailsUnique(old(Users())) ==> EmailsUnique(Users())
    {
      var users := Users();
      if FindFirst(users, EmailIs(email)).Some? {
        return Err(Conflict("User already exists"));
      }
      var newUser := User(id, name, email, Some(DefaultAvatar), None, now, USER);
      users := users + [newUser];
      usersSlot := Some(users);
      r := Ok(newUser);
    }

    /** All posts, newest first, by a stable sort; the store is not written. */
    method GetPosts() returns (r: seq<Post>)
      ensures r == SortNewestFirst(Posts())
      ensures multiset(r) == multiset(Posts())
      ensures NewestFirst(r)
      ensures forall t :: Filter(r, CreatedAtIs(t)) == Filter(Posts(), CreatedAtIs(t))
    {
      r := SortNewestFirst(Posts());
      SortNewestFirstSorts(Posts());
      forall t
        ensures Filter(r, CreatedAtIs(t)) == Filter(Posts(), CreatedAtIs(t))
      {
        SortNewestFirstIsStable(Posts(), t);
      }
    }

    /**
     * Builds a post from the draft, with defaults for what it leaves out, and
     * puts it first. The creation time `now` and the default event date
     * `eventNow` are two separate reads of the clock.
     */
    method CreatePost(draft: PostDraft, author: User, id: string, now: Timestamp, eventNow: Timestamp)
      returns (r: Post)
      modifies this`postsSlot
      ensures postsSlot == Some([r] + old(Posts()))
      ensures r.id == id && r.userId == author.id && r.user == author && r.createdAt == now
      ensures r.title == OrElse(draft.title, "Untitled")
      ensures r.description == OrElse(draft.description, "")
      ensures r.eventDate == Some(if draft.eventDate.Some? then draft.eventDate.value else eventNow)
      ensures r.attachments == (if draft.attachments.Some? then draft.attachments.value else [])
      ensures r.visibility == (if draft.visibility.Some? then draft.visibility.value else PUBLIC)
      ensures r.likes == 0 && r.comments == [] && !r.isLikedByCurrentUser
      ensures LikesConsistent(old(Posts())) ==> LikesConsistent(Posts())
      ensures NewestFirst(old(Posts())) && (forall j :: 0 <= j < |old(Posts())| ==> old(Posts())[j].createdAt <= now) ==>
                NewestFirst(Posts())
      ensures AuthorsSynced(Users(), old(Posts())) &&
              (forall i :: 0 <= i < |Users()| && Users()[i].id == author.id ==> Users()[i] == author) ==>
                AuthorsSynced(Users(), Posts())
    {
      var posts := Posts();
      var newPost := Post(
        id, author.id, author,
        OrElse(draft.title, "Untitled"),
        OrElse(draft.description, ""),
        now,
        Some(if draft.eventDate.Some? then draft.eventDate.value else eventNow),
        if draft.attachments.Some? then draft.attachments.value else [],
        if draft.visibility.Some? then draft.visibility.value else PUBLIC,
        0, [], false);
      posts := [newPost] + posts;
      postsSlot := Some(posts);
      r := newPost;
    }

    /** Drops every post with that id and keeps the rest in order; an unknown id is no error. */
    method DeletePost(postId: string)
      modifies this`postsSlot
      ensures postsSlot == Some(Filter(old(Posts()), PostIdIsNot(postId)))
      ensures forall j :: 0 <= j < |Posts()| ==> Posts()[j].id != postId
      ensures (forall j :: 0 <= j < |old(Posts())| ==> old(Posts())[j].id != postId) ==> Posts() == old(Posts())
      ensures LikesConsistent(old(Posts())) ==> LikesConsistent(Posts())
      ensures NewestFirst(old(Posts())) ==> NewestFirst(Posts())
      ensures AuthorsSynced(Users(), old(Posts())) ==> AuthorsSynced(Users(), Posts())
    {
      var posts := Posts();
      DeleteKeepsInvariants(Users(), posts, postId);
      var kept := Filter(posts, PostIdIsNot(postId));
      postsSlot := Some(kept);
      assert Posts() == kept;
    }

    /**
     * Fails on an unknown post id; otherwise flips the shared liked flag of the
     * first post with that id and moves its count by one. `userId` is not used.
     */
    method ToggleLike(postId: string, userId: string) returns (r: Result<Post>)
      modifies this`postsSlot
      ensures FindFirst(old(Posts()), PostIdIs(postId)).None? ==>
                r == Err(NotFound("Post not found")) && postsSlot == old(postsSlot)
      ensures FindFirst(old(Posts()), PostIdIs(postId)).Some? ==>
                var i := FindFirst(old(Posts()), PostIdIs(postId)).value;
                && r == Ok(Toggled(old(Posts())[i]))
                && postsSlot == Some(old(Posts())[i := r.value])
      ensures Posts() == ToggledAt(old(Posts()), postId)
      ensures LikesConsistent(old(Posts())) ==> LikesConsistent(Posts())
    {
      var posts := Posts();
      var found := FindFirst(posts, PostIdIs(postId));
      if found.None? {
        return Err(NotFound("Post not found"));
      }
      var i := found.value;
      var post := posts[i];
      ToggledChangesOnlyTheLike(post);
      if post.isLikedByCurrentUser {
        post := post.(likes := post.likes - 1);
        post := post.(isLikedByCurrentUser := false);
      } else {
        post := post.(likes := post.likes + 1);
        post := post.(isLikedByCurrentUser := true);
      }
      posts := posts[i := post];
      postsSlot := Some(posts);
      r := Ok(post);
    }

    /**
     * Fails on an unknown user id; otherwise merges the update into the first
     * user with that id and copies the new record into every post of `userId`.
     */
    method UpdateProfile(userId: string, updates: UserUpdate) returns (r: Result<User>)
      modifies this`usersSlot, this`postsSlot
      ensures FindFirst(old(Users()), UserIdIs(userId)).None? ==>
                && r == Err(NotFound("User not found"))
                && usersSlot == old(usersSlot) && postsSlot == old(postsSlot)
      ensures FindFirst(old(Users()), UserIdIs(userId)).Some? ==>
                var k := FindFirst(old(Users()), UserIdIs(userId)).value;
                && r == Ok(Merged(old(Users())[k], updates))
                && usersSlot == Some(old(Users())[k := r.value])
                && postsSlot == Some(WithAuthor(old(Posts()), userId, r.value))
                && |Posts()| == |old(Posts())|
                && (forall j :: 0 <= j < |Posts()| ==>
                      Posts()[j] == if old(Posts())[j].userId == userId then old(Posts())[j].(user := r.value)
                                    else old(Posts())[j])
      ensures LikesConsistent(old(Posts())) ==> LikesConsistent(Posts())
      ensures UserIdsUnique(old(Users())) && AuthorsSynced(old(Users()), old(Posts())) &&
              (updates.id.None? || updates.id.value == userId) ==>
                AuthorsSynced(Users(), Posts())
      ensures EmailsUnique(old(Users())) && updates.email.None? ==> EmailsUnique(Users())
    {
      var users := Users();
      var found := FindFirst(users, UserIdIs(userId));
      if found.None? {
        return Err(NotFound("User not found"));
      }
      var k := found.value;
      var updatedUser := Merged(users[k], updates);
      assert users[k].id == userId;
      var posts := Posts();
      UpdateKeepsInvariants(users, posts, k, updates);
      usersSlot := Some(users[k := updatedUser]);
      postsSlot := Some(WithAuthor(posts, userId, updatedUser));
      r := Ok(updatedUser);
    }
  }
}
