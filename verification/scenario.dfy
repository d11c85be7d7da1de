/**
 * Clients of the service: Alice signs up on a fresh store and signs in with
 * any password; then she posts "Hi" and sees it first in the feed; and she likes
 * and unlikes a post of hers. Every assertion follows from the operations' contracts.
 */
module Scenario {
  import opened Types
  import opened Seqs
  import opened Service

  lemma OnlyTheNewUserHasTheEmail(u: User)
    requires u.email == "alice@x.com"
    ensures !HasEmail(SeedUsers(), u.email)
    ensures forall i :: 0 <= i < |SeedUsers() + [u]| ==> ((SeedUsers() + [u])[i].email == u.email <==> i == 2)
  {
    var users := SeedUsers() + [u];
    assert users[0].email == "jane@example.com" && users[1].email == "john@example.com";
  }

  method AliceSignsUpAndLogsIn(loadTime: Timestamp, now: Timestamp)
  {
    var api := new MockApi(None, None, loadTime);
    OnlyTheNewUserHasTheEmail(User("u-alice", "Alice", "alice@x.com", Some(DefaultAvatar), None, now, USER));
    var alice := api.Signup("Alice", "alice@x.com", "pw", "u-alice", now);
    assert alice.Ok?;
    assert api.Users() == SeedUsers() + [alice.value];
    assert api.Users()[2].email == "alice@x.com";
    var again := api.Login("alice@x.com", "anything");
    assert again.Ok? && again.value == alice.value;
  }

  method AlicePostsAndSeesItFirst(alice: User, loadTime: Timestamp, now: Timestamp)
    requires loadTime <= now
  {
    var api := new MockApi(None, None, loadTime);
    var draft := PostDraft(Some("Hi"), Some("there"), None, None, None);
    var post := api.CreatePost(draft, alice, "p-hi", now, now + 1);
    assert post.title == "Hi" && post.likes == 0 && post.eventDate == Some(now + 1);

    var seed := SeedPosts(loadTime);
    assert api.Posts() == [post] + seed;
    assert seed[0].createdAt <= now && seed[1].createdAt <= now;
    NewestPostComesFirst(post, seed);
    var feed := api.GetPosts();
    assert feed[0].title == "Hi";
  }

  method AliceLikesAndUnlikes(alice: User, loadTime: Timestamp, now: Timestamp)
  {
    var api := new MockApi(None, None, loadTime);
    var draft := PostDraft(Some("Hi"), Some("there"), None, None, None);
    var post := api.CreatePost(draft, alice, "p-hi", now, now);

    ghost var beforeLike := api.Posts();
    assert FindFirst(beforeLike, PostIdIs("p-hi")) == Some(0) by {
      assert PostIdIs("p-hi")(beforeLike[0]);
    }
    var liked := api.ToggleLike(post.id, alice.id);
    assert liked == Ok(post.(likes := 1, isLikedByCurrentUser := true));

    ghost var afterLike := api.Posts();
    assert FindFirst(afterLike, PostIdIs("p-hi")) == Some(0) by {
      assert PostIdIs("p-hi")(afterLike[0]);
    }
    var unliked := api.ToggleLike(post.id, alice.id);
    assert unliked == Ok(post);
  }
}
