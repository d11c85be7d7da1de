# SocialPulse client state, modelled in Dafny

SocialPulse is a social-feed web client. Users sign up and sign in, publish
posts with attachments, search and like posts in a feed, and edit their
profile. The client has no server. Its "backend" is the `mockApi` service,
which keeps two tables, `users` and `posts`, under two keys of the browser's
local store. Each operation reads the tables it needs whole (the seed data
when a key is absent). Each writing operation that succeeds stores the tables
it changed whole again: `signup`, `createPost`, `deletePost` and `toggleLike`
store one table, and `updateProfile` stores both. `login`, `getPosts` and
every failure store nothing.

This project models that service and the three pieces of client state built
on it:

- `types.dfy` (module `Types`): the records of `types.ts` (User, Attachment,
  Comment, Post and their enums) and the default avatar of `constants.ts`.
  Thrown errors become a `Result` whose `ApiError` is `NotFound` ("Invalid
  credentials", "Post not found", "User not found") or `Conflict` ("User
  already exists"). `Partial<User>` and `Partial<Post>` become `UserUpdate`
  and `PostDraft`.
- `seqs.dfy` (module `Seqs`): the array methods the code relies on.
  `FindFirst` models `find`/`findIndex` and `Filter` models `filter`. Lemmas
  say exactly which elements a filter keeps, and in which order.
- `service.dfy` (module `Service`): class `MockApi`, which holds one field per
  store key (`None` while the key is absent). It has the seed data and the
  seven operations. It also states the table invariants and proves them:
  unique emails, consistent like counts, embedded authors kept current, and
  newest-first order.
- `auth.dfy` (module `Auth`): class `AuthProvider`. It holds the session: the
  current user, the loading flag and the persisted-session key.
- `feed.dfy` (module `Feed`): class `Dashboard`. It covers the feed page's
  post list, the search filter, the optimistic like and the local delete.
- `create_post.dfy` (module `CreatePost`): class `CreatePostModal`. It covers
  the post editor's form state, classifying attachments by MIME type, and the
  submit guard and reset.
- `scenario.dfy` (module `Scenario`): three client methods. In the first, a
  user signs up and signs in with another password. In the second, a user
  posts and sees the post first in the feed. In the third, a user likes and
  unlikes a post. All of it follows from the contracts.

Timestamps are integers (milliseconds, what `Date.getTime` yields). The
following are parameters of the operations rather than computed:

- the current time and the time the module was loaded (`createPost` reads
  the clock twice, for the creation time and for the default event date, and
  takes two parameters for them);
- new user, post and attachment ids;
- the lower-casing function;
- object URLs;
- date parsing;
- the answer to the delete confirmation;
- the outcome of the editor's `onSubmit` callback.

`Post.eventDate` is declared optional (types.ts:51), but `createPost` always
sets it, to a fresh reading of the clock when the draft has none
(services/mockApi.ts:127). The model follows the code.

## Model

| member | source | states |
|---|---|---|
| `Seqs.FindFirst` | services/mockApi.ts:85 | the result is the first position whose element passes the test, and it is None exactly when no element passes (`find`, `findIndex`) |
| `Seqs.Filter` | services/mockApi.ts:143 | every element of the result comes from the input and passes the test, and the result is no longer than the input |
| `Seqs.FilterSelects` | pages/Dashboard.tsx:42-46 | a filter's result is the order-preserving subsequence of the input made of exactly the elements that pass the test: the k-th result element is the input element at the k-th kept position, and a position is kept iff its element passes |
| `Seqs.FilterKeepsAll` | services/mockApi.ts:143 | a filter that every element passes returns its input unchanged |
| `Service.SeedIsConsistent` | services/mockApi.ts:19-75 | the seed data has unique emails and ids, consistent like counts (12 not liked, 5 liked) and authors that match the seed users, and it is already newest first |
| `Service.InsertByDateMembers` | services/mockApi.ts:113 | inserting into the sort adds exactly the inserted post to the multiset of posts |
| `Service.InsertByDateSorts` | services/mockApi.ts:113 | inserting into a newest-first list keeps it newest first |
| `Service.SortNewestFirstSorts` | services/mockApi.ts:113 | the sort by `createdAt` descending returns a permutation of its input ordered newest first |
| `Service.InsertByDateIsStable` | services/mockApi.ts:113 | among the posts created at any one instant, insertion puts the inserted post first and keeps the order of the others |
| `Service.SortNewestFirstIsStable` | services/mockApi.ts:113 | the sort is stable: the posts created at any one instant keep their input order |
| `Service.NewestPostComesFirst` | services/mockApi.ts:110-137 | when a created post is no older than every stored post, the feed `getPosts` returns starts with it (a tie goes to the new post, which the stable sort keeps in front) |
| `Service.ToggledChangesOnlyTheLike` | services/mockApi.ts:157-163 | a toggle flips the liked flag, moves the count by -1 (was liked) or +1 (was not), changes nothing else, and keeps "likes >= 0 and liked implies likes >= 1" |
| `Service.ToggledTwice` | services/mockApi.ts:157-163 | toggling one post twice gives back the post |
| `Service.ToggleLikeTwiceRestores` | services/mockApi.ts:147-168 | two `toggleLike` calls with the same id give back the original posts table |
| `Service.WithAuthorKeepsLikes` | services/mockApi.ts:183-188 | copying the new user record into the posts keeps the table's length and every like count |
| `Service.UpdateKeepsAuthorsSynced` | services/mockApi.ts:177-189 | when user ids are unique and the update carries no id or the user's own id, every post keeps embedding its author's current record after the profile update |
| `Service.UpdateKeepsEmailsUnique` | services/mockApi.ts:177-178 | a profile update keeps emails unique unless it brings in an email that another user holds |
| `Service.UpdateKeepsInvariants` | services/mockApi.ts:171-192 | on whole tables, a profile update keeps like counts consistent; it keeps embedded authors current when user ids are unique and the update carries no id or the user's own id; and it keeps emails unique when the update brings no email |
| `Service.DeleteKeepsInvariants` | services/mockApi.ts:140-145 | the table left by a delete holds no post with the id, is the old table when no post had the id, and keeps like counts consistent, newest-first order and embedded authors current |
| `Service.MockApi.constructor` | services/mockApi.ts:8-11 | the store starts from what the two keys hold; an absent key reads as the seed data |
| `Service.MockApi.Login` | services/mockApi.ts:81-88 | succeeds iff some user has the email, and then returns the first such user, whatever the password; otherwise fails with NotFound("Invalid credentials") |
| `Service.MockApi.Signup` | services/mockApi.ts:90-107 | fails with Conflict and leaves the users table unchanged when the email is taken; otherwise it appends exactly one user at the end, with role USER, the default avatar and no bio, and earlier users are unchanged; email uniqueness is preserved |
| `Service.MockApi.GetPosts` | services/mockApi.ts:110-114 | returns the stable sort of the stored posts: a permutation ordered by `createdAt` non-increasing, in which the posts created at any one instant keep their stored order; writes nothing |
| `Service.MockApi.CreatePost` | services/mockApi.ts:116-138 | prepends exactly one post, and the old posts follow unchanged. The new post has the author's id and record, likes 0, no comments and is not liked. It takes "Untitled", "", [] and PUBLIC when the title (or an empty title), the description, the attachments or the visibility is not supplied. Its event date is the draft's, or the second clock reading when the draft has none. Consistent like counts are preserved, and so is newest-first order when the post is the newest |
| `Service.MockApi.DeletePost` | services/mockApi.ts:140-145 | removes every post with the id and keeps the rest in order; an absent id leaves the posts unchanged and is no error; like counts, order and embedded authors stay consistent |
| `Service.MockApi.ToggleLike` | services/mockApi.ts:147-168 | fails with NotFound on an unknown id and writes nothing; otherwise it toggles the first post with that id (flag flipped, count moved by one) and leaves every other post unchanged; `userId` plays no part; consistent like counts are preserved |
| `Service.MockApi.UpdateProfile` | services/mockApi.ts:171-192 | fails with NotFound on an unknown user id and writes nothing. Otherwise the first user with that id becomes the old record overridden by exactly the supplied fields, and other users are unchanged. Every post of that user id embeds the new record, other posts are untouched, and the count and order of posts are preserved. Like counts stay consistent, and so do embedded authors and unique emails under the stated conditions |
| `Auth.AuthProvider.constructor` | context/AuthContext.tsx:15-17 | the session starts with no user and loading |
| `Auth.AuthProvider.Init` | context/AuthContext.tsx:19-26 | takes the persisted session when there is one, keeps the user otherwise, and ends loading (nothing sets loading back to true); from the initial state the in-memory user and the persisted session agree afterwards |
| `Auth.AuthProvider.Login` | context/AuthContext.tsx:28-31 | the user becomes the given record, the same record is persisted, and the session is authenticated |
| `Auth.AuthProvider.Logout` | context/AuthContext.tsx:33-36 | the user and the persisted session are both absent, and the session is not authenticated |
| `Auth.AuthProvider.UpdateUser` | context/AuthContext.tsx:38-41 | the user becomes the given record and the same record is persisted |
| `Feed.IncludesIffSomePosition` | pages/Dashboard.tsx:43-45 | `includes` holds iff the query occurs in the text at some position |
| `Feed.SearchSelects` | pages/Dashboard.tsx:41-47 | the search result is the order-preserving subsequence of the posts holding exactly those whose lower-cased title, description or author name contains the lower-cased query |
| `Feed.EmptyQueryKeepsAll` | pages/Dashboard.tsx:41-47 | a query that lower-cases to the empty string keeps every post |
| `Feed.OptimisticLikeMatchesToggle` | pages/Dashboard.tsx:53-58 | the optimistic like computes the same count and flag for a post as the service's toggle |
| `Feed.LikeLocallyMatchesService` | pages/Dashboard.tsx:52-61 | on a list with unique ids, the optimistic update of the list equals the service's `toggleLike` on the same list |
| `Feed.Dashboard.constructor` | pages/Dashboard.tsx:15-19 | the page starts with no posts, an empty query and loading |
| `Feed.Dashboard.LoadPosts` | pages/Dashboard.tsx:23-34 | after loading, `posts` and `filteredPosts` both equal the fetched list, which is the stable newest-first sort of the stored posts (a permutation of them), and loading is over |
| `Feed.Dashboard.SetSearchQuery` | pages/Dashboard.tsx:92 | the query becomes the typed text |
| `Feed.Dashboard.RefreshFilter` | pages/Dashboard.tsx:40-48 | `filteredPosts` becomes the search result: no longer than `posts`, every element a matching post, and every matching post kept |
| `Feed.Dashboard.HandleLike` | pages/Dashboard.tsx:50-70 | only posts with the id change: flag flipped, count one less if it was liked and one more otherwise; length and order are kept; when someone is signed in the service toggles the same post, otherwise the store is untouched |
| `Feed.Dashboard.HandleDelete` | pages/Dashboard.tsx:72-77 | without confirmation nothing changes; with it, the service deletes the post and the local list loses every post with that id, the rest in order |
| `CreatePost.AttachmentKind` | components/CreatePostModal.tsx:28-30 | IMAGE iff the MIME type starts with "image/", VIDEO iff it starts with "video/", PDF iff neither |
| `CreatePost.CreatePostModal.constructor` | components/CreatePostModal.tsx:15-20 | the form starts empty, PUBLIC, with no attachments and not loading |
| `CreatePost.CreatePostModal.HandleFileChange` | components/CreatePostModal.tsx:25-41 | appends one attachment per file, in file order, after the existing attachments, which are unchanged; each new attachment has its file's name and the kind of its MIME type; no file list, no change |
| `CreatePost.CreatePostModal.RemoveAttachment` | components/CreatePostModal.tsx:43-45 | drops every attachment with the id and keeps the others, in order |
| `CreatePost.CreatePostModal.HandleSubmit` | components/CreatePostModal.tsx:47-72 | does nothing exactly when the title or the description is empty, the case in which the submit button is disabled. Otherwise it sends the title, description, visibility, attachments and an event date that is absent when the date field is empty. On success the title, description, date and attachments are reset and the modal closes, while the visibility keeps its value. On failure nothing is reset. Loading is off afterwards in both outcomes |

## Left out

- Simulated latency (`delay`, `MOCK_DELAY`, the 300 ms of `toggleLike`): it is timing only.
- Local storage and JSON: each store key is a field holding the value it would hold, and JSON is taken to round-trip records. Malformed stored JSON, which would make `getStorage` throw, is not modelled, so `getPosts` cannot fail here. For the same reason the error branch of the feed's `loadPosts` is not modelled.
- Aliasing of the seed arrays: when a key is absent, `getStorage` hands out the seed array itself. `getPosts` sorts that array in place, and the writing operations change it before they store it. The model treats the seed as a value. This is unobservable, because the seed is already newest first (`Service.SeedIsConsistent`) and every write stores the table.
- Clocks, random ids, `URL.createObjectURL`, `window.confirm`, `toLowerCase` and date parsing are parameters. Freshness of ids is not modelled or proved, and neither is Unicode case mapping. An unparsable date string, which would throw inside the editor's submit, is not modelled.
- Date formatting (`date-fns`) and ISO strings: timestamps are integers.
- Clock readings in the seed data: the source reads the clock separately for each seed timestamp (services/mockApi.ts:47-48, 63-64, 71). The model takes all of them as one instant, the module's load time. So the seed posts' event dates and the seed comment's date equal that instant exactly, where the source may differ by a millisecond.
- Service.MockApi.UpdateProfile: keeps emails unique only when the update brings no email, because the source does not check emails on a profile update. It keeps embedded authors current only when user ids are unique and the update carries no id or the user's own id, because ids are not guaranteed unique and an update may change the id.
- React effect scheduling: `Feed.Dashboard.RefreshFilter` is the body of the search effect, and the framework runs it after `posts` or the query change. Re-render batching and the intermediate `isLoading = true` states are not modelled.
- Concurrency between tabs (last write wins) and the asynchronous interleaving of calls: each operation is modelled as one atomic step.
- The editor's input handlers (title, description, date and visibility `onChange`) are plain field assignments and are not separate methods. The `if (!isOpen) return null` guard is rendering.
- `useAuth`'s error outside a provider, the view mode of the feed and all rendering: these are presentation and framework concerns.
- Presentational and routing files (`PostCard`, `PostListRow`, `Sidebar`, `App`) and the thin forms `Profile` and `Signup`: they are not part of this model.
- JavaScript numbers are doubles. Like counts are unbounded integers here, since they never approach 2^53.
