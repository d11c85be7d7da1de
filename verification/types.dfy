/**
 * The records of the SocialPulse client (types.ts) and its constants
 * (constants.ts), plus the error and result values the data service uses
 * in place of thrown exceptions.
 */
module Types {

  datatype Option<+T> = None | Some(value: T)

  /** Milliseconds since the epoch, the value `Date.getTime` gives for an ISO timestamp. */
  type Timestamp = int

  datatype UserRole = USER | ADMIN

  datatype Visibility = PUBLIC | FRIENDS | PRIVATE

  datatype AttachmentType = IMAGE | VIDEO | PDF

  /** Optional fields (`avatar?`, `bio?`) are `Option`s. */
  datatype User = User(
    id: string,
    name: string,
    email: string,
    avatar: Option<string>,
    bio: Option<string>,
    joinDate: Timestamp,
    role: UserRole)

  /** The source's `type` field is called `kind` here, `type` being a keyword. */
  datatype Attachment = Attachment(
    id: string,
    kind: AttachmentType,
    url: string,
    filename: string)

  datatype Comment = Comment(
    id: string,
    userId: string,
    userName: string,
    userAvatar: Option<string>,
    content: string,
    createdAt: Timestamp)

  /**
   * A post embeds a copy of its author (`user`). The optional flag
   * `isLikedByCurrentUser?` is a plain boolean: every reader tests it for
   * truthiness, so an absent flag behaves exactly as `false`.
   */
  datatype Post = Post(
    id: string,
    userId: string,
    user: User,
    title: string,
    description: string,
    createdAt: Timestamp,
    eventDate: Option<Timestamp>,
    attachments: seq<Attachment>,
    visibility: Visibility,
    likes: int,
    comments: seq<Comment>,
    isLikedByCurrentUser: bool)

  /**
   * A `Partial<User>` as `updateProfile` receives it: `None` is a key that is
   * not present. For the optional fields, `Some(None)` is a key present with
   * the value `undefined`, which the object spread copies over the old value.
   */
  datatype UserUpdate = UserUpdate(
    id: Option<string>,
    name: Option<string>,
    email: Option<string>,
    avatar: Option<Option<string>>,
    bio: Option<Option<string>>,
    joinDate: Option<Timestamp>,
    role: Option<UserRole>)

  /** The fields of a `Partial<Post>` that `createPost` reads. */
  datatype PostDraft = PostDraft(
    title: Option<string>,
    description: Option<string>,
    eventDate: Option<Timestamp>,
    attachments: Option<seq<Attachment>>,
    visibility: Option<Visibility>)

  const DefaultAvatar: string := "https://picsum.photos/id/64/200/200"

  /** The service's thrown errors: "Invalid credentials", "Post not found" and "User not found" are NotFound; "User already exists" is Conflict. */
  datatype ApiError = NotFound(message: string) | Conflict(message: string)

  datatype Result<+T> = Ok(value: T) | Err(error: ApiError)

  /** JavaScript's `s || d` on an optional string: the empty string is falsy too. */
  function OrElse(s: Option<string>, d: string): string
  {
    match s
    case Some(v) => if v != [] then v else d
    case None => d
  }
}
