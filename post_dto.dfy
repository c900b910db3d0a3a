/**
 * The post DTOs (backend/src/dtos/post.dto.ts): the constraints on create
 * and update requests, and `PostResponseDto.fromDocument`, which shapes a
 * stored post for the client.
 */
module PostDto {
  import opened Wrappers
  import opened Constraints
  import opened PostModel

  /** A create request body: `CreatePostDto`. */
  datatype CreatePostBody = CreatePostBody(content: Value, imageUrl: Value)

  /** An update request body: `UpdatePostDto`. */
  datatype UpdatePostBody = UpdatePostBody(content: Value, imageUrl: Value)

  /**
   * A validated create request as the service receives it. The transform
   * keeps properties the class does not declare; `user` stands for such a
   * stray property, which the service overrides.
   */
  datatype CreatePostDto = CreatePostDto(content: string, imageUrl: Option<string>, user: Option<UserId>)

  /** The author as the client sees it. */
  datatype UserSummary = UserSummary(id: string, username: string)

  /** `PostResponseDto`. */
  datatype PostResponse = PostResponse(
    id: PostId,
    content: string,
    imageUrl: Option<string>,
    likes: seq<string>,
    user: UserSummary,
    createdAt: int)

  const UnknownUsername := "Unknown"

  function CreatePostErrors(b: CreatePostBody): seq<ValidationError> {
    PropertyErrors("content", b.content, false, [IsString, MaxLength(1000)]) +
    PropertyErrors("imageUrl", b.imageUrl, true, [IsString])
  }

  /** Content is a string of at most 1000 characters, possibly empty; an image URL, when given, is a string. */
  predicate ValidCreatePost(b: CreatePostBody) {
    b.content.Str? && ValidatorLength(b.content.s) <= 1000 &&
    (b.imageUrl.Undefined? || b.imageUrl.Null? || b.imageUrl.Str?)
  }

  function UpdatePostErrors(b: UpdatePostBody): seq<ValidationError> {
    PropertyErrors("content", b.content, true, [IsString, MaxLength(1000)]) +
    PropertyErrors("imageUrl", b.imageUrl, true, [IsString])
  }

  /** Every field may be left out; content, when given, is a string of at most 1000 characters. */
  predicate ValidUpdatePost(b: UpdatePostBody) {
    (b.content.Undefined? || b.content.Null? || (b.content.Str? && ValidatorLength(b.content.s) <= 1000)) &&
    (b.imageUrl.Undefined? || b.imageUrl.Null? || b.imageUrl.Str?)
  }

  /** `validate` reports nothing for a create body exactly when it is valid. */
  lemma CreatePostAcceptedIff(b: CreatePostBody)
    ensures CreatePostErrors(b) == [] <==> ValidCreatePost(b)
  {
    assert PropertyErrors("content", b.content, false, [IsString, MaxLength(1000)]) == [] <==>
      Holds(IsString, b.content) && Holds(MaxLength(1000), b.content);
    assert PropertyErrors("imageUrl", b.imageUrl, true, [IsString]) == [] <==>
      Skipped(true, b.imageUrl) || Holds(IsString, b.imageUrl);
  }

  /** The create DTO does not reject empty content, and an image URL may be left out. */
  lemma EmptyContentAccepted()
    ensures CreatePostErrors(CreatePostBody(Str(""), Undefined)) == []
  {
    CreatePostAcceptedIff(CreatePostBody(Str(""), Undefined));
  }

  /** A trailing presentation selector does not count towards the content limit. */
  lemma SelectorDoesNotLengthenContent(content: string)
    requires ValidatorLength(content) <= 1000
    ensures CreatePostErrors(CreatePostBody(Str(content + ['\U{FE0F}']), Undefined)) == []
  {
    ValidatorLengthAppendSelector(content, '\U{FE0F}');
    CreatePostAcceptedIff(CreatePostBody(Str(content + ['\U{FE0F}']), Undefined));
  }

  /** `validate` reports nothing for an update body exactly when it is valid. */
  lemma UpdatePostAcceptedIff(b: UpdatePostBody)
    ensures UpdatePostErrors(b) == [] <==> ValidUpdatePost(b)
  {
    assert PropertyErrors("content", b.content, true, [IsString, MaxLength(1000)]) == [] <==>
      Skipped(true, b.content) || (Holds(IsString, b.content) && Holds(MaxLength(1000), b.content));
    assert PropertyErrors("imageUrl", b.imageUrl, true, [IsString]) == [] <==>
      Skipped(true, b.imageUrl) || Holds(IsString, b.imageUrl);
  }

  /** A populated username, or "Unknown" when it is missing or empty. */
  function DisplayName(username: Option<string>): (name: string)
    ensures name != ""
    ensures name == UnknownUsername <==> username in {None, Some(""), Some(UnknownUsername)}
    ensures name != UnknownUsername ==> username == Some(name)
  {
    if username.Some? && username.value != "" then username.value else UnknownUsername
  }

  /**
   * `PostResponseDto.fromDocument`. The type test on `document.user` holds
   * for both an id and a populated user, so the branch is decided by
   * whether a populated user is passed; without one, `document.user` must
   * be a bare id for its string form to be the author's id.
   */
  function FromDocument(document: PostDocument, populatedUser: Option<UserDoc>): (dto: PostResponse)
    requires populatedUser.None? ==> document.user.AuthorId?
    ensures dto.id == document.post.id && dto.content == document.post.content
    ensures dto.imageUrl == document.post.imageUrl && dto.createdAt == document.post.createdAt
    ensures |dto.likes| == |document.post.likes|
    ensures forall i :: 0 <= i < |dto.likes| ==> dto.likes[i] == document.post.likes[i]
    ensures populatedUser.Some? ==>
      dto.user.id == populatedUser.value.id &&
      (dto.user.username == UnknownUsername <==>
         populatedUser.value.username in {None, Some(""), Some(UnknownUsername)}) &&
      (dto.user.username != UnknownUsername ==> populatedUser.value.username == Some(dto.user.username)) &&
      dto.user.username == DisplayName(populatedUser.value.username)
    ensures populatedUser.None? ==> dto.user == UserSummary(document.user.id, UnknownUsername)
  {
    var user :=
      if populatedUser.Some? then UserSummary(populatedUser.value.id, DisplayName(populatedUser.value.username))
      else UserSummary(document.user.id, UnknownUsername);
    PostResponse(document.post.id, document.post.content, document.post.imageUrl,
      seq(|document.post.likes|, i requires 0 <= i < |document.post.likes| => document.post.likes[i]),
      user, document.post.createdAt)
  }
}
