/**
 * `PostService` (backend/src/services/post.service.ts): pagination over the
 * store's query, the "Post not found" errors, and the mapping of every
 * stored post through `fromDocument`.
 */
module PostService {
  import opened Wrappers
  import opened PostModel
  import opened PostDto

  /** The errors the service throws: its own "Post not found", and the store's rejection of empty content. */
  datatype ServiceError = PostNotFound | Rejected(reason: StoreError)

  /** The page handed to the controller. */
  datatype PostsPage = PostsPage(posts: seq<PostResponse>, total: nat, hasMore: bool)

  /** The documents of one query, each mapped through `fromDocument` with its populated author. */
  function ToResponses(docs: seq<PostDocument>): (dtos: seq<PostResponse>)
    requires forall d :: d in docs ==> d.user.Populated?
    ensures |dtos| == |docs|
    ensures forall i :: 0 <= i < |docs| ==> dtos[i] == FromDocument(docs[i], Some(docs[i].user.author))
  {
    seq(|docs|, i requires 0 <= i < |docs| => FromDocument(docs[i], Some(docs[i].user.author)))
  }

  /**
   * `getPostsByUserId`: skip the first `(page - 1) * limit` posts of the
   * user, newest first, and report whether any post lies beyond the page.
   */
  function GetPostsByUserId(store: PostCollection, userId: UserId, page: int, limit: int, directory: Directory): (r: PostsPage)
    reads store
    requires page >= 1 && limit >= 0 && store.AuthorsKnown(directory)
    ensures var found := store.GetPostsByUserId(userId, (page - 1) * limit, limit, directory);
      r.total == found.total && r.posts == ToResponses(found.posts) &&
      r.hasMore == (r.total > (page - 1) * limit + |r.posts|)
    ensures forall i :: 0 <= i < |r.posts| ==>
      userId in directory && r.posts[i].user == UserSummary(userId, DisplayName(directory[userId]))
  {
    var skip := (page - 1) * limit;
    var found := store.GetPostsByUserId(userId, skip, limit, directory);
    var posts := ToResponses(found.posts);
    assert forall i :: 0 <= i < |posts| ==> posts[i].user == UserSummary(userId, DisplayName(directory[userId])) by {
      forall i | 0 <= i < |posts| ensures posts[i].user == UserSummary(userId, DisplayName(directory[userId])) {
        assert found.posts[i] in found.posts;
      }
    }
    PostsPage(posts, found.total, found.total > skip + |posts|)
  }

  /** The store's page holds every matching post from `skip` on, capped by a non-zero limit. */
  lemma PageSize(store: PostCollection, userId: UserId, skip: nat, limit: nat, directory: Directory)
    requires store.AuthorsKnown(directory)
    ensures var found := store.GetPostsByUserId(userId, skip, limit, directory);
      var rest := if skip <= found.total then found.total - skip else 0;
      |found.posts| == if limit == 0 || rest <= limit then rest else limit
  {
    var found := store.GetPostsByUserId(userId, skip, limit, directory);
    var sorted :| NewestFirst(sorted) && multiset(sorted) == multiset(ByUser(store.posts, userId)) &&
      PostsOf(found.posts) == Window(sorted, skip, limit);
    assert |sorted| == found.total by {
      assert |multiset(sorted)| == |multiset(ByUser(store.posts, userId))|;
    }
    WindowLength(sorted, skip, limit);
  }

  /**
   * With `skip = (page - 1) * limit`, `hasMore` says that posts lie beyond
   * page `page`: `total > page * limit`. A limit of 0 sets no limit, so then
   * every post is on the page and `hasMore` is false.
   */
  lemma HasMoreBeyondPage(store: PostCollection, userId: UserId, page: int, limit: int, directory: Directory)
    requires page >= 1 && limit >= 0 && store.AuthorsKnown(directory)
    ensures var r := GetPostsByUserId(store, userId, page, limit, directory);
      (limit > 0 ==> (r.hasMore <==> r.total > page * limit)) &&
      (limit == 0 ==> !r.hasMore && |r.posts| == r.total)
  {
    var skip := (page - 1) * limit;
    var found := store.GetPostsByUserId(userId, skip, limit, directory);
    var r := GetPostsByUserId(store, userId, page, limit, directory);
    PageSize(store, userId, skip, limit, directory);
    assert r.total == found.total && |r.posts| == |found.posts|;
    assert r.hasMore == (found.total > skip + |found.posts|);
    NextPageStart(page, limit);
  }

  /** The start of the next page, the one nonlinear step of `HasMoreBeyondPage`. */
  lemma NextPageStart(page: int, limit: int)
    ensures (page - 1) * limit + limit == page * limit
  {
  }

  /** A user without posts gets an empty page, a total of 0 and no more pages. */
  lemma NoPostsEmptyPage(store: PostCollection, userId: UserId, page: int, limit: int, directory: Directory)
    requires page >= 1 && limit >= 0 && store.AuthorsKnown(directory)
    requires forall i :: 0 <= i < |store.posts| ==> store.posts[i].user != userId
    ensures GetPostsByUserId(store, userId, page, limit, directory) == PostsPage([], 0, false)
  {
    var matches := ByUser(store.posts, userId);
    var found := store.GetPostsByUserId(userId, (page - 1) * limit, limit, directory);
    var sorted :| NewestFirst(sorted) && multiset(sorted) == multiset(matches) &&
      PostsOf(found.posts) == Window(sorted, (page - 1) * limit, limit);
    assert |sorted| == 0 by {
      assert |multiset(sorted)| == |multiset(matches)|;
    }
    assert |found.posts| == 0 && found.total == 0;
    assert ToResponses(found.posts) == [];
  }

  /** `getPostById`: the post without populate, so the author's name is always "Unknown"; a missing id throws. */
  function GetPostById(store: PostCollection, postId: PostId): (r: Result<PostResponse, ServiceError>)
    reads store
    ensures r.Failure? <==> postId !in Ids(store.posts)
    ensures r.Failure? ==> r.error == PostNotFound
    ensures r.Success? ==>
      var p := store.FindById(postId).value;
      r.value.id == postId && r.value.content == p.content && r.value.imageUrl == p.imageUrl &&
      r.value.likes == p.likes && r.value.createdAt == p.createdAt &&
      r.value.user == UserSummary(p.user, UnknownUsername)
  {
    match store.FindById(postId)
    case None => Failure(PostNotFound)
    case Some(p) => Success(FromDocument(PostDocument(p, AuthorId(p.user)), None))
  }

  /**
   * `createPost`: the author is the caller, whatever `user` the request
   * carried; the store assigns the id and the creation time. The store's
   * rejection of empty content propagates and nothing is stored.
   */
  method CreatePost(store: PostCollection, userId: UserId, data: CreatePostDto, id: PostId, createdAt: int, directory: Directory)
    returns (r: Result<PostResponse, ServiceError>)
    requires store.Valid() && store.AuthorsKnown(directory) && userId in directory
    requires id !in Ids(store.posts)
    modifies store
    ensures store.Valid() && store.AuthorsKnown(directory)
    ensures r.Failure? <==> data.content == ""
    ensures r.Failure? ==> r.error == Rejected(StoreError.ContentRequired) && store.posts == old(store.posts)
    ensures r.Success? ==>
      store.posts == old(store.posts) + [Post(id, userId, data.content, data.imageUrl, [], createdAt)] &&
      r.value == PostResponse(id, data.content, data.imageUrl, [], UserSummary(userId, DisplayName(directory[userId])), createdAt)
  {
    var created := store.CreatePost(NewPost(data.content, data.imageUrl, userId), id, createdAt, directory);
    if created.Failure? {
      return Failure(Rejected(created.error));
    }
    r := Success(FromDocument(created.value, Some(created.value.user.author)));
  }

  /**
   * `toggleLike`: throws "Post not found" when the store finds no post;
   * otherwise returns the updated post, whose likes have the caller toggled.
   */
  method ToggleLike(store: PostCollection, postId: PostId, userId: UserId, directory: Directory)
    returns (r: Result<PostResponse, ServiceError>)
    requires store.Valid() && store.AuthorsKnown(directory)
    modifies store
    ensures store.Valid() && store.AuthorsKnown(directory)
    ensures r.Failure? <==> postId !in Ids(old(store.posts))
    ensures r.Failure? ==> r.error == PostNotFound && store.posts == old(store.posts)
    ensures r.Success? ==>
      var k := FirstIndexOf(Ids(old(store.posts)), postId);
      var before := old(store.posts)[k];
      store.posts == old(store.posts)[k := before.(likes := Toggled(before.likes, userId))] &&
      r.value == FromDocument(Populate(store.posts[k], directory), Some(UserDoc(before.user, directory[before.user]))) &&
      (userId in r.value.likes <==> userId !in before.likes)
  {
    var document := store.ToggleLike(postId, userId, directory);
    if document.None? {
      return Failure(PostNotFound);
    }
    ghost var k := FirstIndexOf(Ids(old(store.posts)), postId);
    ghost var before := old(store.posts)[k];
    ToggleFlipsMembership(before.likes, userId);
    r := Success(FromDocument(document.value, Some(document.value.user.author)));
    assert r.value.likes == Toggled(before.likes, userId);
  }
}
