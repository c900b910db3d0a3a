/**
 * The Post model of the backend (backend/src/models/Post.ts): the stored
 * post record, the queries its statics run against the post collection,
 * post creation and the like toggle.
 *
 * The document store is replaced by an in-memory collection, a sequence of
 * posts in insertion order. Populating the `user` reference is a lookup in
 * a directory of users that stands for the user collection.
 */
module PostModel {
  import opened Wrappers

  /** Users and posts are referred to by the string form of their ids. */
  type UserId = string
  type PostId = string

  /** A stored post. `createdAt` is the timestamp the store assigned when it inserted the post. */
  datatype Post = Post(
    id: PostId,
    user: UserId,
    content: string,
    imageUrl: Option<string>,
    likes: seq<UserId>,
    createdAt: int)

  /** What a populate of `user` with the field list "username" selects: the id and the optional username. */
  datatype UserDoc = UserDoc(id: UserId, username: Option<string>)

  /** The `user` path of a post as a query hands it back: the bare id, or the populated user. */
  datatype AuthorRef = AuthorId(id: UserId) | Populated(author: UserDoc)

  /** A post as a query hands it back. */
  datatype PostDocument = PostDocument(post: Post, user: AuthorRef)

  /** The user collection as populate sees it: every user's optional username. */
  type Directory = map<UserId, Option<string>>

  /** The input of `createPost`: the validated request fields plus the author. */
  datatype NewPost = NewPost(content: string, imageUrl: Option<string>, user: UserId)

  /** The store's validation error: the schema's required `content` was empty. */
  datatype StoreError = ContentRequired

  /** The result of `getPostsByUserId`: one page of documents and the number of all matching posts. */
  datatype UserPosts = UserPosts(posts: seq<PostDocument>, total: nat)

  /** A post with its `user` path populated from the directory. */
  function Populate(p: Post, directory: Directory): PostDocument
    requires p.user in directory
  {
    PostDocument(p, Populated(UserDoc(p.user, directory[p.user])))
  }

  function Ids(posts: seq<Post>): (ids: seq<PostId>)
    ensures |ids| == |posts|
    ensures forall i :: 0 <= i < |posts| ==> ids[i] == posts[i].id
  {
    seq(|posts|, i requires 0 <= i < |posts| => posts[i].id)
  }

  function PostsOf(docs: seq<PostDocument>): (ps: seq<Post>)
    ensures |ps| == |docs|
    ensures forall i :: 0 <= i < |docs| ==> ps[i] == docs[i].post
  {
    seq(|docs|, i requires 0 <= i < |docs| => docs[i].post)
  }

  predicate NoDuplicates<T(==)>(s: seq<T>) {
    forall i, j :: 0 <= i < j < |s| ==> s[i] != s[j]
  }

  // ---------------------------------------------------------------------------
  // Lookup by value: `findIndex` over the likes, `findById` over the collection.

  /** The index of the first occurrence of `x` in `s`, or -1 when there is none. */
  function FirstIndexOf<T(==)>(s: seq<T>, x: T): (k: int)
    ensures -1 <= k < |s|
    ensures k < 0 <==> x !in s
    ensures k >= 0 ==> s[k] == x && x !in s[..k]
  {
    if |s| == 0 then -1
    else if s[0] == x then 0
    else
      var k := FirstIndexOf(s[1..], x);
      assert k >= 0 ==> s[..k + 1] == [s[0]] + s[1..][..k];
      if k < 0 then -1 else k + 1
  }

  /**
   * The search of `toggleLike`: the first index whose id equals `userId`,
   * or -1 when the user has not liked the post.
   */
  method FindIndex(likes: seq<UserId>, userId: UserId) returns (index: int)
    ensures index == FirstIndexOf(likes, userId)
  {
    index := 0;
    while index < |likes|
      invariant 0 <= index <= |likes|
      invariant userId !in likes[..index]
    {
      if likes[index] == userId {
        return;
      }
      assert likes[..index + 1] == likes[..index] + [likes[index]];
      index := index + 1;
    }
    assert likes[..index] == likes;
    index := -1;
  }

  // ---------------------------------------------------------------------------
  // getPostsByUserId: filter by author, sort newest first, skip, limit, count.

  /** The posts whose `user` is `userId`, in collection order. */
  function ByUser(posts: seq<Post>, userId: UserId): (r: seq<Post>)
    ensures forall p :: multiset(r)[p] == if p.user == userId then multiset(posts)[p] else 0
    ensures forall p :: p in r ==> p.user == userId && p in posts
  {
    if |posts| == 0 then []
    else
      assert posts == [posts[0]] + posts[1..];
      (if posts[0].user == userId then [posts[0]] else []) + ByUser(posts[1..], userId)
  }

  /** Sorted on `createdAt`, descending; the order among equal timestamps is left open. */
  predicate NewestFirst(s: seq<Post>) {
    forall i, j :: 0 <= i < j < |s| ==> s[i].createdAt >= s[j].createdAt
  }

  function Insert(p: Post, s: seq<Post>): (r: seq<Post>)
    requires NewestFirst(s)
    ensures NewestFirst(r)
    ensures multiset(r) == multiset(s) + multiset{p}
    ensures |r| > 0 && (r[0] == p || (|s| > 0 && r[0] == s[0]))
  {
    if |s| == 0 || s[0].createdAt <= p.createdAt then
      ConsNewestFirst(p, s);
      [p] + s
    else
      var rest := Insert(p, s[1..]);
      assert s == [s[0]] + s[1..];
      assert rest[0].createdAt <= s[0].createdAt;
      ConsNewestFirst(s[0], rest);
      [s[0]] + rest
  }

  /** A post no older than the head of a newest-first sequence can go in front of it. */
  lemma ConsNewestFirst(p: Post, s: seq<Post>)
    requires NewestFirst(s) && (|s| > 0 ==> s[0].createdAt <= p.createdAt)
    ensures NewestFirst([p] + s)
  {
    var r := [p] + s;
    forall i, j | 0 <= i < j < |r| ensures r[i].createdAt >= r[j].createdAt {
      if i == 0 {
        assert r[j] == s[j - 1];
      } else {
        assert r[i] == s[i - 1] && r[j] == s[j - 1];
      }
    }
  }

  /** One newest-first order of `s`: an insertion sort, standing in for the store's sort. */
  function SortNewestFirst(s: seq<Post>): (r: seq<Post>)
    ensures NewestFirst(r)
    ensures multiset(r) == multiset(s)
  {
    if |s| == 0 then []
    else
      assert s == [s[0]] + s[1..];
      Insert(s[0], SortNewestFirst(s[1..]))
  }

  /**
   * `skip(skip).limit(limit)`: the elements from index `skip` on, at most
   * `limit` of them; a limit of 0 sets no limit, as in the document store.
   */
  function Window<T>(s: seq<T>, skip: nat, limit: nat): (w: seq<T>)
    ensures forall i :: 0 <= i < |w| ==> skip + i < |s| && w[i] == s[skip + i]
    ensures limit > 0 ==> |w| <= limit
    ensures skip + |w| >= |s| || (limit > 0 && |w| == limit)
  {
    var from := if skip <= |s| then skip else |s|;
    var to := if limit == 0 || |s| - from <= limit then |s| else from + limit;
    s[from..to]
  }

  /** How many elements a window holds: all from `skip` on, capped by a non-zero limit. */
  lemma WindowLength<T>(s: seq<T>, skip: nat, limit: nat)
    ensures var rest := if skip <= |s| then |s| - skip else 0;
      |Window(s, skip, limit)| == if limit == 0 || rest <= limit then rest else limit
  {
  }

  /** `page` is what a query sorted newest first returns for the user's posts under skip and limit. */
  ghost predicate IsNewestFirstPage(page: seq<Post>, posts: seq<Post>, userId: UserId, skip: nat, limit: nat) {
    exists sorted ::
      NewestFirst(sorted) && multiset(sorted) == multiset(ByUser(posts, userId)) &&
      page == Window(sorted, skip, limit)
  }

  /** `populate` applied to every post of a page. */
  function PopulateAll(page: seq<Post>, directory: Directory): (docs: seq<PostDocument>)
    requires forall i :: 0 <= i < |page| ==> page[i].user in directory
    ensures PostsOf(docs) == page
    ensures forall i :: 0 <= i < |docs| ==> docs[i] == Populate(page[i], directory)
  {
    var docs := seq(|page|, i requires 0 <= i < |page| => Populate(page[i], directory));
    assert PostsOf(docs) == page;
    docs
  }

  /** The page the store returns: newest first, and only the user's stored posts. */
  lemma UserPage(posts: seq<Post>, userId: UserId, skip: nat, limit: nat, directory: Directory)
    requires forall i :: 0 <= i < |posts| ==> posts[i].user in directory
    ensures var page := Window(SortNewestFirst(ByUser(posts, userId)), skip, limit);
      NewestFirst(page) && IsNewestFirstPage(page, posts, userId, skip, limit) &&
      forall i :: 0 <= i < |page| ==> page[i].user == userId && page[i] in posts && page[i].user in directory
  {
    var matches := ByUser(posts, userId);
    var sorted := SortNewestFirst(matches);
    var page := Window(sorted, skip, limit);
    assert NewestFirst(sorted) && multiset(sorted) == multiset(matches);
    forall i | 0 <= i < |page| ensures page[i].user == userId && page[i] in posts && page[i].user in directory {
      assert page[i] == sorted[skip + i];
      assert page[i] in multiset(sorted);
      assert page[i] in matches;
      var j :| 0 <= j < |posts| && posts[j] == page[i];
    }
  }

  /** Every populated entry of a page of the user's posts is a stored post of the user, with its author. */
  lemma UserPageEntries(posts: seq<Post>, page: seq<Post>, userId: UserId, directory: Directory)
    requires forall i :: 0 <= i < |page| ==> page[i].user == userId && page[i] in posts && page[i].user in directory
    ensures forall d :: d in PopulateAll(page, directory) ==>
      d.post in posts && d.post.user == userId && userId in directory &&
      d.user == Populated(UserDoc(userId, directory[userId]))
  {
    var docs := PopulateAll(page, directory);
    forall d | d in docs
      ensures d.post in posts && d.post.user == userId && userId in directory &&
        d.user == Populated(UserDoc(userId, directory[userId]))
    {
      var i :| 0 <= i < |docs| && docs[i] == d;
      assert d == Populate(page[i], directory);
    }
  }

  // ---------------------------------------------------------------------------
  // toggleLike on the likes of one post.

  /** The likes after a toggle: the user appended when absent, its first occurrence spliced out otherwise. */
  function Toggled(likes: seq<UserId>, userId: UserId): seq<UserId> {
    var i := FirstIndexOf(likes, userId);
    if i < 0 then likes + [userId] else likes[..i] + likes[i + 1..]
  }

  /** The likes after `n` toggles by the same user. */
  function ToggledTimes(likes: seq<UserId>, userId: UserId, n: nat): seq<UserId> {
    if n == 0 then likes else Toggled(ToggledTimes(likes, userId, n - 1), userId)
  }

  /** A toggle appends an absent user after all prior likes, and removes exactly the first occurrence of a present one. */
  lemma ToggledShape(likes: seq<UserId>, userId: UserId)
    ensures userId !in likes ==>
      var t := Toggled(likes, userId);
      |t| == |likes| + 1 && t[..|likes|] == likes && t[|likes|] == userId
    ensures userId in likes ==>
      exists i :: 0 <= i < |likes| && likes[i] == userId && userId !in likes[..i] &&
        Toggled(likes, userId) == likes[..i] + likes[i + 1..]
  {
    if userId in likes {
      var i := FirstIndexOf(likes, userId);
      assert likes[i] == userId && userId !in likes[..i];
    }
  }

  /** Membership of the user flips, membership of everybody else is untouched. */
  lemma ToggleFlipsMembership(likes: seq<UserId>, userId: UserId)
    requires NoDuplicates(likes)
    ensures userId in Toggled(likes, userId) <==> userId !in likes
    ensures forall v :: v != userId ==> (v in Toggled(likes, userId) <==> v in likes)
    ensures multiset(Toggled(likes, userId)) ==
      if userId in likes then multiset(likes) - multiset{userId} else multiset(likes) + multiset{userId}
  {
    var i := FirstIndexOf(likes, userId);
    if i >= 0 {
      assert likes == likes[..i] + [likes[i]] + likes[i + 1..];
      assert userId !in likes[i + 1..] by {
        forall j | i + 1 <= j < |likes|
          ensures likes[j] != userId
        {
          assert likes[i] == userId;
        }
      }
    }
  }

  lemma AppendKeepsNoDuplicates<T>(s: seq<T>, x: T)
    requires NoDuplicates(s) && x !in s
    ensures NoDuplicates(s + [x])
  {
    var t := s + [x];
    forall a, b | 0 <= a < b < |t|
      ensures t[a] != t[b]
    {
      assert t[a] == s[a];
      if b < |s| {
        assert t[b] == s[b];
      }
    }
  }

  lemma SpliceKeepsNoDuplicates<T>(s: seq<T>, i: nat)
    requires NoDuplicates(s) && i < |s|
    ensures NoDuplicates(s[..i] + s[i + 1..])
  {
    var t := s[..i] + s[i + 1..];
    forall a, b | 0 <= a < b < |t|
      ensures t[a] != t[b]
    {
      var a' := if a < i then a else a + 1;
      var b' := if b < i then b else b + 1;
      assert t[a] == s[a'] && t[b] == s[b'];
    }
  }

  /** A toggle never introduces a duplicate like. */
  lemma ToggleKeepsNoDuplicates(likes: seq<UserId>, userId: UserId)
    requires NoDuplicates(likes)
    ensures NoDuplicates(Toggled(likes, userId))
  {
    var i := FirstIndexOf(likes, userId);
    if i < 0 {
      AppendKeepsNoDuplicates(likes, userId);
    } else {
      SpliceKeepsNoDuplicates(likes, i);
    }
  }

  /** Like, then unlike: the exact original likes come back. */
  lemma ToggleTwiceFromAbsent(likes: seq<UserId>, userId: UserId)
    requires userId !in likes
    ensures Toggled(Toggled(likes, userId), userId) == likes
  {
    var t := likes + [userId];
    assert Toggled(likes, userId) == t;
    var k := FirstIndexOf(t, userId);
    assert t[|likes|] == userId;
    assert k == |likes| by {
      assert t[..|likes|] == likes;
    }
    assert t[..k] == likes;
  }

  /** Unlike, then like: the same likes come back, with the user moved to the end. */
  lemma ToggleTwiceFromPresent(likes: seq<UserId>, userId: UserId)
    requires userId in likes && NoDuplicates(likes)
    ensures var i := FirstIndexOf(likes, userId);
      Toggled(Toggled(likes, userId), userId) == likes[..i] + likes[i + 1..] + [userId]
    ensures multiset(Toggled(Toggled(likes, userId), userId)) == multiset(likes)
  {
    var i := FirstIndexOf(likes, userId);
    var once := likes[..i] + likes[i + 1..];
    assert Toggled(likes, userId) == once;
    ToggleFlipsMembership(likes, userId);
    assert userId !in once;
    assert FirstIndexOf(once, userId) < 0;
    assert Toggled(once, userId) == once + [userId];
    calc {
      multiset(once + [userId]);
      multiset(once) + multiset{userId};
      multiset(likes) - multiset{userId} + multiset{userId};
      { assert userId in multiset(likes); }
      multiset(likes);
    }
  }

  /** However many toggles by one user, no like is duplicated. */
  lemma {:induction false} ToggleTimesKeepsNoDuplicates(likes: seq<UserId>, userId: UserId, n: nat)
    requires NoDuplicates(likes)
    ensures NoDuplicates(ToggledTimes(likes, userId, n))
  {
    if n > 0 {
      var before := ToggledTimes(likes, userId, n - 1);
      ToggleTimesKeepsNoDuplicates(likes, userId, n - 1);
      assert ToggledTimes(likes, userId, n) == Toggled(before, userId);
      ToggleKeepsNoDuplicates(before, userId);
    }
  }

  /**
   * After `n` toggles by one user, the user is a member exactly when it was
   * one before and `n` is even, or was not and `n` is odd.
   */
  lemma {:induction false} ToggleParity(likes: seq<UserId>, userId: UserId, n: nat)
    requires NoDuplicates(likes)
    ensures userId in ToggledTimes(likes, userId, n) <==> (userId in likes) == (n % 2 == 0)
  {
    if n > 0 {
      var before := ToggledTimes(likes, userId, n - 1);
      var after := ToggledTimes(likes, userId, n);
      assert after == Toggled(before, userId);
      assert userId in before <==> (userId in likes) == ((n - 1) % 2 == 0) by {
        ToggleParity(likes, userId, n - 1);
      }
      assert NoDuplicates(before) by {
        ToggleTimesKeepsNoDuplicates(likes, userId, n - 1);
      }
      ToggleStepFlips(before, after, userId, userId in likes, n);
    }
  }

  /** One toggle step, stated over the two sequences so that neither is unfolded. */
  lemma ToggleStepFlips(before: seq<UserId>, after: seq<UserId>, userId: UserId, wasMember: bool, n: nat)
    requires n > 0
    requires NoDuplicates(before) && after == Toggled(before, userId)
    requires userId in before <==> wasMember == ((n - 1) % 2 == 0)
    ensures userId in after <==> wasMember == (n % 2 == 0)
  {
    ToggleFlipsMembership(before, userId);
  }

  /** From "absent", an even number of toggles restores the likes exactly, an odd number adds the user at the end. */
  lemma {:induction false} ToggleParityFromAbsent(likes: seq<UserId>, userId: UserId, n: nat)
    requires userId !in likes
    ensures ToggledTimes(likes, userId, n) == if n % 2 == 0 then likes else likes + [userId]
  {
    if n > 0 {
      ToggleParityFromAbsent(likes, userId, n - 1);
      ParityStepFromAbsent(likes, userId, n, ToggledTimes(likes, userId, n - 1), ToggledTimes(likes, userId, n));
    }
  }

  /** One step of `ToggleParityFromAbsent`, stated over the two sequences so that neither is unfolded. */
  lemma ParityStepFromAbsent(likes: seq<UserId>, userId: UserId, n: nat, before: seq<UserId>, after: seq<UserId>)
    requires userId !in likes && n > 0
    requires before == if (n - 1) % 2 == 0 then likes else likes + [userId]
    requires after == Toggled(before, userId)
    ensures after == if n % 2 == 0 then likes else likes + [userId]
  {
    assert Toggled(likes, userId) == likes + [userId] by {
      assert FirstIndexOf(likes, userId) < 0;
    }
    if n % 2 == 0 {
      ToggleTwiceFromAbsent(likes, userId);
    }
  }

  // ---------------------------------------------------------------------------
  // The collection.

  /** The post collection: the stored posts, in insertion order. */
  class PostCollection {
    var posts: seq<Post>

    /** Ids are unique, every post has content, and no post is liked twice by the same user. */
    ghost predicate Valid()
      reads this
    {
      NoDuplicates(Ids(posts)) &&
      (forall i :: 0 <= i < |posts| ==> posts[i].content != "") &&
      forall i :: 0 <= i < |posts| ==> NoDuplicates(posts[i].likes)
    }

    /** Every stored post's author is a known user, so populate always finds it. */
    predicate AuthorsKnown(directory: Directory)
      reads this
    {
      forall i :: 0 <= i < |posts| ==> posts[i].user in directory
    }

    constructor ()
      ensures Valid() && posts == []
    {
      posts := [];
    }

    /** `findById`, without populate. */
    function FindById(postId: PostId): (r: Option<Post>)
      reads this
      ensures r.Some? <==> postId in Ids(posts)
      ensures r.Some? ==> r.value in posts && r.value.id == postId
    {
      var k := FirstIndexOf(Ids(posts), postId);
      if k < 0 then None else Some(posts[k])
    }

    /** `getPostById`: `findById` with the author populated. */
    function GetPostById(postId: PostId, directory: Directory): (r: Option<PostDocument>)
      reads this
      requires AuthorsKnown(directory)
      ensures r.Some? <==> postId in Ids(posts)
      ensures r.Some? ==>
        r.value.post in posts && r.value.post.id == postId &&
        r.value.user == Populated(UserDoc(r.value.post.user, directory[r.value.post.user]))
    {
      match FindById(postId)
      case None => None
      case Some(p) => Some(Populate(p, directory))
    }

    /** `getPostsByUserId`: a page of the user's posts, newest first, and the count of all of them. */
    function GetPostsByUserId(userId: UserId, skip: nat, limit: nat, directory: Directory): (r: UserPosts)
      reads this
      requires AuthorsKnown(directory)
      ensures r.total == |ByUser(posts, userId)|
      ensures IsNewestFirstPage(PostsOf(r.posts), posts, userId, skip, limit)
      ensures forall d :: d in r.posts ==>
        d.post in posts && d.post.user == userId && userId in directory &&
        d.user == Populated(UserDoc(userId, directory[userId]))
      ensures NewestFirst(PostsOf(r.posts))
    {
      var matches := ByUser(posts, userId);
      var sorted := SortNewestFirst(matches);
      var page := Window(sorted, skip, limit);
      UserPage(posts, userId, skip, limit, directory);
      var docs := PopulateAll(page, directory);
      UserPageEntries(posts, page, userId, directory);
      UserPosts(docs, |matches|)
    }

    /**
     * `createPost`: the schema requires `content`, and a required string path
     * rejects the empty string, so empty content is refused and nothing is
     * stored. Otherwise the store inserts the post with a fresh id, its
     * creation timestamp and no likes, and hands it back populated.
     */
    method CreatePost(data: NewPost, id: PostId, createdAt: int, directory: Directory)
      returns (r: Result<PostDocument, StoreError>)
      requires Valid() && AuthorsKnown(directory) && data.user in directory
      requires id !in Ids(posts)
      modifies this
      ensures Valid() && AuthorsKnown(directory)
      ensures r.Failure? <==> data.content == ""
      ensures r.Failure? ==> r.error == ContentRequired && posts == old(posts)
      ensures r.Success? ==>
        posts == old(posts) + [Post(id, data.user, data.content, data.imageUrl, [], createdAt)] &&
        r.value == Populate(posts[|posts| - 1], directory) &&
        FindById(id) == Some(r.value.post)
    {
      if data.content == "" {
        return Failure(ContentRequired);
      }
      var p := Post(id, data.user, data.content, data.imageUrl, [], createdAt);
      assert Ids(posts + [p]) == Ids(posts) + [id];
      posts := posts + [p];
      r := Success(Populate(p, directory));
    }

    /**
     * `toggleLike`: find the post, then append the user to its likes or
     * splice out the user's first like, and save. A missing post gives None
     * and changes nothing; otherwise only that post's likes change.
     */
    method ToggleLike(postId: PostId, userId: UserId, directory: Directory) returns (r: Option<PostDocument>)
      requires Valid() && AuthorsKnown(directory)
      modifies this
      ensures Valid() && AuthorsKnown(directory)
      ensures var k := FirstIndexOf(Ids(old(posts)), postId);
        if k < 0 then
          r == None && posts == old(posts)
        else
          posts == old(posts)[k := old(posts)[k].(likes := Toggled(old(posts)[k].likes, userId))] &&
          r == Some(Populate(posts[k], directory))
    {
      var k := FirstIndexOf(Ids(posts), postId);
      if k < 0 {
        return None;
      }
      var post := posts[k];
      var likeIndex := FindIndex(post.likes, userId);
      var likes := post.likes;
      if likeIndex == -1 {
        likes := likes + [userId];
      } else {
        likes := likes[..likeIndex] + likes[likeIndex + 1..];
      }
      post := post.(likes := likes);
      ToggleKeepsNoDuplicates(posts[k].likes, userId);
      assert Ids(posts[k := post]) == Ids(posts);
      posts := posts[k := post];
      r := Some(Populate(post, directory));
    }
  }

  /**
   * Two toggles in a row by a user who had not liked the post: like, then
   * unlike. The collection comes back exactly as it was.
   */
  method LikeThenUnlike(store: PostCollection, postId: PostId, userId: UserId, directory: Directory)
    requires store.Valid() && store.AuthorsKnown(directory)
    requires forall i :: 0 <= i < |store.posts| && store.posts[i].id == postId ==> userId !in store.posts[i].likes
    modifies store
    ensures store.Valid() && store.posts == old(store.posts)
  {
    ghost var before := store.posts;
    var k := FirstIndexOf(Ids(store.posts), postId);
    var first := store.ToggleLike(postId, userId, directory);
    if k < 0 {
      assert store.posts == before;
      var second := store.ToggleLike(postId, userId, directory);
      return;
    }
    ghost var liked := Toggled(before[k].likes, userId);
    ghost var middle := store.posts;
    assert middle == before[k := before[k].(likes := liked)];
    LikesUpdateKeepsIds(before, k, liked);
    var second := store.ToggleLike(postId, userId, directory);
    assert middle[k].likes == liked;
    assert store.posts == middle[k := middle[k].(likes := Toggled(liked, userId))];
    ToggleTwiceFromAbsent(before[k].likes, userId);
    LikesRestored(before, k, liked);
  }

  /** Replacing one post's likes keeps every id in place. */
  lemma LikesUpdateKeepsIds(posts: seq<Post>, k: nat, likes: seq<UserId>)
    requires k < |posts|
    ensures Ids(posts[k := posts[k].(likes := likes)]) == Ids(posts)
  {
    var updated := posts[k := posts[k].(likes := likes)];
    assert forall i :: 0 <= i < |updated| ==> updated[i].id == posts[i].id;
  }

  /** Replacing one post's likes and then putting the old likes back restores the posts. */
  lemma LikesRestored(posts: seq<Post>, k: nat, likes: seq<UserId>)
    requires k < |posts|
    ensures var middle := posts[k := posts[k].(likes := likes)];
      middle[k := middle[k].(likes := posts[k].likes)] == posts
  {
  }
}
