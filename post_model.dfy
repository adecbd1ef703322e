/** The Post schema (server/models/Post.model.js) and the one query every
    post listing is built from, `Post.find` by author. */
module PostModel {
  import opened Common

  /** An embedded comment; `createdAt` is a time in milliseconds. */
  datatype Comment = Comment(user: Option<Id>, comment: Option<string>, createdAt: int)

  /** A stored post. `user` is the required author reference. `likes` is the
      list of liker ids the like handler works on (the schema itself declares
      a Map from id to boolean; see README). */
  datatype Post = Post(
    id: Id,
    user: Id,
    location: Option<string>,
    description: Option<string>,
    picturePath: Option<string>,
    likes: seq<Id>,
    comments: seq<Comment>)

  datatype CommentFields = CommentFields(user: Option<Id>, comment: Option<string>, createdAt: Option<int>)

  /** The body `new Post(req.body)` is built from: every schema path, each
      possibly absent. Paths outside the schema are dropped by Mongoose's
      strict mode and do not appear here. */
  datatype PostFields = PostFields(
    user: Option<Id>,
    location: Option<string>,
    description: Option<string>,
    picturePath: Option<string>,
    likes: Option<seq<Id>>,
    comments: seq<CommentFields>)

  /** `createdAt` defaults to `Date.now` at creation. */
  function NewComment(c: CommentFields, now: int): Comment {
    Comment(c.user, c.comment, if c.createdAt.Some? then c.createdAt.value else now)
  }

  /** Whether an ObjectId path holds something that casts: absent, or a valid id. */
  predicate CastsToId(v: Option<Id>) {
    v.None? || ValidId(v.value)
  }

  /** Casting and validating a new post: the author is required and must be
      an ObjectId, comment authors must be ObjectIds; supplied likes are kept,
      absent ones default to empty, and each comment without a time gets the
      creation time. */
  function NewPost(id: Id, f: PostFields, now: int): (r: Result<Post, SchemaError>)
    ensures r.Success? <==>
      f.user.Some? && ValidId(f.user.value)
      && forall i | 0 <= i < |f.comments| :: CastsToId(f.comments[i].user)
    ensures r.Success? ==>
      && r.value.id == id && r.value.user == f.user.value
      && r.value.location == f.location && r.value.description == f.description
      && r.value.picturePath == f.picturePath
      && r.value.likes == (if f.likes.Some? then f.likes.value else [])
      && |r.value.comments| == |f.comments|
      && forall i | 0 <= i < |f.comments| ::
           r.value.comments[i].user == f.comments[i].user
           && r.value.comments[i].comment == f.comments[i].comment
           && r.value.comments[i].createdAt
              == (if f.comments[i].createdAt.Some? then f.comments[i].createdAt.value else now)
    ensures r.Failure? ==>
      r.error.ValidationFailed? && (f.user.None? ==> "user" in r.error.paths)
  {
    var failing :=
      (if f.user.Some? && ValidId(f.user.value) then {} else {"user"})
      + (if forall i | 0 <= i < |f.comments| :: CastsToId(f.comments[i].user) then {} else {"comments"});
    if failing != {} then
      Failure(ValidationFailed(failing))
    else
      assert "user" !in failing;
      Success(Post(id, f.user.value, f.location, f.description, f.picturePath,
                   if f.likes.Some? then f.likes.value else [],
                   seq(|f.comments|, i requires 0 <= i < |f.comments| => NewComment(f.comments[i], now))))
  }

  /** `Post.find({ user: author })`: the author's posts in collection order. */
  function PostsBy(posts: seq<Post>, author: Id): (r: seq<Post>)
    ensures |r| <= |posts|
    ensures forall p | p in r :: p in posts && p.user == author
    ensures forall p | p in posts && p.user == author :: p in r
  {
    if posts == [] then []
    else
      assert posts == [posts[0]] + posts[1..];
      (if posts[0].user == author then [posts[0]] else []) + PostsBy(posts[1..], author)
  }

  /** A post added at the end of the collection comes last among its
      author's posts, and does not show among anyone else's. */
  lemma {:induction false} PostsByAppend(posts: seq<Post>, p: Post, author: Id)
    ensures PostsBy(posts + [p], author)
         == PostsBy(posts, author) + (if p.user == author then [p] else [])
  {
    var tail := if p.user == author then [p] else [];
    if posts == [] {
      assert posts + [p] == [p];
      assert [p][1..] == [];
    } else {
      var head := if posts[0].user == author then [posts[0]] else [];
      assert (posts + [p])[0] == posts[0];
      assert (posts + [p])[1..] == posts[1..] + [p];
      calc {
        PostsBy(posts + [p], author);
        head + PostsBy(posts[1..] + [p], author);
        { PostsByAppend(posts[1..], p, author); }
        head + (PostsBy(posts[1..], author) + tail);
        (head + PostsBy(posts[1..], author)) + tail;
        PostsBy(posts, author) + tail;
      }
    }
  }
}
