/** The comment service (internal/services/comment.go): three guards in a fixed
    order before a comment is stored, and the pass-through page query. */
module CommentServices {
  import opened Domain
  import opened Pagination
  import opened PostStorage
  import opened CommentStorage

  /** The record CreateComment hands to the store; the parent reference is kept
      as given, without checking that it names a comment of the same post. */
  function NewComment(postID: int, parentCommentID: Option<int>, text: Bytes, author: Bytes, now: Timestamp)
    : Comment
  {
    Comment(0, postID, parentCommentID, text, author, now)
  }

  /** CreateComment on the values of both stores. */
  function CreateCommentStep(
    comments: CommentTable, posts: PostTable,
    postID: int, parentCommentID: Option<int>, text: Bytes, author: Bytes, now: Timestamp)
    : (r: (CommentTable, Result<Comment>))
    requires comments.Valid()
    ensures r.0.Valid()
    ensures |text| > MaxCommentLength ==> r.1 == Err(TextTooLong)
    ensures |text| <= MaxCommentLength && postID !in posts.posts ==> r.1 == Err(NotFound)
    ensures |text| <= MaxCommentLength && postID in posts.posts && !posts.posts[postID].allowComments
      ==> r.1 == Err(CommentsNotAllowed)
    ensures r.1.Ok? <==>
      |text| <= MaxCommentLength && postID in posts.posts && posts.posts[postID].allowComments
    ensures r.1.Err? ==> r.0 == comments
    ensures r.1.Ok? ==>
      && r.1.value == Comment(comments.nextID, postID, parentCommentID, text, author, now)
      && comments.nextID !in comments.comments
      && r.0.comments == comments.comments[comments.nextID := r.1.value]
      && r.0.nextID == comments.nextID + 1
  {
    if |text| > MaxCommentLength then (comments, Err(TextTooLong))
    else match posts.Get(postID)
      case Err(e) => (comments, Err(e))
      case Ok(post) =>
        if !post.allowComments then (comments, Err(CommentsNotAllowed))
        else
          var (t, stored) := comments.Insert(NewComment(postID, parentCommentID, text, author, now));
          (t, Ok(stored))
  }

  class CommentService {
    const storage: InMemoryCommentStorage
    const postStorage: InMemoryPostStorage

    /** NewCommentService */
    constructor (storage: InMemoryCommentStorage, postStorage: InMemoryPostStorage)
      ensures this.storage == storage && this.postStorage == postStorage
    {
      this.storage := storage;
      this.postStorage := postStorage;
    }

    method CreateComment(postID: int, parentCommentID: Option<int>, text: Bytes, author: Bytes, now: Timestamp)
      returns (r: Result<Comment>)
      requires storage.Valid()
      modifies storage
      ensures storage.Valid()
      ensures (storage.Table(), r)
        == CreateCommentStep(old(storage.Table()), postStorage.Table(), postID, parentCommentID, text, author, now)
    {
      if |text| > MaxCommentLength {
        return Err(TextTooLong);
      }
      var found := postStorage.GetPostByID(postID);
      if found.Err? {
        return Err(found.error);
      }
      if !found.value.allowComments {
        return Err(CommentsNotAllowed);
      }
      var comment := NewComment(postID, parentCommentID, text, author, now);
      var created := storage.CreateComment(comment);
      match created
      case Err(e) =>
        r := Err(e);
      case Ok(stored) =>
        r := Ok(stored);
    }

    method GetCommentsByPostID(postID: int, limit: int, offset: int)
      returns (r: Result<seq<Comment>>, ghost order: seq<Comment>)
      requires storage.Valid()
      requires InBounds(|MatchingIds(storage.comments, postID)|, limit, offset)
      ensures Enumerates(order, storage.comments, postID) && |order| == |MatchingIds(storage.comments, postID)|
      ensures r == Ok(Window(order, limit, offset))
      ensures var n := |MatchingIds(storage.comments, postID)|;
        |r.value| == if offset >= n then 0 else Min(limit, n - offset)
    {
      r, order := storage.GetCommentsByPostID(postID, limit, offset);
    }
  }
}
