/** Clients of the services that use nothing but the services' contracts: the
    create / comment / disable / comment / page sequence, and pages of a post with
    fifteen comments. */
module Scenarios {
  import opened Domain
  import opened Pagination
  import opened PostStorage
  import opened CommentStorage
  import opened PostServices
  import opened CommentServices

  /** On fresh stores: a new post allows comments, the first comment on it is
      accepted, after DisableComments the next one is refused, and the first page
      holds exactly the accepted comment. */
  method CommentThenDisable(title: Bytes, text: Bytes, author: Bytes, reply: Bytes, now: Timestamp)
    returns (post: Result<Post>, first: Result<Comment>, second: Result<Comment>, page: seq<Comment>)
    requires |reply| <= MaxCommentLength
    ensures post.Ok? && post.value.id == 1 && post.value.allowComments
    ensures first.Ok? && first.value.id == 1 && first.value.postID == post.value.id
    ensures second == Err(CommentsNotAllowed)
    ensures page == [first.value]
  {
    var postStorage := new InMemoryPostStorage();
    var commentStorage := new InMemoryCommentStorage();
    var posts := new PostService(postStorage);
    var comments := new CommentService(commentStorage, postStorage);

    post := posts.CreatePost(title, text, author, now);
    first := comments.CreateComment(post.value.id, None, reply, author, now);
    var disabled := posts.DisableComments(post.value.id);
    second := comments.CreateComment(post.value.id, None, reply, author, now);

    assert commentStorage.comments == map[1 := first.value];
    assert MatchingIds(commentStorage.comments, 1) == {1};
    var got, order := comments.GetCommentsByPostID(post.value.id, 10, 0);
    assert order[0].id in commentStorage.comments;
    page := got.value;
  }

  /** Fifteen comments on one post, pages of ten: ten, then five, then none. */
  lemma FifteenCommentPages(order: seq<Comment>)
    requires |order| == 15
    ensures |Window(order, 10, 0)| == 10
    ensures |Window(order, 10, 10)| == 5
    ensures Window(order, 10, 20) == []
    ensures Window(order, 10, 0) + Window(order, 10, 10) == order
  {
  }
}
