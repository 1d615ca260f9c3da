/** The two services (internal/services/post.go, internal/services/comment.go)
    driven by an arbitrary sequence of requests, on the values of both stores:
    what every request keeps true, and therefore what holds after any number of
    requests: comments never change, posts change only by their flag going off,
    and every comment belongs to an existing post. */
module Lifecycle {
  import opened Domain
  import opened PostStorage
  import opened CommentStorage
  import opened PostServices
  import opened CommentServices

  /** The state-changing calls the request layer makes into the services. */
  datatype Request =
    | CreatePostRequest(title: Bytes, text: Bytes, author: Bytes, now: Timestamp)
    | DisableCommentsRequest(postID: int)
    | CreateCommentRequest(postID: int, parentCommentID: Option<int>, text: Bytes, author: Bytes, now: Timestamp)

  /** Both stores, shared by the two services. */
  datatype System = System(posts: PostTable, comments: CommentTable) {

    ghost predicate Valid() {
      posts.Valid() && comments.Valid()
    }

    /** Every stored comment belongs to a post that exists and is at most 2000 bytes long. */
    ghost predicate Consistent() {
      && Valid()
      && forall k :: k in comments.comments ==>
           comments.comments[k].postID in posts.posts && |comments.comments[k].text| <= MaxCommentLength
    }
  }

  /** Two fresh stores. */
  function Fresh(): (s: System)
    ensures s.Consistent()
  {
    System(PostTable(map[], 1), CommentTable(map[], 1))
  }

  function Step(s: System, req: Request): (r: System)
    requires s.Valid()
    ensures r.Valid()
  {
    match req
    case CreatePostRequest(title, text, author, now) =>
      s.(posts := CreatePostStep(s.posts, title, text, author, now).0)
    case DisableCommentsRequest(postID) =>
      s.(posts := DisableCommentsStep(s.posts, postID).0)
    case CreateCommentRequest(postID, parent, text, author, now) =>
      s.(comments := CreateCommentStep(s.comments, s.posts, postID, parent, text, author, now).0)
  }

  /** The requests applied one after another. */
  function Run(s: System, reqs: seq<Request>): (r: System)
    requires s.Valid()
    ensures r.Valid()
    decreases |reqs|
  {
    if reqs == [] then s else Run(Step(s, reqs[0]), reqs[1..])
  }

  /** How a later state may differ from an earlier one: posts and comments are never
      removed, comments never change, a post changes only in its flag and only from
      on to off, and the ID counters never go back. */
  ghost predicate Evolves(s: System, s': System) {
    && FlagsOnlyFall(s.posts.posts, s'.posts.posts)
    && (forall k :: k in s.posts.posts ==>
          s'.posts.posts[k] == s.posts.posts[k].(allowComments := s'.posts.posts[k].allowComments))
    && (forall k :: k in s.comments.comments ==>
          k in s'.comments.comments && s'.comments.comments[k] == s.comments.comments[k])
    && s.posts.nextID <= s'.posts.nextID
    && s.comments.nextID <= s'.comments.nextID
  }

  lemma StepEvolves(s: System, req: Request)
    requires s.Valid()
    ensures Evolves(s, Step(s, req))
  {
  }

  lemma StepKeepsConsistent(s: System, req: Request)
    requires s.Consistent()
    ensures Step(s, req).Consistent()
  {
  }

  lemma {:induction false} RunEvolves(s: System, reqs: seq<Request>)
    requires s.Valid()
    ensures Evolves(s, Run(s, reqs))
    decreases |reqs|
  {
    if reqs != [] {
      var next := Step(s, reqs[0]);
      StepEvolves(s, reqs[0]);
      RunEvolves(next, reqs[1..]);
    }
  }

  /** Whatever the requests, every comment stays attached to an existing post and
      within the length bound. */
  lemma {:induction false} RunKeepsConsistent(s: System, reqs: seq<Request>)
    requires s.Consistent()
    ensures Run(s, reqs).Consistent()
    decreases |reqs|
  {
    if reqs != [] {
      StepKeepsConsistent(s, reqs[0]);
      RunKeepsConsistent(Step(s, reqs[0]), reqs[1..]);
    }
  }

  /** Once a post's comments are off, no sequence of requests turns them on again,
      and every later attempt to comment on it within the length bound is refused
      with CommentsNotAllowed. */
  lemma DisabledStaysDisabled(
    s: System, reqs: seq<Request>, postID: int,
    parent: Option<int>, text: Bytes, author: Bytes, now: Timestamp)
    requires s.Valid()
    requires postID in s.posts.posts && !s.posts.posts[postID].allowComments
    requires |text| <= MaxCommentLength
    ensures var s' := Run(s, reqs);
      && postID in s'.posts.posts && !s'.posts.posts[postID].allowComments
      && CreateCommentStep(s'.comments, s'.posts, postID, parent, text, author, now)
         == (s'.comments, Err(CommentsNotAllowed))
  {
    RunEvolves(s, reqs);
  }

  /** The first post and the first comment of fresh stores both get ID 1. */
  lemma FirstIdsAreOne(title: Bytes, text: Bytes, author: Bytes, now: Timestamp, comment: Comment)
    ensures CreatePostStep(Fresh().posts, title, text, author, now).1.value.id == 1
    ensures Fresh().comments.Insert(comment).1.id == 1
  {
  }
}
