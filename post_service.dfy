/** The post service (internal/services/post.go): creation defaults and the
    one-way switch that turns comments off. */
module PostServices {
  import opened Domain
  import opened PostStorage

  /** The record CreatePost hands to the store: comments allowed, ID not yet assigned. */
  function NewPost(title: Bytes, text: Bytes, author: Bytes, now: Timestamp): Post {
    Post(0, title, text, true, author, now)
  }

  /** No post disappears and no post's comments go from off to on. */
  ghost predicate FlagsOnlyFall(before: map<int, Post>, after: map<int, Post>) {
    forall k :: k in before ==> k in after && (!before[k].allowComments ==> !after[k].allowComments)
  }

  /** CreatePost on the value of the store. */
  function CreatePostStep(t: PostTable, title: Bytes, text: Bytes, author: Bytes, now: Timestamp)
    : (r: (PostTable, Result<Post>))
    requires t.Valid()
    ensures r.0.Valid()
    ensures r.1 == Ok(Post(t.nextID, title, text, true, author, now))
    ensures r.0.Get(t.nextID) == r.1
    ensures t.nextID !in t.posts && r.0.nextID == t.nextID + 1
    ensures r.0.posts.Keys == t.posts.Keys + {t.nextID}
    ensures forall k :: k in t.posts ==> r.0.posts[k] == t.posts[k]
    ensures FlagsOnlyFall(t.posts, r.0.posts)
  {
    var (t', stored) := t.Insert(NewPost(title, text, author, now));
    (t', Ok(stored))
  }

  /** DisableComments on the value of the store: fetch the post, clear its flag,
      write the whole record back. */
  function DisableCommentsStep(t: PostTable, id: int): (r: (PostTable, Outcome))
    requires t.Valid()
    ensures r.0.Valid()
    ensures id !in t.posts ==> r == (t, Fail(NotFound))
    ensures id in t.posts ==>
      && r.1 == Pass
      && r.0.posts == t.posts[id := t.posts[id].(allowComments := false)]
      && r.0.nextID == t.nextID
    ensures FlagsOnlyFall(t.posts, r.0.posts)
  {
    match t.Get(id)
    case Err(e) => (t, Fail(e))
    case Ok(post) => t.Replace(post.(allowComments := false))
  }

  /** Turning comments off twice is the same as turning them off once. */
  lemma DisableCommentsIdempotent(t: PostTable, id: int)
    requires t.Valid()
    ensures DisableCommentsStep(DisableCommentsStep(t, id).0, id) == DisableCommentsStep(t, id)
  {
    var once := DisableCommentsStep(t, id).0;
    if id in t.posts {
      assert once.posts[id := once.posts[id].(allowComments := false)] == once.posts;
    }
  }

  class PostService {
    const storage: InMemoryPostStorage

    /** NewPostService */
    constructor (storage: InMemoryPostStorage)
      ensures this.storage == storage
    {
      this.storage := storage;
    }

    method CreatePost(title: Bytes, text: Bytes, author: Bytes, now: Timestamp) returns (r: Result<Post>)
      requires storage.Valid()
      modifies storage
      ensures storage.Valid()
      ensures (storage.Table(), r) == CreatePostStep(old(storage.Table()), title, text, author, now)
    {
      var post := NewPost(title, text, author, now);
      var created := storage.CreatePost(post);
      match created
      case Err(e) =>
        r := Err(e);
      case Ok(stored) =>
        r := Ok(stored);
    }

    method GetAllPosts() returns (r: Result<seq<Post>>)
      requires storage.Valid()
      ensures r.Ok? && ListsExactly(r.value, storage.posts)
      ensures |r.value| == |storage.posts|
    {
      r := storage.GetAllPosts();
    }

    method DisableComments(postID: int) returns (r: Outcome)
      requires storage.Valid()
      modifies storage
      ensures storage.Valid()
      ensures (storage.Table(), r) == DisableCommentsStep(old(storage.Table()), postID)
    {
      var found := storage.GetPostByID(postID);
      match found
      case Err(e) =>
        r := Fail(e);
      case Ok(post) =>
        r := storage.UpdatePost(post.(allowComments := false));
    }
  }
}
