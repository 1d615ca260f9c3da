/** The in-memory post store (internal/storage/storage.go:32-95): a map from ID to
    post and a counter that hands out the next ID. The mutex that guards each call
    is left out; every method here runs as one atomic step. */
module PostStorage {
  import opened Domain
  import opened MapIteration

  /** Every post sits under its own ID. */
  ghost predicate PostsKeyedById(posts: map<int, Post>) {
    forall k :: k in posts ==> posts[k].id == k
  }

  /** The value of a post store: its map and its next ID. */
  datatype PostTable = PostTable(posts: map<int, Post>, nextID: int) {

    /** The keys are exactly the IDs handed out so far, 1 .. nextID - 1 (nothing is
        ever deleted), and each post sits under its own ID. */
    ghost predicate Valid() {
      && nextID >= 1
      && (forall k :: k in posts <==> 1 <= k < nextID)
      && PostsKeyedById(posts)
    }

    /** CreatePost: the post gets the next ID and is stored under it. */
    function Insert(post: Post): (r: (PostTable, Post))
      requires Valid()
      ensures r.0.Valid()
      ensures r.1 == post.(id := nextID)
      ensures r.1.id !in posts && forall k :: k in posts ==> k < r.1.id
      ensures r.0.posts.Keys == posts.Keys + {r.1.id} && r.0.posts[r.1.id] == r.1
      ensures forall k :: k in posts ==> r.0.posts[k] == posts[k]
      ensures r.0.nextID == nextID + 1
    {
      var stored := post.(id := nextID);
      (PostTable(posts[nextID := stored], nextID + 1), stored)
    }

    /** GetPostByID as a value: the stored post, or NotFound. */
    function Get(id: int): (r: Result<Post>)
      ensures r.Ok? <==> id in posts
      ensures r.Ok? ==> r.value == posts[id]
      ensures r.Err? ==> r.error == NotFound
    {
      if id in posts then Ok(posts[id]) else Err(NotFound)
    }

    /** UpdatePost: the whole record under `post.id` is replaced, or NotFound and no change. */
    function Replace(post: Post): (r: (PostTable, Outcome))
      requires Valid()
      ensures r.0.Valid()
      ensures r.1 == Pass <==> post.id in posts
      ensures r.1 != Pass ==> r.1 == Fail(NotFound) && r.0 == this
      ensures r.0.posts.Keys == posts.Keys && r.0.nextID == nextID
      ensures post.id in posts ==> r.0.posts[post.id] == post
      ensures forall k :: k in posts && k != post.id ==> r.0.posts[k] == posts[k]
    {
      if post.id !in posts then (this, Fail(NotFound))
      else (PostTable(posts[post.id := post], nextID), Pass)
    }
  }

  /** `ps` lists the posts of `posts`, each exactly once, in some order. */
  ghost predicate ListsExactly(ps: seq<Post>, posts: map<int, Post>) {
    && (forall i :: 0 <= i < |ps| ==> ps[i].id in posts && posts[ps[i].id] == ps[i])
    && (forall k :: k in posts ==> posts[k] in ps)
    && (forall i, j :: 0 <= i < j < |ps| ==> ps[i].id != ps[j].id)
  }

  class InMemoryPostStorage {
    var posts: map<int, Post>
    var nextID: int

    function Table(): PostTable
      reads this
    {
      PostTable(posts, nextID)
    }

    ghost predicate Valid()
      reads this
    {
      Table().Valid()
    }

    /** NewInMemoryPostStorage: an empty store whose first ID will be 1. */
    constructor ()
      ensures Valid()
      ensures posts == map[] && nextID == 1
    {
      posts := map[];
      nextID := 1;
    }

    method CreatePost(post: Post) returns (r: Result<Post>)
      requires Valid()
      modifies this
      ensures Valid()
      ensures r == Ok(old(Table()).Insert(post).1)
      ensures Table() == old(Table()).Insert(post).0
    {
      var stored := post.(id := nextID);
      nextID := nextID + 1;
      posts := posts[stored.id := stored];
      r := Ok(stored);
    }

    method GetPostByID(id: int) returns (r: Result<Post>)
      ensures r.Ok? <==> id in posts
      ensures r.Ok? ==> r.value == posts[id]
      ensures r.Err? ==> r.error == NotFound
    {
      if id !in posts {
        return Err(NotFound);
      }
      r := Ok(posts[id]);
    }

    /** Collects the stored posts by walking the keys in an arbitrary order, as
        ranging over a Go map does. */
    method GetAllPosts() returns (r: Result<seq<Post>>)
      requires Valid()
      ensures r.Ok? && ListsExactly(r.value, posts)
      ensures |r.value| == |posts|
    {
      var ps: seq<Post> := [];
      var rest := posts.Keys;
      while rest != {}
        invariant rest <= posts.Keys
        invariant |ps| + |rest| == |posts.Keys|
        invariant forall i :: 0 <= i < |ps| ==> ps[i].id in posts && ps[i].id !in rest && posts[ps[i].id] == ps[i]
        invariant forall k :: k in posts && k !in rest ==> posts[k] in ps
        invariant forall i, j :: 0 <= i < j < |ps| ==> ps[i].id != ps[j].id
        decreases |rest|
      {
        var key := NextKey(rest);
        ps := ps + [posts[key]];
        rest := rest - {key};
      }
      r := Ok(ps);
    }

    method UpdatePost(post: Post) returns (r: Outcome)
      requires Valid()
      modifies this
      ensures Valid()
      ensures r == old(Table()).Replace(post).1
      ensures Table() == old(Table()).Replace(post).0
    {
      if post.id !in posts {
        return Fail(NotFound);
      }
      posts := posts[post.id := post];
      r := Pass;
    }
  }
}
