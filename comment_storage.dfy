/** The in-memory comment store (internal/storage/storage.go:38-56, 97-124): a map
    from ID to comment, a counter for the next ID, and the per-post page query. */
module CommentStorage {
  import opened Domain
  import opened MapIteration
  import opened Pagination

  /** Every comment sits under its own ID. */
  ghost predicate CommentsKeyedById(comments: map<int, Comment>) {
    forall k :: k in comments ==> comments[k].id == k
  }

  /** The value of a comment store: its map and its next ID. */
  datatype CommentTable = CommentTable(comments: map<int, Comment>, nextID: int) {

    /** The keys are exactly the IDs handed out so far, 1 .. nextID - 1 (nothing is
        ever deleted), and each comment sits under its own ID. */
    ghost predicate Valid() {
      && nextID >= 1
      && (forall k :: k in comments <==> 1 <= k < nextID)
      && CommentsKeyedById(comments)
    }

    /** CreateComment: the comment gets the next ID and is stored under it. The
        store does not check that the post exists. */
    function Insert(comment: Comment): (r: (CommentTable, Comment))
      requires Valid()
      ensures r.0.Valid()
      ensures r.1 == comment.(id := nextID)
      ensures r.1.id !in comments && forall k :: k in comments ==> k < r.1.id
      ensures r.0.comments.Keys == comments.Keys + {r.1.id} && r.0.comments[r.1.id] == r.1
      ensures forall k :: k in comments ==> r.0.comments[k] == comments[k]
      ensures r.0.nextID == nextID + 1
    {
      var stored := comment.(id := nextID);
      (CommentTable(comments[nextID := stored], nextID + 1), stored)
    }
  }

  /** The IDs of the comments that belong to post `postID`. */
  ghost function MatchingIds(comments: map<int, Comment>, postID: int): set<int> {
    set k | k in comments && comments[k].postID == postID
  }

  /** `order` lists the comments of post `postID`, each exactly once, in some order. */
  ghost predicate Enumerates(order: seq<Comment>, comments: map<int, Comment>, postID: int) {
    && (forall i :: 0 <= i < |order| ==>
          order[i].id in comments && comments[order[i].id] == order[i] && order[i].postID == postID)
    && (forall k :: k in comments && comments[k].postID == postID ==> comments[k] in order)
    && (forall i, j :: 0 <= i < j < |order| ==> order[i].id != order[j].id)
  }

  /** Whatever order the map is walked in, the list of a post's comments has one
      entry per matching comment: N does not depend on the order. */
  lemma {:induction false} EnumerationSize(order: seq<Comment>, comments: map<int, Comment>, postID: int)
    requires CommentsKeyedById(comments)
    requires Enumerates(order, comments, postID)
    ensures |order| == |MatchingIds(comments, postID)|
  {
    if order == [] {
      if MatchingIds(comments, postID) != {} {
        NonEmptyHasMember(MatchingIds(comments, postID));
        assert false;
      }
    } else {
      var n := |order| - 1;
      var last := order[n];
      var rest := comments - {last.id};
      var prefix := order[..n];
      forall k | k in rest && rest[k].postID == postID ensures rest[k] in prefix {
        var i :| 0 <= i < |order| && order[i] == comments[k];
        assert i != n;
        assert prefix[i] == rest[k];
      }
      assert Enumerates(prefix, rest, postID);
      EnumerationSize(prefix, rest, postID);
      assert MatchingIds(rest, postID) == MatchingIds(comments, postID) - {last.id};
    }
  }

  /** Each call of GetCommentsByPostID walks the map afresh, so two calls may list
      the same comments in different orders: here page 0 of one listing and page 1
      of another are the same comment, and the other comment is on neither. */
  lemma SeparateListingsCanOverlap()
    ensures var c1 := Comment(1, 7, None, [], [], 0);
      var c2 := Comment(2, 7, None, [], [], 0);
      var comments := map[1 := c1, 2 := c2];
      && Enumerates([c1, c2], comments, 7)
      && Enumerates([c2, c1], comments, 7)
      && Window([c1, c2], 1, 0) == [c1]
      && Window([c2, c1], 1, 1) == [c1]
  {
  }

  class InMemoryCommentStorage {
    var comments: map<int, Comment>
    var nextID: int

    function Table(): CommentTable
      reads this
    {
      CommentTable(comments, nextID)
    }

    ghost predicate Valid()
      reads this
    {
      Table().Valid()
    }

    /** NewInMemoryCommentStorage: an empty store whose first ID will be 1. */
    constructor ()
      ensures Valid()
      ensures comments == map[] && nextID == 1
    {
      comments := map[];
      nextID := 1;
    }

    method CreateComment(comment: Comment) returns (r: Result<Comment>)
      requires Valid()
      modifies this
      ensures Valid()
      ensures r == Ok(old(Table()).Insert(comment).1)
      ensures Table() == old(Table()).Insert(comment).0
    {
      var stored := comment.(id := nextID);
      nextID := nextID + 1;
      comments := comments[stored.id := stored];
      r := Ok(stored);
    }

    /** Collects the comments of `postID` while ranging over the map (in an
        arbitrary order, returned as the ghost `order`), then cuts out the page. */
    method GetCommentsByPostID(postID: int, limit: int, offset: int)
      returns (r: Result<seq<Comment>>, ghost order: seq<Comment>)
      requires Valid()
      requires InBounds(|MatchingIds(comments, postID)|, limit, offset)
      ensures Enumerates(order, comments, postID) && |order| == |MatchingIds(comments, postID)|
      ensures r == Ok(Window(order, limit, offset))
      ensures var n := |MatchingIds(comments, postID)|;
        |r.value| == if offset >= n then 0 else Min(limit, n - offset)
      ensures forall i :: 0 <= i < |r.value| ==>
        r.value[i].postID == postID && r.value[i].id in comments && comments[r.value[i].id] == r.value[i]
      ensures forall i, j :: 0 <= i < j < |r.value| ==> r.value[i].id != r.value[j].id
    {
      var matching: seq<Comment> := [];
      var rest := comments.Keys;
      while rest != {}
        invariant rest <= comments.Keys
        invariant forall i :: 0 <= i < |matching| ==>
          && matching[i].id in comments && matching[i].id !in rest
          && comments[matching[i].id] == matching[i] && matching[i].postID == postID
        invariant forall k :: k in comments && k !in rest && comments[k].postID == postID ==> comments[k] in matching
        invariant forall i, j :: 0 <= i < j < |matching| ==> matching[i].id != matching[j].id
        decreases |rest|
      {
        var key := NextKey(rest);
        var comment := comments[key];
        if comment.postID == postID {
          matching := matching + [comment];
        }
        rest := rest - {key};
      }
      order := matching;
      EnumerationSize(matching, comments, postID);
      var start := offset;
      if start >= |matching| {
        return Ok([]), order;
      }
      var end := start + limit;
      if end > |matching| {
        end := |matching|;
      }
      r := Ok(matching[start..end]);
    }
  }
}
