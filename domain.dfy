/** Records and errors shared by the stores and the services (internal/models, internal/storage). */
module Domain {

  /** A Go string is a sequence of bytes; `len` on it counts bytes. */
  newtype Byte = b: int | 0 <= b < 256
  type Bytes = seq<Byte>

  /** The creation timestamp is taken from the clock by the services; here it is a parameter. */
  type Timestamp = nat

  /** The largest value of Go's 64-bit `int`. */
  const MaxInt: int := 0x7fff_ffff_ffff_ffff

  /** The longest comment text the comment service accepts, in bytes. */
  const MaxCommentLength: nat := 2000

  datatype Option<T> = None | Some(value: T)

  /** A post as stored: `id` is assigned by the store. */
  datatype Post = Post(
    id: int,
    title: Bytes,
    text: Bytes,
    allowComments: bool,
    author: Bytes,
    createdAt: Timestamp)

  /** A comment; `parentCommentID` is the nullable reply reference of the source. */
  datatype Comment = Comment(
    id: int,
    postID: int,
    parentCommentID: Option<int>,
    text: Bytes,
    author: Bytes,
    createdAt: Timestamp)

  /** The error values the core can return. `StorageFailure` stands for a database
      backend's errors; the in-memory stores never produce it. */
  datatype Error = NotFound | CommentsNotAllowed | TextTooLong | StorageFailure

  /** A value or an error, for the `(*T, error)` returns of the source. */
  datatype Result<T> = Ok(value: T) | Err(error: Error)

  /** Success or an error, for the bare `error` returns of the source. */
  datatype Outcome = Pass | Fail(error: Error)
}

/** Ranging over a Go map visits its keys in an order the language leaves unspecified;
    here each step takes an arbitrary key that has not been visited yet. */
module MapIteration {

  /** A solver aid: a non-empty set has a member to pick. */
  lemma NonEmptyHasMember(keys: set<int>)
    requires keys != {}
    ensures exists k :: k in keys
  {
    if forall k :: k !in keys {
      assert false;
    }
  }

  /** The next key a `range` loop visits, out of those not visited yet. */
  method NextKey(unvisited: set<int>) returns (k: int)
    requires unvisited != {}
    ensures k in unvisited
  {
    NonEmptyHasMember(unvisited);
    k :| k in unvisited;
  }
}
