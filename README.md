# Posts and comments: in-memory stores and services, in Dafny

This project models the stateful core of a small Go service for posts and threaded
comments. It covers three parts:

- the in-memory post and comment stores (`InMemoryPostStorage`,
  `InMemoryCommentStorage` in `internal/storage/storage.go`);
- the post service (`internal/services/post.go`), which creates posts with comments
  allowed and can turn comments off, one way only;
- the comment service (`internal/services/comment.go`), which accepts a comment only
  after three guards in a fixed order: the length bound, then that the post exists,
  then that the post allows comments.

Each store is a Dafny class with the Go struct's map and `nextID` counter as fields.
Each store also has a value (`PostTable`, `CommentTable`) that its methods are proved
against: every state-changing method's postcondition says its new state is a pure
function of the old one (`Insert`, `Replace`, `CreatePostStep`, `DisableCommentsStep`,
`CreateCommentStep`). Those functions carry the meaning-level contracts: the assigned
ID is fresh and above every stored ID, nothing else changes, failures store nothing,
and the guards apply in order. The module `Lifecycle` runs both services over any
sequence of requests and proves what holds after all of them:

- comments never change;
- posts change only by their comment flag going from on to off;
- every comment belongs to an existing post and is at most 2000 bytes long.

Files:

- `domain.dfy`: the records, errors, `Result`/`Outcome`, and map iteration;
- `pagination.dfy`: the offset/limit window;
- `post_storage.dfy` and `comment_storage.dfy`: the stores;
- `post_service.dfy` and `comment_service.dfy`: the services;
- `lifecycle.dfy`: request sequences;
- `scenarios.dfy`: clients written against the contracts alone.

Modelling choices:

- Go strings are byte sequences (`Bytes`), because `len(text)` counts bytes.
- The creation time comes from the clock in the source. Here it is a parameter, `now`.
- Go's map `range` visits keys in an unspecified order
  (internal/storage/storage.go:81 and 110). The model deliberately fixes no order:
  `MapIteration.NextKey` takes an arbitrary unvisited key on each step. So
  `GetAllPosts` and `GetCommentsByPostID` promise their results for any order. `GetCommentsByPostID` also returns, as a ghost
  value, the order it used. The page is `Window(order, limit, offset)`, and
  `EnumerationSize` shows that the page's length does not depend on that order.
- Go stores and returns pointers. `DisableComments` therefore changes the stored
  record before it calls `UpdatePost`. The model uses values and reaches the same
  end state: only the flag of that one post changes.
- The error message at internal/services/comment.go:22 speaks of 2000 "characters"
  ("превышает 2000 символов"). The check itself is `len(text)`, which counts bytes,
  and the test at internal/services/comment_test.go:28 builds its over-long text with
  `make([]byte, 2001)`. The model follows the code and counts bytes.
- Go's `int` is 64 bits wide. The page query adds `offset + limit`
  (internal/storage/storage.go:119), so its precondition also rules out an
  overflowing sum, which would make the slice panic.

## Model

| member | source | states |
|---|---|---|
| `MapIteration.NextKey` | internal/storage/storage.go:81 | each step of a `range` over the map visits some key that has not been visited yet |
| `Pagination.Window` | internal/storage/storage.go:115-123 | for inputs that do not make the slice panic (negative values, or `offset + limit` above Go's largest `int`): an offset at or past the end gives an empty page; otherwise the page has `min(limit, N - offset)` elements, and element i is element `offset + i` of the list |
| `Pagination.AdjacentPages` | internal/storage/storage.go:115-123 | within one listing, two consecutive windows of size `limit` make up the window of size `2*limit`: windows cut from the same listing neither skip nor repeat an element |
| `PostStorage.PostTable.Insert` | internal/storage/storage.go:58-65 | the post gets the old `nextID` as its ID, which is not in use and is above every stored ID; exactly one entry is added under that ID; other entries are unchanged; `nextID` grows by exactly one; the invariant "the keys are exactly `1..nextID-1` and each post's ID is its key" is kept |
| `PostStorage.PostTable.Get` | internal/storage/storage.go:67-75 | returns the stored post exactly when the ID is a key, and `NotFound` otherwise |
| `PostStorage.PostTable.Replace` | internal/storage/storage.go:87-95 | an absent ID gives `NotFound` and no change; a present ID has its whole record replaced; no other entry, key or `nextID` changes |
| `PostStorage.InMemoryPostStorage.constructor` | internal/storage/storage.go:44-49 | a new store is empty with `nextID == 1`, so the first post gets ID 1 |
| `PostStorage.InMemoryPostStorage.CreatePost` | internal/storage/storage.go:58-65 | the new state and the returned post are those of `Insert`; it never fails |
| `PostStorage.InMemoryPostStorage.GetPostByID` | internal/storage/storage.go:67-75 | `Ok` exactly when the ID is stored, with the stored record; `NotFound` otherwise; no state change |
| `PostStorage.InMemoryPostStorage.GetAllPosts` | internal/storage/storage.go:77-85 | returns every stored post exactly once, each under its own ID, and nothing else; the length equals the number of stored posts; any order |
| `PostStorage.InMemoryPostStorage.UpdatePost` | internal/storage/storage.go:87-95 | the new state and the result are those of `Replace` |
| `CommentStorage.CommentTable.Insert` | internal/storage/storage.go:97-104 | the comment gets the old `nextID`, which is fresh and above every stored ID; exactly one entry is added; nothing else changes; the post ID is not checked; the invariant "the keys are exactly `1..nextID-1` and each comment's ID is its key" is kept |
| `CommentStorage.SeparateListingsCanOverlap` | internal/storage/storage.go:110 | two listings of the same two comments in different orders are both valid results of the map walk, and page 0 (limit 1) of one equals page 1 of the other, so pages from separate calls can repeat one comment and skip the other |
| `CommentStorage.EnumerationSize` | internal/storage/storage.go:106-114 | any duplicate-free listing of a post's stored comments has exactly as many entries as the post has comments (N), whatever its order |
| `CommentStorage.InMemoryCommentStorage.constructor` | internal/storage/storage.go:51-56 | a new store is empty with `nextID == 1` |
| `CommentStorage.InMemoryCommentStorage.CreateComment` | internal/storage/storage.go:97-104 | the new state and the returned comment are those of `Insert`; it never fails |
| `CommentStorage.InMemoryCommentStorage.GetCommentsByPostID` | internal/storage/storage.go:106-124 | for offset and limit that do not make the slice panic (negative values, or an overflowing `offset + limit`): the result is the window of some listing of the post's comments; it is empty when `offset >= N` and otherwise has `min(limit, N - offset)` elements; every element is a stored comment of that post; no two elements share an ID; no state change |
| `PostServices.PostService.constructor` | internal/services/post.go:14-16 | the service uses the store it is given |
| `PostServices.CreatePostStep` | internal/services/post.go:18-31 | the created post has the given title, text, author and time, has comments allowed, and has the store's next ID; it can be fetched by that ID; nothing else changes |
| `PostServices.DisableCommentsStep` | internal/services/post.go:37-44 | a missing post gives `NotFound` and no change; otherwise only that post changes, its flag becomes false and every other field stays; no flag goes from off to on |
| `PostServices.DisableCommentsIdempotent` | internal/services/post.go:37-44 | disabling comments twice has the same state and result as disabling them once |
| `PostServices.PostService.CreatePost` | internal/services/post.go:18-31 | the new store state and the result are those of `CreatePostStep`; a store error would be passed on unchanged |
| `PostServices.PostService.GetAllPosts` | internal/services/post.go:33-35 | the same promise as the store's `GetAllPosts` |
| `PostServices.PostService.DisableComments` | internal/services/post.go:37-44 | fetch, clear the flag, write the whole record back; the new state and the result are those of `DisableCommentsStep` |
| `CommentServices.CommentService.constructor` | internal/services/comment.go:14-16 | the service uses the comment store and the post store it is given |
| `CommentServices.CreateCommentStep` | internal/services/comment.go:20-43 | text over 2000 bytes gives `TextTooLong`, before the post is looked up; then a missing post gives `NotFound`; then a disabled post gives `CommentsNotAllowed`; it succeeds exactly when all three guards pass; a failure stores nothing; a success stores and returns one comment with the given post, parent, text, author and time under a fresh ID |
| `CommentServices.CommentService.CreateComment` | internal/services/comment.go:20-43 | the three early returns, then the store call; the new comment-store state and the result are those of `CreateCommentStep`; the post store is not modified |
| `CommentServices.CommentService.GetCommentsByPostID` | internal/services/comment.go:45-47 | the same page promise as the store's `GetCommentsByPostID` |
| `Lifecycle.Fresh` | internal/storage/storage.go:44-56 | two fresh stores satisfy the store invariants and the comment/post consistency |
| `Lifecycle.Run` | internal/services/post.go:18-44 | any sequence of service requests keeps both stores' invariants |
| `Lifecycle.StepEvolves` | internal/services/post.go:18-44 | one request removes nothing, changes no comment, changes a post only by turning its flag off, and never lowers a counter |
| `Lifecycle.RunEvolves` | internal/services/post.go:18-44 | the same holds across any sequence of requests |
| `Lifecycle.StepKeepsConsistent` | internal/services/comment.go:20-43 | after one request, every stored comment still names an existing post and is within 2000 bytes |
| `Lifecycle.RunKeepsConsistent` | internal/services/comment.go:20-43 | the same holds after any sequence of requests |
| `Lifecycle.DisabledStaysDisabled` | internal/services/comment.go:28-30 | once a post's comments are off, they stay off after any requests, and every later comment on it within the length bound is refused with `CommentsNotAllowed` |
| `Lifecycle.FirstIdsAreOne` | internal/storage/storage.go:44-65 | the first post and the first comment of fresh stores get ID 1 |
| `Scenarios.CommentThenDisable` | internal/services/comment_test.go:35-46 | on fresh stores: the post gets ID 1 with comments on; the first comment is accepted; after `DisableComments` the next comment gets `CommentsNotAllowed`; the page `(10, 0)` is exactly the accepted comment |
| `Scenarios.FifteenCommentPages` | internal/storage/storage.go:115-123 | with 15 comments and limit 10, the pages at offsets 0, 10 and 20 have 10, 5 and 0 elements; the first two windows of one listing together are all 15 |

## Left out

- The PostgreSQL backend and `CreateDBPool` (`internal/storage/storage.go:126-295`) are not part of this model. They build SQL and talk to a database over the network. `StorageFailure` stands for their errors, and the in-memory stores never produce it.
- The `PostStorage`/`CommentStorage` interfaces are not modelled as interfaces. The services are written against the in-memory stores. The services' branches that pass on a store error are kept, but no in-memory store reaches them. The pure `CreatePostStep`/`CreateCommentStep` do not have those branches for the same reason.
- Migrations (`internal/storage/migrate.go`), configuration loading (`config/`), the HTTP handlers (`internal/api/`) and start-up (`cmd/main.go`) are not part of this model. They are I/O and request plumbing. This includes the handler's default of `limit = 10` when `limit` is 0.
- Each store's `sync.Mutex` is left out, and so is the race between `DisableComments` and a concurrent `CreateComment`. Every method is modelled as one atomic step in a single thread.
- `time.Now()` is not modelled. The timestamp is a parameter.
- Aliasing between the caller's pointer and the stored record is not modelled, because records are values. Only the end state is reproduced.
- IDs are unbounded integers. Go's `int` would wrap after 2^63-1 insertions, and this model does not capture that.
- A negative offset, a negative limit with an offset inside the list, or an `offset + limit` that overflows Go's 64-bit `int` makes the Go slice expression panic. `GetCommentsByPostID` requires inputs that avoid this (`InBounds`), so the panic is not modelled. The HTTP handler passes `strconv.Atoi` results through without a check, so such inputs can reach the store.
- Paging across separate calls is not promised to be consistent. Each `GetCommentsByPostID` call walks the map again in a new unspecified order, so pages fetched by separate calls can repeat some comments and skip others. `CommentStorage.SeparateListingsCanOverlap` shows such a case. `AdjacentPages` holds only for windows cut from one listing.
- The error text for over-long comments is not modelled. The model has the distinct error `TextTooLong` instead.
- PostServices.PostService.GetAllPosts: stated as the same contract as the store's method, not as equal to the store's result, because the store's order is arbitrary from call to call.
- CommentServices.CommentService.GetCommentsByPostID: stated as the same page contract as the store's method, not as equal to the store's result, for the same reason.
