# Reply flow control of a threaded replies view

This project is a Dafny model of the reply flow control in `ContentRepliesView`. That view shows the replies of one content item in a threaded discussion. For each reply it decides where the reply goes:

- the **visible list** of the list widget;
- the **"more" buffer**, released by a "show more" button;
- the **"queue" buffer**, released by a "show queue" button.

The DOM, the list widget and the session singleton are stripped away. What remains is a small state machine over three append-only sequences and the two counts the buttons show.

Modules:

- `Wrappers`: `Option` and `Result`.
- `Contents`: a content item with its id, optional author and creation time. JavaScript object identity (`===`) is a `handle` field.
- `Ordering`: the two creation-time comparators of the list widget, `Sort` (an insertion sort, promised sorted and a permutation), and `Reverse`.
- `RepliesView`: the following pieces of the view.
  - Construction (`Construct`).
  - The dedup guard (`IsReplyAdded`) and the self-author test (`IsContentByAuthor`).
  - Buffer choice (`BufferFor`) and the two writes (`Push`, `SetCount`, `Hold`).
  - The live reply handler (`OnReply`).
  - Bulk population (`AddReplies`, with its two write loops, and `Render`).
  - The `showMore.hub` count refresh (`ShowMoreHub`) and the lookup (`GetReplyView`).
- `ReplyFlow`: runs of live replies (`OnReplies`), one `reply` event per reply, and facts about how live handling, the counts and the lookup fit together.

Inputs the source reads from outside are explicit parameters:

- the authenticated user's id, which the source reads from the session singleton (`authId`);
- the author id of content posted elsewhere, which the file reads but never assigns (`View.contentPosted`);
- the element a `showMore.hub` event came from, as the two class markers it carries (`Target`);
- the root content's reply array, which belongs to the content collaborator and may grow after construction. `Render` takes the array as it stands when rendering runs, and `AddReplies` and `ShowMoreHub` take its current length (`rootReplyCount`).

Behaviour of the code that the model keeps as it is:

- The "more" count after bulk population is `replies.length - maxVisibleItems` with no clamp at zero (src/content-replies-view.js:154). It is negative when there are fewer replies than the visible window (`Render`).
- That count reads the root content's `replies.length`, not the length of the argument to `_addReplies` (line 154).
- Buffer choice is keyed on comparator identity: `CREATEDAT_ASCENDING` selects "more", every other comparator "queue", whatever `showVisibleItemsAtHead` says (line 81).
- Nested reply views get the parent's `nestLevel` unchanged (line 168, `CreateReplyView`). Any increment happens in the thread view, which is not part of this model.
- If the reply has a truthy id and posted content is remembered, the dedup guard reads `reply.author.id` and throws a `TypeError` when the reply has no author (line 101; `IsReplyAdded` and `OnReply` return `Err(TypeError)`).
- With `showVisibleItemsAtHead` false, bulk population writes the sorted replies into "more" last first (lines 143-147, `BulkOrder`). In what order the widget later releases them is the widget's business.
- The self-author test compares the author id with `===` against whatever the session reports (line 116). A reply whose author has an undefined id therefore matches a signed-out session that reports `undefined`. `Ident` distinguishes `Undefined`, `Null` and strings to keep this.

## Model

| member | source | states |
|---|---|---|
| `RepliesView.Construct` | src/content-replies-view.js:19-33 | Construction fails with the missing-content error exactly when `opts` or `opts.content` is absent. It throws a type error when `opts.order` is absent. On success the kept `maxNestLevel` is `max(0, opts.maxNestLevel)`, so it is never negative. The content, nest level, visible window, order and queue-initial setting are those of `opts`. The queue-header flag equals the visible-at-head flag. All three lists start empty, both counts at 0, and no posted content is remembered. |
| `RepliesView.BufferFor` | src/content-replies-view.js:81-89 | A live reply targets "more" exactly when the comparator is creation-time ascending. Every other comparator targets "queue". |
| `RepliesView.Push` | src/content-replies-view.js:123-133 | `pushMore`/`pushQueue` append the view at the back of the chosen buffer. The other buffer, both counts and the visible list are unchanged. |
| `RepliesView.Hold` | src/content-replies-view.js:96-97 | Writing views into a buffer and then setting its button to the buffer's size leaves that buffer extended at the back and its count equal to its new length. The other buffer, its count and the visible list are untouched. |
| `RepliesView.IsReplyAdded` | src/content-replies-view.js:100-105 | The guard answers true exactly when the reply's id is truthy, posted content is remembered, and its author id equals the reply's author id. It throws exactly when the first two hold and the reply has no author. |
| `RepliesView.IsContentByAuthor` | src/content-replies-view.js:115-117 | A reply counts as the authenticated user's only if it has an author. A reply without one is never self-authored. |
| `RepliesView.CreateReplyView` | src/content-replies-view.js:162-175 | A nested view shows the given reply and inherits the parent's nest level unchanged, its max nest level, order, visible window and queue-initial setting. |
| `RepliesView.OnReply` | src/content-replies-view.js:73-98 | The handler throws exactly when the guard throws. A duplicate leaves the view unchanged. A non-duplicate reply by the authenticated user is appended to the visible list only, and neither buffer nor count changes. Any other reply is appended at the back of exactly the buffer `BufferFor` selects, and that button's count equals the new buffer length. The other buffer, its count and the visible list are unchanged. Settings and posted-author state never change. |
| `Ordering.Sort` | src/content-replies-view.js:141 | Sorting with a creation-time comparator yields a permutation of the replies, ordered by that comparator. |
| `RepliesView.BulkOrder` | src/content-replies-view.js:141-153 | Bulk population writes a permutation of the replies. It writes them in the comparator's order when the queue header is shown, and in the reverse of it otherwise. The block is the sorted sequence in the first case and its reverse in the second. |
| `RepliesView.PushMoreReversed` | src/content-replies-view.js:143-147 | The descending-index loop leaves "more" equal to the old buffer followed by the views of the sorted replies, last first. Nothing else changes. |
| `RepliesView.PushMoreForward` | src/content-replies-view.js:148-152 | The ascending-index loop leaves "more" equal to the old buffer followed by the views of the sorted replies in order. Nothing else changes. |
| `RepliesView.AddReplies` | src/content-replies-view.js:139-155 | "More" becomes the old buffer followed by the views of the bulk order, and its contents gain each reply exactly once. The "more" count is the root's current reply count minus the visible window, unclamped. The visible list, "queue" and the queue count are unchanged. Every held view still inherits the view's settings. |
| `RepliesView.Render` | src/content-replies-view.js:186-190 | Rendering appends the views of the root's current replies to "more" in bulk order, each reply exactly once. It sets the "more" count to the number of replies minus the visible window, which is negative when the replies do not fill the window. The settings, posted-author state, visible list, "queue" and the queue count are unchanged. |
| `RepliesView.ShowMoreHub` | src/content-replies-view.js:58-67 | No list changes. An event from the "more" button sets its count so that count plus the buffer size equals the root's reply count at the time of the event. An event from the "queue" button, and not from the "more" button, sets the queue count to the queue's size. An event from neither leaves the view unchanged. |
| `RepliesView.GetReplyView` | src/content-replies-view.js:177-184 | The lookup returns nothing exactly when no visible view shows an item identical to the argument. Otherwise it returns the first such view in list order. |
| `ReplyFlow.OnReplies` | src/content-replies-view.js:50-52 | Each reply of a run is its own `reply` event, handled in arrival order, and a throw ends only its own event (see `ReplyFlow.ThrowDoesNotStopRun`). Over the whole run, settings and posted-author state never change, and handling only appends: the visible list and both buffers of the old view are prefixes of the new ones. |
| `ReplyFlow.ThrowDoesNotStopRun` | src/content-replies-view.js:50-52 | A reply whose handler throws does not end the run: the rest is handled exactly as if that reply had never arrived. |
| `ReplyFlow.LiveArrivalsKeepOrder` | src/content-replies-view.js:81-97 | Take any non-empty run of live replies with no duplicate and none by the authenticated user. The run is held in arrival order at the back of the buffer the comparator selects, and that button shows the buffer's size. The visible list and the other buffer are untouched. |
| `ReplyFlow.SelfPostsBypassBuffers` | src/content-replies-view.js:92-95 | Take any run of the authenticated user's non-duplicate replies. It is appended to the visible list in arrival order. Neither buffer nor count changes. |
| `ReplyFlow.EchoesAreDiscarded` | src/content-replies-view.js:78-80 | While posted content by some author is remembered, any number of persisted replies by that author leave the view unchanged. |
| `ReplyFlow.OnReplyPlacesOnce` | src/content-replies-view.js:91-97 | A reply the guard lets through ends up in exactly one place. The multiset of all views held, visible or buffered, gains exactly its view. |
| `ReplyFlow.OnReplyPreservesWellFormed` | src/content-replies-view.js:91-96 | Live handling keeps every held view one that inherits this view's settings. |
| `ReplyFlow.SelfPostIsFound` | src/content-replies-view.js:92-95 | After the authenticated user's own reply is handled, the visible list holds a view identical to it, so the lookup finds it. |
| `ReplyFlow.QueueRefreshAfterArrival` | src/content-replies-view.js:63-64 | After a reply is held in the queue, a refresh from the queue button changes nothing, because the count already equals the queue's size. |

## Left out

- The DOM and jQuery plumbing are not modelled: event dispatch, `stopPropagation`, `setElement`, the widget's `render`, and `elClass`. The `showMore.hub` handler is modelled only as a function of the two class markers on the event target.
- The list widget's internals are external:
  - `add` is modelled as an append to the visible list, but the real widget may place the view by its comparator.
  - The "more" and "queue" streams are append-only sequences. Releasing them (show more / show queue), and the order they release in, are not modelled.
  - `setCount` rendering is not modelled; the model records the count only.
  - The model's counts start at 0, but the widget's own initial counts are external.
  - The widget's `initial` and `queueInitial` thresholds (src/content-replies-view.js:16-17 and 46-47) are widget internals and are not modelled. The view only passes them on. In the model every write is held in its buffer, and the count reads the full buffer.
- The session singleton is replaced by the `authId` parameter. It stands for the value of `Auth.get('livefyre') && Auth.get('livefyre').get('id')`.
- The `content.on('reply')` subscription itself is not modelled. `OnReplies` stands for a sequence of `reply` events, each handled by `OnReply`.
- Construction of the nested thread view and its recursion into sub-replies are not modelled: the thread view is not part of this model. A reply view is an opaque node carrying its content and inherited settings, so the nest-level boundary is not stated.
- `Array.prototype.sort` is modelled by an insertion sort on an integer key: `createdAt` ascending, or its negation descending. Only the two creation-time comparators exist.
- `Ordering.Sort`: promises sortedness and permutation only, not stability. Equal keys may come in any order under the source's sort.
- The in-place effect of `replies.sort` on the root's reply array is not modelled. Its length, the only thing the counts read, is unaffected.
- The `replies || []` fallback for a null argument is not modelled. `Render`, the only caller, always passes the root's reply sequence.
- Options are integers. `Math.max(0, undefined)`, and counts computed from an undefined `maxVisibleItems`, would be `NaN` and are not modelled.
- `contentViewFactory`, `showMoreButton`, `showQueueButton` and `autoRender` are not modelled. They are handed to collaborators and play no part in placing replies.
- `requirejs.conf.js` is loader and build configuration with no behaviour to model.
