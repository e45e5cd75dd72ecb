/**
 * The reply flow control of a replies view: which reply goes to the visible
 * list, which to the "more" buffer and which to the "queue" buffer, and the
 * counts shown on the two buttons. The list widget is reduced to three
 * append-only sequences and two recorded counts.
 */
module RepliesView {
  import opened Wrappers
  import opened Contents
  import opened Ordering

  /** What can go wrong: construction without content, or a property read on `undefined`. */
  datatype Error = MissingContent | TypeError

  /** The constructor's `opts`; a field left out is `None`. */
  datatype Options = Options(
    content: Option<Content>,
    maxNestLevel: int,
    nestLevel: int,
    maxVisibleItems: int,
    order: Option<Order>,
    queueInitial: int)

  /** The settings a constructed view keeps. */
  datatype Config = Config(
    content: Content,
    maxNestLevel: nat,
    nestLevel: int,
    maxVisibleItems: int,
    showVisibleItemsAtHead: bool,
    showQueueHeader: bool,
    order: Order,
    queueInitial: int)

  /** A nested thread view for one reply, with the settings handed down to it. */
  datatype ReplyView = ReplyView(
    content: Content,
    maxNestLevel: nat,
    nestLevel: int,
    order: Order,
    maxVisibleItems: int,
    queueInitial: int)

  /** The list widget: visible views, the two held buffers, and each button's count. */
  datatype ListState = ListState(
    views: seq<ReplyView>,
    more: seq<ReplyView>,
    queue: seq<ReplyView>,
    moreCount: int,
    queueCount: int)

  /** A replies view. `contentPosted` is the author id of content posted from outside, if any. */
  datatype View = View(cfg: Config, list: ListState, contentPosted: Option<Ident>)

  /** The two buffers a reply can be held in. */
  datatype Buffer = MoreBuffer | QueueBuffer

  /** The element a `showMore.hub` event came from, by the two class markers it carries. */
  datatype Target = Target(hasShowMoreClass: bool, hasShowQueueClass: bool)

  /** The larger of `a` and `b`, as `Math.max` gives it for two integers. */
  function Max(a: int, b: int): (m: int)
    ensures m >= a && m >= b
    ensures m == a || m == b
  {
    if a < b then b else a
  }

  /** The constructor: fails without content, and reads `opts.order` unguarded. */
  function Construct(opts: Option<Options>): (r: Result<View, Error>)
    ensures opts.None? || opts.value.content.None? <==> r == Err(MissingContent)
    ensures r.Ok? <==> opts.Some? && opts.value.content.Some? && opts.value.order.Some?
    ensures r.Ok? ==>
              && r.value.cfg.content == opts.value.content.value
              && r.value.cfg.maxNestLevel >= 0
              && r.value.cfg.maxNestLevel >= opts.value.maxNestLevel
              && (r.value.cfg.maxNestLevel == 0 || r.value.cfg.maxNestLevel == opts.value.maxNestLevel)
              && r.value.cfg.showQueueHeader == r.value.cfg.showVisibleItemsAtHead
                 == opts.value.order.value.showVisibleItemsAtHead
              && r.value.cfg.nestLevel == opts.value.nestLevel
              && r.value.cfg.maxVisibleItems == opts.value.maxVisibleItems
              && r.value.cfg.order == opts.value.order.value
              && r.value.cfg.queueInitial == opts.value.queueInitial
              && r.value.list.views == r.value.list.more == r.value.list.queue == []
              && r.value.list.moreCount == r.value.list.queueCount == 0
              && r.value.contentPosted.None?
  {
    if opts.None? || opts.value.content.None? then Err(MissingContent)
    else if opts.value.order.None? then Err(TypeError)
    else
      var o := opts.value;
      var head := o.order.value.showVisibleItemsAtHead;
      var cfg := Config(o.content.value, Max(0, o.maxNestLevel), o.nestLevel, o.maxVisibleItems,
                        head, head, o.order.value, o.queueInitial);
      Ok(View(cfg, ListState([], [], [], 0, 0), None))
  }

  /** The buffer a live reply is held in: "more" exactly for the ascending comparator. */
  function BufferFor(cmp: Comparator): (b: Buffer)
    ensures b == MoreBuffer <==> cmp == CreatedAtAscending
    ensures b == QueueBuffer <==> cmp != CreatedAtAscending
  {
    if cmp == CreatedAtAscending then MoreBuffer else QueueBuffer
  }

  /** The items held in buffer `b`. */
  function Held(l: ListState, b: Buffer): seq<ReplyView> {
    match b
    case MoreBuffer => l.more
    case QueueBuffer => l.queue
  }

  /** The count shown on the button of buffer `b`. */
  function Count(l: ListState, b: Buffer): int {
    match b
    case MoreBuffer => l.moreCount
    case QueueBuffer => l.queueCount
  }

  /** The other buffer. */
  function Other(b: Buffer): Buffer {
    match b
    case MoreBuffer => QueueBuffer
    case QueueBuffer => MoreBuffer
  }

  /** Appends a view at the back of buffer `b` (`pushMore` / `pushQueue`). */
  function Push(l: ListState, b: Buffer, rv: ReplyView): (r: ListState)
    ensures Held(r, b) == Held(l, b) + [rv]
    ensures Held(r, Other(b)) == Held(l, Other(b))
    ensures Count(r, Other(b)) == Count(l, Other(b)) && Count(r, b) == Count(l, b)
    ensures r.views == l.views
  {
    match b
    case MoreBuffer => l.(more := l.more + [rv])
    case QueueBuffer => l.(queue := l.queue + [rv])
  }

  /** Sets the count on the button of buffer `b` (`setCount`). */
  function SetCount(l: ListState, b: Buffer, n: int): (r: ListState)
    ensures Count(r, b) == n
    ensures Count(r, Other(b)) == Count(l, Other(b))
    ensures r.views == l.views && r.more == l.more && r.queue == l.queue
  {
    match b
    case MoreBuffer => l.(moreCount := n)
    case QueueBuffer => l.(queueCount := n)
  }

  /**
   * The widget after `vs` are written at the back of buffer `b` and that
   * buffer's button is set to the buffer's new size.
   */
  function Hold(l: ListState, b: Buffer, vs: seq<ReplyView>): (r: ListState)
    ensures Held(r, b) == Held(l, b) + vs
    ensures Count(r, b) == |Held(r, b)|
    ensures Held(r, Other(b)) == Held(l, Other(b)) && Count(r, Other(b)) == Count(l, Other(b))
    ensures r.views == l.views
  {
    match b
    case MoreBuffer => l.(more := l.more + vs, moreCount := |l.more| + |vs|)
    case QueueBuffer => l.(queue := l.queue + vs, queueCount := |l.queue| + |vs|)
  }

  /** Writing two runs one after the other is writing their concatenation. */
  lemma HoldTwice(l: ListState, b: Buffer, xs: seq<ReplyView>, ys: seq<ReplyView>)
    ensures Hold(Hold(l, b, xs), b, ys) == Hold(l, b, xs + ys)
  {
    assert Held(l, b) + xs + ys == Held(l, b) + (xs + ys);
  }

  /**
   * The dedup guard: the reply is taken as already shown when it has a truthy
   * id and some posted content's author id is the reply's author id. Reading
   * the author id of a reply without an author throws.
   */
  function IsReplyAdded(v: View, reply: Content): (r: Result<bool, Error>)
    ensures r == Ok(true) <==>
              && Truthy(reply.id) && v.contentPosted.Some? && reply.author.Some?
              && v.contentPosted.value == reply.author.value.id
    ensures r.Err? <==> Truthy(reply.id) && v.contentPosted.Some? && reply.author.None?
    ensures r.Err? ==> r.error == TypeError
  {
    if Truthy(reply.id) && v.contentPosted.Some? then
      if reply.author.None? then Err(TypeError)
      else Ok(v.contentPosted.value == reply.author.value.id)
    else Ok(false)
  }

  /**
   * The reply is by the authenticated user. `authId` is the authenticated
   * user's id as the session reports it (`Undefined` or `Null` when nobody is
   * signed in); a reply without an author is never by that user.
   */
  predicate IsContentByAuthor(reply: Content, authId: Ident)
    ensures IsContentByAuthor(reply, authId) ==> reply.author.Some?
  {
    reply.author.Some? && reply.author.value.id == authId
  }

  /** The nested view for a reply: every setting is handed down unchanged, the nest level included. */
  function CreateReplyView(cfg: Config, c: Content): (rv: ReplyView)
    ensures Inherits(cfg, rv) && rv.content == c
  {
    ReplyView(c, cfg.maxNestLevel, cfg.nestLevel, cfg.order, cfg.maxVisibleItems, cfg.queueInitial)
  }

  /** A nested view carries the settings of the view that created it. */
  predicate Inherits(cfg: Config, rv: ReplyView) {
    && rv.maxNestLevel == cfg.maxNestLevel
    && rv.nestLevel == cfg.nestLevel
    && rv.order == cfg.order
    && rv.maxVisibleItems == cfg.maxVisibleItems
    && rv.queueInitial == cfg.queueInitial
  }

  /** Every view the widget holds, visible or buffered, was created by this view. */
  predicate WellFormed(v: View) {
    && (forall i :: 0 <= i < |v.list.views| ==> Inherits(v.cfg, v.list.views[i]))
    && (forall i :: 0 <= i < |v.list.more| ==> Inherits(v.cfg, v.list.more[i]))
    && (forall i :: 0 <= i < |v.list.queue| ==> Inherits(v.cfg, v.list.queue[i]))
  }

  /** Every view in the widget, visible ones first. */
  function Placed(l: ListState): seq<ReplyView> {
    l.views + l.more + l.queue
  }

  /** The reply handler (`_onReply`). */
  function OnReply(v: View, authId: Ident, reply: Content): (r: Result<View, Error>)
    ensures r.Err? <==> IsReplyAdded(v, reply).Err?
    ensures r.Ok? ==> r.value.cfg == v.cfg && r.value.contentPosted == v.contentPosted
    // a duplicate changes nothing
    ensures IsReplyAdded(v, reply) == Ok(true) ==> r == Ok(v)
    // the authenticated user's own reply goes to the visible list only
    ensures IsReplyAdded(v, reply) == Ok(false) && IsContentByAuthor(reply, authId) ==>
              && r.Ok?
              && r.value.list.views == v.list.views + [CreateReplyView(v.cfg, reply)]
              && r.value.list.more == v.list.more && r.value.list.queue == v.list.queue
              && r.value.list.moreCount == v.list.moreCount
              && r.value.list.queueCount == v.list.queueCount
    // any other reply goes to the back of exactly one buffer, whose button shows its new size
    ensures IsReplyAdded(v, reply) == Ok(false) && !IsContentByAuthor(reply, authId) ==>
              var b := BufferFor(v.cfg.order.comparator);
              && r.Ok?
              && Held(r.value.list, b) == Held(v.list, b) + [CreateReplyView(v.cfg, reply)]
              && Count(r.value.list, b) == |Held(r.value.list, b)|
              && Held(r.value.list, Other(b)) == Held(v.list, Other(b))
              && Count(r.value.list, Other(b)) == Count(v.list, Other(b))
              && r.value.list.views == v.list.views
  {
    match IsReplyAdded(v, reply)
    case Err(e) => Err(e)
    case Ok(added) =>
      if added then Ok(v)
      else
        var b := BufferFor(v.cfg.order.comparator);
        var rv := CreateReplyView(v.cfg, reply);
        if IsContentByAuthor(reply, authId) then
          Ok(v.(list := v.list.(views := v.list.views + [rv])))
        else
          var pushed := Push(v.list, b, rv);
          Ok(v.(list := SetCount(pushed, b, |Held(pushed, b)|)))
  }

  /** The views created for `cs`, in the same order. */
  function ViewsOf(cfg: Config, cs: seq<Content>): (vs: seq<ReplyView>)
    ensures |vs| == |cs|
    ensures forall i :: 0 <= i < |cs| ==> vs[i] == CreateReplyView(cfg, cs[i])
  {
    seq(|cs|, i requires 0 <= i < |cs| => CreateReplyView(cfg, cs[i]))
  }

  /** The content items the views `vs` show, in the same order. */
  function ContentsOf(vs: seq<ReplyView>): (cs: seq<Content>)
    ensures |cs| == |vs|
    ensures forall i :: 0 <= i < |vs| ==> cs[i] == vs[i].content
  {
    seq(|vs|, i requires 0 <= i < |vs| => vs[i].content)
  }

  /**
   * The order in which bulk population writes the replies into "more": the
   * sorted replies, last first unless the queue header is shown.
   */
  function BulkOrder(cmp: Comparator, showQueueHeader: bool, replies: seq<Content>): (r: seq<Content>)
    ensures multiset(r) == multiset(replies)
    ensures showQueueHeader ==> SortedBy(cmp, r) && r == Sort(cmp, replies)
    ensures !showQueueHeader ==> SortedAgainst(cmp, r) && Reverse(r) == Sort(cmp, replies)
  {
    var sorted := Sort(cmp, replies);
    if showQueueHeader then sorted
    else
      ReversePermutes(sorted);
      ReverseSorted(cmp, sorted);
      assert Reverse(Reverse(sorted)) == sorted;
      Reverse(sorted)
  }

  /** Extending the created prefix by one reply appends that reply's view. */
  lemma ViewsOfSnoc(cfg: Config, s: seq<Content>, k: nat)
    requires k < |s|
    ensures ViewsOf(cfg, s[..k + 1]) == ViewsOf(cfg, s[..k]) + [CreateReplyView(cfg, s[k])]
  {
  }

  /** Writes the views of `sorted` into "more", last item first (the descending loop of `_addReplies`). */
  method PushMoreReversed(l: ListState, cfg: Config, sorted: seq<Content>) returns (r: ListState)
    ensures r == l.(more := l.more + ViewsOf(cfg, Reverse(sorted)))
  {
    var n := |sorted|;
    var block := Reverse(sorted);
    r := l;
    var i := n - 1;
    while i > -1
      invariant -1 <= i < n
      invariant r == l.(more := l.more + ViewsOf(cfg, block[..n - 1 - i]))
    {
      ViewsOfSnoc(cfg, block, n - 1 - i);
      r := Push(r, MoreBuffer, CreateReplyView(cfg, sorted[i]));
      i := i - 1;
    }
    assert block[..n] == block;
  }

  /** Writes the views of `sorted` into "more", first item first (the ascending loop of `_addReplies`). */
  method PushMoreForward(l: ListState, cfg: Config, sorted: seq<Content>) returns (r: ListState)
    ensures r == l.(more := l.more + ViewsOf(cfg, sorted))
  {
    var n := |sorted|;
    r := l;
    var i := 0;
    while i < n
      invariant 0 <= i <= n
      invariant r == l.(more := l.more + ViewsOf(cfg, sorted[..i]))
    {
      ViewsOfSnoc(cfg, sorted, i);
      r := Push(r, MoreBuffer, CreateReplyView(cfg, sorted[i]));
      i := i + 1;
    }
    assert sorted[..n] == sorted;
  }

  /**
   * Bulk population (`_addReplies`): writes every reply, sorted, into "more"
   * one at a time, and sets the "more" count to the number of the root's
   * replies beyond the visible window, without clamping at zero. The root's
   * reply array belongs to the content collaborator and may have grown since
   * construction, so its current length is `rootReplyCount`.
   */
  method AddReplies(v: View, replies: seq<Content>, rootReplyCount: nat) returns (r: View)
    ensures r.cfg == v.cfg && r.contentPosted == v.contentPosted
    ensures r.list.views == v.list.views
    ensures r.list.queue == v.list.queue && r.list.queueCount == v.list.queueCount
    ensures r.list.more == v.list.more + ViewsOf(v.cfg, BulkOrder(v.cfg.order.comparator, v.cfg.showQueueHeader, replies))
    ensures multiset(ContentsOf(r.list.more)) == multiset(ContentsOf(v.list.more)) + multiset(replies)
    ensures r.list.moreCount == rootReplyCount - v.cfg.maxVisibleItems
    ensures WellFormed(v) ==> WellFormed(r)
  {
    var cfg := v.cfg;
    var sorted := Sort(cfg.order.comparator, replies);
    var l;
    if !cfg.showQueueHeader {
      l := PushMoreReversed(v.list, cfg, sorted);
    } else {
      l := PushMoreForward(v.list, cfg, sorted);
    }
    l := SetCount(l, MoreBuffer, rootReplyCount - cfg.maxVisibleItems);
    var block := BulkOrder(cfg.order.comparator, cfg.showQueueHeader, replies);
    assert l.more == v.list.more + ViewsOf(cfg, block);
    ContentsOfAppend(v.list.more, ViewsOf(cfg, block));
    ContentsOfViews(cfg, block);
    r := v.(list := l);
    WellFormedAfterBulk(v, r, block);
  }

  /** The contents of two runs of views, one after the other. */
  lemma ContentsOfAppend(a: seq<ReplyView>, b: seq<ReplyView>)
    ensures ContentsOf(a + b) == ContentsOf(a) + ContentsOf(b)
  {
  }

  /** The views created for some items show exactly those items, in order. */
  lemma ContentsOfViews(cfg: Config, cs: seq<Content>)
    ensures ContentsOf(ViewsOf(cfg, cs)) == cs
  {
  }

  /** Appending views this view created to "more" keeps every held view one it created. */
  lemma WellFormedAfterBulk(v: View, r: View, block: seq<Content>)
    requires r.cfg == v.cfg && r.list.views == v.list.views && r.list.queue == v.list.queue
    requires r.list.more == v.list.more + ViewsOf(v.cfg, block)
    ensures WellFormed(v) ==> WellFormed(r)
  {
    if WellFormed(v) {
      forall i | 0 <= i < |r.list.more|
        ensures Inherits(r.cfg, r.list.more[i])
      {
        if i >= |v.list.more| {
          assert r.list.more[i] == CreateReplyView(v.cfg, block[i - |v.list.more|]);
        }
      }
    }
  }

  /**
   * Rendering populates the view from the root content's reply array as it
   * stands when `render` runs; the same array gives the count.
   */
  method Render(v: View, rootReplies: seq<Content>) returns (r: View)
    ensures r.cfg == v.cfg && r.contentPosted == v.contentPosted
    ensures r.list.views == v.list.views
    ensures r.list.queue == v.list.queue && r.list.queueCount == v.list.queueCount
    ensures r.list.more == v.list.more + ViewsOf(v.cfg, BulkOrder(v.cfg.order.comparator, v.cfg.showQueueHeader, rootReplies))
    ensures multiset(ContentsOf(r.list.more)) == multiset(ContentsOf(v.list.more)) + multiset(rootReplies)
    ensures r.list.moreCount == |rootReplies| - v.cfg.maxVisibleItems
    ensures |rootReplies| < v.cfg.maxVisibleItems ==> r.list.moreCount < 0
  {
    r := AddReplies(v, rootReplies, |rootReplies|);
  }

  /**
   * The `showMore.hub` handler: refreshes the count of the button the event
   * came from. The "more" button shows how many of the root's replies, as
   * many as `rootReplyCount` at the time of the event, are not held in
   * "more"; the "queue" button shows the queue's size.
   */
  function ShowMoreHub(v: View, t: Target, rootReplyCount: nat): (r: View)
    ensures r.cfg == v.cfg && r.contentPosted == v.contentPosted
    ensures r.list.views == v.list.views && r.list.more == v.list.more && r.list.queue == v.list.queue
    ensures t.hasShowMoreClass ==>
              r.list.moreCount + |r.list.more| == rootReplyCount && r.list.queueCount == v.list.queueCount
    ensures !t.hasShowMoreClass && t.hasShowQueueClass ==>
              r.list.queueCount == |r.list.queue| && r.list.moreCount == v.list.moreCount
    ensures !t.hasShowMoreClass && !t.hasShowQueueClass ==> r == v
  {
    if t.hasShowMoreClass then
      v.(list := SetCount(v.list, MoreBuffer, rootReplyCount - |v.list.more|))
    else if t.hasShowQueueClass then
      v.(list := SetCount(v.list, QueueBuffer, |v.list.queue|))
    else v
  }

  /** The first visible view that shows exactly `reply` (`getReplyView`). */
  method GetReplyView(v: View, reply: Content) returns (r: Option<ReplyView>)
    ensures r.None? <==> forall i :: 0 <= i < |v.list.views| ==> !Identical(v.list.views[i].content, reply)
    ensures r.Some? ==>
              exists i :: 0 <= i < |v.list.views| && v.list.views[i] == r.value
                          && Identical(v.list.views[i].content, reply)
                          && forall j :: 0 <= j < i ==> !Identical(v.list.views[j].content, reply)
  {
    var views := v.list.views;
    var i := 0;
    while i < |views|
      invariant 0 <= i <= |views|
      invariant forall j :: 0 <= j < i ==> !Identical(views[j].content, reply)
    {
      if Identical(views[i].content, reply) {
        return Some(views[i]);
      }
      i := i + 1;
    }
    return None;
  }
}
