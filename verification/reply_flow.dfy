/**
 * Facts about a run of live replies handled one after another, and about
 * how live handling and lookup fit together.
 */
module ReplyFlow {
  import opened Wrappers
  import opened Contents
  import opened Ordering
  import opened RepliesView

  /**
   * Handles the replies of `rs` in arrival order. Each reply is its own
   * `reply` event, so one whose handler throws leaves the view as it was and
   * the replies after it are still handled. Handling only ever appends: each
   * list of `v` is a prefix of the same list afterwards.
   */
  function OnReplies(v: View, authId: Ident, rs: seq<Content>): (r: View)
    ensures r.cfg == v.cfg && r.contentPosted == v.contentPosted
    ensures v.list.views <= r.list.views
    ensures v.list.more <= r.list.more && v.list.queue <= r.list.queue
    decreases |rs|
  {
    if |rs| == 0 then v
    else
      match OnReply(v, authId, rs[0])
      case Err(_) => OnReplies(v, authId, rs[1..])
      case Ok(v1) => OnReplies(v1, authId, rs[1..])
  }

  /** A reply the view neither discards nor shows straight away. */
  predicate Buffered(v: View, authId: Ident, reply: Content) {
    IsReplyAdded(v, reply) == Ok(false) && !IsContentByAuthor(reply, authId)
  }

  /** A reply by the authenticated user that the view does not discard. */
  predicate SelfPosted(v: View, authId: Ident, reply: Content) {
    IsReplyAdded(v, reply) == Ok(false) && IsContentByAuthor(reply, authId)
  }

  /** The dedup guard reads nothing of the view but the posted author id. */
  lemma GuardDependsOnPostedOnly(v: View, w: View, reply: Content)
    requires v.contentPosted == w.contentPosted
    ensures IsReplyAdded(v, reply) == IsReplyAdded(w, reply)
  {
  }

  /**
   * A reply whose handler throws does not end the run: the replies after it
   * are handled from the view as it was before it.
   */
  lemma ThrowDoesNotStopRun(v: View, authId: Ident, bad: Content, rest: seq<Content>)
    requires OnReply(v, authId, bad).Err?
    ensures OnReplies(v, authId, [bad] + rest) == OnReplies(v, authId, rest)
  {
  }

  /** Handling a run of replies is handling its first, then the rest. */
  lemma OnRepliesCons(v: View, v1: View, authId: Ident, rs: seq<Content>)
    requires |rs| > 0 && OnReply(v, authId, rs[0]) == Ok(v1)
    ensures OnReplies(v, authId, rs) == OnReplies(v1, authId, rs[1..])
  {
  }

  /** Handling one reply keeps the rest of a buffered run buffered. */
  lemma TailStaysBuffered(v: View, v1: View, authId: Ident, rs: seq<Content>)
    requires |rs| > 0 && v1.contentPosted == v.contentPosted
    requires forall i :: 0 <= i < |rs| ==> Buffered(v, authId, rs[i])
    ensures forall i :: 0 <= i < |rs[1..]| ==> Buffered(v1, authId, rs[1..][i])
  {
    forall i | 0 <= i < |rs[1..]|
      ensures Buffered(v1, authId, rs[1..][i])
    {
      assert Buffered(v, authId, rs[i + 1]);
      GuardDependsOnPostedOnly(v, v1, rs[i + 1]);
    }
  }

  /** Handling one reply keeps the rest of a self-posted run self-posted. */
  lemma TailStaysSelfPosted(v: View, v1: View, authId: Ident, rs: seq<Content>)
    requires |rs| > 0 && v1.contentPosted == v.contentPosted
    requires forall i :: 0 <= i < |rs| ==> SelfPosted(v, authId, rs[i])
    ensures forall i :: 0 <= i < |rs[1..]| ==> SelfPosted(v1, authId, rs[1..][i])
  {
    forall i | 0 <= i < |rs[1..]|
      ensures SelfPosted(v1, authId, rs[1..][i])
    {
      assert SelfPosted(v, authId, rs[i + 1]);
      GuardDependsOnPostedOnly(v, v1, rs[i + 1]);
    }
  }

  /** The views of a non-empty run: the first reply's view, then the rest. */
  lemma ViewsOfCons(cfg: Config, s: seq<Content>)
    requires |s| > 0
    ensures ViewsOf(cfg, s) == [CreateReplyView(cfg, s[0])] + ViewsOf(cfg, s[1..])
  {
  }

  /**
   * Replies arriving live, none of them a duplicate or the user's own, are
   * held in arrival order at the back of the one buffer the comparator
   * selects, whose button then shows that buffer's size; nothing else
   * changes (see `Hold`).
   */
  lemma {:induction false} LiveArrivalsKeepOrder(v: View, authId: Ident, rs: seq<Content>)
    requires |rs| > 0
    requires forall i :: 0 <= i < |rs| ==> Buffered(v, authId, rs[i])
    ensures OnReplies(v, authId, rs)
            == v.(list := Hold(v.list, BufferFor(v.cfg.order.comparator), ViewsOf(v.cfg, rs)))
    decreases |rs|
  {
    var b := BufferFor(v.cfg.order.comparator);
    assert Buffered(v, authId, rs[0]);
    var v1 := ArrivalStep(v, authId, rs[0]);
    OnRepliesCons(v, v1, authId, rs);
    ViewsOfCons(v.cfg, rs);
    if |rs| == 1 {
      assert OnReplies(v1, authId, rs[1..]) == v1;
      assert ViewsOf(v.cfg, rs) == [CreateReplyView(v.cfg, rs[0])];
    } else {
      TailStaysBuffered(v, v1, authId, rs);
      LiveArrivalsKeepOrder(v1, authId, rs[1..]);
      HoldTwice(v.list, b, [CreateReplyView(v.cfg, rs[0])], ViewsOf(v.cfg, rs[1..]));
    }
  }

  /** One buffered arrival, stated on its own so the induction above stays small. */
  lemma ArrivalStep(v: View, authId: Ident, reply: Content) returns (v1: View)
    requires Buffered(v, authId, reply)
    ensures OnReply(v, authId, reply) == Ok(v1)
    ensures v1 == v.(list := Hold(v.list, BufferFor(v.cfg.order.comparator), [CreateReplyView(v.cfg, reply)]))
  {
    v1 := OnReply(v, authId, reply).value;
  }

  /** The widget after `vs` are added to the visible list. */
  function Show(l: ListState, vs: seq<ReplyView>): (r: ListState)
    ensures r.views == l.views + vs
    ensures r.more == l.more && r.queue == l.queue
    ensures r.moreCount == l.moreCount && r.queueCount == l.queueCount
  {
    l.(views := l.views + vs)
  }

  /** Showing `xs` and then `ys` is showing `xs + ys` at once. */
  lemma ShowTwice(l: ListState, xs: seq<ReplyView>, ys: seq<ReplyView>)
    ensures Show(Show(l, xs), ys) == Show(l, xs + ys)
  {
    assert l.views + xs + ys == l.views + (xs + ys);
  }

  /**
   * Replies by the authenticated user, none of them a duplicate, are shown in
   * arrival order; neither buffer nor either count changes (see `Show`).
   */
  lemma {:induction false} SelfPostsBypassBuffers(v: View, authId: Ident, rs: seq<Content>)
    requires forall i :: 0 <= i < |rs| ==> SelfPosted(v, authId, rs[i])
    ensures OnReplies(v, authId, rs) == v.(list := Show(v.list, ViewsOf(v.cfg, rs)))
    decreases |rs|
  {
    if |rs| == 0 {
      assert Show(v.list, ViewsOf(v.cfg, rs)) == v.list;
    } else {
      assert SelfPosted(v, authId, rs[0]);
      var v1 := SelfPostStep(v, authId, rs[0]);
      OnRepliesCons(v, v1, authId, rs);
      ViewsOfCons(v.cfg, rs);
      TailStaysSelfPosted(v, v1, authId, rs);
      SelfPostsBypassBuffers(v1, authId, rs[1..]);
      ShowTwice(v.list, [CreateReplyView(v.cfg, rs[0])], ViewsOf(v.cfg, rs[1..]));
    }
  }

  /** One self-posted arrival, stated on its own so the induction above stays small. */
  lemma SelfPostStep(v: View, authId: Ident, reply: Content) returns (v1: View)
    requires SelfPosted(v, authId, reply)
    ensures OnReply(v, authId, reply) == Ok(v1)
    ensures v1 == v.(list := Show(v.list, [CreateReplyView(v.cfg, reply)]))
  {
    v1 := OnReply(v, authId, reply).value;
  }

  /**
   * Every reply the handler accepts is placed exactly once: the views the
   * widget holds, visible or buffered, gain exactly the reply's view.
   */
  lemma OnReplyPlacesOnce(v: View, authId: Ident, reply: Content)
    requires IsReplyAdded(v, reply) == Ok(false)
    ensures OnReply(v, authId, reply).Ok?
    ensures multiset(Placed(OnReply(v, authId, reply).value.list))
            == multiset(Placed(v.list)) + multiset{CreateReplyView(v.cfg, reply)}
  {
    var l := v.list;
    var l1 := OnReply(v, authId, reply).value.list;
    var rv := CreateReplyView(v.cfg, reply);
    if IsContentByAuthor(reply, authId) {
      assert Placed(l1) == l.views + [rv] + l.more + l.queue;
    } else if BufferFor(v.cfg.order.comparator) == MoreBuffer {
      assert Placed(l1) == l.views + (l.more + [rv]) + l.queue;
    } else {
      assert Placed(l1) == l.views + l.more + (l.queue + [rv]);
    }
  }

  /** Live handling keeps every held view one that this view created. */
  lemma OnReplyPreservesWellFormed(v: View, authId: Ident, reply: Content)
    requires WellFormed(v)
    requires OnReply(v, authId, reply).Ok?
    ensures WellFormed(OnReply(v, authId, reply).value)
  {
  }

  /**
   * Once content by some author has been posted, every persisted reply by
   * that author is discarded, however many arrive: the view is unchanged.
   */
  lemma {:induction false} EchoesAreDiscarded(v: View, authId: Ident, rs: seq<Content>)
    requires v.contentPosted.Some?
    requires forall i :: 0 <= i < |rs| ==>
               Truthy(rs[i].id) && rs[i].author == Some(Author(v.contentPosted.value))
    ensures OnReplies(v, authId, rs) == v
    decreases |rs|
  {
    if |rs| > 0 {
      assert IsReplyAdded(v, rs[0]) == Ok(true);
      EchoesAreDiscarded(v, authId, rs[1..]);
    }
  }

  /**
   * The user's own reply, once handled, is found by the lookup: the visible
   * list then holds a view identical to it, so `GetReplyView` does not come
   * back empty.
   */
  lemma SelfPostIsFound(v: View, authId: Ident, reply: Content)
    requires SelfPosted(v, authId, reply)
    ensures OnReply(v, authId, reply).Ok?
    ensures var views := OnReply(v, authId, reply).value.list.views;
            exists i :: 0 <= i < |views| && Identical(views[i].content, reply)
  {
    var views := OnReply(v, authId, reply).value.list.views;
    assert Identical(views[|views| - 1].content, reply);
  }

  /**
   * After a reply is held in the queue, the queue button already shows the
   * queue's size, so a `showMore.hub` event from that button changes nothing.
   */
  lemma QueueRefreshAfterArrival(v: View, authId: Ident, reply: Content, rootReplyCount: nat)
    requires v.cfg.order.comparator != CreatedAtAscending
    requires Buffered(v, authId, reply)
    ensures OnReply(v, authId, reply).Ok?
    ensures var v1 := OnReply(v, authId, reply).value;
            ShowMoreHub(v1, Target(false, true), rootReplyCount) == v1
  {
  }
}
