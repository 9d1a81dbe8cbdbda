/**
 * `_build_user_context`: turns one page of raw history messages into the
 * user turns of the target member, in page order.
 */
module ContextBuilder {
  import opened Wrappers
  import opened Text

  /** One content segment of a message: a "text" segment with its text, or any other type. */
  datatype Segment = Text(text: string) | Other

  /**
   * A history record as the gateway returns it. `sender` is the sender's
   * `user_id` (None when the record has no sender or no user id), `messageId`
   * is its `message_id` (None when the key is absent).
   */
  datatype RawMessage = RawMessage(sender: Option<int>, messageId: Option<int>, segments: seq<Segment>)

  /** One record `{"role": ..., "content": ...}` handed to the language model. */
  datatype Turn = Turn(role: string, content: string)

  const UserRole := "user"

  /** The texts of the "text" segments, joined in order with no separator. */
  function JoinText(segs: seq<Segment>): (r: string)
  {
    if segs == [] then ""
    else JoinText(segs[..|segs| - 1]) + (match segs[|segs| - 1] case Text(t) => t case Other => "")
  }

  /** Joining a concatenation of segment lists joins the two halves. */
  lemma {:induction false} JoinTextAppend(a: seq<Segment>, b: seq<Segment>)
    ensures JoinText(a + b) == JoinText(a) + JoinText(b)
  {
    if b != [] {
      assert (a + b)[..|a + b| - 1] == a + b[..|b| - 1];
      JoinTextAppend(a, b[..|b| - 1]);
    } else {
      assert a + b == a;
    }
  }

  /** A single text segment joins to its own text. */
  lemma JoinTextSingle(t: string)
    ensures JoinText([Text(t)]) == t
  {
  }

  /** A message with no "text" segment joins to the empty string. */
  lemma {:induction false} JoinTextWithoutText(segs: seq<Segment>)
    requires forall k :: 0 <= k < |segs| ==> segs[k].Other?
    ensures JoinText(segs) == ""
  {
    if segs != [] {
      JoinTextWithoutText(segs[..|segs| - 1]);
    }
  }

  /** The text a message contributes: its joined text, stripped. */
  function Content(m: RawMessage): (text: string)
  {
    Strip(JoinText(m.segments))
  }

  /** Whether a message yields a turn: sent by `target` and saying something after stripping. */
  predicate Kept(m: RawMessage, target: int)
  {
    m.sender == Some(target) && Content(m) != ""
  }

  /** The turns of the messages of `page` sent by `target`, in page order. */
  function BuildUserContext(page: seq<RawMessage>, target: int): (r: seq<Turn>)
    ensures |r| <= |page|
  {
    if page == [] then []
    else
      var m := page[|page| - 1];
      BuildUserContext(page[..|page| - 1], target)
        + (if Kept(m, target) then [Turn(UserRole, Content(m))] else [])
  }

  /** Building over two consecutive stretches of a page gives the two results one after the other. */
  lemma {:induction false} BuildAppend(a: seq<RawMessage>, b: seq<RawMessage>, target: int)
    ensures BuildUserContext(a + b, target) == BuildUserContext(a, target) + BuildUserContext(b, target)
  {
    if b != [] {
      assert (a + b)[..|a + b| - 1] == a + b[..|b| - 1];
      BuildAppend(a, b[..|b| - 1], target);
    } else {
      assert a + b == a;
    }
  }

  /** The positions in `page` of the messages that yield a turn, in increasing order. */
  function KeptPositions(page: seq<RawMessage>, target: int): (idx: seq<nat>)
  {
    if page == [] then []
    else KeptPositions(page[..|page| - 1], target) + (if Kept(page[|page| - 1], target) then [|page| - 1] else [])
  }

  predicate Increasing(idx: seq<nat>)
  {
    forall k, l :: 0 <= k < l < |idx| ==> idx[k] < idx[l]
  }

  /** Every listed position lies in `page` and holds a kept message. */
  predicate AllKept(idx: seq<nat>, page: seq<RawMessage>, target: int)
  {
    forall k :: 0 <= k < |idx| ==> idx[k] < |page| && Kept(page[idx[k]], target)
  }

  lemma IncreasingSnoc(idx: seq<nat>, n: nat)
    requires Increasing(idx)
    requires forall k :: 0 <= k < |idx| ==> idx[k] < n
    ensures Increasing(idx + [n])
  {
  }

  /** The positions are strictly increasing, all within the page, and all of kept messages. */
  lemma {:induction false} KeptPositionsSound(page: seq<RawMessage>, target: int)
    ensures Increasing(KeptPositions(page, target))
    ensures AllKept(KeptPositions(page, target), page, target)
  {
    if page != [] {
      var n := |page| - 1;
      var init := page[..n];
      KeptPositionsSound(init, target);
      var pre := KeptPositions(init, target);
      var idx := KeptPositions(page, target);
      assert forall k :: 0 <= k < |pre| ==> pre[k] < n;
      if Kept(page[n], target) {
        IncreasingSnoc(pre, n);
        assert idx == pre + [n];
      } else {
        assert idx == pre;
      }
      forall k | 0 <= k < |idx| ensures idx[k] < |page| && Kept(page[idx[k]], target) {
        if k < |pre| {
          assert idx[k] == pre[k] && page[pre[k]] == init[pre[k]];
        }
      }
    }
  }

  /** Every kept message of the page has its position listed. */
  lemma {:induction false} KeptPositionsComplete(page: seq<RawMessage>, target: int)
    ensures forall i :: 0 <= i < |page| && Kept(page[i], target) ==> i in KeptPositions(page, target)
  {
    if page != [] {
      var n := |page| - 1;
      var init := page[..n];
      KeptPositionsComplete(init, target);
      var idx := KeptPositions(page, target);
      forall i | 0 <= i < |page| && Kept(page[i], target) ensures i in idx {
        if i < n {
          assert init[i] == page[i];
          assert i in KeptPositions(init, target);
        }
      }
    }
  }

  /** Turn `k` of the result is the turn of the message at the `k`-th kept position. */
  lemma {:induction false} BuildFollowsKeptPositions(page: seq<RawMessage>, target: int)
    ensures |KeptPositions(page, target)| == |BuildUserContext(page, target)|
    ensures forall k :: 0 <= k < |BuildUserContext(page, target)| ==>
      KeptPositions(page, target)[k] < |page| &&
      BuildUserContext(page, target)[k] == Turn(UserRole, Content(page[KeptPositions(page, target)[k]]))
  {
    if page != [] {
      var n := |page| - 1;
      var init := page[..n];
      BuildFollowsKeptPositions(init, target);
      var pre := KeptPositions(init, target);
      var idx := KeptPositions(page, target);
      var r0 := BuildUserContext(init, target);
      var r := BuildUserContext(page, target);
      forall k | 0 <= k < |r0| ensures idx[k] == pre[k] < n && r[k] == r0[k] && page[pre[k]] == init[pre[k]] {
      }
    }
  }

  /**
   * The result is exactly the kept messages of the page, in page order: there are
   * strictly increasing positions `idx` of kept messages, every kept message's
   * position is among them, and turn `k` is the user turn of message `idx[k]`.
   */
  lemma BuildIsOrderedSelection(page: seq<RawMessage>, target: int) returns (idx: seq<nat>)
    ensures |idx| == |BuildUserContext(page, target)|
    ensures AllKept(idx, page, target)
    ensures Increasing(idx)
    ensures forall k :: 0 <= k < |idx| ==>
      BuildUserContext(page, target)[k] == Turn(UserRole, Content(page[idx[k]]))
    ensures forall i :: 0 <= i < |page| && Kept(page[i], target) ==> i in idx
  {
    idx := KeptPositions(page, target);
    KeptPositionsSound(page, target);
    KeptPositionsComplete(page, target);
    BuildFollowsKeptPositions(page, target);
  }

  /**
   * Every turn is a user turn whose content is non-empty stripped text, and the turns
   * are never more than the messages of the page.
   */
  lemma BuildShape(page: seq<RawMessage>, target: int)
    ensures |BuildUserContext(page, target)| <= |page|
    ensures forall k :: 0 <= k < |BuildUserContext(page, target)| ==>
      var t := BuildUserContext(page, target)[k];
      t.role == UserRole && t.content != "" && Strip(t.content) == t.content
  {
    var idx := BuildIsOrderedSelection(page, target);
    var r := BuildUserContext(page, target);
    forall k | 0 <= k < |r| ensures r[k].role == UserRole && r[k].content != "" && Strip(r[k].content) == r[k].content {
      StripIdempotent(JoinText(page[idx[k]].segments));
    }
  }

  /** A page whose every message is kept yields one turn per message. */
  lemma {:induction false} BuildAllKept(page: seq<RawMessage>, target: int)
    requires forall k :: 0 <= k < |page| ==> Kept(page[k], target)
    ensures |BuildUserContext(page, target)| == |page|
  {
    if page != [] {
      BuildAllKept(page[..|page| - 1], target);
    }
  }

  /** A message that is not kept (from someone else, or the target's with blank text) contributes nothing, wherever it stands. */
  lemma DroppedMessageContributesNothing(pre: seq<RawMessage>, m: RawMessage, post: seq<RawMessage>, target: int)
    requires !Kept(m, target)
    ensures BuildUserContext(pre + [m] + post, target) == BuildUserContext(pre + post, target)
  {
    BuildAppend(pre + [m], post, target);
    BuildAppend(pre, [m], target);
    BuildAppend(pre, post, target);
    assert BuildUserContext([m], target) == [] by {
      assert [m][..0] == [];
    }
  }

  /** A message without any "text" segment (an image, a mention) is never kept. */
  lemma NoTextNotKept(m: RawMessage, target: int)
    requires forall k :: 0 <= k < |m.segments| ==> m.segments[k].Other?
    ensures !Kept(m, target)
  {
    JoinTextWithoutText(m.segments);
  }

  /** A message whose text is only whitespace is never kept. */
  lemma BlankTextNotKept(m: RawMessage, target: int)
    requires AllSpace(JoinText(m.segments))
    ensures !Kept(m, target)
  {
    StripEmptyIffAllSpace(JoinText(m.segments));
  }

  /** A message from the target with visible text becomes exactly one turn holding its stripped text. */
  lemma KeptMessageContributesItsTurn(pre: seq<RawMessage>, m: RawMessage, post: seq<RawMessage>, target: int)
    requires m.sender == Some(target) && !AllSpace(JoinText(m.segments))
    ensures BuildUserContext(pre + [m] + post, target)
      == BuildUserContext(pre, target) + [Turn(UserRole, Strip(JoinText(m.segments)))] + BuildUserContext(post, target)
  {
    StripEmptyIffAllSpace(JoinText(m.segments));
    BuildAppend(pre + [m], post, target);
    BuildAppend(pre, [m], target);
    assert [m][..0] == [];
  }
}
