/** The queue of delayed messages: each message is addressed to a widget and
    is due at an absolute time; the queue is kept ordered by how far in the
    future each message is due, measured from the current time. */
module Messages {

  /** Widgets are identified by their address in the editor. */
  type WidgetId = nat

  datatype Message = Message(wid: WidgetId, s: string, t: int)

  /** How long until `m` is due, seen from time `cur`. */
  function Delay(m: Message, cur: int): int {
    m.t - cur
  }

  predicate SortedByDelay(l: seq<Message>, cur: int) {
    forall i, j :: 0 <= i < j < |l| ==> Delay(l[i], cur) <= Delay(l[j], cur)
  }

  /** Inserts a message for `wid` with text `s`, due at `t`, in front of the
      first queued message that is due no earlier than it. */
  function InsertMessage(l: seq<Message>, wid: WidgetId, s: string, cur: int, t: int): (r: seq<Message>)
    ensures |r| == |l| + 1
    ensures Message(wid, s, t) in r
    decreases |l|
  {
    if |l| == 0 then [Message(wid, s, t)]
    else if t - cur <= l[0].t - cur then [Message(wid, s, t)] + l
    else [l[0]] + InsertMessage(l[1..], wid, s, cur, t)
  }

  /** Reference definition of where a message due at `t` belongs: the
      index of the first queued message that is due no earlier than it. Every
      message before that index is due strictly earlier. */
  function InsertionIndex(l: seq<Message>, cur: int, t: int): (i: nat)
    ensures i <= |l|
    ensures forall j :: 0 <= j < i ==> Delay(l[j], cur) < t - cur
    ensures i < |l| ==> t - cur <= Delay(l[i], cur)
    decreases |l|
  {
    if |l| == 0 || t - cur <= Delay(l[0], cur) then 0
    else
      var k := InsertionIndex(l[1..], cur, t);
      assert forall j :: 1 <= j < k + 1 ==> l[j] == l[1..][j - 1];
      k + 1
  }

  /** Putting `x` in front of `tail` with `m` spliced in at `k` is the same as
      splicing `m` into `[x] + tail` at `k + 1`. */
  lemma ConsSplice(x: Message, tail: seq<Message>, m: Message, k: nat)
    requires k <= |tail|
    ensures [x] + (tail[..k] + [m] + tail[k..]) == ([x] + tail)[..k + 1] + [m] + ([x] + tail)[k + 1..]
  {
    assert ([x] + tail)[..k + 1] == [x] + tail[..k];
    assert ([x] + tail)[k + 1..] == tail[k..];
  }

  /** The new message lands exactly at `InsertionIndex`, with the old
      messages in their original order on either side of it. */
  lemma {:induction false} InsertMessageSplits(l: seq<Message>, wid: WidgetId, s: string, cur: int, t: int)
    ensures var i := InsertionIndex(l, cur, t);
      InsertMessage(l, wid, s, cur, t) == l[..i] + [Message(wid, s, t)] + l[i..]
    decreases |l|
  {
    if |l| == 0 || t - cur <= Delay(l[0], cur) {
      assert InsertionIndex(l, cur, t) == 0;
    } else {
      var tail := l[1..];
      var k := InsertionIndex(tail, cur, t);
      assert InsertionIndex(l, cur, t) == k + 1;
      assert InsertMessage(l, wid, s, cur, t) == [l[0]] + InsertMessage(tail, wid, s, cur, t);
      InsertMessageSplits(tail, wid, s, cur, t);
      ConsSplice(l[0], tail, Message(wid, s, t), k);
      assert [l[0]] + tail == l;
    }
  }

  /** The result is a permutation of the old queue plus the new message. */
  lemma InsertMessagePermutation(l: seq<Message>, wid: WidgetId, s: string, cur: int, t: int)
    ensures multiset(InsertMessage(l, wid, s, cur, t)) == multiset(l) + multiset{Message(wid, s, t)}
  {
    InsertMessageSplits(l, wid, s, cur, t);
    var i := InsertionIndex(l, cur, t);
    assert l == l[..i] + l[i..];
  }

  /** Element `k` of `l` with `m` spliced in at index `i`. */
  lemma SplicedAt(l: seq<Message>, m: Message, i: nat, k: nat)
    requires i <= |l| && k <= |l|
    ensures (l[..i] + [m] + l[i..])[k] == if k < i then l[k] else if k == i then m else l[k - 1]
  {
  }

  /** Inserting into a queue sorted by delay keeps it sorted. */
  lemma {:induction false} InsertMessageSorted(l: seq<Message>, wid: WidgetId, s: string, cur: int, t: int)
    requires SortedByDelay(l, cur)
    ensures SortedByDelay(InsertMessage(l, wid, s, cur, t), cur)
  {
    InsertMessageSplits(l, wid, s, cur, t);
    var m := Message(wid, s, t);
    var i := InsertionIndex(l, cur, t);
    var r := l[..i] + [m] + l[i..];
    forall a, b | 0 <= a < b < |r| ensures Delay(r[a], cur) <= Delay(r[b], cur) {
      SplicedAt(l, m, i, a);
      SplicedAt(l, m, i, b);
      if a == i && i < b - 1 {
        assert Delay(l[i], cur) <= Delay(l[b - 1], cur);
      }
    }
  }

  /** Delays are all measured from the same `cur`, so the order, and with it
      the insertion, does not depend on the current time at all. */
  lemma {:induction false} InsertMessageIgnoresCurrentTime(l: seq<Message>, wid: WidgetId, s: string, cur: int, cur': int, t: int)
    ensures InsertMessage(l, wid, s, cur, t) == InsertMessage(l, wid, s, cur', t)
    decreases |l|
  {
    if |l| > 0 && !(t - cur <= l[0].t - cur) {
      InsertMessageIgnoresCurrentTime(l[1..], wid, s, cur, cur', t);
    }
  }

  /** Queues `s` for `wid` to be delivered `delay` after the current time
      `now`: the old messages keep their order, the new one goes at its
      insertion index, and a queue sorted by delay stays sorted. */
  function DelayedMessage(queue: seq<Message>, wid: WidgetId, s: string, now: int, delay: int): (r: seq<Message>)
    ensures var i := InsertionIndex(queue, now, now + delay);
      r == queue[..i] + [Message(wid, s, now + delay)] + queue[i..]
    ensures multiset(r) == multiset(queue) + multiset{Message(wid, s, now + delay)}
    ensures SortedByDelay(queue, now) ==> SortedByDelay(r, now)
  {
    var t := now + delay;
    InsertMessageSplits(queue, wid, s, now, t);
    InsertMessagePermutation(queue, wid, s, now, t);
    var r := InsertMessage(queue, wid, s, now, t);
    if SortedByDelay(queue, now) then InsertMessageSorted(queue, wid, s, now, t); r else r
  }
}
