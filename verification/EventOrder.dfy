/** The order in which the bounded replay and normalization entry points take their
    input: `sorted` by receive time, receive sequence and event id. */
module EventOrder {
  import opened Common
  import Sorting

  predicate Before<P>(a: RawEvent<P>, b: RawEvent<P>) {
    || a.receiveTsNs < b.receiveTsNs
    || (a.receiveTsNs == b.receiveTsNs && a.receiveSequence < b.receiveSequence)
    || (a.receiveTsNs == b.receiveTsNs && a.receiveSequence == b.receiveSequence && a.eventId < b.eventId)
  }

  predicate NotAfter<P>(a: RawEvent<P>, b: RawEvent<P>) {
    !Before(b, a)
  }

  /** Events with the same sort key are the same event. */
  ghost predicate KeysIdentify<P>(es: seq<RawEvent<P>>) {
    forall a, b :: a in es && b in es && NotAfter(a, b) && NotAfter(b, a) ==> a == b
  }

  ghost predicate InOrder<P>(es: seq<RawEvent<P>>) {
    Sorting.Ordered(es, NotAfter)
  }

  /** The builtin `sorted` on the key (receive_ts_ns, receive_sequence, event_id). */
  function Sorted<P(!new)>(es: seq<RawEvent<P>>): (r: seq<RawEvent<P>>)
    ensures InOrder(r)
    ensures multiset(r) == multiset(es)
  {
    Sorting.SortedOrders(es, NotAfter);
    Sorting.SortedKeepsAll(es, NotAfter);
    Sorting.Sorted(es, NotAfter)
  }

  /** An ordered arrangement of a bag of events is unique when keys identify events. */
  lemma OrderedArrangementUnique<P>(xs: seq<RawEvent<P>>, ys: seq<RawEvent<P>>)
    requires InOrder(xs) && InOrder(ys) && KeysIdentify(xs)
    requires multiset(xs) == multiset(ys)
    ensures xs == ys
  {
    Sorting.OrderedUnique(xs, ys, NotAfter);
  }

  lemma KeysIdentifyBag<P>(xs: seq<RawEvent<P>>, ys: seq<RawEvent<P>>)
    requires KeysIdentify(xs) && multiset(xs) == multiset(ys)
    ensures KeysIdentify(ys)
  {
    forall a | a in ys ensures a in xs {
      assert a in multiset(ys);
    }
  }

  /** Sorting forgets the order of arrival: every permutation sorts to the same sequence. */
  lemma SortedPermutation<P(!new)>(xs: seq<RawEvent<P>>, ys: seq<RawEvent<P>>)
    requires KeysIdentify(xs) && multiset(xs) == multiset(ys)
    ensures Sorted(xs) == Sorted(ys)
  {
    KeysIdentifyBag(xs, Sorted(xs));
    OrderedArrangementUnique(Sorted(xs), Sorted(ys));
  }

  /** If the events were captured in key order, sorting any permutation recovers the capture order. */
  lemma SortedRecoversCapture<P(!new)>(captured: seq<RawEvent<P>>, shuffled: seq<RawEvent<P>>)
    requires forall i, j :: 0 <= i < j < |captured| ==> Before(captured[i], captured[j])
    requires multiset(shuffled) == multiset(captured)
    ensures Sorted(shuffled) == captured
  {
    forall a, b | a in captured && b in captured && NotAfter(a, b) && NotAfter(b, a) ensures a == b {
      var i :| 0 <= i < |captured| && captured[i] == a;
      var j :| 0 <= j < |captured| && captured[j] == b;
    }
    OrderedArrangementUnique(captured, Sorted(shuffled));
  }
}
