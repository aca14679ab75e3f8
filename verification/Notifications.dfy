/** The notification queue: toasts are appended in the order they are raised and
    removed by id, either when the user dismisses one or when its timer expires
    (both paths run the same filter). */
module Notifications {
  import opened Types
  import opened Seqs

  /** `[...prev, { id, message, type }]`; the type defaults to info. */
  function PushToast(ts: seq<Toast>, id: int, message: string, kind: ToastType := Info): (r: seq<Toast>)
    ensures |r| == |ts| + 1
    ensures r[..|ts|] == ts
    ensures r[|ts|] == Toast(id, message, kind)
  {
    ts + [Toast(id, message, kind)]
  }

  /** The filter predicate `t.id !== id`. */
  function OtherToast(id: int): Toast -> bool
  {
    (t: Toast) => t.id != id
  }

  /** `prev.filter(t => t.id !== id)`: removes exactly the toasts carrying the id. */
  function DropToast(ts: seq<Toast>, id: int): (r: seq<Toast>)
    ensures forall i :: 0 <= i < |r| ==> r[i].id != id
    ensures forall t :: t in r <==> t in ts && t.id != id
  {
    Filter(ts, OtherToast(id))
  }

  predicate HasToast(ts: seq<Toast>, id: int)
  {
    exists i :: 0 <= i < |ts| && ts[i].id == id
  }

  /** Every toast without the id survives, as many times as it occurred; none with the id does. */
  lemma DropCounts(ts: seq<Toast>, id: int)
    ensures forall t :: multiset(DropToast(ts, id))[t] == if t.id != id then multiset(ts)[t] else 0
  {
    FilterMultiset(ts, OtherToast(id));
  }

  /** Dismissing or expiring an id that is not displayed is a no-op. */
  lemma DropAbsent(ts: seq<Toast>, id: int)
    requires !HasToast(ts, id)
    ensures DropToast(ts, id) == ts
  {
    FilterAll(ts, OtherToast(id));
  }

  /** The expiry timer firing after a dismissal changes nothing. */
  lemma DropIdempotent(ts: seq<Toast>, id: int)
    ensures DropToast(DropToast(ts, id), id) == DropToast(ts, id)
  {
    DropAbsent(DropToast(ts, id), id);
  }

  /** When the clock reading is new, the toast's own expiry restores the queue
      exactly as it was before the toast was raised. */
  lemma DropAfterPush(ts: seq<Toast>, id: int, message: string, kind: ToastType)
    requires !HasToast(ts, id)
    ensures DropToast(PushToast(ts, id, message, kind), id) == ts
  {
    FilterConcat(ts, [Toast(id, message, kind)], OtherToast(id));
    FilterAll(ts, OtherToast(id));
    FilterNone([Toast(id, message, kind)], OtherToast(id));
    assert ts + [] == ts;
  }

  /** Removing another id leaves a newly raised toast at the end of the queue:
      removal never reorders what remains. */
  lemma DropPushOther(ts: seq<Toast>, id: int, other: int, message: string, kind: ToastType)
    requires other != id
    ensures DropToast(PushToast(ts, other, message, kind), id) ==
      PushToast(DropToast(ts, id), other, message, kind)
  {
    FilterConcat(ts, [Toast(other, message, kind)], OtherToast(id));
    FilterAll([Toast(other, message, kind)], OtherToast(id));
  }

  /** Removal keeps the remaining toasts in their order: removing from a split
      queue removes from each part. */
  lemma DropToastConcat(a: seq<Toast>, b: seq<Toast>, id: int)
    ensures DropToast(a + b, id) == DropToast(a, id) + DropToast(b, id)
  {
    FilterConcat(a, b, OtherToast(id));
  }

  /** Timers firing in either order leave the same queue. */
  lemma {:induction false} DropCommutes(ts: seq<Toast>, a: int, b: int)
    ensures DropToast(DropToast(ts, a), b) == DropToast(DropToast(ts, b), a)
  {
    if ts != [] {
      var t := ts[0];
      assert ts == [t] + ts[1..];
      FilterConcat([t], ts[1..], OtherToast(a));
      FilterConcat([t], ts[1..], OtherToast(b));
      var fa, fb := Filter([t], OtherToast(a)), Filter([t], OtherToast(b));
      FilterConcat(fa, DropToast(ts[1..], a), OtherToast(b));
      FilterConcat(fb, DropToast(ts[1..], b), OtherToast(a));
      DropCommutes(ts[1..], a, b);
      assert Filter(fa, OtherToast(b)) == Filter(fb, OtherToast(a)) by {
        assert [t][1..] == [];
      }
    }
  }
}
