/** The shared toast queue (src/composables/useToast.js): notifications
    appended with fresh increasing ids and removed by id. The timer that
    removes a toast after its duration is represented by the flag saying
    whether one is scheduled. */
module Toasts {
  import opened Wrappers
  import opened Seqs

  /** One notification: `{ id, message, type, duration }`. */
  datatype Toast = Toast(id: int, message: string, kind: string, duration: int)

  /** `type = 'info'`: the type an omitted argument takes. */
  function TypeOr(kind: Option<string>): string {
    if kind.Some? then kind.value else "info"
  }

  /** `duration = 3000`: the duration an omitted argument takes. */
  function DurationOr(duration: Option<int>): int {
    if duration.Some? then duration.value else 3000
  }

  /** The ids run strictly upwards along the queue. */
  predicate Ascending(toasts: seq<Toast>) {
    forall i, j :: 0 <= i < j < |toasts| ==> toasts[i].id < toasts[j].id
  }

  /** No id exceeds `bound`. */
  predicate IdsAtMost(toasts: seq<Toast>, bound: int) {
    forall k :: 0 <= k < |toasts| ==> toasts[k].id <= bound
  }

  /** `toasts.findIndex(t => t.id === id)`. */
  function FindIndex(toasts: seq<Toast>, id: int): (r: int)
    ensures -1 <= r < |toasts|
    ensures r == -1 <==> forall k :: 0 <= k < |toasts| ==> toasts[k].id != id
    ensures r >= 0 ==> toasts[r].id == id && forall k :: 0 <= k < r ==> toasts[k].id != id
  {
    if toasts == [] then -1
    else if toasts[0].id == id then 0
    else
      var rest := FindIndex(toasts[1..], id);
      assert forall k :: 1 <= k < |toasts| ==> toasts[k] == toasts[1..][k - 1];
      if rest == -1 then -1 else rest + 1
  }

  /** The queue after `removeToast(id)`: the first toast with that id
      spliced out, if there is one. */
  function RemovedAt(toasts: seq<Toast>, id: int): seq<Toast> {
    var index := FindIndex(toasts, id);
    if index > -1 then toasts[..index] + toasts[index + 1..] else toasts
  }

  /** An id that no toast carries leaves the queue as it is. */
  lemma RemoveUnknown(toasts: seq<Toast>, id: int)
    requires forall k :: 0 <= k < |toasts| ==> toasts[k].id != id
    ensures RemovedAt(toasts, id) == toasts
  {
  }

  /** The toasts `removeToast(id)` should keep. */
  function Keeps(id: int): Toast -> bool {
    (t: Toast) => t.id != id
  }

  /** On a queue with ascending ids, removal drops exactly the toasts with
      that id and keeps the rest in order. */
  lemma RemoveIsFilter(toasts: seq<Toast>, id: int)
    requires Ascending(toasts)
    ensures RemovedAt(toasts, id) == Filter(toasts, Keeps(id))
  {
    var index := FindIndex(toasts, id);
    if index == -1 {
      FilterAll(toasts, Keeps(id));
    } else {
      var after := toasts[index + 1..];
      NoLaterId(toasts, index, after);
      assert toasts == toasts[..index] + [toasts[index]] + after;
      SplitFilter(toasts[..index], toasts[index], after, id);
    }
  }

  /** With ascending ids, no toast after the one at `index` shares its id. */
  lemma NoLaterId(toasts: seq<Toast>, index: int, after: seq<Toast>)
    requires Ascending(toasts) && 0 <= index < |toasts| && after == toasts[index + 1..]
    ensures forall k :: 0 <= k < |after| ==> after[k].id != toasts[index].id
  {
    forall k | 0 <= k < |after| ensures after[k].id != toasts[index].id {
      assert after[k] == toasts[index + 1 + k];
    }
  }

  /** Filtering out the one toast with `id` between two stretches without it. */
  lemma SplitFilter(before: seq<Toast>, t: Toast, after: seq<Toast>, id: int)
    requires t.id == id
    requires forall k :: 0 <= k < |before| ==> before[k].id != id
    requires forall k :: 0 <= k < |after| ==> after[k].id != id
    ensures Filter(before + [t] + after, Keeps(id)) == before + after
  {
    assert forall k :: 0 <= k < |before| ==> Keeps(id)(before[k]);
    FilterAll(before, Keeps(id));
    assert forall k :: 0 <= k < |after| ==> Keeps(id)(after[k]);
    FilterAll(after, Keeps(id));
    assert Filter([t], Keeps(id)) == [] by {
      assert !Keeps(id)(t);
      assert [t][1..] == [];
    }
    FilterAppend(before, [t], Keeps(id));
    assert Filter(before + [t], Keeps(id)) == before;
    FilterAppend(before + [t], after, Keeps(id));
  }

  /** Removal keeps the ids ascending and bounded, and takes out one toast
      exactly when some toast has the id. */
  lemma RemoveKeepsOrder(toasts: seq<Toast>, id: int, bound: int)
    requires Ascending(toasts) && IdsAtMost(toasts, bound)
    ensures Ascending(RemovedAt(toasts, id)) && IdsAtMost(RemovedAt(toasts, id), bound)
    ensures |RemovedAt(toasts, id)| == if FindIndex(toasts, id) == -1 then |toasts| else |toasts| - 1
  {
    var index := FindIndex(toasts, id);
    if index > -1 {
      SpliceKeepsOrder(toasts, index, bound);
    }
  }

  lemma SpliceKeepsOrder(toasts: seq<Toast>, index: int, bound: int)
    requires Ascending(toasts) && IdsAtMost(toasts, bound) && 0 <= index < |toasts|
    ensures Ascending(toasts[..index] + toasts[index + 1..])
    ensures IdsAtMost(toasts[..index] + toasts[index + 1..], bound)
  {
    var r := toasts[..index] + toasts[index + 1..];
    assert forall k :: 0 <= k < |r| ==> r[k] == toasts[if k < index then k else k + 1];
  }

  /** A toast with an id above every id in the queue keeps it ascending. */
  lemma AppendKeepsOrder(toasts: seq<Toast>, t: Toast, bound: int)
    requires Ascending(toasts) && IdsAtMost(toasts, bound) && bound < t.id
    ensures Ascending(toasts + [t]) && IdsAtMost(toasts + [t], t.id)
  {
  }

  /** Filtering out the next-to-last toast of a queue. */
  lemma DropSecondLast(toasts: seq<Toast>, t: Toast, u: Toast)
    requires u.id != t.id
    ensures Filter(toasts + [t] + [u], Keeps(t.id)) == Filter(toasts, Keeps(t.id)) + [u]
  {
    FilterAppend(toasts + [t], [u], Keeps(t.id));
    FilterAppend(toasts, [t], Keeps(t.id));
    assert [t][1..] == [] && [u][1..] == [];
  }

  /** The module-level state: the queue and the last id handed out. */
  class ToastQueue {
    var toasts: seq<Toast>
    var toastId: int

    /** The ids in the queue are ascending and none exceeds the counter. */
    ghost predicate Valid()
      reads this
    {
      toastId >= 0 && Ascending(toasts) && IdsAtMost(toasts, toastId)
    }

    constructor()
      ensures toasts == [] && toastId == 0 && Valid()
    {
      toasts := [];
      toastId := 0;
    }

    /** `addToast(message, type, duration)`: the next id, the toast
        appended at the end, and an automatic removal scheduled exactly when
        the duration is positive. */
    method AddToast(message: string, kind: Option<string>, duration: Option<int>) returns (id: int, scheduled: bool)
      requires Valid()
      modifies this
      ensures id == old(toastId) + 1 && toastId == id
      ensures toasts == old(toasts) + [Toast(id, message, TypeOr(kind), DurationOr(duration))]
      ensures forall k :: 0 <= k < |old(toasts)| ==> old(toasts)[k].id < id
      ensures scheduled <==> DurationOr(duration) > 0
      ensures Valid()
    {
      toastId := toastId + 1;
      id := toastId;
      var t := Toast(id, message, TypeOr(kind), DurationOr(duration));
      AppendKeepsOrder(toasts, t, toastId - 1);
      toasts := toasts + [t];
      scheduled := t.duration > 0;
    }

    /** `removeToast(id)`: the toast with that id leaves the queue, the
        others stay in order, and an unknown id changes nothing. */
    method RemoveToast(id: int)
      requires Valid()
      modifies this
      ensures toasts == RemovedAt(old(toasts), id)
      ensures toasts == Filter(old(toasts), Keeps(id))
      ensures toastId == old(toastId) && Valid()
    {
      RemoveIsFilter(toasts, id);
      RemoveKeepsOrder(toasts, id, toastId);
      var index := FindIndex(toasts, id);
      if index > -1 {
        toasts := toasts[..index] + toasts[index + 1..];
      }
    }

    /** `success(message, duration)`. */
    method Success(message: string, duration: Option<int>) returns (id: int, scheduled: bool)
      requires Valid()
      modifies this
      ensures id == old(toastId) + 1 && toastId == id && Valid()
      ensures toasts == old(toasts) + [Toast(id, message, "success", DurationOr(duration))]
      ensures scheduled <==> DurationOr(duration) > 0
    {
      id, scheduled := AddToast(message, Some("success"), duration);
    }

    /** `error(message, duration)`. */
    method Error(message: string, duration: Option<int>) returns (id: int, scheduled: bool)
      requires Valid()
      modifies this
      ensures id == old(toastId) + 1 && toastId == id && Valid()
      ensures toasts == old(toasts) + [Toast(id, message, "error", DurationOr(duration))]
      ensures scheduled <==> DurationOr(duration) > 0
    {
      id, scheduled := AddToast(message, Some("error"), duration);
    }

    /** `warning(message, duration)`. */
    method Warning(message: string, duration: Option<int>) returns (id: int, scheduled: bool)
      requires Valid()
      modifies this
      ensures id == old(toastId) + 1 && toastId == id && Valid()
      ensures toasts == old(toasts) + [Toast(id, message, "warning", DurationOr(duration))]
      ensures scheduled <==> DurationOr(duration) > 0
    {
      id, scheduled := AddToast(message, Some("warning"), duration);
    }

    /** `info(message, duration)`. */
    method Info(message: string, duration: Option<int>) returns (id: int, scheduled: bool)
      requires Valid()
      modifies this
      ensures id == old(toastId) + 1 && toastId == id && Valid()
      ensures toasts == old(toasts) + [Toast(id, message, "info", DurationOr(duration))]
      ensures scheduled <==> DurationOr(duration) > 0
    {
      id, scheduled := AddToast(message, Some("info"), duration);
    }
  }

  /** Two toasts added one after the other get increasing ids, and removing
      the first leaves the second at the end of the queue. */
  method AddTwiceRemoveFirst(queue: ToastQueue, first: string, second: string) returns (a: int, b: int)
    requires queue.Valid()
    modifies queue
    ensures a < b
    ensures queue.toasts == Filter(old(queue.toasts), Keeps(a)) + [Toast(b, second, "info", 3000)]
  {
    var s;
    a, s := queue.AddToast(first, None, None);
    b, s := queue.AddToast(second, None, None);
    queue.RemoveToast(a);
    DropSecondLast(old(queue.toasts), Toast(a, first, "info", 3000), Toast(b, second, "info", 3000));
  }
}
