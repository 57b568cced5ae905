/** The page-wide toast queue: toasts are appended with ids from a counter
    that only goes up, and removed by id. */
module Toasts {
  import opened Collections

  /** A toast; `kind` is the source's `type` ('success', 'error' or 'info'). */
  datatype Toast = Toast(id: int, kind: string, message: string, visible: bool)

  /** The automatic removal `showToast` schedules: `removeToast(toastId)`
      after `delay` milliseconds. */
  datatype RemovalTimer = RemovalTimer(toastId: int, delay: int)

  const DEFAULT_KIND := "success"
  const DEFAULT_MESSAGE := ""
  const DEFAULT_DURATION := 3000

  /** Ids strictly increase from the front of the queue to the back. */
  predicate IdsIncreasing(toasts: seq<Toast>)
  {
    forall i, j :: 0 <= i < j < |toasts| ==> toasts[i].id < toasts[j].id
  }

  /** Every id in the queue was handed out before `nextId`. */
  predicate IdsBelow(toasts: seq<Toast>, nextId: int)
  {
    forall t :: t in toasts ==> t.id < nextId
  }

  function IdIs(id: int): Toast -> bool
  {
    (t: Toast) => t.id == id
  }

  function IdIsNot(id: int): Toast -> bool
  {
    (t: Toast) => t.id != id
  }

  /** The queue after `removeToast(id)`: the first toast with that id is
      taken out, the others stay in order; an unknown id changes nothing. */
  function Without(toasts: seq<Toast>, id: int): (r: seq<Toast>)
    ensures (forall t :: t in toasts ==> t.id != id) ==> r == toasts
    ensures Subseq(r, toasts)
    ensures IdsIncreasing(toasts) ==> IdsIncreasing(r) && forall t :: t in r ==> t.id != id
    ensures IdsIncreasing(toasts) ==> r == Filter(toasts, IdIsNot(id))
  {
    match FindIndex(toasts, IdIs(id))
    case None =>
      NoneMatchingFilter(toasts, id);
      SubseqRefl(toasts);
      toasts
    case Some(i) =>
      RemoveAtIsSubseq(toasts, i);
      UniqueRemoveIsFilter(toasts, i, id);
      RemoveAt(toasts, i)
  }

  /** Removing twice is the same as removing once, so a timer that fires
      after the toast was closed by hand does no harm. */
  lemma WithoutIdempotent(toasts: seq<Toast>, id: int)
    requires IdsIncreasing(toasts)
    ensures Without(Without(toasts, id), id) == Without(toasts, id)
  {
  }

  lemma FilterOfRejected<T>(x: T, p: T -> bool)
    requires !p(x)
    ensures Filter([x], p) == []
  {
    assert [x][1..] == [];
  }

  lemma {:induction false} NoneMatchingFilter(toasts: seq<Toast>, id: int)
    requires forall j :: 0 <= j < |toasts| ==> toasts[j].id != id
    ensures Filter(toasts, IdIsNot(id)) == toasts
  {
    if toasts != [] {
      NoneMatchingFilter(toasts[1..], id);
    }
  }

  /** With increasing ids, taking out the toast with that id is a filter. */
  lemma UniqueRemoveIsFilter(toasts: seq<Toast>, i: nat, id: int)
    requires i < |toasts| && toasts[i].id == id
    ensures IdsIncreasing(toasts) ==> RemoveAt(toasts, i) == Filter(toasts, IdIsNot(id))
  {
    if IdsIncreasing(toasts) {
      assert forall j :: 0 <= j < |toasts| && j != i ==> toasts[j].id != id;
      OnlyMatchRemoveIsFilter(toasts, i, id);
    }
  }

  lemma OnlyMatchRemoveIsFilter(toasts: seq<Toast>, i: nat, id: int)
    requires i < |toasts| && toasts[i].id == id
    requires forall j :: 0 <= j < |toasts| && j != i ==> toasts[j].id != id
    ensures RemoveAt(toasts, i) == Filter(toasts, IdIsNot(id))
  {
    var p := IdIsNot(id);
    var before, after := toasts[..i], toasts[i + 1..];
    forall j | 0 <= j < |before| ensures before[j].id != id {
      assert before[j] == toasts[j];
    }
    NoneMatchingFilter(before, id);
    forall j | 0 <= j < |after| ensures after[j].id != id {
      assert after[j] == toasts[i + 1 + j];
    }
    NoneMatchingFilter(after, id);
    SplitAt(toasts, i);
    FilterAppend(before, [toasts[i]] + after, p);
    FilterAppend([toasts[i]], after, p);
    FilterOfRejected(toasts[i], p);
    calc {
      Filter(toasts, p);
      Filter(before + ([toasts[i]] + after), p);
      Filter(before, p) + (Filter([toasts[i]], p) + Filter(after, p));
      before + ([] + after);
      { assert [] + after == after; }
      before + after;
      RemoveAt(toasts, i);
    }
  }

  class ToastQueue {
    var toasts: seq<Toast>
    var nextId: int

    ghost predicate Valid()
      reads this
    {
      IdsIncreasing(toasts) && IdsBelow(toasts, nextId)
    }

    /** The queue as the module creates it when the page loads. */
    constructor ()
      ensures Valid() && toasts == [] && nextId == 0
    {
      toasts := [];
      nextId := 0;
    }

    /** Absent arguments take the defaults 'success', '' and 3000. */
    method ShowToast(kind: Option<string>, message: Option<string>, duration: Option<int>)
      returns (timer: RemovalTimer)
      requires Valid()
      modifies this
      ensures Valid()
      ensures nextId == old(nextId) + 1
      ensures toasts == old(toasts)
        + [Toast(old(nextId), kind.GetOr(DEFAULT_KIND), message.GetOr(DEFAULT_MESSAGE), true)]
      ensures timer == RemovalTimer(old(nextId), duration.GetOr(DEFAULT_DURATION))
    {
      var id := nextId;
      nextId := nextId + 1;
      toasts := toasts + [Toast(id, kind.GetOr(DEFAULT_KIND), message.GetOr(DEFAULT_MESSAGE), true)];
      timer := RemovalTimer(id, duration.GetOr(DEFAULT_DURATION));
    }

    method RemoveToast(id: int)
      requires Valid()
      modifies this`toasts
      ensures Valid()
      ensures toasts == Without(old(toasts), id)
      ensures forall t :: t in toasts ==> t.id != id
    {
      var index := FindIndex(toasts, IdIs(id));
      if index.Some? {
        toasts := RemoveAt(toasts, index.value);
      }
    }
  }
}
