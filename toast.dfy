/**
 * The client's toast store: a list of notifications that grows at the end
 * and shrinks by id. Ids come from `Math.random` and are a parameter here;
 * the timer that removes a toast after its duration is not modelled.
 */
module Toasts {
  datatype ToastType = Success | Error | Info | Warning

  datatype ToastPosition = TopRight | TopLeft | BottomRight | BottomLeft | TopCenter | BottomCenter

  datatype Toast = Toast(id: string, message: string, kind: ToastType, duration: int, position: ToastPosition)

  /** `toasts.filter(toast => toast.id !== id)`. */
  function WithoutId(toasts: seq<Toast>, id: string): (r: seq<Toast>)
    ensures |r| <= |toasts|
    ensures forall i :: 0 <= i < |r| ==> r[i].id != id
    ensures forall t :: t in r <==> t in toasts && t.id != id
    ensures (forall i :: 0 <= i < |toasts| ==> toasts[i].id != id) ==> r == toasts
  {
    if toasts == [] then []
    else if toasts[0].id == id then WithoutId(toasts[1..], id)
    else [toasts[0]] + WithoutId(toasts[1..], id)
  }

  /** Filtering a concatenation filters each part, so the survivors keep their order. */
  lemma {:induction false} WithoutIdDistributes(a: seq<Toast>, b: seq<Toast>, id: string)
    ensures WithoutId(a + b, id) == WithoutId(a, id) + WithoutId(b, id)
  {
    if a == [] {
      assert a + b == b;
    } else {
      assert (a + b)[1..] == a[1..] + b;
      WithoutIdDistributes(a[1..], b, id);
    }
  }

  /** Removing a toast just added under a fresh id gives back the list from before. */
  lemma {:induction false} RemoveUndoesAdd(toasts: seq<Toast>, toast: Toast)
    requires forall i :: 0 <= i < |toasts| ==> toasts[i].id != toast.id
    ensures WithoutId(toasts + [toast], toast.id) == toasts
  {
    WithoutIdDistributes(toasts, [toast], toast.id);
    assert WithoutId([toast], toast.id) == WithoutId([], toast.id);
  }

  class ToastStore {
    var toasts: seq<Toast>

    constructor ()
      ensures toasts == []
    {
      toasts := [];
    }

    /**
     * `addToast`: appends one toast at the end and returns its id. The
     * defaults are type info, 3000 ms and top-center.
     */
    method AddToast(id: string, message: string, kind: ToastType := Info, duration: int := 3000,
                    position: ToastPosition := TopCenter)
      returns (r: string)
      modifies this
      ensures r == id
      ensures toasts == old(toasts) + [Toast(id, message, kind, duration, position)]
    {
      toasts := toasts + [Toast(id, message, kind, duration, position)];
      r := id;
    }

    /** `removeToast`: drops every toast with that id and keeps the rest in order. */
    method RemoveToast(id: string)
      modifies this
      ensures toasts == WithoutId(old(toasts), id)
    {
      toasts := WithoutId(toasts, id);
    }

    /** `info`: a toast of type info. */
    method AddInfo(id: string, message: string, duration: int := 3000, position: ToastPosition := TopCenter)
      returns (r: string)
      modifies this
      ensures r == id && toasts == old(toasts) + [Toast(id, message, Info, duration, position)]
    {
      r := AddToast(id, message, Info, duration, position);
    }

    /** `success`: a toast of type success. */
    method AddSuccess(id: string, message: string, duration: int := 3000, position: ToastPosition := TopCenter)
      returns (r: string)
      modifies this
      ensures r == id && toasts == old(toasts) + [Toast(id, message, Success, duration, position)]
    {
      r := AddToast(id, message, Success, duration, position);
    }

    /** `warning`: a toast of type warning. */
    method AddWarning(id: string, message: string, duration: int := 3000, position: ToastPosition := TopCenter)
      returns (r: string)
      modifies this
      ensures r == id && toasts == old(toasts) + [Toast(id, message, Warning, duration, position)]
    {
      r := AddToast(id, message, Warning, duration, position);
    }

    /** `error`: a toast of type error. */
    method AddError(id: string, message: string, duration: int := 3000, position: ToastPosition := TopCenter)
      returns (r: string)
      modifies this
      ensures r == id && toasts == old(toasts) + [Toast(id, message, Error, duration, position)]
    {
      r := AddToast(id, message, Error, duration, position);
    }

    /**
     * Adding a toast under a fresh id and removing it again restores the
     * list, whatever its defaults were.
     */
    method AddThenRemove(id: string, message: string)
      modifies this
      requires forall i :: 0 <= i < |toasts| ==> toasts[i].id != id
      ensures toasts == old(toasts)
    {
      var added := AddToast(id, message);
      RemoveToast(added);
      RemoveUndoesAdd(old(toasts), Toast(id, message, Info, 3000, TopCenter));
    }
  }
}
