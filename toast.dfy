/** The toast notifications: a list of toasts kept by a reducer that
    appends on `ADD_TOAST` and drops by id on `REMOVE_TOAST`. */
module Toasts {
  import opened Seqs

  datatype ToastType = SuccessToast | ErrorToast | WarningToast | InfoToast

  /** One toast on screen. */
  datatype Toast = Toast(id: string, message: string, kind: ToastType)

  /** The dispatched actions. `Unknown` stands for any other `type` tag,
      which the reducer's `default` branch answers. */
  datatype ToastAction =
    | AddToast(message: string, kind: ToastType)
    | RemoveToast(id: string)
    | Unknown(tag: string)

  /** `toast.id !== id`. */
  function NotId(id: string): Toast -> bool {
    (t: Toast) => t.id != id
  }

  /** The reducer. `newId` is the id `ADD_TOAST` stamps on the new toast
      (the page takes it from the clock). */
  function ToastReducer(state: seq<Toast>, action: ToastAction, newId: string): (r: seq<Toast>)
    ensures action.AddToast? ==> r == state + [Toast(newId, action.message, action.kind)]
    ensures action.RemoveToast? ==>
      && (forall k :: 0 <= k < |r| ==> r[k].id != action.id && r[k] in state)
      && (forall k :: 0 <= k < |state| && state[k].id != action.id ==> state[k] in r)
      && (forall t :: multiset(r)[t] == if t.id != action.id then multiset(state)[t] else 0)
    ensures action.Unknown? ==> r == state
  {
    match action
    case AddToast(message, kind) => state + [Toast(newId, message, kind)]
    case RemoveToast(id) => FilterMultiset(NotId(id), state); Filter(NotId(id), state)
    case Unknown(_) => state
  }

  /** Removing keeps the remaining toasts in their order of arrival. */
  lemma RemoveKeepsOrder(state: seq<Toast>, id: string, newId: string)
    ensures IsSubsequence(ToastReducer(state, RemoveToast(id), newId), state)
  {
    FilterIsSubsequence(NotId(id), state);
  }

  /** Removing an id no toast has changes nothing. */
  lemma RemoveAbsent(state: seq<Toast>, id: string, newId: string)
    requires forall k :: 0 <= k < |state| ==> state[k].id != id
    ensures ToastReducer(state, RemoveToast(id), newId) == state
  {
    FilterKeepsAll(NotId(id), state);
  }

  /** Removing twice is removing once. */
  lemma RemoveIdempotent(state: seq<Toast>, id: string, newId: string, newId2: string)
    ensures ToastReducer(ToastReducer(state, RemoveToast(id), newId), RemoveToast(id), newId2)
         == ToastReducer(state, RemoveToast(id), newId)
  {
    FilterIdempotent(NotId(id), state);
  }

  /** Adding a toast with an id not yet in use and then closing it restores
      the list. With equal ids (two toasts added in the same millisecond)
      closing one closes both. */
  lemma AddThenRemove(state: seq<Toast>, message: string, kind: ToastType, newId: string, other: string)
    requires forall k :: 0 <= k < |state| ==> state[k].id != newId
    ensures ToastReducer(ToastReducer(state, AddToast(message, kind), newId), RemoveToast(newId), other) == state
  {
    var t := Toast(newId, message, kind);
    FilterAppend(NotId(newId), state, [t]);
    FilterKeepsAll(NotId(newId), state);
    assert Filter(NotId(newId), [t]) == [] by {
      assert [t][1..] == [];
    }
    assert state + [] == state;
  }

  /** Two toasts that share an id are closed together. */
  lemma SharedIdClosesBoth(message1: string, message2: string, kind: ToastType, id: string, other: string)
    ensures ToastReducer(
              ToastReducer(ToastReducer([], AddToast(message1, kind), id), AddToast(message2, kind), id),
              RemoveToast(id), other) == []
  {
    var both := [Toast(id, message1, kind), Toast(id, message2, kind)];
    assert ToastReducer(ToastReducer([], AddToast(message1, kind), id), AddToast(message2, kind), id) == both;
    assert Filter(NotId(id), both[1..]) == [] by {
      assert both[1..][1..] == [];
    }
  }
}
