/**
 * The toast notification store (src/hooks/use-toast.ts): a pure reducer over
 * the list of toasts, and the module-level state around it (the id counter,
 * the stored state, the pending removal timers and the listeners).
 */
module Toasts {
  import opened Wrappers
  import Js
  import Seqs

  /** At most this many toasts are kept. */
  const TOAST_LIMIT: nat := 1
  /** Delay of the removal timer started when a toast is dismissed, in milliseconds. */
  const TOAST_REMOVE_DELAY: nat := 1000000

  /** A toast as the store keeps it; display-only properties are left out. */
  datatype ToasterToast = ToasterToast(id: string, title: Option<string>, description: Option<string>, open: Option<bool>)

  /** A `Partial<ToasterToast>`: a missing field is `None`. */
  datatype ToastPatch = ToastPatch(id: Option<string>, title: Option<string>, description: Option<string>, open: Option<bool>)

  /** The argument of `toast(...)`: a toast without its id. */
  datatype ToastProps = ToastProps(title: Option<string>, description: Option<string>, open: Option<bool>)

  datatype Action =
    | AddToast(toast: ToasterToast)
    | UpdateToast(patch: ToastPatch)
    | DismissToast(toastId: Option<string>)
    | RemoveToast(toastId: Option<string>)

  /** `{ ...t, ...patch }`: the fields the patch has replace those of the toast. */
  function Merge(t: ToasterToast, patch: ToastPatch): (r: ToasterToast)
    ensures r.id == patch.id.GetOr(t.id)
    ensures r.title == (if patch.title.Some? then patch.title else t.title)
    ensures r.description == (if patch.description.Some? then patch.description else t.description)
    ensures r.open == (if patch.open.Some? then patch.open else t.open)
  {
    ToasterToast(
      patch.id.GetOr(t.id),
      if patch.title.Some? then patch.title else t.title,
      if patch.description.Some? then patch.description else t.description,
      if patch.open.Some? then patch.open else t.open)
  }

  /** A toast matches an update when the patch carries its id. */
  predicate MatchesPatch(t: ToasterToast, patch: ToastPatch)
  {
    patch.id == Some(t.id)
  }

  /** A toast is dismissed when no id is given or the id is its own. */
  predicate MatchesDismiss(t: ToasterToast, toastId: Option<string>)
  {
    toastId.None? || toastId == Some(t.id)
  }

  /** `toasts.filter((t) => t.id !== toastId)` */
  function WithoutToast(toasts: seq<ToasterToast>, toastId: string): (r: seq<ToasterToast>)
    ensures forall t :: t in r <==> t in toasts && t.id != toastId
    ensures |r| <= |toasts|
    ensures (forall i :: 0 <= i < |toasts| ==> toasts[i].id != toastId) ==> r == toasts
  {
    if toasts == [] then []
    else if toasts[0].id == toastId then WithoutToast(toasts[1..], toastId)
    else [toasts[0]] + WithoutToast(toasts[1..], toastId)
  }

  /** The exported `reducer`, on the `toasts` part of the state. */
  function Reduce(toasts: seq<ToasterToast>, action: Action): (r: seq<ToasterToast>)
    ensures action.AddToast? ==>
      |r| == (if |toasts| + 1 < TOAST_LIMIT then |toasts| + 1 else TOAST_LIMIT) &&
      r[0] == action.toast && forall i :: 1 <= i < |r| ==> r[i] == toasts[i - 1]
    ensures action.UpdateToast? ==> |r| == |toasts| && forall i :: 0 <= i < |toasts| ==>
      r[i] == if MatchesPatch(toasts[i], action.patch) then Merge(toasts[i], action.patch) else toasts[i]
    ensures action.UpdateToast? ==> forall i :: 0 <= i < |toasts| ==> r[i].id == toasts[i].id
    ensures action.DismissToast? ==> |r| == |toasts| && forall i :: 0 <= i < |toasts| ==>
      r[i].id == toasts[i].id && r[i].title == toasts[i].title && r[i].description == toasts[i].description &&
      r[i].open == if MatchesDismiss(toasts[i], action.toastId) then Some(false) else toasts[i].open
    ensures action.RemoveToast? && action.toastId.None? ==> r == []
    ensures action.RemoveToast? && action.toastId.Some? ==>
      forall t :: t in r <==> t in toasts && t.id != action.toastId.value
  {
    match action
    case AddToast(t) =>
      var all := [t] + toasts;
      all[..if |all| < TOAST_LIMIT then |all| else TOAST_LIMIT]
    case UpdateToast(patch) =>
      seq(|toasts|, i requires 0 <= i < |toasts| =>
        if MatchesPatch(toasts[i], patch) then Merge(toasts[i], patch) else toasts[i])
    case DismissToast(toastId) =>
      seq(|toasts|, i requires 0 <= i < |toasts| =>
        if MatchesDismiss(toasts[i], toastId) then toasts[i].(open := Some(false)) else toasts[i])
    case RemoveToast(toastId) =>
      if toastId.None? then [] else WithoutToast(toasts, toastId.value)
  }

  /**
   * The ids the reducer hands to `addToRemoveQueue` for an action, in order:
   * the given id when it is truthy, otherwise every toast's id. Note that an
   * empty id queues every toast while dismissing only toasts whose id is empty.
   */
  function RemoveQueueIds(toasts: seq<ToasterToast>, action: Action): (ids: seq<string>)
    ensures !action.DismissToast? ==> ids == []
    ensures action.DismissToast? && Js.TruthyOption(action.toastId) ==> ids == [action.toastId.value]
    ensures action.DismissToast? && !Js.TruthyOption(action.toastId) ==>
      |ids| == |toasts| && forall i :: 0 <= i < |toasts| ==> ids[i] == toasts[i].id
  {
    if !action.DismissToast? then []
    else if Js.TruthyOption(action.toastId) then [action.toastId.value]
    else seq(|toasts|, i requires 0 <= i < |toasts| => toasts[i].id)
  }

  /** No two toasts share an id. */
  predicate UniqueIds(toasts: seq<ToasterToast>)
  {
    forall i, j :: 0 <= i < j < |toasts| ==> toasts[i].id != toasts[j].id
  }

  // ---------------------------------------------------------------------
  // Lemmas about the reducer

  /** With the limit of one, adding a toast leaves exactly that toast. */
  lemma AddKeepsOnlyNewToast(toasts: seq<ToasterToast>, t: ToasterToast)
    ensures Reduce(toasts, AddToast(t)) == [t]
  {
  }

  /** The reducer keeps toast ids unique. */
  lemma ReducePreservesUniqueIds(toasts: seq<ToasterToast>, action: Action)
    requires UniqueIds(toasts)
    ensures UniqueIds(Reduce(toasts, action))
  {
    if action.RemoveToast? && action.toastId.Some? {
      RemoveKeepsOrder(toasts, action.toastId.value);
    }
  }

  lemma UniqueTail(toasts: seq<ToasterToast>)
    requires UniqueIds(toasts) && toasts != []
    ensures UniqueIds(toasts[1..])
    ensures forall t :: t in toasts[1..] ==> t.id != toasts[0].id
  {
    var tail := toasts[1..];
    forall i, j | 0 <= i < j < |tail| ensures tail[i].id != tail[j].id {
      assert tail[i] == toasts[i + 1] && tail[j] == toasts[j + 1];
    }
    forall t | t in tail ensures t.id != toasts[0].id {
      var m :| 0 <= m < |tail| && tail[m] == t;
      assert toasts[m + 1] == t;
    }
  }

  lemma UniqueCons(head: ToasterToast, rest: seq<ToasterToast>)
    requires UniqueIds(rest) && forall t :: t in rest ==> t.id != head.id
    ensures UniqueIds([head] + rest)
  {
    var r := [head] + rest;
    forall i, j | 0 <= i < j < |r| ensures r[i].id != r[j].id {
      assert r[j] == rest[j - 1] && r[j] in rest;
      if i > 0 {
        assert r[i] == rest[i - 1];
      }
    }
  }

  /** Removing by id keeps the ids unique. */
  lemma {:induction false} RemoveKeepsUniqueIds(toasts: seq<ToasterToast>, toastId: string)
    requires UniqueIds(toasts)
    ensures UniqueIds(WithoutToast(toasts, toastId))
  {
    if toasts != [] {
      UniqueTail(toasts);
      RemoveKeepsUniqueIds(toasts[1..], toastId);
      if toasts[0].id != toastId {
        UniqueCons(toasts[0], WithoutToast(toasts[1..], toastId));
      }
    }
  }

  /** Removing by id keeps order and repeats of the other toasts, whatever the ids: it works part by part. */
  lemma {:induction false} WithoutToastConcat(a: seq<ToasterToast>, b: seq<ToasterToast>, toastId: string)
    ensures WithoutToast(a + b, toastId) == WithoutToast(a, toastId) + WithoutToast(b, toastId)
  {
    if a == [] {
      assert a + b == b;
    } else {
      assert (a + b)[0] == a[0];
      assert (a + b)[1..] == a[1..] + b;
      WithoutToastConcat(a[1..], b, toastId);
    }
  }

  /** Removing the id of the toast at `k` drops that toast and keeps the others in order. */
  lemma {:induction false} RemoveAt(toasts: seq<ToasterToast>, k: nat)
    requires UniqueIds(toasts) && k < |toasts|
    ensures WithoutToast(toasts, toasts[k].id) == toasts[..k] + toasts[k + 1..]
  {
    var tail := toasts[1..];
    UniqueTail(toasts);
    if k > 0 {
      assert tail[k - 1] == toasts[k];
      RemoveAt(tail, k - 1);
      Seqs.DropAtAfterHead(toasts, k);
    } else {
      assert forall j :: 0 <= j < |tail| ==> tail[j] in tail;
      Seqs.DropAtHead(toasts);
    }
  }

  /** Removing by id keeps the remaining toasts in their order: they form a subsequence. */
  lemma RemoveKeepsOrder(toasts: seq<ToasterToast>, toastId: string)
    requires UniqueIds(toasts)
    ensures UniqueIds(WithoutToast(toasts, toastId))
    ensures forall i :: 0 <= i < |toasts| && toasts[i].id == toastId ==>
      WithoutToast(toasts, toastId) == toasts[..i] + toasts[i + 1..]
  {
    RemoveKeepsUniqueIds(toasts, toastId);
    forall i | 0 <= i < |toasts| && toasts[i].id == toastId
      ensures WithoutToast(toasts, toastId) == toasts[..i] + toasts[i + 1..]
    {
      RemoveAt(toasts, i);
    }
  }

  /** Applying the same update twice is the same as applying it once. */
  lemma UpdateIdempotent(toasts: seq<ToasterToast>, patch: ToastPatch)
    ensures Reduce(Reduce(toasts, UpdateToast(patch)), UpdateToast(patch)) == Reduce(toasts, UpdateToast(patch))
  {
    var once := Reduce(toasts, UpdateToast(patch));
    var twice := Reduce(once, UpdateToast(patch));
    assert forall i :: 0 <= i < |toasts| ==> twice[i] == once[i];
  }

  /** Dismissing twice is the same as dismissing once. */
  lemma DismissIdempotent(toasts: seq<ToasterToast>, toastId: Option<string>)
    ensures Reduce(Reduce(toasts, DismissToast(toastId)), DismissToast(toastId)) == Reduce(toasts, DismissToast(toastId))
  {
    var once := Reduce(toasts, DismissToast(toastId));
    var twice := Reduce(once, DismissToast(toastId));
    assert forall i :: 0 <= i < |toasts| ==> twice[i] == once[i];
  }

  /** Removing a toast after dismissing it is the same as removing it right away. */
  lemma RemoveAfterDismiss(toasts: seq<ToasterToast>, toastId: string)
    ensures Reduce(Reduce(toasts, DismissToast(Some(toastId))), RemoveToast(Some(toastId))) ==
            Reduce(toasts, RemoveToast(Some(toastId)))
  {
    WithoutAfterDismiss(toasts, toastId);
  }

  lemma {:induction false} WithoutAfterDismiss(toasts: seq<ToasterToast>, toastId: string)
    ensures WithoutToast(Reduce(toasts, DismissToast(Some(toastId))), toastId) == WithoutToast(toasts, toastId)
  {
    if toasts != [] {
      var d := Reduce(toasts, DismissToast(Some(toastId)));
      assert d[1..] == Reduce(toasts[1..], DismissToast(Some(toastId)));
      WithoutAfterDismiss(toasts[1..], toastId);
    }
  }

  /** One call of a listener, with the state it was given. */
  datatype ListenerCall = ListenerCall(listener: nat, state: seq<ToasterToast>)

  /** One call per listener, in order, each with the same state. */
  function CallsFor(listeners: seq<nat>, state: seq<ToasterToast>): (calls: seq<ListenerCall>)
    ensures |calls| == |listeners|
    ensures forall i :: 0 <= i < |listeners| ==> calls[i] == ListenerCall(listeners[i], state)
  {
    seq(|listeners|, i requires 0 <= i < |listeners| => ListenerCall(listeners[i], state))
  }

  /**
   * The module-level state of the toast store: the id counter, the stored
   * state, the removal timers (one handle per queued toast id) and the
   * listeners, with the calls made to them recorded in order.
   */
  class ToastStore {
    var count: nat
    var memoryState: seq<ToasterToast>
    /** `toastTimeouts`: toast id to the handle of its pending removal timer. */
    var toastTimeouts: map<string, nat>
    /** The handle the next `setTimeout` returns. */
    var nextTimer: nat
    /** The registered listeners, by identity; registering them is not modelled. */
    const listeners: seq<nat>
    /** Every call of a listener, in order. */
    var calls: seq<ListenerCall>

    ghost predicate Valid()
      reads this
    {
      count < Js.MAX_SAFE_INTEGER &&
      UniqueIds(memoryState) &&
      forall id :: id in toastTimeouts ==> toastTimeouts[id] < nextTimer
    }

    /** The module's initial state: counter 0, no toasts, no timers. */
    constructor (listeners: seq<nat>)
      ensures Valid()
      ensures count == 0 && memoryState == [] && toastTimeouts == map[] && calls == []
      ensures this.listeners == listeners
    {
      count := 0;
      memoryState := [];
      toastTimeouts := map[];
      nextTimer := 0;
      this.listeners := listeners;
      calls := [];
    }

    /** `genId`: advances the counter modulo `MAX_SAFE_INTEGER` and returns it in decimal. */
    method GenId() returns (id: string)
      requires Valid()
      modifies this`count
      ensures Valid()
      ensures count == (old(count) + 1) % Js.MAX_SAFE_INTEGER
      ensures id == Js.DecimalString(count)
      ensures Js.ParseInt(id) == Some(count as int)
    {
      count := (count + 1) % Js.MAX_SAFE_INTEGER;
      id := Js.DecimalString(count);
      Js.ParseIntRoundTrip(count);
    }

    /** `addToRemoveQueue`: starts a removal timer for the id unless one is already pending. */
    method AddToRemoveQueue(toastId: string)
      requires Valid()
      modifies this`toastTimeouts, this`nextTimer
      ensures Valid()
      ensures toastId in old(toastTimeouts) ==>
        toastTimeouts == old(toastTimeouts) && nextTimer == old(nextTimer)
      ensures toastId !in old(toastTimeouts) ==>
        toastTimeouts == old(toastTimeouts)[toastId := old(nextTimer)] && nextTimer == old(nextTimer) + 1
    {
      if toastId in toastTimeouts {
        return;
      }
      toastTimeouts := toastTimeouts[toastId := nextTimer];
      nextTimer := nextTimer + 1;
    }

    /**
     * The side effect of the reducer's DISMISS branch: `addToRemoveQueue`
     * for each id, in order.
     */
    method QueueRemovals(ids: seq<string>)
      requires Valid()
      modifies this`toastTimeouts, this`nextTimer
      ensures Valid()
      ensures toastTimeouts.Keys == old(toastTimeouts).Keys + set id | id in ids
      ensures forall id :: id in old(toastTimeouts) ==> toastTimeouts[id] == old(toastTimeouts)[id]
      ensures ids == [] ==> toastTimeouts == old(toastTimeouts) && nextTimer == old(nextTimer)
    {
      for j := 0 to |ids|
        invariant Valid()
        invariant toastTimeouts.Keys == old(toastTimeouts).Keys + set id | id in ids[..j]
        invariant forall id :: id in old(toastTimeouts) ==> toastTimeouts[id] == old(toastTimeouts)[id]
        invariant j == 0 ==> toastTimeouts == old(toastTimeouts) && nextTimer == old(nextTimer)
      {
        AddToRemoveQueue(ids[j]);
        assert ids[..j + 1] == ids[..j] + [ids[j]];
      }
      assert ids[..|ids|] == ids;
    }

    /** `listeners.forEach((listener) => listener(memoryState))` */
    method NotifyListeners()
      modifies this`calls
      ensures calls == old(calls) + CallsFor(listeners, memoryState)
    {
      for k := 0 to |listeners|
        invariant calls == old(calls) + CallsFor(listeners[..k], memoryState)
      {
        calls := calls + [ListenerCall(listeners[k], memoryState)];
        assert CallsFor(listeners[..k + 1], memoryState) == CallsFor(listeners[..k], memoryState) + [ListenerCall(listeners[k], memoryState)];
      }
      assert listeners[..|listeners|] == listeners;
    }

    /**
     * `dispatch`: the reducer queues removals for a dismissal, the stored
     * state becomes the reducer's result, and then every listener is called
     * with that state, in registration order.
     */
    method Dispatch(action: Action)
      requires Valid()
      modifies this
      ensures Valid()
      ensures memoryState == Reduce(old(memoryState), action)
      ensures toastTimeouts.Keys == old(toastTimeouts).Keys + set id | id in RemoveQueueIds(old(memoryState), action)
      ensures forall id :: id in old(toastTimeouts) ==> toastTimeouts[id] == old(toastTimeouts)[id]
      ensures !action.DismissToast? ==> toastTimeouts == old(toastTimeouts) && nextTimer == old(nextTimer)
      ensures calls == old(calls) + CallsFor(listeners, memoryState)
      ensures count == old(count)
    {
      QueueRemovals(RemoveQueueIds(memoryState, action));
      ReducePreservesUniqueIds(memoryState, action);
      memoryState := Reduce(memoryState, action);
      NotifyListeners();
    }

    /**
     * `toast(props)`: takes a fresh id and dispatches an ADD of an open toast
     * with it; returns the id (the `dismiss` and `update` closures it also
     * returns are `Dispatch` of a DISMISS or UPDATE with that id).
     */
    method Toast(props: ToastProps) returns (id: string)
      requires Valid()
      modifies this
      ensures Valid()
      ensures count == (old(count) + 1) % Js.MAX_SAFE_INTEGER && id == Js.DecimalString(count)
      ensures memoryState == [ToasterToast(id, props.title, props.description, Some(true))]
      ensures toastTimeouts == old(toastTimeouts) && nextTimer == old(nextTimer)
      ensures calls == old(calls) + CallsFor(listeners, memoryState)
    {
      id := GenId();
      var t := ToasterToast(id, props.title, props.description, Some(true));
      Dispatch(AddToast(t));
      AddKeepsOnlyNewToast(old(memoryState), t);
    }

    /** The removal timer of a queued toast fires: its entry goes, and a REMOVE is dispatched. */
    method RemoveTimerFires(toastId: string)
      requires Valid() && toastId in toastTimeouts
      modifies this
      ensures Valid()
      ensures toastTimeouts == old(toastTimeouts) - {toastId} && nextTimer == old(nextTimer)
      ensures memoryState == Reduce(old(memoryState), RemoveToast(Some(toastId)))
      ensures forall t :: t in memoryState ==> t.id != toastId
      ensures forall i :: 0 <= i < |old(memoryState)| && old(memoryState)[i].id == toastId ==>
        memoryState == old(memoryState)[..i] + old(memoryState)[i + 1..]
      ensures count == old(count)
      ensures calls == old(calls) + CallsFor(listeners, memoryState)
    {
      toastTimeouts := toastTimeouts - {toastId};
      RemoveKeepsOrder(memoryState, toastId);
      Dispatch(RemoveToast(Some(toastId)));
    }
  }

  /** Queuing an id twice has the effect of queuing it once: the second call starts no timer. */
  method AddToRemoveQueueTwice(store: ToastStore, toastId: string)
    requires store.Valid()
    modifies store
    ensures store.Valid() && toastId in store.toastTimeouts
    ensures toastId in old(store.toastTimeouts) ==>
      store.toastTimeouts == old(store.toastTimeouts) && store.nextTimer == old(store.nextTimer)
    ensures toastId !in old(store.toastTimeouts) ==>
      store.toastTimeouts == old(store.toastTimeouts)[toastId := old(store.nextTimer)] &&
      store.nextTimer == old(store.nextTimer) + 1
  {
    store.AddToRemoveQueue(toastId);
    var afterFirst, timerAfterFirst := store.toastTimeouts, store.nextTimer;
    store.AddToRemoveQueue(toastId);
    assert store.toastTimeouts == afterFirst && store.nextTimer == timerAfterFirst;
  }
}
