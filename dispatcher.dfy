/**
 * The observable effects of the feed manager: messages sent through the dispatcher and
 * calls of the entity-registration callback. The model records them, in order, in an
 * append-only log of actions; `E` is the entity type handed to registration. A dispatch
 * is logged as the signal whose channel name it was sent on; `ChannelInjective` makes
 * the two interchangeable.
 */
module Dispatcher {
  import opened Wrappers
  import opened Signals
  import opened Enumerations

  datatype Action<E> =
    | Dispatch(signal: Signal)
    | AddEntities(entities: seq<E>, updateBeforeAdd: bool)

  /** One dispatch of a `kind` signal per id of `ids`, in that order. */
  function Dispatches<E>(kind: SignalKind, ids: seq<string>): (acts: seq<Action<E>>)
    ensures |acts| == |ids|
    ensures forall i :: 0 <= i < |ids| ==> acts[i] == Dispatch(Signal(kind, ids[i]))
    decreases |ids|
  {
    if ids == [] then []
    else Dispatches(kind, ids[..|ids| - 1]) + [Dispatch(Signal(kind, ids[|ids| - 1]))]
  }

  lemma DispatchesSnoc<E>(kind: SignalKind, ids: seq<string>, id: string)
    ensures Dispatches<E>(kind, ids + [id]) == Dispatches<E>(kind, ids) + [Dispatch(Signal(kind, id))]
  {
    assert (ids + [id])[..|ids|] == ids;
  }

  /** Whether `a` is a dispatch on the channel named `channel`. */
  predicate SentOn<E>(a: Action<E>, channel: string) {
    a.Dispatch? && Channel(a.signal) == channel
  }

  /** How often something was dispatched on `channel` in `acts`. */
  function CountDispatches<E>(acts: seq<Action<E>>, channel: string): nat
    decreases |acts|
  {
    if acts == [] then 0
    else CountDispatches(acts[..|acts| - 1], channel) + (if SentOn(acts[|acts| - 1], channel) then 1 else 0)
  }

  lemma {:induction false} CountDispatchesAppend<E>(a: seq<Action<E>>, b: seq<Action<E>>, channel: string)
    ensures CountDispatches(a + b, channel) == CountDispatches(a, channel) + CountDispatches(b, channel)
    decreases |b|
  {
    if b != [] {
      var n := |b| - 1;
      assert (a + b)[..|a + b| - 1] == a + b[..n];
      CountDispatchesAppend(a, b[..n], channel);
    } else {
      assert a + b == a;
    }
  }

  /** Dispatching one signal per member of an enumerated set sends every member's
      channel exactly once and no other channel of the form the templates produce. */
  lemma {:induction false} DispatchesOfEnumeration<E>(kind: SignalKind, order: seq<string>, ids: set<string>, signal: Signal)
    requires IsEnumeration(order, ids)
    ensures CountDispatches(Dispatches<E>(kind, order), Channel(signal))
            == if signal.kind == kind && signal.externalId in ids then 1 else 0
    decreases |order|
  {
    if order != [] {
      var n := |order| - 1;
      var acts := Dispatches<E>(kind, order);
      assert acts[..n] == Dispatches<E>(kind, order[..n]);
      EnumerationInit(order, ids);
      DispatchesOfEnumeration<E>(kind, order[..n], ids - {order[n]}, signal);
      ChannelInjective(Signal(kind, order[n]), signal);
    }
  }

  /** The phase an action belongs to within a reconciliation cycle: deletions first,
      then updates, then registration. */
  function Phase<E>(a: Action<E>): nat {
    match a
    case Dispatch(s) => if s.kind == DeleteEntity then 0 else 1
    case AddEntities(_, _) => 2
  }

  /** Appending three pieces one after another appends their concatenation. */
  lemma AppendInPieces<T>(h: seq<T>, a: seq<T>, b: seq<T>, c: seq<T>)
    ensures h + a + b + c == h + (a + b + c)
  {
  }

  /** The log of one successful cycle: deletes, updates, one registration call. */
  function CycleActions<E>(removed: seq<string>, updated: seq<string>, created: seq<E>): (acts: seq<Action<E>>)
    ensures |acts| == |removed| + |updated| + 1
    ensures acts[|acts| - 1] == AddEntities(created, true)
  {
    Dispatches(DeleteEntity, removed) + Dispatches(UpdateEntity, updated) + [AddEntities(created, true)]
  }

  /** In a cycle every delete precedes every update, and every update precedes the
      single registration call, which comes last. */
  lemma CycleActionsOrdered<E>(removed: seq<string>, updated: seq<string>, created: seq<E>)
    ensures var acts := CycleActions(removed, updated, created);
      && acts[|acts| - 1] == AddEntities(created, true)
      && (forall i :: 0 <= i < |acts| - 1 ==> acts[i].Dispatch?)
      && (forall i, j :: 0 <= i < j < |acts| ==> Phase(acts[i]) <= Phase(acts[j]))
  {
    var acts := CycleActions(removed, updated, created);
    var r, u := |removed|, |updated|;
    assert forall i :: 0 <= i < |acts| ==> Phase(acts[i]) == if i < r then 0 else if i < r + u then 1 else 2;
  }

  /** Signals of a successful cycle, counted per channel: a delete for each id that was
      managed and is no longer fetched, an update for each id managed and still fetched,
      exactly once each, and nothing else. */
  lemma CycleSignalCounts<E>(removed: seq<string>, updated: seq<string>, created: seq<E>,
                             managed: set<string>, fetched: set<string>, id: string)
    requires IsEnumeration(removed, managed - fetched)
    requires IsEnumeration(updated, managed * fetched)
    ensures var acts := CycleActions(removed, updated, created);
      && CountDispatches(acts, Channel(Signal(DeleteEntity, id))) == (if id in managed && id !in fetched then 1 else 0)
      && CountDispatches(acts, Channel(Signal(UpdateEntity, id))) == (if id in managed && id in fetched then 1 else 0)
  {
    var d: seq<Action<E>> := Dispatches(DeleteEntity, removed);
    var u: seq<Action<E>> := Dispatches(UpdateEntity, updated);
    var c: seq<Action<E>> := [AddEntities(created, true)];
    assert CycleActions(removed, updated, created) == d + u + c;
    assert c[..0] == [];
    forall kind: SignalKind
      ensures CountDispatches(d + u + c, Channel(Signal(kind, id)))
              == CountDispatches(d, Channel(Signal(kind, id))) + CountDispatches(u, Channel(Signal(kind, id)))
    {
      CountDispatchesAppend(d + u, c, Channel(Signal(kind, id)));
      CountDispatchesAppend(d, u, Channel(Signal(kind, id)));
    }
    DispatchesOfEnumeration<E>(DeleteEntity, removed, managed - fetched, Signal(DeleteEntity, id));
    DispatchesOfEnumeration<E>(DeleteEntity, removed, managed - fetched, Signal(UpdateEntity, id));
    DispatchesOfEnumeration<E>(UpdateEntity, updated, managed * fetched, Signal(DeleteEntity, id));
    DispatchesOfEnumeration<E>(UpdateEntity, updated, managed * fetched, Signal(UpdateEntity, id));
  }

  /** The sweep after a failed poll: one delete per previously managed id, so exactly
      as many deletes as ids were managed, and none for any other id. */
  lemma SweepSignalCounts<E>(removed: seq<string>, managed: set<string>, signal: Signal)
    requires IsEnumeration(removed, managed)
    ensures |Dispatches<E>(DeleteEntity, removed)| == |managed|
    ensures CountDispatches(Dispatches<E>(DeleteEntity, removed), Channel(signal))
            == if signal.kind == DeleteEntity && signal.externalId in managed then 1 else 0
  {
    EnumerationSize(removed, managed);
    DispatchesOfEnumeration<E>(DeleteEntity, removed, managed, signal);
  }
}
