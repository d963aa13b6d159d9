/**
 * `ListStateFactory`: the client-side store of a list of entities together with the state of
 * the asynchronous operations on them, kept per operation type and per entity id. The store's
 * value is replaced by spread merges (`{...old, ...patch}`): a key present in a patch wins,
 * even when its value is `undefined`, and a key absent from it keeps its old value. `Field`
 * tells those apart: `Absent` is a key left out, `Present(None)` a key set to `undefined`.
 */
module ListStates {
  import opened Common

  /** One part of an upload (`{id, percentage}`). */
  datatype Detail = Detail(id: int, percentage: int)

  /** `AsyncOperationProgress`: the overall percentage and the per-part details. */
  datatype Progress = Progress(percentage: int, details: seq<Detail>)

  /** `Operation<P, R, E>`: every field may be undefined. */
  datatype Operation<P, R, E> = Operation(payload: Option<P>, inProgress: Option<bool>, error: Option<E>,
                                          result: Option<R>, progress: Option<Progress>)

  /** `{}`: an operation with nothing set. */
  function EmptyOperation<P, R, E>(): Operation<P, R, E> {
    Operation(None, None, None, None, None)
  }

  /** `Partial<Operation>`. */
  datatype OperationPatch<P, R, E> = OperationPatch(payload: Field<Option<P>>, inProgress: Field<Option<bool>>,
                                                    error: Field<Option<E>>, result: Field<Option<R>>,
                                                    progress: Field<Option<Progress>>)
  {
    /** `{...o, ...this}`. */
    function ApplyTo(o: Operation<P, R, E>): Operation<P, R, E> {
      Operation(payload.Or(o.payload), inProgress.Or(o.inProgress), error.Or(o.error), result.Or(o.result),
                progress.Or(o.progress))
    }
  }

  /** The operations of a store: operation type, then entity id. */
  type Operations<P, R, E> = map<string, map<int, Operation<P, R, E>>>

  /** `IStateList<Entity>`. */
  datatype StateList<T> = StateList(data: seq<T>, total: int, page: int, perPage: int)

  /** `listStateInitialValue.list`. */
  function EmptyList<T>(): StateList<T> {
    StateList([], 0, 0, 0)
  }

  /** `Partial<IStateList<Entity>>`. */
  datatype ListPatch<T> = ListPatch(data: Field<seq<T>>, total: Field<int>, page: Field<int>, perPage: Field<int>)
  {
    function ApplyTo(l: StateList<T>): StateList<T> {
      StateList(data.Or(l.data), total.Or(l.total), page.Or(l.page), perPage.Or(l.perPage))
    }
  }

  /** `mutateList({data})`: the patch that sets only the data. */
  function DataOnly<T>(data: seq<T>): ListPatch<T> {
    ListPatch(Present(data), Absent, Absent, Absent)
  }

  /** `IListState`: the list and the operations. */
  datatype ListState<T, P, R, E> = ListState(list: StateList<T>, operations: Operations<P, R, E>)

  /** `Partial<IListState>`. */
  datatype StatePatch<T, P, R, E> = StatePatch(list: Field<StateList<T>>, operations: Field<Operations<P, R, E>>)
  {
    function ApplyTo(s: ListState<T, P, R, E>): ListState<T, P, R, E> {
      ListState(list.Or(s.list), operations.Or(s.operations))
    }
  }

  /** `operations[type][id] ?? {}`. */
  function OperationAt<P, R, E>(ops: Operations<P, R, E>, kind: string, id: int): Operation<P, R, E>
    requires kind in ops
  {
    if id in ops[kind] then ops[kind][id] else EmptyOperation()
  }

  /**
   * The operations after `mutateOperation(type, s, id)`: the entry of `id` under `type` has `s`
   * merged into it (or into `{}` if there was none) and every other entry is as before.
   */
  function WithOperation<P, R, E>(ops: Operations<P, R, E>, kind: string, s: OperationPatch<P, R, E>, id: int)
    : (r: Operations<P, R, E>)
    requires kind in ops
    ensures r.Keys == ops.Keys && r[kind].Keys == ops[kind].Keys + {id}
    ensures r[kind][id] == s.ApplyTo(OperationAt(ops, kind, id))
    ensures forall t :: t in ops && t != kind ==> r[t] == ops[t]
    ensures forall i :: i in ops[kind] && i != id ==> r[kind][i] == ops[kind][i]
  {
    ops[kind := ops[kind][id := s.ApplyTo(OperationAt(ops, kind, id))]]
  }

  /** `startOperation`'s patch: the payload, in progress, and no error or result. */
  function StartPatch<P, R, E>(payload: Option<P>): OperationPatch<P, R, E> {
    OperationPatch(Present(payload), Present(Some(true)), Present(None), Present(None), Absent)
  }

  /** `endOperation`'s patch: no longer in progress, with the error and result given. */
  function EndPatch<P, R, E>(error: Option<E>, result: Option<R>): OperationPatch<P, R, E> {
    OperationPatch(Absent, Present(Some(false)), Present(error), Present(result), Absent)
  }

  /**
   * An operation that was started and then ended keeps the payload it started with, is no
   * longer in progress, holds exactly the error and the result it ended with, and keeps
   * whatever progress it had.
   */
  lemma StartThenEnd<P, R, E>(o: Operation<P, R, E>, payload: Option<P>, error: Option<E>, result: Option<R>)
    ensures EndPatch(error, result).ApplyTo(StartPatch(payload).ApplyTo(o))
            == Operation(payload, Some(false), error, result, o.progress)
  {
  }

  /**
   * The operations after `startOperation(type, payload, id)` and then
   * `endOperation(type, error, result, id)`: the entry of `id` holds the payload, error and
   * result of this run and is no longer in progress; every other entry is as before.
   */
  function Ran<P, R, E>(ops: Operations<P, R, E>, kind: string, id: int, payload: Option<P>, error: Option<E>,
                        result: Option<R>): (r: Operations<P, R, E>)
    requires kind in ops
    ensures r.Keys == ops.Keys && r[kind].Keys == ops[kind].Keys + {id}
    ensures r[kind][id] == Operation(payload, Some(false), error, result, OperationAt(ops, kind, id).progress)
    ensures forall t :: t in ops && t != kind ==> r[t] == ops[t]
    ensures forall i :: i in ops[kind] && i != id ==> r[kind][i] == ops[kind][i]
  {
    var started := WithOperation(ops, kind, StartPatch(payload), id);
    StartThenEnd(OperationAt(ops, kind, id), payload, error, result);
    WithOperation(started, kind, EndPatch(error, result), id)
  }

  /** Starting clears what the previous run left: no error, no result, in progress. */
  lemma StartClears<P, R, E>(o: Operation<P, R, E>, payload: Option<P>)
    ensures var s := StartPatch(payload).ApplyTo(o);
            s.payload == payload && s.inProgress == Some(true) && s.error.None? && s.result.None?
  {
  }

  /** A list patch changes the fields it sets and no other. */
  lemma ListPatchChangesOnlyItsFields<T>(p: ListPatch<T>, l: StateList<T>)
    ensures var r := p.ApplyTo(l);
            && (p.data.Absent? ==> r.data == l.data) && (p.data.Present? ==> r.data == p.data.value)
            && (p.total.Absent? ==> r.total == l.total) && (p.total.Present? ==> r.total == p.total.value)
            && (p.page.Absent? ==> r.page == l.page) && (p.page.Present? ==> r.page == p.page.value)
            && (p.perPage.Absent? ==> r.perPage == l.perPage) && (p.perPage.Present? ==> r.perPage == p.perPage.value)
  {
  }

  class ListStateFactory<T, P, R, E> {
    /** The state the store started from; `mutate(initialValue)` resets it. */
    var initialValue: ListState<T, P, R, E>
    /** The store's current value. */
    var store: ListState<T, P, R, E>

    /**
     * `new ListStateFactory(initialValue, list, operations)`: the empty list overridden by
     * `list`, and the operations given. The first argument only matters for keys other than
     * `list` and `operations`, which the state does not have.
     */
    constructor (list: ListPatch<T>, operations: Operations<P, R, E>)
      ensures initialValue == ListState(list.ApplyTo(EmptyList()), operations)
      ensures store == initialValue
    {
      initialValue := ListState(list.ApplyTo(EmptyList()), operations);
      store := initialValue;
    }

    /** `mutate`: the state merged with the patch. */
    method Mutate(state: StatePatch<T, P, R, E>)
      modifies this
      ensures store == state.ApplyTo(old(store)) && initialValue == old(initialValue)
    {
      store := state.ApplyTo(store);
    }

    /** `mutateList`: only the given list fields change; the operations are kept. */
    method MutateList(state: ListPatch<T>)
      modifies this
      ensures store == ListState(state.ApplyTo(old(store.list)), old(store.operations))
      ensures initialValue == old(initialValue)
    {
      Mutate(StatePatch(Present(state.ApplyTo(store.list)), Absent));
    }

    /**
     * `mutateOperation(type, s, id)`. For a type the store has no map for, reading
     * `entityOperationMap[id]` throws: `thrown` is set and nothing changes.
     */
    method MutateOperation(kind: string, state: OperationPatch<P, R, E>, id: int) returns (thrown: bool)
      modifies this
      ensures thrown <==> kind !in old(store.operations)
      ensures thrown ==> store == old(store)
      ensures !thrown ==> store == old(store).(operations := WithOperation(old(store.operations), kind, state, id))
      ensures initialValue == old(initialValue)
    {
      var operations := store.operations;
      if kind !in operations {
        return true;
      }
      var entityOperationMap := operations[kind];
      var entityOperation := if id in entityOperationMap then entityOperationMap[id] else EmptyOperation();
      var operationNewState := entityOperationMap[id := state.ApplyTo(entityOperation)];
      Mutate(StatePatch(Absent, Present(operations[kind := operationNewState])));
      thrown := false;
    }

    /** `startOperation(type, payload, id)`. */
    method StartOperation(kind: string, payload: Option<P>, id: int) returns (thrown: bool)
      modifies this
      ensures thrown <==> kind !in old(store.operations)
      ensures thrown ==> store == old(store)
      ensures !thrown ==> store == old(store).(operations := WithOperation(old(store.operations), kind, StartPatch(payload), id))
      ensures initialValue == old(initialValue)
    {
      thrown := MutateOperation(kind, StartPatch(payload), id);
    }

    /** `endOperation(type, error, result, id)`. */
    method EndOperation(kind: string, error: Option<E>, result: Option<R>, id: int) returns (thrown: bool)
      modifies this
      ensures thrown <==> kind !in old(store.operations)
      ensures thrown ==> store == old(store)
      ensures !thrown ==> store == old(store).(operations := WithOperation(old(store.operations), kind, EndPatch(error, result), id))
      ensures initialValue == old(initialValue)
    {
      thrown := MutateOperation(kind, EndPatch(error, result), id);
    }
  }
}
