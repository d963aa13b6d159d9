/**
 * The `desiredDays` store: the signed-in user's desired days as a `ListStateFactory` list,
 * with `load`, `save`, `create`, `update` and `delete` operations. Each request's outcome is
 * an input (`RequestOutcome`); the toasts and breadcrumbs it shows are not modelled.
 */
module DesiredDaysStore {
  import opened Common
  import opened SharedTypes
  import opened SharedHelpers
  import opened ListStates
  import opened DesiredDaysDiff

  /** What an operation of this store records as its payload. */
  datatype DaysPayload =
    | DayPayload(day: DesiredDay)
    | CreatePayload(create: DesiredDayCreate)
    | SavePayload(newData: seq<DesiredDayBase>, oldData: seq<DesiredDay>)

  /** What an operation of this store records as its result. */
  datatype DaysResult = DayResult(day: DesiredDay) | ListResult(days: seq<DesiredDay>)

  /** What an operation of this store records as its error. */
  datatype DaysError =
    | UiFailure(ui: UiError)
    | LoadFailure(request: RequestHelperError)
    | Thrown(message: string)

  type DaysOperations = Operations<DaysPayload, DaysResult, DaysError>

  /** The operations the store starts with: each kind has an empty entry for id 0. */
  function InitialOperations(): (ops: DaysOperations)
    ensures ReadyOperations(ops)
  {
    map["load" := map[0 := EmptyOperation()], "save" := map[0 := EmptyOperation()],
        "create" := map[0 := EmptyOperation()], "update" := map[0 := EmptyOperation()],
        "delete" := map[0 := EmptyOperation()]]
  }

  /**
   * Every operation kind has a map, and `load` and `save` have their entry 0, which
   * `fetchList` and `save` read before anything else.
   */
  predicate ReadyOperations(ops: DaysOperations) {
    && "load" in ops && "save" in ops && "create" in ops && "update" in ops && "delete" in ops
    && 0 in ops["load"] && 0 in ops["save"]
  }

  /** `operations[type][id].inProgress` is truthy. */
  predicate InProgress(ops: DaysOperations, kind: string, id: int)
    requires kind in ops
  {
    OperationAt(ops, kind, id).inProgress == Some(true)
  }

  /** Running any operation keeps every map and every entry the store reads. */
  lemma RanKeepsReady(ops: DaysOperations, kind: string, id: int, payload: Option<DaysPayload>,
                      error: Option<DaysError>, result: Option<DaysResult>)
    requires ReadyOperations(ops) && kind in ops
    ensures ReadyOperations(Ran(ops, kind, id, payload, error, result))
  {
  }

  /** The error `create`, `update` and `delete` record: `handleRequestError(error)` or nothing. */
  function RequestFailure<T>(response: RequestOutcome<T>): (e: Option<DaysError>)
    ensures e.Some? <==> response.Failed?
    ensures response.Failed? ==> e == Some(UiFailure(HandleRequestError(response.error)))
  {
    if response.Failed? then Some(UiFailure(HandleRequestError(response.error))) else None
  }

  /** The result `create` and `update` record: the returned day, or nothing. */
  function DayResultOf(response: RequestOutcome<DesiredDay>): (r: Option<DaysResult>)
    ensures r.Some? <==> response.Succeeded?
    ensures response.Succeeded? ==> r == Some(DayResult(response.value))
  {
    if response.Succeeded? then Some(DayResult(response.value)) else None
  }

  /** The list `fetchList` stores for the days it received. */
  function LoadedList(days: seq<DesiredDay>): (l: StateList<DesiredDay>)
    ensures l.data == days && l.total == |days| && l.page == 0 && l.perPage == |days|
  {
    ListPatch(Present(days), Present(|days|), Present(0), Present(|days|)).ApplyTo(EmptyList())
  }

  /** `data.map(item => item.id === updated.id ? updated : item)`. */
  function ReplaceById(data: seq<DesiredDay>, updated: DesiredDay): (r: seq<DesiredDay>)
    ensures |r| == |data|
    ensures forall i :: 0 <= i < |data| && data[i].id != updated.id ==> r[i] == data[i]
    ensures forall i :: 0 <= i < |data| && data[i].id == updated.id ==> r[i] == updated
    decreases |data|
  {
    if data == [] then []
    else [if data[0].id == updated.id then updated else data[0]] + ReplaceById(data[1..], updated)
  }

  /** After `ReplaceById`, the day with that id is the updated one wherever it was held. */
  lemma ReplacedDayIsHeld(data: seq<DesiredDay>, updated: DesiredDay)
    ensures (exists i :: 0 <= i < |data| && data[i].id == updated.id) <==> updated in ReplaceById(data, updated)
    ensures forall d :: d in ReplaceById(data, updated) && d.id == updated.id ==> d == updated
  {
    var r := ReplaceById(data, updated);
    if exists i :: 0 <= i < |data| && data[i].id == updated.id {
      var i :| 0 <= i < |data| && data[i].id == updated.id;
      assert r[i] == updated;
    }
    if updated in r {
      var i :| 0 <= i < |r| && r[i] == updated;
      assert data[i].id == updated.id;
    }
  }

  /** `data.filter(item => item.id !== id)`. */
  function WithoutId(data: seq<DesiredDay>, id: int): (r: seq<DesiredDay>)
    ensures forall d :: d in r <==> d in data && d.id != id
    ensures |r| <= |data|
    decreases |data|
  {
    if data == [] then []
    else (if data[0].id != id then [data[0]] else []) + WithoutId(data[1..], id)
  }

  /** `data.find(item => item.id === id)`. */
  function FindById(data: seq<DesiredDay>, id: int): (r: Option<DesiredDay>)
    ensures r.Some? ==> r.value in data && r.value.id == id
    ensures r.None? <==> forall d :: d in data ==> d.id != id
  {
    if data == [] then None
    else if data[0].id == id then Some(data[0])
    else FindById(data[1..], id)
  }

  /**
   * The error `save` should record: the message of whatever the dispatched calls threw, or
   * nothing when they all settled.
   */
  function SaveError(failure: Option<string>): (e: Option<DaysError>)
    ensures e.Some? <==> failure.Some?
    ensures failure.Some? ==> e == Some(Thrown(failure.value))
  {
    if failure.Some? then Some(Thrown(failure.value)) else None
  }

  /**
   * The error `save` records as written: the `catch` block hands `error` to `endOperation`
   * before assigning the caught value to it, so the error recorded is always `null`.
   */
  function SaveErrorAsWritten(failure: Option<string>): (e: Option<DaysError>)
    ensures e.None?
  {
    None
  }

  /** As written, a failed save is recorded as a save that ended without error. */
  lemma SaveFailureIsLostAsWritten(message: string)
    ensures SaveErrorAsWritten(Some(message)) == SaveError(None)
    ensures SaveErrorAsWritten(Some(message)) != SaveError(Some(message))
  {
  }

  class DesiredDaysStore {
    const listState: ListStateFactory<DesiredDay, DaysPayload, DaysResult, DaysError>

    /** The store's invariant: its reset value is the initial one and the entries it reads exist. */
    ghost predicate Ready()
      reads listState
    {
      && listState.initialValue == ListState(EmptyList(), InitialOperations())
      && ReadyOperations(listState.store.operations)
    }

    /** `new ListStateFactory({}, {}, {load: {0: {}}, save: ..., delete: {0: {}}})`. */
    constructor ()
      ensures Ready() && fresh(listState)
      ensures listState.store == ListState(EmptyList(), InitialOperations())
    {
      listState := new ListStateFactory(ListPatch(Absent, Absent, Absent, Absent), InitialOperations());
    }

    /**
     * `fetchList`: nothing happens while a load is in progress. Otherwise the load runs; on
     * success the list becomes the days received, with the total and the page size both their
     * count and page 0; on failure the list is kept. The load records the request's error or
     * the days.
     */
    method FetchList(response: RequestOutcome<seq<DesiredDay>>) returns (started: bool)
      requires Ready()
      modifies listState
      ensures Ready()
      ensures started <==> !InProgress(old(listState.store.operations), "load", 0)
      ensures !started ==> listState.store == old(listState.store)
      ensures started ==>
                && listState.store.list == (if response.Succeeded? then LoadedList(response.value)
                                            else old(listState.store.list))
                && listState.store.operations
                   == Ran(old(listState.store.operations), "load", 0, None,
                          if response.Failed? then Some(LoadFailure(response.error)) else None,
                          if response.Succeeded? then Some(ListResult(response.value)) else None)
    {
      if listState.store.operations["load"][0].inProgress == Some(true) {
        return false;
      }
      RanKeepsReady(listState.store.operations, "load", 0, None,
                    if response.Failed? then Some(LoadFailure(response.error)) else None,
                    if response.Succeeded? then Some(ListResult(response.value)) else None);
      var _ := listState.StartOperation("load", None, 0);
      if response.Succeeded? {
        var list := response.value;
        listState.MutateList(ListPatch(Present(list), Present(|list|), Present(0), Present(|list|)));
      }
      var _ := listState.EndOperation("load", if response.Failed? then Some(LoadFailure(response.error)) else None,
                                      if response.Succeeded? then Some(ListResult(response.value)) else None, 0);
      started := true;
    }

    /**
     * `save(newData, oldData)`: nothing happens while a save is in progress. Otherwise the save
     * runs with both lists as its payload and the returned diff is what it dispatches; it
     * ends with the corrected `SaveError`, `failure` being what the dispatched calls threw.
     */
    method Save(newData: seq<DesiredDayBase>, oldData: seq<DesiredDay>, failure: Option<string>)
      returns (started: bool, toCreate: seq<DesiredDayBase>, toUpdate: seq<DesiredDay>, toDelete: seq<DesiredDay>)
      requires Ready()
      modifies listState
      ensures Ready()
      ensures started <==> !InProgress(old(listState.store.operations), "save", 0)
      ensures !started ==> listState.store == old(listState.store) && toCreate == [] && toUpdate == [] && toDelete == []
      ensures started ==>
                && toCreate == ToCreate(newData, oldData)
                && toUpdate == ToUpdate(newData, oldData)
                && toDelete == ToDelete(newData, oldData)
                && listState.store.list == old(listState.store.list)
                && listState.store.operations
                   == Ran(old(listState.store.operations), "save", 0, Some(SavePayload(newData, oldData)),
                          SaveError(failure), None)
    {
      if listState.store.operations["save"][0].inProgress == Some(true) {
        return false, [], [], [];
      }
      RanKeepsReady(listState.store.operations, "save", 0, Some(SavePayload(newData, oldData)), SaveError(failure), None);
      var _ := listState.StartOperation("save", Some(SavePayload(newData, oldData)), 0);
      toCreate, toUpdate, toDelete := ComputeDiff(newData, oldData);
      var _ := listState.EndOperation("save", SaveError(failure), None, 0);
      started := true;
    }

    /**
     * `create(desiredDay)`: the create runs with the new day as its payload; on success the
     * created day is appended to the list. The create records `handleRequestError` of a
     * failure, or the created day.
     */
    method Create(d: DesiredDayCreate, response: RequestOutcome<DesiredDay>)
      requires Ready()
      modifies listState
      ensures Ready()
      ensures listState.store.list == if response.Succeeded?
                                      then old(listState.store.list).(data := old(listState.store.list.data) + [response.value])
                                      else old(listState.store.list)
      ensures listState.store.operations == Ran(old(listState.store.operations), "create", 0, Some(CreatePayload(d)),
                                                RequestFailure(response), DayResultOf(response))
    {
      var state := listState.store;
      RanKeepsReady(state.operations, "create", 0, Some(CreatePayload(d)), RequestFailure(response), DayResultOf(response));
      var _ := listState.StartOperation("create", Some(CreatePayload(d)), 0);
      if response.Succeeded? {
        listState.MutateList(DataOnly(state.list.data + [response.value]));
      }
      var _ := listState.EndOperation("create", RequestFailure(response), DayResultOf(response), 0);
    }

    /**
     * `update(desiredDay)`, under the day's id: a day that fails the schema ends the update
     * with `handleValidationError` of the schema's field errors and sends nothing. Otherwise
     * the update records `handleRequestError` of a failure, or the updated day, and on success
     * the day with the returned id is replaced in the list.
     */
    method Update(d: DesiredDay, schemaErrors: FieldErrors, response: RequestOutcome<DesiredDay>) returns (sent: bool)
      requires Ready()
      modifies listState
      ensures Ready()
      ensures sent <==> DesiredDayValid(d)
      ensures !sent ==>
                && listState.store.list == old(listState.store.list)
                && listState.store.operations
                   == Ran(old(listState.store.operations), "update", d.id, Some(DayPayload(d)),
                          Some(UiFailure(ValidationError(HandleValidationError(schemaErrors)))), None)
      ensures sent ==>
                && listState.store.list == (if response.Succeeded?
                                            then old(listState.store.list).(data := ReplaceById(old(listState.store.list.data), response.value))
                                            else old(listState.store.list))
                && listState.store.operations == Ran(old(listState.store.operations), "update", d.id, Some(DayPayload(d)),
                                                     RequestFailure(response), DayResultOf(response))
    {
      var error := if DesiredDayValid(d) then RequestFailure(response)
                   else Some(UiFailure(ValidationError(HandleValidationError(schemaErrors))));
      var result := if DesiredDayValid(d) then DayResultOf(response) else None;
      RanKeepsReady(listState.store.operations, "update", d.id, Some(DayPayload(d)), error, result);
      var _ := listState.StartOperation("update", Some(DayPayload(d)), d.id);
      if !DesiredDayValid(d) {
        var _ := listState.EndOperation("update", error, None, d.id);
        return false;
      }
      var _ := listState.EndOperation("update", RequestFailure(response), DayResultOf(response), d.id);
      if response.Succeeded? {
        listState.MutateList(DataOnly(ReplaceById(listState.store.list.data, response.value)));
      }
      sent := true;
    }

    /**
     * `delete(id)`: nothing happens when the list holds no day with this id. Otherwise the
     * delete runs under the id with the day as its payload, records `handleRequestError` of a
     * failure and no result, and on success every day with this id leaves the list.
     */
    method Delete(id: int, failure: Option<RequestHelperError>) returns (found: bool)
      requires Ready()
      modifies listState
      ensures Ready()
      ensures found <==> FindById(old(listState.store.list.data), id).Some?
      ensures !found ==> listState.store == old(listState.store)
      ensures found ==>
                && listState.store.list == (if failure.None?
                                            then old(listState.store.list).(data := WithoutId(old(listState.store.list.data), id))
                                            else old(listState.store.list))
                && listState.store.operations
                   == Ran(old(listState.store.operations), "delete", id,
                          Some(DayPayload(FindById(old(listState.store.list.data), id).value)),
                          if failure.Some? then Some(UiFailure(HandleRequestError(failure.value))) else None, None)
    {
      var state := listState.store;
      var desiredDay := FindById(state.list.data, id);
      if desiredDay.None? {
        return false;
      }
      var error := if failure.Some? then Some(UiFailure(HandleRequestError(failure.value))) else None;
      RanKeepsReady(state.operations, "delete", id, Some(DayPayload(desiredDay.value)), error, None);
      var _ := listState.StartOperation("delete", Some(DayPayload(desiredDay.value)), id);
      var _ := listState.EndOperation("delete", error, None, id);
      if failure.None? {
        listState.MutateList(DataOnly(WithoutId(state.list.data, id)));
      }
      found := true;
    }

    /**
     * The `onAuthStateChange` callback `init` registers: signing in loads the list unless a
     * load already has a result; signing out resets the store to its initial value.
     */
    method OnAuthStateChange(signedIn: bool, response: RequestOutcome<seq<DesiredDay>>) returns (loaded: bool)
      requires Ready()
      modifies listState
      ensures Ready()
      ensures !signedIn ==> !loaded && listState.store == ListState(EmptyList(), InitialOperations())
      ensures signedIn && OperationAt(old(listState.store.operations), "load", 0).result.Some? ==>
                !loaded && listState.store == old(listState.store)
      ensures signedIn && OperationAt(old(listState.store.operations), "load", 0).result.None? ==>
                && (loaded <==> !InProgress(old(listState.store.operations), "load", 0))
                && (!loaded ==> listState.store == old(listState.store))
      ensures loaded ==>
                && listState.store.list == (if response.Succeeded? then LoadedList(response.value)
                                            else old(listState.store.list))
                && listState.store.operations
                   == Ran(old(listState.store.operations), "load", 0, None,
                          if response.Failed? then Some(LoadFailure(response.error)) else None,
                          if response.Succeeded? then Some(ListResult(response.value)) else None)
    {
      loaded := false;
      if !signedIn {
        listState.Mutate(StatePatch(Present(listState.initialValue.list), Present(listState.initialValue.operations)));
        return;
      }
      if listState.store.operations["load"][0].result.None? {
        loaded := FetchList(response);
      }
    }
  }
}
