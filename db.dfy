/**
 * `db`: the `users` and `desired_days` statements of the server, over the same tables as the
 * authentication adapter. `desiredDay.createOne` is an upsert keyed on `(userId, dayOfWeek)`;
 * `desiredDay.updateMany` runs its statements in one transaction, so either every update is
 * applied or, when one of them fails, none is.
 */
module Db {
  import opened Common
  import opened AuthTypes
  import opened SharedTypes
  import opened Storage

  /** Some row other than `id` already is `d`'s owner's row for `d`'s day. */
  predicate DayTakenByOther(days: map<int, DesiredDay>, id: int, d: DesiredDay) {
    exists other :: other in days && other != id && DayFor(days, other, d.userId, d.dayOfWeek)
  }

  /** Writing a row whose `(userId, dayOfWeek)` is free keeps one row per user and day. */
  lemma DaysUniqueAfterWrite(days: map<int, DesiredDay>, id: int, d: DesiredDay)
    requires DaysUnique(days) && !DayTakenByOther(days, id, d)
    ensures DaysUnique(days[id := d])
  {
    var after := days[id := d];
    forall a, b | a in after && b in after && DayFor(after, a, after[b].userId, after[b].dayOfWeek)
      ensures a == b
    {
      if a == id && b != id {
        assert DayFor(days, b, d.userId, d.dayOfWeek);
      } else if a != id && b == id {
        assert DayFor(days, a, d.userId, d.dayOfWeek);
      }
    }
  }

  /** Two rows of the same user on the same day are the same row. */
  lemma OneRowPerDay(days: map<int, DesiredDay>, a: int, b: int)
    requires DaysUnique(days) && a in days && b in days && days[a].userId == days[b].userId
    ensures days[a].dayOfWeek == days[b].dayOfWeek ==> a == b
  {
    assert days[a].dayOfWeek == days[b].dayOfWeek ==> DayFor(days, a, days[b].userId, days[b].dayOfWeek);
  }

  /** `ORDER BY day_of_week, start_at_hour, start_at_minute`: `a` may come before `b`. */
  predicate ListedBefore(a: DesiredDay, b: DesiredDay) {
    || a.dayOfWeek < b.dayOfWeek
    || (a.dayOfWeek == b.dayOfWeek && a.startAtHour < b.startAtHour)
    || (a.dayOfWeek == b.dayOfWeek && a.startAtHour == b.startAtHour && a.startAtMinute <= b.startAtMinute)
  }

  /** Listing order with no two rows on the same day. */
  predicate StrictlyByDay(s: seq<DesiredDay>) {
    forall i, j :: 0 <= i < j < |s| ==> s[i].dayOfWeek < s[j].dayOfWeek
  }

  predicate DaysDistinct(s: seq<DesiredDay>) {
    forall i, j :: 0 <= i < j < |s| ==> s[i].dayOfWeek != s[j].dayOfWeek
  }

  /** `x` put into its place in `s`. */
  function InsertByDay(x: DesiredDay, s: seq<DesiredDay>): (r: seq<DesiredDay>)
    requires StrictlyByDay(s)
    requires forall i :: 0 <= i < |s| ==> s[i].dayOfWeek != x.dayOfWeek
    ensures StrictlyByDay(r) && |r| == |s| + 1
    ensures forall y :: y in r <==> y == x || y in s
  {
    if s == [] then [x]
    else if x.dayOfWeek < s[0].dayOfWeek then [x] + s
    else
      var t := InsertByDay(x, s[1..]);
      assert forall k :: 0 <= k < |t| ==> s[0].dayOfWeek < t[k].dayOfWeek by {
        forall k | 0 <= k < |t|
          ensures s[0].dayOfWeek < t[k].dayOfWeek
        {
          assert t[k] in t;
          if t[k] != x {
            var m :| 0 <= m < |s[1..]| && s[1..][m] == t[k];
            assert s[m + 1] == t[k];
          }
        }
      }
      [s[0]] + t
  }

  /**
   * The rows as the database lists them. A user's rows are on distinct days, so the order on
   * the day alone is the whole `ORDER BY`.
   */
  function SortByDay(s: seq<DesiredDay>): (r: seq<DesiredDay>)
    requires DaysDistinct(s)
    ensures StrictlyByDay(r) && |r| == |s|
    ensures forall y :: y in r <==> y in s
  {
    if s == [] then []
    else
      var rest := SortByDay(s[1..]);
      assert forall i :: 0 <= i < |rest| ==> rest[i] in s[1..];
      InsertByDay(s[0], rest)
  }

  /** Rows strictly ordered by day are in `ORDER BY` order, and no row appears twice. */
  lemma StrictlyByDayIsListingOrder(s: seq<DesiredDay>)
    requires StrictlyByDay(s)
    ensures forall i, j :: 0 <= i < j < |s| ==> ListedBefore(s[i], s[j]) && s[i] != s[j]
  {
  }

  /** Every row sits under its own id. */
  predicate RowIdsMatch(days: map<int, DesiredDay>) {
    forall id :: id in days ==> days[id].id == id
  }

  /** One element of `updateMany`: `Pick<BaseModel, 'id'> & Partial<DesiredDay>`. */
  datatype DayUpdate = DayUpdate(id: int, patch: DesiredDayUpdate)

  datatype StepOutcome = StepOutcome(result: Option<DesiredDay>, days: map<int, DesiredDay>)

  datatype UpdatesOutcome = UpdatesOutcome(results: seq<Option<DesiredDay>>, days: map<int, DesiredDay>)

  /**
   * `UPDATE desired_days SET <patch> WHERE id = id AND user_id = userId RETURNING *`: no row
   * when nothing matches; an error for an empty `SET` or when the row would take another
   * row's `(user_id, day_of_week)`.
   */
  function UpdateStep(days: map<int, DesiredDay>, id: int, patch: DesiredDayUpdate, userId: int): (r: Result<StepOutcome>)
    ensures r.Ok? && r.value.result.None? ==> r.value.days == days && !(id in days && days[id].userId == userId)
    ensures r.Ok? && r.value.result.Some? ==>
              && id in days && days[id].userId == userId
              && r.value.result.value == patch.ApplyTo(days[id])
              && r.value.days == days[id := r.value.result.value]
    ensures r.Err? <==> patch.IsEmpty() || (id in days && days[id].userId == userId && DayTakenByOther(days, id, patch.ApplyTo(days[id])))
  {
    if patch.IsEmpty() then Err("syntax error at or near \"WHERE\"")
    else if !(id in days && days[id].userId == userId) then Ok(StepOutcome(None, days))
    else
      var d := patch.ApplyTo(days[id]);
      if DayTakenByOther(days, id, d) then Err("duplicate key value violates unique constraint")
      else Ok(StepOutcome(Some(d), days[id := d]))
  }

  /**
   * The transaction of `updateMany`: the updates in order, each on the rows the previous ones
   * left. Succeeds with one result per update, in input order, each the row with the requested
   * id if it was one of `userId`'s; rows of other users are untouched, and no row is added or
   * removed.
   */
  function UpdateAll(days: map<int, DesiredDay>, updates: seq<DayUpdate>, userId: int): (r: Result<UpdatesOutcome>)
    ensures r.Ok? ==> |r.value.results| == |updates| && r.value.days.Keys == days.Keys
    ensures r.Ok? && RowIdsMatch(days) ==> forall i :: 0 <= i < |updates| && r.value.results[i].Some? ==> r.value.results[i].value.id == updates[i].id
    ensures r.Ok? ==> forall id :: id in days && days[id].userId != userId ==> r.value.days[id] == days[id]
    ensures r.Ok? ==> forall id :: id in days ==> r.value.days[id].id == days[id].id
    ensures r.Ok? && DaysUnique(days) ==> DaysUnique(r.value.days)
    decreases |updates|
  {
    if updates == [] then Ok(UpdatesOutcome([], days))
    else match UpdateStep(days, updates[0].id, updates[0].patch, userId)
      case Err(e) => Err(e)
      case Ok(step) =>
        StepKeepsDaysUnique(days, updates[0].id, updates[0].patch, userId);
        match UpdateAll(step.days, updates[1..], userId)
        case Err(e) => Err(e)
        case Ok(rest) =>
          var out := [step.result] + rest.results;
          assert forall i :: 1 <= i < |updates| ==> out[i] == rest.results[i - 1] && updates[i] == updates[1..][i - 1];
          Ok(UpdatesOutcome(out, rest.days))
  }

  /** A successful step keeps one row per user and day. */
  lemma StepKeepsDaysUnique(days: map<int, DesiredDay>, id: int, patch: DesiredDayUpdate, userId: int)
    ensures var r := UpdateStep(days, id, patch, userId);
            r.Ok? && DaysUnique(days) ==> DaysUnique(r.value.days)
  {
    var r := UpdateStep(days, id, patch, userId);
    if r.Ok? && r.value.result.Some? && DaysUnique(days) {
      DaysUniqueAfterWrite(days, id, r.value.result.value);
    }
  }

  /** The outcome of the whole list, given the results of a done prefix and the outcome of the rest. */
  function AfterPrefix(done: seq<Option<DesiredDay>>, rest: Result<UpdatesOutcome>): Result<UpdatesOutcome> {
    match rest
    case Err(e) => Err(e)
    case Ok(o) => Ok(UpdatesOutcome(done + o.results, o.days))
  }

  /** Running the first update of the rest moves its result to the done prefix. */
  lemma AfterPrefixStep(done: seq<Option<DesiredDay>>, days: map<int, DesiredDay>, updates: seq<DayUpdate>, userId: int)
    requires updates != []
    ensures var step := UpdateStep(days, updates[0].id, updates[0].patch, userId);
            && (step.Err? ==> AfterPrefix(done, UpdateAll(days, updates, userId)).Err?)
            && (step.Ok? ==> AfterPrefix(done, UpdateAll(days, updates, userId))
                             == AfterPrefix(done + [step.value.result], UpdateAll(step.value.days, updates[1..], userId)))
  {
    var step := UpdateStep(days, updates[0].id, updates[0].patch, userId);
    if step.Ok? {
      match UpdateAll(step.value.days, updates[1..], userId)
      case Err(_) =>
      case Ok(o) =>
        assert done + ([step.value.result] + o.results) == done + [step.value.result] + o.results;
    }
  }

  /** A failing update fails the whole transaction, wherever it sits in the list. */
  lemma {:induction false} OneFailureFailsAll(days: map<int, DesiredDay>, updates: seq<DayUpdate>, userId: int, k: int)
    requires 0 <= k < |updates| && updates[k].patch.IsEmpty()
    ensures UpdateAll(days, updates, userId).Err?
    decreases k
  {
    if k > 0 {
      match UpdateStep(days, updates[0].id, updates[0].patch, userId)
      case Err(_) =>
      case Ok(step) =>
        assert updates[1..][k - 1] == updates[k];
        OneFailureFailsAll(step.days, updates[1..], userId, k - 1);
    }
  }

  class Db {
    const db: Database

    constructor (db: Database)
      ensures this.db == db
    {
      this.db := db;
    }

    /** `user.count`: `SELECT COUNT(*) FROM users`. */
    method UserCount() returns (n: int)
      requires db.Valid()
      ensures n == |db.users|
    {
      n := |db.users|;
    }

    method UserFindOne(id: int) returns (r: Option<User>)
      requires db.Valid()
      ensures r.Some? <==> id in db.users
      ensures r.Some? ==> r.value == db.users[id] && r.value.id == id
    {
      r := if id in db.users then Some(db.users[id]) else None;
    }

    /** `user.updateOne`: the given columns and `updatedAt = now`; no row when the id is unknown. */
    method UserUpdateOne(id: int, update: UserPatch, now: int) returns (r: Option<User>)
      requires db.Valid()
      modifies db`users
      ensures db.Valid()
      ensures r.Some? <==> id in old(db.users)
      ensures r.Some? ==> r.value == update.ApplyTo(old(db.users)[id]).(updatedAt := now)
                          && db.users == old(db.users)[id := r.value]
      ensures r.None? ==> db.users == old(db.users)
    {
      if id !in db.users {
        return None;
      }
      var u := update.ApplyTo(db.users[id]).(updatedAt := now);
      db.users := db.users[id := u];
      r := Some(u);
    }

    method UserDeleteOne(id: int)
      requires db.Valid()
      modifies db`users
      ensures db.Valid()
      ensures db.users == old(db.users) - {id}
    {
      db.users := db.users - {id};
    }

    /** `desiredDay.doesOneExist`: a row with that id belongs to that user. */
    method DesiredDayDoesOneExist(id: int, userId: int) returns (b: bool)
      requires db.Valid()
      ensures b <==> id in db.desiredDays && db.desiredDays[id].userId == userId
    {
      b := id in db.desiredDays && db.desiredDays[id].userId == userId;
    }

    /** `desiredDay.findMany`: exactly the user's rows, each once, in `ORDER BY` order. */
    method DesiredDayFindMany(userId: int) returns (r: seq<DesiredDay>)
      requires db.Valid()
      ensures forall d :: d in r <==> d.id in db.desiredDays && db.desiredDays[d.id] == d && d.userId == userId
      ensures StrictlyByDay(r)
      ensures forall i, j :: 0 <= i < j < |r| ==> ListedBefore(r[i], r[j]) && r[i] != r[j]
    {
      var days := db.desiredDays;
      var ids := IdsWhere(days, (d: DesiredDay) => d.userId == userId);
      var rows := seq(|ids|, i requires 0 <= i < |ids| && ids[i] in days => days[ids[i]]);
      assert DaysDistinct(rows) by {
        forall i, j | 0 <= i < j < |rows|
          ensures rows[i].dayOfWeek != rows[j].dayOfWeek
        {
          assert ids[i] in ids && ids[j] in ids;
          OneRowPerDay(days, ids[i], ids[j]);
        }
      }
      r := SortByDay(rows);
      forall d | d in r
        ensures d.id in days && days[d.id] == d && d.userId == userId
      {
        var i :| 0 <= i < |rows| && rows[i] == d;
        assert ids[i] in ids;
      }
      forall d: DesiredDay | d.id in days && days[d.id] == d && d.userId == userId
        ensures d in r
      {
        var i :| 0 <= i < |ids| && ids[i] == d.id;
        assert rows[i] == d;
      }
      StrictlyByDayIsListingOrder(r);
    }

    /**
     * `desiredDay.updateOne`: the given columns and `updatedAt = now` on the row with that id
     * if it is `userId`'s; no row otherwise; an error, and no change, when the row would take
     * another row's `(userId, dayOfWeek)`.
     */
    method DesiredDayUpdateOne(id: int, update: DesiredDayUpdate, userId: int, now: int) returns (r: Result<Option<DesiredDay>>)
      requires db.Valid()
      modifies db`desiredDays
      ensures db.Valid()
      ensures !(id in old(db.desiredDays) && old(db.desiredDays)[id].userId == userId) ==>
                r == Ok(None) && db.desiredDays == old(db.desiredDays)
      ensures id in old(db.desiredDays) && old(db.desiredDays)[id].userId == userId ==>
                var d := update.ApplyTo(old(db.desiredDays)[id]).(updatedAt := now);
                && (r.Err? <==> DayTakenByOther(old(db.desiredDays), id, d))
                && (r.Err? ==> db.desiredDays == old(db.desiredDays))
                && (r.Ok? ==> r.value == Some(d) && db.desiredDays == old(db.desiredDays)[id := d])
    {
      if !(id in db.desiredDays && db.desiredDays[id].userId == userId) {
        return Ok(None);
      }
      var d := update.ApplyTo(db.desiredDays[id]).(updatedAt := now);
      if DayTakenByOther(db.desiredDays, id, d) {
        return Err("duplicate key value violates unique constraint");
      }
      DaysUniqueAfterWrite(db.desiredDays, id, d);
      db.desiredDays := db.desiredDays[id := d];
      r := Ok(Some(d));
    }

    /**
     * `desiredDay.createOne`: the record, stamped with `userId`, overwrites the user's row for
     * that day if there is one (which keeps its id and dates), and is inserted as a new row
     * otherwise. Afterwards the user has exactly one row for that day: the returned one.
     */
    method DesiredDayCreateOne(userId: int, desiredDay: DesiredDayBase, now: int) returns (r: DesiredDay)
      requires db.Valid()
      modifies db`desiredDays, db`desiredDaySerial
      ensures db.Valid()
      ensures r.Base() == desiredDay.(userId := userId)
      ensures db.desiredDays == old(db.desiredDays)[r.id := r]
      ensures forall id :: DayFor(db.desiredDays, id, userId, desiredDay.dayOfWeek) <==> id == r.id
      ensures (exists id :: DayFor(old(db.desiredDays), id, userId, desiredDay.dayOfWeek)) ==>
                && DayFor(old(db.desiredDays), r.id, userId, desiredDay.dayOfWeek)
                && r.createdAt == old(db.desiredDays)[r.id].createdAt
                && r.updatedAt == old(db.desiredDays)[r.id].updatedAt
                && db.desiredDaySerial == old(db.desiredDaySerial)
      ensures (forall id :: !DayFor(old(db.desiredDays), id, userId, desiredDay.dayOfWeek)) ==>
                && r.id == old(db.desiredDaySerial) && r.createdAt == now && r.updatedAt == now
                && db.desiredDaySerial == old(db.desiredDaySerial) + 1
    {
      var record := desiredDay.(userId := userId);
      var days := db.desiredDays;
      if exists id :: id in days && DayFor(days, id, userId, record.dayOfWeek) {
        var id :| id in days && DayFor(days, id, userId, record.dayOfWeek);
        var e := days[id];
        r := DesiredDay(id, e.createdAt, e.updatedAt, record.userId, record.dayOfWeek,
                        record.startAtHour, record.startAtMinute, record.endAtHour, record.endAtMinute);
        DaysUniqueAfterWrite(days, id, r);
        db.desiredDays := days[id := r];
      } else {
        var id := db.desiredDaySerial;
        r := DesiredDay(id, now, now, record.userId, record.dayOfWeek,
                        record.startAtHour, record.startAtMinute, record.endAtHour, record.endAtMinute);
        DaysUniqueAfterWrite(days, id, r);
        db.desiredDays := days[id := r];
        db.desiredDaySerial := id + 1;
      }
    }

    /**
     * `desiredDay.updateMany`: the updates one after the other inside one transaction. The
     * results come back in input order; if any statement fails, the transaction is rolled back
     * and the table is as before.
     */
    method DesiredDayUpdateMany(updates: seq<DayUpdate>, userId: int) returns (r: Result<seq<Option<DesiredDay>>>)
      requires db.Valid()
      modifies db`desiredDays
      ensures db.Valid()
      ensures var all := UpdateAll(old(db.desiredDays), updates, userId);
              && (r.Ok? <==> all.Ok?)
              && (r.Ok? ==> r.value == all.value.results && db.desiredDays == all.value.days)
              && (r.Err? ==> db.desiredDays == old(db.desiredDays))
    {
      var days := db.desiredDays;
      var result: seq<Option<DesiredDay>> := [];
      var i := 0;
      assert updates[0..] == updates;
      match UpdateAll(days, updates, userId) {
        case Err(_) =>
        case Ok(o) => assert [] + o.results == o.results;
      }
      while i < |updates|
        invariant 0 <= i <= |updates|
        invariant UpdateAll(db.desiredDays, updates, userId) == AfterPrefix(result, UpdateAll(days, updates[i..], userId))
        invariant db.desiredDays == old(db.desiredDays)
      {
        assert updates[i..][0] == updates[i] && updates[i..][1..] == updates[i + 1..];
        AfterPrefixStep(result, days, updates[i..], userId);
        var step := UpdateStep(days, updates[i].id, updates[i].patch, userId);
        if step.Err? {
          return Err(step.message);
        }
        result := result + [step.value.result];
        days := step.value.days;
        i := i + 1;
      }
      assert updates[i..] == [];
      db.desiredDays := days;
      r := Ok(result);
    }

    /** `desiredDay.deleteOne`: removes the row with that id only if it is `userId`'s. */
    method DesiredDayDeleteOne(id: int, userId: int)
      requires db.Valid()
      modifies db`desiredDays
      ensures db.Valid()
      ensures id in old(db.desiredDays) && old(db.desiredDays)[id].userId == userId ==> db.desiredDays == old(db.desiredDays) - {id}
      ensures !(id in old(db.desiredDays) && old(db.desiredDays)[id].userId == userId) ==> db.desiredDays == old(db.desiredDays)
    {
      if id in db.desiredDays && db.desiredDays[id].userId == userId {
        db.desiredDays := db.desiredDays - {id};
      }
    }
  }
}
