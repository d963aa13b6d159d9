/**
 * The diff `desiredDays.save` computes between the days the user submitted (`newData`) and
 * the days the store holds (`oldData`), matching records by `dayOfWeek`: new days become
 * creates, matched days whose times changed become updates, and days no longer submitted
 * become deletes.
 */
module DesiredDaysDiff {
  import opened Common
  import opened SharedTypes

  /** `oldData.find(oldItem => oldItem.dayOfWeek === day)`. */
  function FindOldByDay(oldData: seq<DesiredDay>, day: int): (r: Option<DesiredDay>)
    ensures r.Some? ==> r.value in oldData && r.value.dayOfWeek == day
    ensures r.None? <==> forall i :: 0 <= i < |oldData| ==> oldData[i].dayOfWeek != day
  {
    if oldData == [] then None
    else if oldData[0].dayOfWeek == day then Some(oldData[0])
    else
      var r := FindOldByDay(oldData[1..], day);
      assert forall i :: 1 <= i < |oldData| ==> oldData[i] == oldData[1..][i - 1];
      r
  }

  /** `newData.find(newItem => newItem.dayOfWeek === day)` finds something. */
  predicate HasNewDay(newData: seq<DesiredDayBase>, day: int) {
    exists i :: 0 <= i < |newData| && newData[i].dayOfWeek == day
  }

  /** `toUpdate.find(item => item.dayOfWeek === day)` finds something. */
  predicate HasDayUpdate(toUpdate: seq<DesiredDay>, day: int) {
    exists i :: 0 <= i < |toUpdate| && toUpdate[i].dayOfWeek == day
  }

  /** `{...oldItem, ...item}`: the stored record with the submitted fields; id and dates stay. */
  function Merge(oldItem: DesiredDay, item: DesiredDayBase): (d: DesiredDay)
    ensures d.id == oldItem.id && d.createdAt == oldItem.createdAt && d.updatedAt == oldItem.updatedAt
    ensures d.Base() == item
  {
    DesiredDay(oldItem.id, oldItem.createdAt, oldItem.updatedAt, item.userId, item.dayOfWeek, item.startAtHour,
               item.startAtMinute, item.endAtHour, item.endAtMinute)
  }

  /** The submitted records whose day the store does not hold, in submitted order. */
  function ToCreate(newData: seq<DesiredDayBase>, oldData: seq<DesiredDay>): (r: seq<DesiredDayBase>)
    ensures forall x :: x in r <==> x in newData && FindOldByDay(oldData, x.dayOfWeek).None?
    ensures |r| <= |newData|
    decreases |newData|
  {
    if newData == [] then []
    else
      var init := newData[..|newData| - 1];
      var item := newData[|newData| - 1];
      assert newData == init + [item];
      if FindOldByDay(oldData, item.dayOfWeek).None? then ToCreate(init, oldData) + [item] else ToCreate(init, oldData)
  }

  /** The stored records whose day was not submitted, in stored order. */
  function ToDelete(newData: seq<DesiredDayBase>, oldData: seq<DesiredDay>): (r: seq<DesiredDay>)
    ensures forall x :: x in r <==> x in oldData && !HasNewDay(newData, x.dayOfWeek)
    ensures |r| <= |oldData|
    decreases |oldData|
  {
    if oldData == [] then []
    else
      var init := oldData[..|oldData| - 1];
      var item := oldData[|oldData| - 1];
      assert oldData == init + [item];
      if !HasNewDay(newData, item.dayOfWeek) then ToDelete(newData, init) + [item] else ToDelete(newData, init)
  }

  /** One step of the update pass: the update `item` adds to `u`, if any. */
  function UpdateStep(u: seq<DesiredDay>, item: DesiredDayBase, oldData: seq<DesiredDay>): seq<DesiredDay> {
    var oldItem := FindOldByDay(oldData, item.dayOfWeek);
    if oldItem.Some? && !SameTimes(oldItem.value.Base(), item) && !HasDayUpdate(u, oldItem.value.dayOfWeek)
    then u + [Merge(oldItem.value, item)]
    else u
  }

  /**
   * The updates: for each submitted record, in order, whose day the store holds and whose
   * times differ from the stored record's, the stored record with the submitted fields;
   * only the first such record of a day counts.
   */
  function ToUpdate(newData: seq<DesiredDayBase>, oldData: seq<DesiredDay>): (r: seq<DesiredDay>)
    ensures |r| <= |newData|
    decreases |newData|
  {
    if newData == [] then []
    else UpdateStep(ToUpdate(newData[..|newData| - 1], oldData), newData[|newData| - 1], oldData)
  }

  /** `toUpdate` holds at most one record per day. */
  lemma {:induction false} ToUpdateOnePerDay(newData: seq<DesiredDayBase>, oldData: seq<DesiredDay>)
    ensures forall i, j :: 0 <= i < j < |ToUpdate(newData, oldData)| ==>
              ToUpdate(newData, oldData)[i].dayOfWeek != ToUpdate(newData, oldData)[j].dayOfWeek
    decreases |newData|
  {
    if newData != [] {
      var init := newData[..|newData| - 1];
      var item := newData[|newData| - 1];
      ToUpdateOnePerDay(init, oldData);
      var u := ToUpdate(init, oldData);
      var o := FindOldByDay(oldData, item.dayOfWeek);
      if o.Some? && !SameTimes(o.value.Base(), item) && !HasDayUpdate(u, o.value.dayOfWeek) {
        var r := u + [Merge(o.value, item)];
        assert ToUpdate(newData, oldData) == r;
        assert r[|u|].dayOfWeek == o.value.dayOfWeek;
        forall i, j | 0 <= i < j < |r| ensures r[i].dayOfWeek != r[j].dayOfWeek {
          assert r[i] == u[i];
          if j < |u| {
            assert r[j] == u[j];
          }
        }
      }
    }
  }

  /**
   * `d` is what the update pass makes of the submitted record at `k`: the record's day is
   * stored, its times differ from the stored ones, and `d` is the stored record merged with it.
   */
  predicate UpdateFrom(newData: seq<DesiredDayBase>, oldData: seq<DesiredDay>, d: DesiredDay, k: int) {
    && 0 <= k < |newData|
    && newData[k].dayOfWeek == d.dayOfWeek
    && FindOldByDay(oldData, newData[k].dayOfWeek).Some?
    && d == Merge(FindOldByDay(oldData, newData[k].dayOfWeek).value, newData[k])
    && !SameTimes(FindOldByDay(oldData, newData[k].dayOfWeek).value.Base(), newData[k])
  }

  /** `d` comes from some submitted record, as `UpdateFrom` describes. */
  ghost predicate FromSubmitted(newData: seq<DesiredDayBase>, oldData: seq<DesiredDay>, d: DesiredDay) {
    exists k :: UpdateFrom(newData, oldData, d, k)
  }

  /** Every record of `r` comes from some submitted record. */
  ghost predicate AllFromSubmitted(newData: seq<DesiredDayBase>, oldData: seq<DesiredDay>, r: seq<DesiredDay>) {
    forall i :: 0 <= i < |r| ==> FromSubmitted(newData, oldData, r[i])
  }

  /** Every update comes from some submitted record. */
  lemma {:induction false} ToUpdateSound(newData: seq<DesiredDayBase>, oldData: seq<DesiredDay>)
    ensures AllFromSubmitted(newData, oldData, ToUpdate(newData, oldData))
    decreases |newData|
  {
    if newData != [] {
      var init := newData[..|newData| - 1];
      var item := newData[|newData| - 1];
      ToUpdateSound(init, oldData);
      var u := ToUpdate(init, oldData);
      var r := ToUpdate(newData, oldData);
      forall i | 0 <= i < |u| ensures FromSubmitted(newData, oldData, u[i]) {
        assert FromSubmitted(init, oldData, u[i]);
        var k :| UpdateFrom(init, oldData, u[i], k);
        assert init[k] == newData[k];
        assert UpdateFrom(newData, oldData, u[i], k);
      }
      var o := FindOldByDay(oldData, item.dayOfWeek);
      if o.Some? && !SameTimes(o.value.Base(), item) && !HasDayUpdate(u, o.value.dayOfWeek) {
        assert r == u + [Merge(o.value, item)];
        assert UpdateFrom(newData, oldData, r[|u|], |newData| - 1);
      } else {
        assert r == u;
      }
      forall i | 0 <= i < |r| ensures FromSubmitted(newData, oldData, r[i]) {
        if i < |u| {
          assert r[i] == u[i];
        }
      }
      assert AllFromSubmitted(newData, oldData, r);
    } else {
      assert ToUpdate(newData, oldData) == [];
    }
  }

  /** Every submitted record that changes a stored day's times gives that day an update. */
  lemma {:induction false} ToUpdateComplete(newData: seq<DesiredDayBase>, oldData: seq<DesiredDay>)
    ensures forall k :: 0 <= k < |newData| && FindOldByDay(oldData, newData[k].dayOfWeek).Some?
                        && !SameTimes(FindOldByDay(oldData, newData[k].dayOfWeek).value.Base(), newData[k])
                        ==> HasDayUpdate(ToUpdate(newData, oldData), newData[k].dayOfWeek)
    decreases |newData|
  {
    if newData != [] {
      var init := newData[..|newData| - 1];
      var item := newData[|newData| - 1];
      ToUpdateComplete(init, oldData);
      var u := ToUpdate(init, oldData);
      var o := FindOldByDay(oldData, item.dayOfWeek);
      assert forall k :: 0 <= k < |init| ==> init[k] == newData[k];
      if o.Some? && !SameTimes(o.value.Base(), item) && !HasDayUpdate(u, o.value.dayOfWeek) {
        PushedDayIsUpdated(u, Merge(o.value, item));
      }
      var r := ToUpdate(newData, oldData);
      forall day | HasDayUpdate(u, day) ensures HasDayUpdate(r, day) {
        var i :| 0 <= i < |u| && u[i].dayOfWeek == day;
        assert r[i] == u[i];
      }
    }
  }

  /**
   * A day is updated only if some submitted record of that day changes the stored times:
   * days submitted exactly as stored give no update.
   */
  lemma UnchangedDayIsNotUpdated(newData: seq<DesiredDayBase>, oldData: seq<DesiredDay>, day: int)
    requires forall k :: 0 <= k < |newData| && newData[k].dayOfWeek == day ==>
               FindOldByDay(oldData, day).Some? && SameTimes(FindOldByDay(oldData, day).value.Base(), newData[k])
    ensures !HasDayUpdate(ToUpdate(newData, oldData), day)
  {
    var r := ToUpdate(newData, oldData);
    ToUpdateSound(newData, oldData);
    forall i | 0 <= i < |r| ensures r[i].dayOfWeek != day {
      assert FromSubmitted(newData, oldData, r[i]);
      var k :| UpdateFrom(newData, oldData, r[i], k);
    }
  }

  /** Every update keeps the id of the stored record of its day. */
  lemma UpdatesKeepStoredIds(newData: seq<DesiredDayBase>, oldData: seq<DesiredDay>, i: int)
    requires 0 <= i < |ToUpdate(newData, oldData)|
    ensures var u := ToUpdate(newData, oldData)[i];
            FindOldByDay(oldData, u.dayOfWeek).Some? && u.id == FindOldByDay(oldData, u.dayOfWeek).value.id
  {
    var r := ToUpdate(newData, oldData);
    ToUpdateSound(newData, oldData);
    assert FromSubmitted(newData, oldData, r[i]);
    var k :| UpdateFrom(newData, oldData, r[i], k);
  }

  /** No day is in two of the three lists. */
  lemma DiffDaysDisjoint(newData: seq<DesiredDayBase>, oldData: seq<DesiredDay>)
    ensures forall i, j :: 0 <= i < |ToCreate(newData, oldData)| && 0 <= j < |ToUpdate(newData, oldData)| ==>
              ToCreate(newData, oldData)[i].dayOfWeek != ToUpdate(newData, oldData)[j].dayOfWeek
    ensures forall i, j :: 0 <= i < |ToCreate(newData, oldData)| && 0 <= j < |ToDelete(newData, oldData)| ==>
              ToCreate(newData, oldData)[i].dayOfWeek != ToDelete(newData, oldData)[j].dayOfWeek
    ensures forall i, j :: 0 <= i < |ToUpdate(newData, oldData)| && 0 <= j < |ToDelete(newData, oldData)| ==>
              ToUpdate(newData, oldData)[i].dayOfWeek != ToDelete(newData, oldData)[j].dayOfWeek
  {
    var c := ToCreate(newData, oldData);
    var u := ToUpdate(newData, oldData);
    var d := ToDelete(newData, oldData);
    ToUpdateSound(newData, oldData);
    forall i, j | 0 <= i < |c| && 0 <= j < |u| ensures c[i].dayOfWeek != u[j].dayOfWeek {
      assert c[i] in c;
      UpdatesKeepStoredIds(newData, oldData, j);
    }
    forall i, j | 0 <= i < |c| && 0 <= j < |d| ensures c[i].dayOfWeek != d[j].dayOfWeek {
      assert c[i] in c && d[j] in d;
      var m :| 0 <= m < |oldData| && oldData[m] == d[j];
    }
    forall i, j | 0 <= i < |u| && 0 <= j < |d| ensures u[i].dayOfWeek != d[j].dayOfWeek {
      assert FromSubmitted(newData, oldData, u[i]);
      var k :| UpdateFrom(newData, oldData, u[i], k);
      assert d[j] in d;
    }
  }

  /** `save`'s three `forEach` passes, pushing onto `toCreate`, `toUpdate` and `toDelete`. */
  method ComputeDiff(newData: seq<DesiredDayBase>, oldData: seq<DesiredDay>)
    returns (toCreate: seq<DesiredDayBase>, toUpdate: seq<DesiredDay>, toDelete: seq<DesiredDay>)
    ensures toCreate == ToCreate(newData, oldData)
    ensures toUpdate == ToUpdate(newData, oldData)
    ensures toDelete == ToDelete(newData, oldData)
  {
    toCreate, toUpdate, toDelete := [], [], [];
    for i := 0 to |newData|
      invariant toCreate == ToCreate(newData[..i], oldData)
      invariant toUpdate == ToUpdate(newData[..i], oldData)
    {
      var item := newData[i];
      assert newData[..i + 1][..i] == newData[..i] && newData[..i + 1][i] == item;
      var oldItem := FindOldByDay(oldData, item.dayOfWeek);
      if oldItem.Some? {
        toUpdate := UpdateForItem(toUpdate, oldItem.value, item);
      } else {
        toCreate := toCreate + [item];
      }
    }
    assert newData[..|newData|] == newData;
    for i := 0 to |oldData|
      invariant toDelete == ToDelete(newData, oldData[..i])
    {
      var item := oldData[i];
      assert oldData[..i + 1][..i] == oldData[..i] && oldData[..i + 1][i] == item;
      if !HasNewDay(newData, item.dayOfWeek) {
        toDelete := toDelete + [item];
      }
    }
    assert oldData[..|oldData|] == oldData;
  }

  /**
   * `DesiredDayCompareFields.forEach(...)` for one matched pair: the merged record is pushed
   * at the first compare field that differs, unless an update for the day is already there.
   */
  method UpdateForItem(toUpdate: seq<DesiredDay>, oldItem: DesiredDay, item: DesiredDayBase) returns (r: seq<DesiredDay>)
    requires oldItem.dayOfWeek == item.dayOfWeek
    ensures r == if !SameTimes(oldItem.Base(), item) && !HasDayUpdate(toUpdate, oldItem.dayOfWeek)
                 then toUpdate + [Merge(oldItem, item)] else toUpdate
  {
    r := toUpdate;
    PushedDayIsUpdated(toUpdate, Merge(oldItem, item));
    ghost var differs := false;
    for f := 0 to |DesiredDayCompareFields|
      invariant differs <==> exists j :: 0 <= j < f && BaseFieldValue(oldItem.Base(), DesiredDayCompareFields[j])
                                                       != BaseFieldValue(item, DesiredDayCompareFields[j])
      invariant r == if differs && !HasDayUpdate(toUpdate, oldItem.dayOfWeek) then toUpdate + [Merge(oldItem, item)]
                     else toUpdate
    {
      var field := DesiredDayCompareFields[f];
      if BaseFieldValue(oldItem.Base(), field) != BaseFieldValue(item, field) {
        if !HasDayUpdate(r, oldItem.dayOfWeek) {
          r := r + [Merge(oldItem, item)];
        }
        differs := true;
      }
    }
  }

  lemma PushedDayIsUpdated(u: seq<DesiredDay>, d: DesiredDay)
    ensures HasDayUpdate(u + [d], d.dayOfWeek)
  {
    assert (u + [d])[|u|] == d;
  }
}
