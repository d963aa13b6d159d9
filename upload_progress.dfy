/**
 * `trackUploadProgress`: records the percentage of one part of an upload in the progress of
 * the entity's operation, recomputes the overall percentage as the rounded mean of the parts,
 * and hands the progress to `mutateOperation`. Percentages are integers here, so
 * `Math.round(sum / n)` is `(2 * sum + n) / (2 * n)` with floor division.
 */
module UploadProgress {
  import opened Common
  import opened ListStates

  /** The first index of a detail with this id. */
  function FirstIndexOf(details: seq<Detail>, id: int): (r: Option<nat>)
    ensures r.Some? ==> r.value < |details| && details[r.value].id == id
    ensures r.Some? ==> forall j :: 0 <= j < r.value ==> details[j].id != id
    ensures r.None? ==> forall j :: 0 <= j < |details| ==> details[j].id != id
  {
    if details == [] then None
    else if details[0].id == id then Some(0)
    else
      var rest := FirstIndexOf(details[1..], id);
      if rest.Some? then Some(rest.value + 1) else None
  }

  /** No two details share an id. */
  predicate UniqueIds(details: seq<Detail>) {
    forall i, j :: 0 <= i < j < |details| ==> details[i].id != details[j].id
  }

  /**
   * The details after the update: the first detail with `id` gets the new percentage, or a new
   * detail is appended when there is none.
   */
  function Upserted(details: seq<Detail>, id: int, percentage: int): (r: seq<Detail>)
    ensures Detail(id, percentage) in r
    ensures |r| == |details| + (if FirstIndexOf(details, id).Some? then 0 else 1)
    ensures forall d :: d in details && d.id != id ==> d in r
    ensures forall d :: d in r ==> d == Detail(id, percentage) || d in details
    ensures forall j :: 0 <= j < |details| && details[j].id != id ==> r[j] == details[j]
    ensures UniqueIds(details) ==> UniqueIds(r)
  {
    var i := FirstIndexOf(details, id);
    if i.Some? then
      ReplacedKeepsOthers(details, i.value, Detail(id, percentage));
      details[i.value := Detail(id, percentage)]
    else details + [Detail(id, percentage)]
  }

  /** Overwriting the detail at `i` keeps every detail with another id. */
  lemma ReplacedKeepsOthers(details: seq<Detail>, i: nat, d: Detail)
    requires i < |details| && details[i].id == d.id
    ensures d in details[i := d]
    ensures forall e :: e in details && e.id != d.id ==> e in details[i := d]
  {
    var r := details[i := d];
    assert r[i] == d;
    forall e | e in details && e.id != d.id
      ensures e in r
    {
      var j :| 0 <= j < |details| && details[j] == e;
      assert r[j] == e;
    }
  }

  /** The sum of the percentages. */
  function Sum(details: seq<Detail>): int
    decreases |details|
  {
    if details == [] then 0 else Sum(details[..|details| - 1]) + details[|details| - 1].percentage
  }

  /** `Math.round(sum / n)`, for integers: round half up. */
  function RoundedMean(details: seq<Detail>): int
    requires details != []
  {
    (2 * Sum(details) + |details|) / (2 * |details|)
  }

  /** All percentages lie in `lo..hi`. */
  predicate AllIn(details: seq<Detail>, lo: int, hi: int) {
    forall i :: 0 <= i < |details| ==> lo <= details[i].percentage <= hi
  }

  lemma {:induction false} SumBounds(details: seq<Detail>, lo: int, hi: int)
    requires AllIn(details, lo, hi)
    ensures |details| * lo <= Sum(details) <= |details| * hi
    decreases |details|
  {
    if details != [] {
      var init := details[..|details| - 1];
      assert AllIn(init, lo, hi) by {
        forall i | 0 <= i < |init| ensures lo <= init[i].percentage <= hi {
          assert init[i] == details[i];
        }
      }
      SumBounds(init, lo, hi);
      assert |details| * lo == |init| * lo + lo;
      assert |details| * hi == |init| * hi + hi;
    }
  }

  /** The overall percentage lies between the smallest and the largest part's: 0..100 for percentages. */
  lemma RoundedMeanBounds(details: seq<Detail>, lo: int, hi: int)
    requires details != [] && AllIn(details, lo, hi)
    ensures lo <= RoundedMean(details) <= hi
  {
    SumBounds(details, lo, hi);
    RoundHalfUpBounds(Sum(details), |details|, lo, hi);
  }

  /** A sum of `n` values in `lo..hi`, divided by `n` and rounded half up, lies in `lo..hi`. */
  lemma RoundHalfUpBounds(s: int, n: int, lo: int, hi: int)
    requires n > 0 && n * lo <= s <= n * hi
    ensures lo <= (2 * s + n) / (2 * n) <= hi
  {
    var q := (2 * s + n) / (2 * n);
    FloorDivision(2 * s + n, 2 * n);
    assert lo * (2 * n) <= 2 * s + n by {
      assert lo * (2 * n) == 2 * (n * lo);
    }
    assert 2 * s + n < (hi + 1) * (2 * n) by {
      assert (hi + 1) * (2 * n) == 2 * (n * hi) + 2 * n;
    }
    MulStrictCancel(lo, q + 1, 2 * n);
    MulStrictCancel(q, hi + 1, 2 * n);
  }

  /** The quotient of floor division brackets the dividend. */
  lemma FloorDivision(a: int, b: int)
    requires b > 0
    ensures (a / b) * b <= a < (a / b + 1) * b
  {
  }

  lemma MulStrictCancel(a: int, b: int, c: int)
    requires c > 0 && a * c < b * c
    ensures a < b
  {
  }

  /** When every part is at the same percentage, so is the whole. */
  lemma RoundedMeanOfEqualParts(details: seq<Detail>, p: int)
    requires details != [] && AllIn(details, p, p)
    ensures RoundedMean(details) == p
  {
    RoundedMeanBounds(details, p, p);
  }

  /** The progress of an operation after recording `percentage` for part `id`. */
  function Tracked(progress: Option<Progress>, id: int, percentage: int): (p: Progress)
    ensures Detail(id, percentage) in p.details
    ensures p.percentage == RoundedMean(p.details)
    ensures progress.None? ==> p.details == [Detail(id, percentage)] && p.percentage == percentage
  {
    var details := Upserted(if progress.Some? then progress.value.details else [], id, percentage);
    RoundedMeanOfEqualParts([Detail(id, percentage)], percentage);
    Progress(RoundedMean(details), details)
  }

  /** The patch `{progress}` given to `mutateOperation`. */
  function ProgressOnly<P, R, E>(p: Progress): OperationPatch<P, R, E> {
    OperationPatch(Absent, Absent, Absent, Absent, Present(Some(p)))
  }

  /**
   * `trackUploadProgress(type, entityId, state, mutateOperation, {id, percentage})` with
   * `mutateOperation` of `factory`: nothing happens when `state` has no operation for the
   * entity; otherwise the entity's progress under `kind` becomes `Tracked(...)`, through a
   * search for the detail and a sum over the details.
   */
  method TrackUploadProgress<T, P, R, E>(kind: string, entityId: int, state: map<int, Operation<P, R, E>>,
                                         factory: ListStateFactory<T, P, R, E>, id: int, percentage: int)
    returns (progress: Option<Progress>)
    modifies factory
    ensures entityId !in state ==> progress.None? && factory.store == old(factory.store)
    ensures entityId in state ==>
              && progress == Some(Tracked(state[entityId].progress, id, percentage))
              && factory.store == if kind in old(factory.store.operations)
                                  then old(factory.store).(operations := WithOperation(old(factory.store.operations), kind,
                                                                                       ProgressOnly(progress.value), entityId))
                                  else old(factory.store)
    ensures factory.initialValue == old(factory.initialValue)
  {
    if entityId !in state {
      return None;
    }
    var p := UpdateProgress(state[entityId].progress, id, percentage);
    progress := Some(p);
    var _ := factory.MutateOperation(kind, ProgressOnly(p), entityId);
  }

  /**
   * The body of `trackUploadProgress` on the operation's progress: start from `{0, []}`,
   * overwrite or append the detail, and recompute the rounded mean.
   */
  method UpdateProgress(progress: Option<Progress>, id: int, percentage: int) returns (p: Progress)
    ensures p == Tracked(progress, id, percentage)
  {
    var current := if progress.Some? then progress.value else Progress(0, []);
    var details := UpsertDetail(current.details, id, percentage);
    var total := SumOf(details);
    p := Progress((2 * total + |details|) / (2 * |details|), details);
  }

  /** The detail of `id` overwritten with the new percentage, or appended when there is none. */
  method UpsertDetail(details: seq<Detail>, id: int, percentage: int) returns (r: seq<Detail>)
    ensures r == Upserted(details, id, percentage) && r != []
  {
    var i := FindDetail(details, id);
    if i.Some? {
      r := details[i.value := Detail(id, percentage)];
    } else {
      r := details + [Detail(id, percentage)];
    }
  }

  /** `details.find(d => d.id === id)`, as the index of the detail found. */
  method FindDetail(details: seq<Detail>, id: int) returns (r: Option<nat>)
    ensures r == FirstIndexOf(details, id)
  {
    var i := 0;
    while i < |details| && details[i].id != id
      invariant 0 <= i <= |details|
      invariant forall j :: 0 <= j < i ==> details[j].id != id
    {
      i := i + 1;
    }
    if i == |details| {
      return None;
    }
    FirstIndexIsFirstMatch(details, id, i);
    r := Some(i);
  }

  /** `details.reduce((acc, cur) => acc + cur.percentage, 0)`. */
  method SumOf(details: seq<Detail>) returns (total: int)
    ensures total == Sum(details)
  {
    total := 0;
    for k := 0 to |details|
      invariant total == Sum(details[..k])
    {
      assert details[..k + 1][..k] == details[..k];
      total := total + details[k].percentage;
    }
    assert details[..|details|] == details;
  }

  lemma {:induction false} FirstIndexIsFirstMatch(details: seq<Detail>, id: int, i: nat)
    requires i < |details| && details[i].id == id
    requires forall j :: 0 <= j < i ==> details[j].id != id
    ensures FirstIndexOf(details, id) == Some(i)
    decreases i
  {
    if i > 0 {
      FirstIndexIsFirstMatch(details[1..], id, i - 1);
    }
  }
}
