/** The building-registry read that the projects, home and investments
    pages share: the count guard, one `getBuilding` call per id 1..n, and
    the positional decoding of each output tuple into a `Building`.
    The contract calls themselves are parameters: a call either returns a
    value or throws. */
module BuildingRegistry {
  import opened Options
  import opened JsText
  import opened JsNumbers
  import opened JsValues

  /** A building as the pages display it. */
  datatype Building = Building(
    id: JsNumber,
    name: string,
    location: string,
    category: string,
    progress: JsNumber,
    milestonesCompleted: JsNumber,
    totalMilestones: JsNumber,
    totalValue: string,
    tokensAvailable: string,
    featured: bool,
    description: string,
    status: JsNumber)

  /** The output tuple of `getBuilding`, as a JavaScript array. */
  type Output = seq<JsValue>

  /** What a thrown error looks like to the `catch` blocks. */
  datatype CallError =
    | ApiError(responseMessage: JsValue, message: string)  // an axios error
    | ScriptError(text: string)                             // anything else, as `String(e)`

  /** The outcome of one awaited contract call. */
  datatype Call<T> = Returned(value: T) | Threw(error: CallError)

  /** The constants every decoded building carries. */
  const DecodedCategory := "Comercial"
  const DecodedTotalValue := "1,500,000"
  const DecodedTokensAvailable := "50,000"

  /** `outputs[i]`; past the end of the array JavaScript reads `undefined`. */
  function At(o: Output, i: nat): JsValue
  {
    if i < |o| then o[i] else JUndefined
  }

  /** `totalMilestones > 0 ? Math.round((completed / totalMilestones) * 100) : 0`. */
  function Progress(completed: JsNumber, total: JsNumber): (r: JsNumber)
    ensures !(total.Num? && total.value > 0.0) ==> r == Num(0.0)
    ensures r.NaN? <==> total.Num? && total.value > 0.0 && completed.NaN?
    ensures r.Num? ==> r.value.Floor as real == r.value
  {
    if total.Num? && total.value > 0.0 then
      if completed.Num? then Num(Round(completed.value / total.value * 100.0) as real) else NaN
    else Num(0.0)
  }

  /** With no milestones planned (or an unreadable plan) progress is 0;
      otherwise it is the completed share rounded to the nearest percent. */
  lemma ProgressCases(completed: JsNumber, total: JsNumber)
    ensures !(total.Num? && total.value > 0.0) ==> Progress(completed, total) == Num(0.0)
    ensures total.Num? && total.value > 0.0 && completed.Num? ==>
      var exact := completed.value * 100.0 / total.value;
      Progress(completed, total).Num? &&
      exact - 0.5 < Progress(completed, total).value <= exact + 0.5
  {
    if total.Num? && total.value > 0.0 && completed.Num? {
      assert completed.value / total.value * 100.0 == completed.value * 100.0 / total.value;
      RoundNearest(completed.value / total.value * 100.0);
    }
  }

  /** While no more milestones are completed than planned, progress is a
      percentage, and it reaches 100 exactly when all are completed. */
  lemma ProgressIsPercentage(c: real, t: real)
    requires t > 0.0 && 0.0 <= c <= t
    ensures Progress(Num(c), Num(t)).Num?
    ensures 0.0 <= Progress(Num(c), Num(t)).value <= 100.0
    ensures c == t ==> Progress(Num(c), Num(t)).value == 100.0
  {
    var x := c / t * 100.0;
    assert c / t <= 1.0 by {
      assert c / t * t == c;
    }
    assert 0.0 <= c / t;
    assert 0.0 <= x <= 100.0;
    if c == t {
      assert c / t == 1.0;
    }
  }

  /** More completed milestones never show less progress. */
  lemma ProgressMonotonic(c1: real, c2: real, t: real)
    requires t > 0.0 && c1 <= c2
    ensures Progress(Num(c1), Num(t)).value <= Progress(Num(c2), Num(t)).value
  {
    var x1, x2 := c1 / t * 100.0, c2 / t * 100.0;
    assert x1 <= x2 by {
      assert c2 / t - c1 / t == (c2 - c1) / t;
    }
    FloorMonotonic(x1 + 0.5, x2 + 0.5);
  }

  lemma FloorMonotonic(a: real, b: real)
    requires a <= b
    ensures a.Floor <= b.Floor
  {
  }

  /** The positional decoding of one output tuple. */
  function Decode(o: Output): (b: Building)
    ensures b.category == DecodedCategory
    ensures b.totalValue == DecodedTotalValue && b.tokensAvailable == DecodedTokensAvailable
    ensures b.progress == Progress(b.milestonesCompleted, b.totalMilestones)
  {
    var completed := ToNumber(At(o, 8));
    var total := ToNumber(At(o, 7));
    Building(
      id := ToNumber(At(o, 0)),
      name := ToStr(At(o, 1)),
      description := ToStr(At(o, 11)),
      location := ToStr(At(o, 12)),
      featured := Truthy(At(o, 10)),
      status := ToNumber(At(o, 6)),
      milestonesCompleted := completed,
      totalMilestones := total,
      progress := Progress(completed, total),
      category := DecodedCategory,
      totalValue := DecodedTotalValue,
      tokensAvailable := DecodedTokensAvailable)
  }

  /** `results.map(decode)`. */
  function DecodeAll(outputs: seq<Output>): (r: seq<Building>)
    ensures |r| == |outputs|
    ensures forall k :: 0 <= k < |r| ==> r[k] == Decode(outputs[k])
  {
    seq(|outputs|, k requires 0 <= k < |outputs| => Decode(outputs[k]))
  }

  /** A building as the registry contract stores it. */
  datatype Record = Record(
    id: nat,
    name: string,
    status: nat,
    totalMilestones: nat,
    currentMilestone: nat,
    featured: bool,
    description: string,
    location: string)

  /** The output tuple the contract returns for a record: unsigned integers
      as decimal strings, at the positions the pages read; `other` stands
      for the positions the pages ignore. */
  function Encode(r: Record, other: JsValue): (o: Output)
    ensures |o| == 13
  {
    [JStr(NatToDecimal(r.id)), JStr(r.name), other, other, other, other,
     JStr(NatToDecimal(r.status)), JStr(NatToDecimal(r.totalMilestones)),
     JStr(NatToDecimal(r.currentMilestone)), other, JBool(r.featured),
     JStr(r.description), JStr(r.location)]
  }

  /** Decoding reads every field of the record back from its position and
      fills in the constant category, value and token supply. */
  lemma DecodeEncode(r: Record, other: JsValue)
    ensures Decode(Encode(r, other)) == Building(
      id := Num(r.id as real),
      name := r.name,
      location := r.location,
      category := "Comercial",
      progress := Progress(Num(r.currentMilestone as real), Num(r.totalMilestones as real)),
      milestonesCompleted := Num(r.currentMilestone as real),
      totalMilestones := Num(r.totalMilestones as real),
      totalValue := "1,500,000",
      tokensAvailable := "50,000",
      featured := r.featured,
      description := r.description,
      status := Num(r.status as real))
  {
    var o := Encode(r, other);
    assert At(o, 0) == JStr(NatToDecimal(r.id));
    assert At(o, 6) == JStr(NatToDecimal(r.status));
    assert At(o, 7) == JStr(NatToDecimal(r.totalMilestones));
    assert At(o, 8) == JStr(NatToDecimal(r.currentMilestone));
    assert At(o, 1) == JStr(r.name);
    assert At(o, 10) == JBool(r.featured);
    assert At(o, 11) == JStr(r.description);
    assert At(o, 12) == JStr(r.location);
    ReadDecimal(r.id);
    ReadDecimal(r.status);
    ReadDecimal(r.totalMilestones);
    ReadDecimal(r.currentMilestone);
  }

  lemma ReadDecimal(n: nat)
    ensures ToNumber(JStr(NatToDecimal(n))) == Num(n as real)
  {
    ParseDecimal(n);
  }

  /** Every decoded building carries the constant category. */
  lemma DecodedCategoryIsConstant(outputs: seq<Output>)
    ensures forall b :: b in DecodeAll(outputs) ==> b.category == "Comercial"
  {
  }

  /** How many times `for (let i = 1; i <= totalCount; i++)` runs. */
  function IterationCount(totalCount: real): nat
  {
    if totalCount < 1.0 then 0 else totalCount.Floor
  }

  /** The ids the loop passes to `getBuilding`: `i.toString()` for i = 1..n. */
  function RequestIds(totalCount: real): (ids: seq<string>)
    ensures |ids| == IterationCount(totalCount)
  {
    seq(IterationCount(totalCount), k requires 0 <= k => NatToDecimal(k + 1))
  }

  /** The k-th request asks for building k + 1, so the ids run 1, 2, ..., n
      in ascending order with no repeats. */
  lemma RequestIdsAscending(totalCount: real, k: nat)
    requires k < IterationCount(totalCount)
    ensures StringToNumber(RequestIds(totalCount)[k]) == Num((k + 1) as real)
  {
    assert RequestIds(totalCount)[k] == NatToDecimal(k + 1);
    ParseDecimal(k + 1);
  }

  /** The loop that pushes one `getBuilding` call per id. */
  method RequestBuildings(totalCount: real, getBuilding: string -> Call<Output>)
    returns (ids: seq<string>, calls: seq<Call<Output>>)
    ensures ids == RequestIds(totalCount)
    ensures |calls| == |ids| && forall k :: 0 <= k < |ids| ==> calls[k] == getBuilding(ids[k])
  {
    ids, calls := [], [];
    var i: nat := 1;
    while i as real <= totalCount
      invariant 1 <= i
      invariant i - 1 <= IterationCount(totalCount)
      invariant i - 1 < IterationCount(totalCount) ==> i as real <= totalCount
      invariant i - 1 == IterationCount(totalCount) ==> !(i as real <= totalCount)
      invariant ids == RequestIds(totalCount)[..i - 1]
      invariant |calls| == |ids| && forall k :: 0 <= k < |ids| ==> calls[k] == getBuilding(ids[k])
      decreases IterationCount(totalCount) - (i - 1)
    {
      var id := NatToDecimal(i);
      ids := ids + [id];
      calls := calls + [getBuilding(id)];
      i := i + 1;
    }
  }

  /** `Promise.all(calls)`: all values in order, or the error of a call
      that threw (here the first in order). */
  function AwaitAll<T>(calls: seq<Call<T>>): (r: Call<seq<T>>)
    ensures r.Returned? <==> forall k :: 0 <= k < |calls| ==> calls[k].Returned?
    ensures r.Returned? ==>
              |r.value| == |calls| && forall k :: 0 <= k < |calls| ==> r.value[k] == calls[k].value
    ensures r.Threw? ==> exists k :: 0 <= k < |calls| && calls[k] == Threw(r.error)
  {
    if calls == [] then Returned([])
    else match calls[0]
      case Threw(e) => Threw(e)
      case Returned(v) =>
        match AwaitAll(calls[1..])
        case Threw(e) => Threw(e)
        case Returned(vs) => Returned([v] + vs)
  }

  /** What a fetch ends with: the buildings to store, or the error the
      `catch` block sees. */
  datatype Fetched = Loaded(buildings: seq<Building>) | Failed(error: CallError)

  /** True when `Number(totalRaw)` is NaN or not positive: the list is
      emptied and no building is requested. */
  predicate GuardEmpties(count: JsNumber)
  {
    count.NaN? || count.value <= 0.0
  }

  /** The body of `fetchBlockchainData`'s `try` block, as a function of the
      two contract reads. */
  function FetchBuildings(total: Call<JsValue>, getBuilding: string -> Call<Output>): Fetched
  {
    match total
    case Threw(e) => Failed(e)
    case Returned(raw) =>
      var count := ToNumber(raw);
      if GuardEmpties(count) then Loaded([])
      else
        var ids := RequestIds(count.value);
        match AwaitAll(seq(|ids|, k requires 0 <= k < |ids| => getBuilding(ids[k])))
        case Threw(e) => Failed(e)
        case Returned(outputs) => Loaded(DecodeAll(outputs))
  }

  /** The ids `fetchBlockchainData` asks the contract for. */
  function RequestedIds(total: Call<JsValue>): seq<string>
  {
    if total.Threw? || GuardEmpties(ToNumber(total.value)) then []
    else RequestIds(ToNumber(total.value).value)
  }

  /** A count that is NaN or not positive empties the list whatever the
      contract would answer for single buildings. */
  lemma GuardedFetchIsEmpty(raw: JsValue, getBuilding: string -> Call<Output>)
    requires GuardEmpties(ToNumber(raw))
    ensures FetchBuildings(Returned(raw), getBuilding) == Loaded([])
    ensures RequestedIds(Returned(raw)) == []
  {
  }

  /** When every call returns, the list holds one decoded building per
      requested id, in the order of the ids. */
  lemma {:induction false} FetchKeepsOrder(total: Call<JsValue>, getBuilding: string -> Call<Output>)
    requires FetchBuildings(total, getBuilding).Loaded?
    ensures var bs := FetchBuildings(total, getBuilding).buildings;
      var ids := RequestedIds(total);
      |bs| == |ids| &&
      forall k :: 0 <= k < |ids| ==> getBuilding(ids[k]).Returned? && bs[k] == Decode(getBuilding(ids[k]).value)
  {
    var count := ToNumber(total.value);
    if !GuardEmpties(count) {
      var ids := RequestIds(count.value);
      var calls := seq(|ids|, k requires 0 <= k < |ids| => getBuilding(ids[k]));
      var outputs := AwaitAll(calls).value;
      assert FetchBuildings(total, getBuilding).buildings == DecodeAll(outputs);
      forall k | 0 <= k < |ids|
        ensures getBuilding(ids[k]).Returned? && DecodeAll(outputs)[k] == Decode(getBuilding(ids[k]).value)
      {
        assert calls[k] == getBuilding(ids[k]);
      }
    }
  }

  /** The loop plus `Promise.all` plus the decode: what the three pages run
      inside `try`. Also reports the ids it requested. */
  method Fetch(total: Call<JsValue>, getBuilding: string -> Call<Output>)
    returns (fetched: Fetched, requested: seq<string>)
    ensures fetched == FetchBuildings(total, getBuilding)
    ensures requested == RequestedIds(total)
  {
    match total {
      case Threw(e) =>
        fetched, requested := Failed(e), [];
      case Returned(raw) =>
        var count := ToNumber(raw);
        if GuardEmpties(count) {
          fetched, requested := Loaded([]), [];
        } else {
          var calls;
          requested, calls := RequestBuildings(count.value, getBuilding);
          assert calls == seq(|requested|, k requires 0 <= k < |requested| => getBuilding(requested[k]));
          match AwaitAll(calls) {
            case Threw(e) =>
              fetched := Failed(e);
            case Returned(outputs) =>
              fetched := Loaded(DecodeAll(outputs));
          }
        }
    }
  }
}
