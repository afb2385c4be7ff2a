/** The investments page: it loads the buildings only for a connected
    wallet (and sends anyone else to the home page), derives a mock
    investment from each building's id, and formats amounts for the
    portfolio chart. */
module InvestmentsPage {
  import opened Options
  import opened JsText
  import opened JsNumbers
  import opened JsValues
  import opened BuildingRegistry

  /** The route a disconnected visitor is sent to. */
  const HomeRoute := "/"

  /** `125000 + building.id * 15000`. */
  function MockAmountInvested(id: JsNumber): (r: JsNumber)
    ensures r.NaN? <==> id.NaN?
    ensures r.Num? ==> (r.value - 125000.0) / 15000.0 == id.value
  {
    match id
    case NaN => NaN
    case Num(v) => Num(125000.0 + v * 15000.0)
  }

  /** A later building shows a strictly larger mock investment, and the
      first one (id 1) shows 140000. */
  lemma MockAmountIncreasing(a: real, b: real)
    requires a < b
    ensures MockAmountInvested(Num(a)).value < MockAmountInvested(Num(b)).value
    ensures MockAmountInvested(Num(1.0)) == Num(140000.0)
  {
    assert (b - a) * 15000.0 > 0.0;
  }

  /** `amountInvested / 0.25`, before `toLocaleString`. */
  function TokensOwned(amountInvested: real): (r: real)
    ensures r * 0.25 == amountInvested
  {
    amountInvested / 0.25
  }

  /** At 0.25 per token the owner holds four tokens per unit invested. */
  lemma TokensOwnedIsFourTimes(amountInvested: real)
    ensures TokensOwned(amountInvested) == 4.0 * amountInvested
  {
  }

  /** `building.id % 12`, the month of the mock investment date. */
  function InvestmentMonth(id: JsNumber): (r: JsNumber)
    ensures r.NaN? <==> id.NaN?
    ensures r.Num? ==> -12.0 < r.value < 12.0 && (id.value >= 0.0 ==> r.value >= 0.0)
  {
    match id
    case NaN => NaN
    case Num(v) => Num(Rem(v, 12.0))
  }

  /** For a whole, non-negative id the month is a whole number in 0..11,
      and ids twelve apart share it. */
  lemma InvestmentMonthRange(id: nat)
    ensures var m := InvestmentMonth(Num(id as real));
      m.Num? && m.value == (id % 12) as real && 0.0 <= m.value <= 11.0
    ensures InvestmentMonth(Num((id + 12) as real)) == InvestmentMonth(Num(id as real))
  {
    RemWhole(id, 12);
    RemWhole(id + 12, 12);
  }

  /** `formatCurrency`: millions with one decimal and an `M`, otherwise
      thousands with no decimals and a `K`. */
  function FormatCurrency(value: real): (r: string)
    ensures |r| >= 2 && r[0] == '$'
    ensures r[|r| - 1] == 'M' <==> value >= 1000000.0
  {
    if value >= 1000000.0 then "$" + ToFixed(value / 1000000.0, 1) + "M"
    else "$" + ToFixed(value / 1000.0, 0) + "K"
  }

  /** The amount is always written after a dollar sign; the suffix is `M`
      exactly when the value reaches one million, and then the figure has
      one decimal; below a million a non-negative figure has none. */
  lemma FormatCurrencyShape(value: real)
    ensures var r := FormatCurrency(value);
      |r| >= 3 && r[0] == '$' &&
      (r[|r| - 1] == 'M' <==> value >= 1000000.0) &&
      (r[|r| - 1] == 'K' <==> value < 1000000.0)
    ensures value >= 1000000.0 ==> var r := FormatCurrency(value);
      |r| >= 5 && r[|r| - 3] == '.' && IsDigit(r[|r| - 2])
    ensures 0.0 <= value < 1000000.0 ==> var r := FormatCurrency(value);
      forall i :: 1 <= i < |r| - 1 ==> IsDigit(r[i])
  {
    if value >= 1000000.0 {
      FixedShape(value / 1000000.0, 1);
    } else if value >= 0.0 {
      FixedShape(value / 1000.0, 0);
      var f := ToFixed(value / 1000.0, 0);
      var r := FormatCurrency(value);
      assert r == "$" + f + "K";
      forall i | 1 <= i < |r| - 1
        ensures IsDigit(r[i])
      {
        assert r[i] == f[i - 1];
      }
    } else {
      var f := ToFixed(value / 1000.0, 0);
      assert FormatCurrency(value) == "$" + f + "K";
    }
  }

  /** The page's state: the `useState` variables and the route the
      router was last sent to. */
  class Investments {
    var buildings: seq<Building>
    var isLoading: bool
    var redirect: Option<string>

    constructor()
      ensures buildings == [] && isLoading && redirect == None
    {
      buildings := [];
      isLoading := true;
      redirect := None;
    }

    /** The two effects that run when `isConnected` changes: a connected
        wallet loads the buildings (an error is only logged, and loading
        ends either way); a disconnected one is sent home and nothing is
        requested. Returns the ids requested. */
    method OnConnection(isConnected: bool, total: Call<JsValue>, getBuilding: string -> Call<Output>)
      returns (requested: seq<string>)
      modifies this
      ensures isConnected ==> requested == RequestedIds(total) && !isLoading && redirect == old(redirect)
      ensures isConnected && FetchBuildings(total, getBuilding).Loaded? ==>
                buildings == FetchBuildings(total, getBuilding).buildings
      ensures isConnected && FetchBuildings(total, getBuilding).Failed? ==> buildings == old(buildings)
      ensures !isConnected ==>
                requested == [] && redirect == Some(HomeRoute) &&
                buildings == old(buildings) && isLoading == old(isLoading)
    {
      requested := [];
      if isConnected {
        isLoading := true;
        var fetched;
        fetched, requested := Fetch(total, getBuilding);
        if fetched.Loaded? {
          buildings := fetched.buildings;
        }
        isLoading := false;
      }
      if !isConnected {
        redirect := Some(HomeRoute);
      }
    }
  }
}
