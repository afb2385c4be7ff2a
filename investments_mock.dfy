/** The mock portfolio: four investments in fixture projects, the totals
    and return shown on the portfolio summary, and the monthly history of
    the amount invested. */
module InvestmentsMock {
  import opened Options
  import opened JsText
  import opened JsNumbers
  import opened ProjectsMock

  /** A calendar date as `YYYY-MM-DD` names it. */
  datatype Date = Date(year: nat, month: nat, day: nat)

  /** `new Date(s)` for a date-only ISO string, read as midnight UTC;
      anything else is an invalid date. */
  function ParseIsoDate(s: string): Option<Date>
  {
    if |s| == 10 && s[4] == '-' && s[7] == '-' &&
       AllDigits(s[..4]) && AllDigits(s[5..7]) && AllDigits(s[8..])
    then
      var d := Date(DigitsValue(s[..4]), DigitsValue(s[5..7]), DigitsValue(s[8..]));
      if 1 <= d.month <= 12 && 1 <= d.day <= 31 then Some(d) else None
    else None
  }

  /** A number that orders valid dates as the calendar does. */
  function DayKey(d: Date): nat
  {
    (d.year * 12 + d.month) * 31 + d.day
  }

  /** An earlier valid date has a smaller key. */
  lemma DayKeyOrdersDates(a: Date, b: Date)
    requires 1 <= a.month <= 12 && 1 <= a.day <= 31 && 1 <= b.month <= 12 && 1 <= b.day <= 31
    ensures DayKey(a) < DayKey(b) <==>
      a.year < b.year || (a.year == b.year && (a.month < b.month || (a.month == b.month && a.day < b.day)))
  {
    if a.year < b.year {
      assert DayKey(a) <= (a.year * 12 + 12) * 31 + 31;
      assert (a.year * 12 + 12) * 31 + 31 < ((a.year + 1) * 12 + 1) * 31 + 1;
      assert ((a.year + 1) * 12 + 1) * 31 + 1 <= DayKey(b);
    } else if a.year > b.year {
      assert DayKey(b) <= (b.year * 12 + 12) * 31 + 31;
      assert (b.year * 12 + 12) * 31 + 31 < ((b.year + 1) * 12 + 1) * 31 + 1;
      assert ((b.year + 1) * 12 + 1) * 31 + 1 <= DayKey(a);
    }
  }

  /** An investment of the mock portfolio. */
  datatype Investment = Investment(
    id: nat,
    projectId: nat,
    amountInvested: string,
    tokensOwned: string,
    currentValue: string,
    returnPercentage: real,
    investmentDate: string,
    project: MockBuilding)

  /** The four investments of the fixture. */
  const Investments: seq<Investment> := [
    Investment(1, 1, "125,000", "500,000", "145,000", 16.0, "2025-01-15", Buildings[0]),
    Investment(2, 3, "85,000", "300,000", "98,000", 15.3, "2025-02-20", Buildings[2]),
    Investment(3, 5, "200,000", "1,200,000", "234,000", 17.0, "2025-03-10", Buildings[4]),
    Investment(4, 6, "150,000", "400,000", "162,000", 8.0, "2025-04-05", Buildings[5])
  ]

  /** Each investment refers to the fixture project its `projectId` names. */
  lemma InvestmentsLinkProjects()
    ensures forall k :: 0 <= k < |Investments| ==>
      Investments[k].project.id == Investments[k].projectId &&
      Investments[k].project in Buildings
  {
  }

  /** `parseFloat(s.replace(/,/g, ''))`. */
  function ParseAmount(s: string): JsNumber
  {
    ParseFloat(RemoveChar(s, ','))
  }

  /** `xs.reduce((sum, x) => sum + x, 0)`. */
  function Total(xs: seq<JsNumber>): JsNumber
  {
    if xs == [] then Num(0.0) else Add(Total(xs[..|xs| - 1]), xs[|xs| - 1])
  }

  /** The parsed `amountInvested` of each investment. */
  function InvestedAmounts(invs: seq<Investment>): (xs: seq<JsNumber>)
    ensures |xs| == |invs| && forall k :: 0 <= k < |invs| ==> xs[k] == ParseAmount(invs[k].amountInvested)
  {
    seq(|invs|, k requires 0 <= k < |invs| => ParseAmount(invs[k].amountInvested))
  }

  /** The parsed `currentValue` of each investment. */
  function CurrentValues(invs: seq<Investment>): (xs: seq<JsNumber>)
    ensures |xs| == |invs| && forall k :: 0 <= k < |invs| ==> xs[k] == ParseAmount(invs[k].currentValue)
  {
    seq(|invs|, k requires 0 <= k < |invs| => ParseAmount(invs[k].currentValue))
  }

  /** `getTotalInvested` over a list of investments. */
  function GetTotalInvested(invs: seq<Investment>): (r: JsNumber)
    ensures r.Num? <==> forall k :: 0 <= k < |invs| ==> ParseAmount(invs[k].amountInvested).Num?
  {
    TotalNaN(InvestedAmounts(invs));
    Total(InvestedAmounts(invs))
  }

  /** `getTotalCurrentValue` over a list of investments. */
  function GetTotalCurrentValue(invs: seq<Investment>): (r: JsNumber)
    ensures r.Num? <==> forall k :: 0 <= k < |invs| ==> ParseAmount(invs[k].currentValue).Num?
  {
    TotalNaN(CurrentValues(invs));
    Total(CurrentValues(invs))
  }

  /** Totals split over concatenation: the total of two lists is the sum
      of their totals. */
  lemma {:induction false} TotalAppend(a: seq<JsNumber>, b: seq<JsNumber>)
    ensures Total(a + b) == Add(Total(a), Total(b))
  {
    if b != [] {
      var b' := b[..|b| - 1];
      assert (a + b)[..|a + b| - 1] == a + b';
      TotalAppend(a, b');
    } else {
      assert a + b == a;
    }
  }

  /** The total is a number exactly when every amount parses, and a total
      of non-negative amounts is non-negative. */
  lemma {:induction false} TotalNaN(xs: seq<JsNumber>)
    ensures Total(xs).Num? <==> forall k :: 0 <= k < |xs| ==> xs[k].Num?
    ensures (forall k :: 0 <= k < |xs| ==> xs[k].Num? && xs[k].value >= 0.0) ==> Total(xs).Num? && Total(xs).value >= 0.0
  {
    if xs != [] {
      var p := xs[..|xs| - 1];
      TotalNaN(p);
      assert forall k :: 0 <= k < |p| ==> p[k] == xs[k];
    }
  }

  /** The six-digit amounts of the fixture read back as numbers. */
  lemma ParseFixtureAmount(s: string, n: nat)
    requires |s| == 7 && s[3] == ',' && s[..3] + s[4..] == NatToDecimal(n) && ',' !in s[..3] && ',' !in s[4..]
    ensures ParseAmount(s) == Num(n as real)
  {
    assert s == s[..3] + [','] + s[4..];
    RemoveCommaSplit(s[..3], s[4..]);
    ParseDecimal(n);
  }

  lemma RemoveCommaSplit(a: string, b: string)
    requires ',' !in a && ',' !in b
    ensures RemoveChar(a + [','] + b, ',') == a + b
  {
    RemoveAbsent(a, ',');
    RemoveAbsent(b, ',');
    RemoveCharAppend(a + [','], b, ',');
    RemoveCharAppend(a, [','], ',');
    assert RemoveChar([','], ',') == [];
    assert RemoveChar(a + [','], ',') == a;
  }

  /** `replace` leaves a string without the character as it is. */
  lemma {:induction false} RemoveAbsent(s: string, c: char)
    requires c !in s
    ensures RemoveChar(s, c) == s
  {
    if s != [] {
      RemoveAbsent(s[1..], c);
    }
  }

  lemma {:induction false} RemoveCharAppend(a: string, b: string, c: char)
    ensures RemoveChar(a + b, c) == RemoveChar(a, c) + RemoveChar(b, c)
  {
    if a != [] {
      RemoveCharAppend(a[1..], b, c);
      assert (a + b)[1..] == a[1..] + b;
    } else {
      assert a + b == b;
    }
  }

  /** Over the fixture the portfolio holds 560000 invested and is worth
      639000. */
  lemma FixtureTotals()
    ensures GetTotalInvested(Investments) == Num(560000.0)
    ensures GetTotalCurrentValue(Investments) == Num(639000.0)
  {
    FixtureAmounts();
    FixtureInvestedTotal();
    FixtureCurrentTotal();
  }

  lemma FixtureInvestedTotal()
    ensures Total(FixtureInvested) == Num(560000.0)
  {
    TotalOfFour(FixtureInvested);
  }

  lemma FixtureCurrentTotal()
    ensures Total(FixtureCurrent) == Num(639000.0)
  {
    TotalOfFour(FixtureCurrent);
  }

  lemma TotalOfFour(xs: seq<JsNumber>)
    requires |xs| == 4
    ensures Total(xs) == Add(Add(Add(Add(Num(0.0), xs[0]), xs[1]), xs[2]), xs[3])
  {
    assert xs[..1][..0] == [];
    assert Total(xs[..1]) == Add(Num(0.0), xs[0]);
    assert xs[..2][..1] == xs[..1];
    assert Total(xs[..2]) == Add(Total(xs[..1]), xs[1]);
    assert xs[..3][..2] == xs[..2];
    assert Total(xs[..3]) == Add(Total(xs[..2]), xs[2]);
    assert xs[..3] == xs[..|xs| - 1];
  }

  /** The fixture's invested amounts and current values, parsed. */
  const FixtureInvested: seq<JsNumber> := [Num(125000.0), Num(85000.0), Num(200000.0), Num(150000.0)]
  const FixtureCurrent: seq<JsNumber> := [Num(145000.0), Num(98000.0), Num(234000.0), Num(162000.0)]

  lemma FixtureAmounts()
    ensures InvestedAmounts(Investments) == FixtureInvested
    ensures CurrentValues(Investments) == FixtureCurrent
  {
    forall k | 0 <= k < 4
      ensures InvestedAmounts(Investments)[k] == FixtureInvested[k]
      ensures CurrentValues(Investments)[k] == FixtureCurrent[k]
    {
      FixtureInvestedAt(k);
      FixtureCurrentAt(k);
    }
  }

  lemma FixtureInvestedAt(k: nat)
    requires k < 4
    ensures ParseAmount(Investments[k].amountInvested) == FixtureInvested[k]
  {
    if k == 0 { Invested0(); } else if k == 1 { Invested1(); } else if k == 2 { Invested2(); } else { Invested3(); }
  }

  lemma FixtureCurrentAt(k: nat)
    requires k < 4
    ensures ParseAmount(Investments[k].currentValue) == FixtureCurrent[k]
  {
    if k == 0 { Current0(); } else if k == 1 { Current1(); } else if k == 2 { Current2(); } else { Current3(); }
  }

  lemma Invested0()
    ensures ParseAmount("125,000") == Num(125000.0)
  {
    ParseFixtureAmount("125,000", 125000);
  }

  lemma Invested1()
    ensures ParseAmount("85,000") == Num(85000.0)
  {
    ParseShortAmount("85,000", 85000);
  }

  lemma Invested2()
    ensures ParseAmount("200,000") == Num(200000.0)
  {
    ParseFixtureAmount("200,000", 200000);
  }

  lemma Invested3()
    ensures ParseAmount("150,000") == Num(150000.0)
  {
    ParseFixtureAmount("150,000", 150000);
  }

  lemma Current0()
    ensures ParseAmount("145,000") == Num(145000.0)
  {
    ParseFixtureAmount("145,000", 145000);
  }

  lemma Current1()
    ensures ParseAmount("98,000") == Num(98000.0)
  {
    ParseShortAmount("98,000", 98000);
  }

  lemma Current2()
    ensures ParseAmount("234,000") == Num(234000.0)
  {
    ParseFixtureAmount("234,000", 234000);
  }

  lemma Current3()
    ensures ParseAmount("162,000") == Num(162000.0)
  {
    ParseFixtureAmount("162,000", 162000);
  }

  lemma FourAmounts(xs: seq<JsNumber>, a: JsNumber, b: JsNumber, c: JsNumber, d: JsNumber)
    requires |xs| == 4 && xs[0] == a && xs[1] == b && xs[2] == c && xs[3] == d
    ensures xs == [a, b, c, d]
  {
  }

  /** The five-digit amounts of the fixture read back as numbers. */
  lemma ParseShortAmount(s: string, n: nat)
    requires |s| == 6 && s[2] == ',' && s[..2] + s[3..] == NatToDecimal(n) && ',' !in s[..2] && ',' !in s[3..]
    ensures ParseAmount(s) == Num(n as real)
  {
    assert s == s[..2] + [','] + s[3..];
    RemoveCommaSplit(s[..2], s[3..]);
    ParseDecimal(n);
  }

  /** `((current - invested) / invested) * 100`; a zero or unreadable
      total gives no finite percentage. */
  function ReturnPercentage(invested: JsNumber, current: JsNumber): (r: Option<real>)
    ensures r.Some? <==> invested.Num? && current.Num? && invested.value != 0.0
    ensures r.Some? ==> invested.value * (1.0 + r.value / 100.0) == current.value
  {
    if invested.Num? && current.Num? && invested.value != 0.0 then
      ReturnUndoes(invested.value, current.value);
      Some((current.value - invested.value) / invested.value * 100.0)
    else None
  }

  /** Growing the amount invested by the return percentage gives back the
      current value. */
  lemma ReturnUndoes(invested: real, current: real)
    requires invested != 0.0
    ensures invested * (1.0 + ((current - invested) / invested * 100.0) / 100.0) == current
  {
    var q := (current - invested) / invested;
    assert q * invested == current - invested;
    assert (q * 100.0) / 100.0 == q;
    assert invested * (1.0 + q) == invested + q * invested;
  }

  /** `getTotalReturn` over a list of investments. */
  function GetTotalReturn(invs: seq<Investment>): (r: Option<real>)
    ensures r.Some? <==> GetTotalInvested(invs).Num? && GetTotalCurrentValue(invs).Num? && GetTotalInvested(invs).value != 0.0
  {
    ReturnPercentage(GetTotalInvested(invs), GetTotalCurrentValue(invs))
  }

  /** With a positive amount invested the return is non-negative exactly
      when the portfolio is worth at least that amount, and zero exactly
      when it is worth that amount. */
  lemma ReturnSign(invested: real, current: real)
    requires invested > 0.0
    ensures ReturnPercentage(Num(invested), Num(current)).Some?
    ensures ReturnPercentage(Num(invested), Num(current)).value >= 0.0 <==> current >= invested
    ensures ReturnPercentage(Num(invested), Num(current)).value == 0.0 <==> current == invested
  {
    var q := (current - invested) / invested;
    assert q * invested == current - invested;
    if current >= invested {
      assert q >= 0.0;
    } else {
      assert q < 0.0;
    }
  }

  /** The fixture's return: 79000 gained on 560000, about 14.1 percent. */
  lemma FixtureReturn()
    ensures GetTotalReturn(Investments) == Some(395.0 / 28.0)
  {
    FixtureTotals();
  }

  /** `new Date(inv.investmentDate).getTime()`, as a key that orders dates;
      `None` for an invalid date. */
  function InvestmentTime(inv: Investment): Option<nat>
  {
    match ParseIsoDate(inv.investmentDate)
    case Some(d) => Some(DayKey(d))
    case None => None
  }

  /** The sort comparator is negative: `a` was made strictly before `b`. */
  predicate EarlierThan(a: Investment, b: Investment)
  {
    InvestmentTime(a).Some? && InvestmentTime(b).Some? && InvestmentTime(a).value < InvestmentTime(b).value
  }

  /** Places `x` in front of the first element made strictly after it. */
  function Insert(x: Investment, s: seq<Investment>): (r: seq<Investment>)
    ensures |r| == |s| + 1 && multiset(r) == multiset(s) + multiset{x}
  {
    if s == [] then [x]
    else if EarlierThan(x, s[0]) then [x] + s
    else
      assert s == [s[0]] + s[1..];
      [s[0]] + Insert(x, s[1..])
  }

  /** `[...investments].sort(byDate)`: a stable insertion sort of a copy. */
  function SortByDate(s: seq<Investment>): (r: seq<Investment>)
    ensures |r| == |s|
  {
    if s == [] then [] else Insert(s[|s| - 1], SortByDate(s[..|s| - 1]))
  }

  /** No investment is listed after one made strictly later. */
  predicate SortedByDate(s: seq<Investment>)
  {
    forall i, j :: 0 <= i < j < |s| ==> !EarlierThan(s[j], s[i])
  }

  predicate AllDated(s: seq<Investment>)
  {
    forall i :: 0 <= i < |s| ==> InvestmentTime(s[i]).Some?
  }

  /** Sorting reorders the investments and neither drops nor adds one. */
  lemma {:induction false} SortPermutes(s: seq<Investment>)
    ensures multiset(SortByDate(s)) == multiset(s)
  {
    if s != [] {
      SortPermutes(s[..|s| - 1]);
      assert s == s[..|s| - 1] + [s[|s| - 1]];
    }
  }

  /** When every date is valid the sorted list is in date order. */
  lemma {:induction false} SortSorts(s: seq<Investment>)
    requires AllDated(s)
    ensures SortedByDate(SortByDate(s))
  {
    if s != [] {
      var p := s[..|s| - 1];
      assert AllDated(p) by {
        forall i | 0 <= i < |p| ensures InvestmentTime(p[i]).Some? {
          assert p[i] == s[i];
        }
      }
      SortSorts(p);
      SortPermutes(p);
      forall y | y in SortByDate(p) ensures InvestmentTime(y).Some? {
        assert y in multiset(SortByDate(p));
        assert y in p;
      }
      InsertSorted(s[|s| - 1], SortByDate(p));
    }
  }

  lemma {:induction false} InsertSorted(x: Investment, s: seq<Investment>)
    requires SortedByDate(s) && InvestmentTime(x).Some?
    requires forall y :: y in s ==> InvestmentTime(y).Some?
    ensures SortedByDate(Insert(x, s))
  {
    if s != [] && !EarlierThan(x, s[0]) {
      InsertSorted(x, s[1..]);
      var r := Insert(x, s[1..]);
      forall y | y in r ensures !EarlierThan(y, s[0]) {
        assert y in multiset(r);
        if y != x {
          assert y in s[1..];
        }
      }
    }
  }

  /** An element no earlier than all others goes at the end. */
  lemma {:induction false} InsertAtEnd(x: Investment, s: seq<Investment>)
    requires forall i :: 0 <= i < |s| ==> !EarlierThan(x, s[i])
    ensures Insert(x, s) == s + [x]
  {
    if s != [] {
      InsertAtEnd(x, s[1..]);
      assert [s[0]] + (s[1..] + [x]) == s + [x];
    }
  }

  /** A list already in date order is left as it is. */
  lemma {:induction false} SortedUnchanged(s: seq<Investment>)
    requires SortedByDate(s)
    ensures SortByDate(s) == s
  {
    if s != [] {
      var p, x := s[..|s| - 1], s[|s| - 1];
      assert SortedByDate(p) by {
        forall i, j | 0 <= i < j < |p| ensures !EarlierThan(p[j], p[i]) {
          assert p[i] == s[i] && p[j] == s[j];
        }
      }
      SortedUnchanged(p);
      forall i | 0 <= i < |p| ensures !EarlierThan(x, p[i]) {
        assert p[i] == s[i] && x == s[|s| - 1];
      }
      assert SortByDate(s) == Insert(x, SortByDate(p));
      InsertAtEnd(x, p);
      assert p + [x] == s;
    }
  }

  /** The fixture's investment dates, as keys. */
  const FixtureTimes: seq<nat> := [
    DayKey(Date(2025, 1, 15)), DayKey(Date(2025, 2, 20)), DayKey(Date(2025, 3, 10)), DayKey(Date(2025, 4, 5))]

  lemma FixtureTimesAt(k: nat)
    requires k < 4
    ensures InvestmentTime(Investments[k]) == Some(FixtureTimes[k])
  {
    if k == 0 { Date0(); } else if k == 1 { Date1(); } else if k == 2 { Date2(); } else { Date3(); }
  }

  lemma Date0() ensures ParseIsoDate("2025-01-15") == Some(Date(2025, 1, 15)) { IsoDigits("2025-01-15"); }
  lemma Date1() ensures ParseIsoDate("2025-02-20") == Some(Date(2025, 2, 20)) { IsoDigits("2025-02-20"); }
  lemma Date2() ensures ParseIsoDate("2025-03-10") == Some(Date(2025, 3, 10)) { IsoDigits("2025-03-10"); }
  lemma Date3() ensures ParseIsoDate("2025-04-05") == Some(Date(2025, 4, 5)) { IsoDigits("2025-04-05"); }

  /** The three numeric fields of a well-formed `YYYY-MM-DD` string. */
  lemma IsoDigits(s: string)
    requires |s| == 10 && AllDigits(s[..4]) && AllDigits(s[5..7]) && AllDigits(s[8..])
    ensures DigitsValue(s[..4]) ==
            ((DigitValue(s[0]) * 10 + DigitValue(s[1])) * 10 + DigitValue(s[2])) * 10 + DigitValue(s[3])
    ensures DigitsValue(s[5..7]) == DigitValue(s[5]) * 10 + DigitValue(s[6])
    ensures DigitsValue(s[8..]) == DigitValue(s[8]) * 10 + DigitValue(s[9])
  {
    assert s[..1][..0] == [];
    assert DigitsValue(s[..1]) == DigitValue(s[0]);
    assert s[..2][..1] == s[..1];
    assert DigitsValue(s[..2]) == 10 * DigitsValue(s[..1]) + DigitValue(s[1]);
    assert s[..3][..2] == s[..2];
    assert DigitsValue(s[..3]) == 10 * DigitsValue(s[..2]) + DigitValue(s[2]);
    assert s[..4][..3] == s[..3];
    assert DigitsValue(s[..4]) == 10 * DigitsValue(s[..3]) + DigitValue(s[3]);
    assert s[5..7][..1] == [s[5]] && [s[5]][..0] == [];
    assert DigitsValue([s[5]]) == DigitValue(s[5]);
    assert DigitsValue(s[5..7]) == 10 * DigitsValue([s[5]]) + DigitValue(s[6]);
    assert s[8..][..1] == [s[8]];
    assert DigitsValue([s[8]]) == DigitValue(s[8]);
    assert DigitsValue(s[8..]) == 10 * DigitsValue([s[8]]) + DigitValue(s[9]);
  }

  /** A list whose dates are valid and listed in order is sorted. */
  lemma SortedByTimes(s: seq<Investment>, times: seq<nat>)
    requires |times| == |s| && forall k :: 0 <= k < |s| ==> InvestmentTime(s[k]) == Some(times[k])
    requires forall i, j :: 0 <= i < j < |times| ==> times[i] <= times[j]
    ensures AllDated(s) && SortedByDate(s)
  {
  }

  /** The fixture is listed in date order, so sorting it changes nothing. */
  lemma FixtureSorted()
    ensures AllDated(Investments) && SortedByDate(Investments)
    ensures SortByDate(Investments) == Investments
  {
    forall k | 0 <= k < 4 ensures InvestmentTime(Investments[k]) == Some(FixtureTimes[k]) {
      FixtureTimesAt(k);
    }
    SortedByTimes(Investments, FixtureTimes);
    SortedUnchanged(Investments);
  }

  /** How many monthly points the history has. */
  const HistoryMonths := 7

  /** The first day of month `m` counted from January 2025, read as
      midnight UTC. */
  function MonthStart(m: nat): Date
  {
    Date(2025, 1 + m, 1)
  }

  /** What the history reads of an investment: its date and its parsed
      amount. */
  datatype Entry = Entry(time: Option<nat>, amount: JsNumber)

  function EntryOf(inv: Investment): Entry
  {
    Entry(InvestmentTime(inv), ParseAmount(inv.amountInvested))
  }

  function Entries(s: seq<Investment>): (es: seq<Entry>)
    ensures |es| == |s| && forall k :: 0 <= k < |s| ==> es[k] == EntryOf(s[k])
  {
    seq(|s|, k requires 0 <= k < |s| => EntryOf(s[k]))
  }

  /** `new Date(inv.investmentDate) <= date`. */
  predicate MadeBy(e: Entry, d: Date)
  {
    e.time.Some? && e.time.value <= DayKey(d)
  }

  /** One step of the inner `forEach`: add the amount when it was made by
      the date. */
  function AddIfMade(total: JsNumber, e: Entry, d: Date): JsNumber
  {
    if MadeBy(e, d) then Add(total, e.amount) else total
  }

  /** The inner `forEach` run from `start` over `es`. */
  function Accumulate(start: JsNumber, es: seq<Entry>, d: Date): JsNumber
  {
    if es == [] then start else AddIfMade(Accumulate(start, es[..|es| - 1], d), es[|es| - 1], d)
  }

  /** The amount invested by date `d`: the sum of the amounts made by then. */
  function InvestedAsOf(es: seq<Entry>, d: Date): JsNumber
  {
    Accumulate(Num(0.0), es, d)
  }

  /** A point of the portfolio chart (the value series is not modelled). */
  datatype PortfolioPoint = PortfolioPoint(date: Date, invested: JsNumber)

  /** `cumulativeInvested` after month `m` as the loop computes it: the
      running total is never reset, so every month adds again all the
      investments made by then. */
  function CumulativeAsWritten(es: seq<Entry>, m: nat): JsNumber
  {
    Accumulate(if m == 0 then Num(0.0) else CumulativeAsWritten(es, m - 1), es, MonthStart(m))
  }

  function HistoryAsWritten(es: seq<Entry>, n: nat): seq<PortfolioPoint>
  {
    seq(n, m requires 0 <= m < n => PortfolioPoint(MonthStart(m), CumulativeAsWritten(es, m)))
  }

  /** The history with the running total started afresh each month: each
      point holds what was invested by its date. */
  function HistoryCorrected(es: seq<Entry>, n: nat): seq<PortfolioPoint>
  {
    seq(n, m requires 0 <= m < n => PortfolioPoint(MonthStart(m), InvestedAsOf(es, MonthStart(m))))
  }

  lemma AddAssociative(a: JsNumber, b: JsNumber, c: JsNumber)
    ensures Add(Add(a, b), c) == Add(a, Add(b, c))
  {
  }

  /** Running the inner loop from `start` adds `start` to what was
      invested by the date. */
  lemma {:induction false} AccumulateShift(start: JsNumber, es: seq<Entry>, d: Date)
    ensures Accumulate(start, es, d) == Add(start, InvestedAsOf(es, d))
  {
    if es != [] {
      var p, e := es[..|es| - 1], es[|es| - 1];
      AccumulateShift(start, p, d);
      if MadeBy(e, d) {
        AddAssociative(start, InvestedAsOf(p, d), e.amount);
      }
    }
  }

  /** The loop as written: each month's total is the previous month's
      plus everything invested by the new month, so investments are
      counted again every month. */
  lemma AsWrittenReAdds(es: seq<Entry>, m: nat)
    requires m >= 1
    ensures CumulativeAsWritten(es, m) == Add(CumulativeAsWritten(es, m - 1), InvestedAsOf(es, MonthStart(m)))
  {
    AccumulateShift(CumulativeAsWritten(es, m - 1), es, MonthStart(m));
  }

  predicate NonNegativeAmounts(es: seq<Entry>)
  {
    forall i :: 0 <= i < |es| ==> es[i].amount.Num? && es[i].amount.value >= 0.0
  }

  /** With non-negative amounts, the amount invested by a later date is no
      smaller. */
  lemma {:induction false} InvestedAsOfMonotonic(es: seq<Entry>, d1: Date, d2: Date)
    requires NonNegativeAmounts(es) && DayKey(d1) <= DayKey(d2)
    ensures InvestedAsOf(es, d1).Num? && InvestedAsOf(es, d2).Num?
    ensures 0.0 <= InvestedAsOf(es, d1).value <= InvestedAsOf(es, d2).value
  {
    if es != [] {
      var p := es[..|es| - 1];
      assert NonNegativeAmounts(p) by {
        forall i | 0 <= i < |p| ensures p[i].amount.Num? && p[i].amount.value >= 0.0 {
          assert p[i] == es[i];
        }
      }
      InvestedAsOfMonotonic(p, d1, d2);
    }
  }

  function Amounts(es: seq<Entry>): (xs: seq<JsNumber>)
    ensures |xs| == |es| && forall k :: 0 <= k < |es| ==> xs[k] == es[k].amount
  {
    seq(|es|, k requires 0 <= k < |es| => es[k].amount)
  }

  /** Once every investment has been made, the amount invested is the
      portfolio total. */
  lemma {:induction false} InvestedAsOfAll(es: seq<Entry>, d: Date)
    requires forall i :: 0 <= i < |es| ==> MadeBy(es[i], d)
    ensures InvestedAsOf(es, d) == Total(Amounts(es))
  {
    if es != [] {
      var p := es[..|es| - 1];
      assert forall i :: 0 <= i < |p| ==> p[i] == es[i];
      InvestedAsOfAll(p, d);
      assert Amounts(es)[..|es| - 1] == Amounts(p);
    }
  }

  /** The amounts the history reads are the ones the totals add. */
  lemma EntriesAmounts(s: seq<Investment>)
    ensures Amounts(Entries(s)) == InvestedAmounts(s)
  {
  }

  /** The corrected series never decreases. */
  lemma CorrectedNonDecreasing(es: seq<Entry>, n: nat, i: nat, j: nat)
    requires NonNegativeAmounts(es) && i <= j < n
    ensures HistoryCorrected(es, n)[i].invested.Num? && HistoryCorrected(es, n)[j].invested.Num?
    ensures HistoryCorrected(es, n)[i].invested.value <= HistoryCorrected(es, n)[j].invested.value
  {
    InvestedAsOfMonotonic(es, MonthStart(i), MonthStart(j));
  }

  /** With non-negative amounts the as-written total stays a number. */
  lemma {:induction false} AsWrittenNumeric(es: seq<Entry>, m: nat)
    requires NonNegativeAmounts(es)
    ensures CumulativeAsWritten(es, m).Num? && CumulativeAsWritten(es, m).value >= 0.0
  {
    InvestedAsOfMonotonic(es, MonthStart(m), MonthStart(m));
    if m == 0 {
      AccumulateShift(Num(0.0), es, MonthStart(0));
    } else {
      AsWrittenNumeric(es, m - 1);
      AsWrittenReAdds(es, m);
    }
  }

  /** The as-written series never decreases either, but it grows by the
      whole amount invested so far every month. */
  lemma AsWrittenNonDecreasing(es: seq<Entry>, m: nat)
    requires NonNegativeAmounts(es) && m >= 1
    ensures CumulativeAsWritten(es, m - 1).Num? && CumulativeAsWritten(es, m).Num?
    ensures InvestedAsOf(es, MonthStart(m)).Num?
    ensures CumulativeAsWritten(es, m).value ==
            CumulativeAsWritten(es, m - 1).value + InvestedAsOf(es, MonthStart(m)).value
    ensures CumulativeAsWritten(es, m - 1).value <= CumulativeAsWritten(es, m).value
  {
    AsWrittenNumeric(es, m - 1);
    AsWrittenReAdds(es, m);
    InvestedAsOfMonotonic(es, MonthStart(m), MonthStart(m));
  }

  /** Each month appends one point to the as-written history. */
  lemma AsWrittenSnoc(es: seq<Entry>, n: nat)
    ensures HistoryAsWritten(es, n + 1) == HistoryAsWritten(es, n) + [PortfolioPoint(MonthStart(n), CumulativeAsWritten(es, n))]
  {
  }

  /** Each month appends one point to the corrected history. */
  lemma CorrectedSnoc(es: seq<Entry>, n: nat)
    ensures HistoryCorrected(es, n + 1) == HistoryCorrected(es, n) + [PortfolioPoint(MonthStart(n), InvestedAsOf(es, MonthStart(n)))]
  {
  }

  /** The inner `forEach` of the history: starting from `start`, add the
      amount of every investment made by `date`. */
  method AddMadeBy(sorted: seq<Investment>, date: Date, start: JsNumber) returns (total: JsNumber)
    ensures total == Accumulate(start, Entries(sorted), date)
  {
    ghost var es := Entries(sorted);
    total := start;
    var k := 0;
    while k < |sorted|
      invariant 0 <= k <= |sorted|
      invariant total == Accumulate(start, es[..k], date)
    {
      var inv := sorted[k];
      var time := InvestmentTime(inv);
      if time.Some? && time.value <= DayKey(date) {
        var investedAmount := ParseAmount(inv.amountInvested);
        total := Add(total, investedAmount);
      }
      assert es[k] == EntryOf(inv);
      assert es[..k + 1][..k] == es[..k];
      k := k + 1;
    }
    assert es[..k] == es;
  }

  /** `getPortfolioHistory` as written: seven monthly points, with the
      running total carried over from month to month. The source reads the
      module's fixture; here the list is a parameter. */
  method GetPortfolioHistory(investments: seq<Investment>) returns (data: seq<PortfolioPoint>)
    ensures data == HistoryAsWritten(Entries(SortByDate(investments)), HistoryMonths)
  {
    var sorted := SortByDate(investments);
    ghost var es := Entries(sorted);
    data := [];
    var cumulativeInvested := Num(0.0);
    var month := 0;
    while month <= 6
      invariant 0 <= month <= HistoryMonths
      invariant data == HistoryAsWritten(es, month)
      invariant cumulativeInvested == if month == 0 then Num(0.0) else CumulativeAsWritten(es, month - 1)
    {
      var date := MonthStart(month);
      cumulativeInvested := AddMadeBy(sorted, date, cumulativeInvested);
      AsWrittenSnoc(es, month);
      data := data + [PortfolioPoint(date, cumulativeInvested)];
      month := month + 1;
    }
  }

  /** The history with the running total reset at the start of each
      month, so that each point holds what was invested by its date. */
  method GetPortfolioHistoryCorrected(investments: seq<Investment>) returns (data: seq<PortfolioPoint>)
    ensures data == HistoryCorrected(Entries(SortByDate(investments)), HistoryMonths)
  {
    var sorted := SortByDate(investments);
    ghost var es := Entries(sorted);
    data := [];
    var month := 0;
    while month <= 6
      invariant 0 <= month <= HistoryMonths
      invariant data == HistoryCorrected(es, month)
    {
      var date := MonthStart(month);
      var investedByDate := AddMadeBy(sorted, date, Num(0.0));
      CorrectedSnoc(es, month);
      data := data + [PortfolioPoint(date, investedByDate)];
      month := month + 1;
    }
  }

  /** What the history reads of the fixture. */
  const FixtureEntries: seq<Entry> :=
    seq(4, k requires 0 <= k < 4 => Entry(Some(FixtureTimes[k]), FixtureInvested[k]))

  lemma FixtureEntriesAre()
    ensures Entries(SortByDate(Investments)) == FixtureEntries
  {
    FixtureSorted();
    FixtureEntriesInOrder();
  }

  lemma FixtureEntriesInOrder()
    ensures Entries(Investments) == FixtureEntries
  {
    var es := Entries(Investments);
    forall k | 0 <= k < 4
      ensures es[k] == FixtureEntries[k]
    {
      FixtureEntryAt(k);
    }
  }

  lemma FixtureEntryAt(k: nat)
    requires k < 4
    ensures EntryOf(Investments[k]) == FixtureEntries[k]
  {
    FixtureTimesAt(k);
    FixtureInvestedAt(k);
    EntryFrom(Investments[k], Some(FixtureTimes[k]), FixtureInvested[k]);
  }

  lemma EntryFrom(inv: Investment, time: Option<nat>, amount: JsNumber)
    requires InvestmentTime(inv) == time && ParseAmount(inv.amountInvested) == amount
    ensures EntryOf(inv) == Entry(time, amount)
  {
  }

  lemma InvestedAsOfFour(es: seq<Entry>, d: Date)
    requires |es| == 4
    ensures InvestedAsOf(es, d) ==
            AddIfMade(AddIfMade(AddIfMade(AddIfMade(Num(0.0), es[0], d), es[1], d), es[2], d), es[3], d)
  {
    assert es[..1][..0] == [];
    assert Accumulate(Num(0.0), es[..1], d) == AddIfMade(Num(0.0), es[0], d);
    assert es[..2][..1] == es[..1];
    assert Accumulate(Num(0.0), es[..2], d) == AddIfMade(Accumulate(Num(0.0), es[..1], d), es[1], d);
    assert es[..3][..2] == es[..2];
    assert Accumulate(Num(0.0), es[..3], d) == AddIfMade(Accumulate(Num(0.0), es[..2], d), es[2], d);
    assert es[..3] == es[..|es| - 1];
  }

  /** The amount invested in the fixture by the first of each month, from
      January to July 2025. */
  const FixtureInvestedByMonth: seq<real> := [0.0, 125000.0, 210000.0, 410000.0, 560000.0, 560000.0, 560000.0]

  /** The amount the loop as written reports for each of those months. */
  const FixtureAsWrittenByMonth: seq<real> := [0.0, 125000.0, 335000.0, 745000.0, 1305000.0, 1865000.0, 2425000.0]

  lemma FixtureInvestedAtMonth(m: nat)
    requires m < HistoryMonths
    ensures InvestedAsOf(FixtureEntries, MonthStart(m)) == Num(FixtureInvestedByMonth[m])
  {
    var es := FixtureEntries;
    assert es[0] == Entry(Some(FixtureTimes[0]), Num(125000.0));
    assert es[1] == Entry(Some(FixtureTimes[1]), Num(85000.0));
    assert es[2] == Entry(Some(FixtureTimes[2]), Num(200000.0));
    assert es[3] == Entry(Some(FixtureTimes[3]), Num(150000.0));
    InvestedAsOfFour(es, MonthStart(m));
  }

  lemma {:induction false} FixtureCumulativeAt(m: nat)
    requires m < HistoryMonths
    ensures CumulativeAsWritten(FixtureEntries, m) == Num(FixtureAsWrittenByMonth[m])
  {
    FixtureInvestedAtMonth(m);
    if m == 0 {
      AccumulateShift(Num(0.0), FixtureEntries, MonthStart(0));
    } else {
      FixtureCumulativeAt(m - 1);
      AsWrittenReAdds(FixtureEntries, m);
    }
  }

  /** On the fixture the history as written reports 335000 invested on
      1 March 2025, when only the January and February investments
      (125000 + 85000 = 210000) had been made; the corrected history
      reports 210000. */
  lemma PortfolioHistoryOvercounts()
    ensures HistoryAsWritten(Entries(SortByDate(Investments)), HistoryMonths)[2] ==
            PortfolioPoint(Date(2025, 3, 1), Num(335000.0))
    ensures HistoryCorrected(Entries(SortByDate(Investments)), HistoryMonths)[2] ==
            PortfolioPoint(Date(2025, 3, 1), Num(210000.0))
  {
    FixtureEntriesAre();
    FixtureCumulativeAt(2);
    FixtureInvestedAtMonth(2);
  }

  /** The corrected history of the fixture never decreases and ends at
      the portfolio's total invested, 560000; the one as written ends at
      2425000. */
  lemma FixtureHistoryEnds()
    ensures var corrected := HistoryCorrected(Entries(SortByDate(Investments)), HistoryMonths);
      (forall i, j :: 0 <= i <= j < HistoryMonths ==>
         corrected[i].invested.Num? && corrected[j].invested.Num? &&
         corrected[i].invested.value <= corrected[j].invested.value) &&
      corrected[HistoryMonths - 1].invested == GetTotalInvested(Investments)
    ensures HistoryAsWritten(Entries(SortByDate(Investments)), HistoryMonths)[HistoryMonths - 1].invested ==
            Num(2425000.0)
  {
    FixtureEntriesAre();
    FixtureCorrectedNonDecreasing();
    FixtureInvestedAtMonth(6);
    FixtureTotals();
    FixtureCumulativeAt(6);
  }

  lemma FixtureCorrectedNonDecreasing()
    ensures var corrected := HistoryCorrected(FixtureEntries, HistoryMonths);
      forall i, j :: 0 <= i <= j < HistoryMonths ==>
        corrected[i].invested.Num? && corrected[j].invested.Num? &&
        corrected[i].invested.value <= corrected[j].invested.value
  {
    assert NonNegativeAmounts(FixtureEntries);
    forall i, j | 0 <= i <= j < HistoryMonths
      ensures HistoryCorrected(FixtureEntries, HistoryMonths)[i].invested.Num?
      ensures HistoryCorrected(FixtureEntries, HistoryMonths)[j].invested.Num?
      ensures HistoryCorrected(FixtureEntries, HistoryMonths)[i].invested.value <=
              HistoryCorrected(FixtureEntries, HistoryMonths)[j].invested.value
    {
      CorrectedNonDecreasing(FixtureEntries, HistoryMonths, i, j);
    }
  }
}
