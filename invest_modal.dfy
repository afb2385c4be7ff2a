/** The investment dialog: the amounts it reads from the project, the token
    input and its filter, the MAX button, and the two-step confirmation
    with its validation, its call to `onInvest` and the closing rule. */
module InvestModalDialog {
  import opened Options
  import opened JsText
  import opened JsNumbers
  import opened BuildingRegistry

  /** A project field such as `"1,500,000"` read as a number: everything
      but digits and dots is stripped, and the longest literal at the start
      of what remains is read (`ParseStrippedIsParseFloat`). */
  function ParseStripped(s: string): JsNumber
  {
    match ScanLiteral(KeepNumeric(s))
    case None => NaN
    case Some(l) => Num(l.Value())
  }

  /** This is `parseFloat` of the stripped text: the strip leaves no
      leading whitespace to skip. */
  lemma ParseStrippedIsParseFloat(s: string)
    ensures ParseStripped(s) == ParseFloat(KeepNumeric(s))
  {
    var t := KeepNumeric(s);
    KeepNumericContents(s);
    if t != [] {
      assert IsNumeric(t[0]);
      assert !IsWhitespace(t[0]);
    }
    assert TrimStart(t) == t;
  }

  /** A project amount as the dialog receives it: `Building` declares a
      string, but the project page passes a number. */
  datatype ProjectAmount = NumberAmount(number: JsNumber) | TextAmount(text: string)

  /** `typeof v === 'number' ? v : parseFloat(v.replace(/[^0-9.]/g, ''))`:
      a number is used as it is, a string is stripped and parsed. */
  function ReadAmount(a: ProjectAmount): (r: JsNumber)
    ensures a.NumberAmount? ==> r == a.number
    ensures a.TextAmount? ==> r == ParseFloat(KeepNumeric(a.text))
  {
    match a
    case NumberAmount(n) => n
    case TextAmount(t) => ParseStrippedIsParseFloat(t); ParseStripped(t)
  }

  /** The sale figures the project page reads, already divided by 1e18. */
  datatype Sale = Sale(maxTokensForSale: real, tokenPrice: real, tokensSold: real)

  /** The project page's two amounts: 5000000 and 250000 when the sale
      could not be read, otherwise `Math.round(maxTokens * tokenPrice)` and
      `Math.round(maxTokens - tokensSold)`. Both are numbers. */
  function ProjectAmounts(sale: Option<Sale>): (r: (ProjectAmount, ProjectAmount))
    ensures r.0.NumberAmount? && r.1.NumberAmount?
    ensures sale.None? ==> r == (NumberAmount(Num(5000000.0)), NumberAmount(Num(250000.0)))
    ensures sale.Some? ==>
              var s := sale.value;
              r.1.number.Num? && s.maxTokensForSale - s.tokensSold - 0.5 < r.1.number.value <= s.maxTokensForSale - s.tokensSold + 0.5
  {
    match sale
    case None => (NumberAmount(Num(5000000.0)), NumberAmount(Num(250000.0)))
    case Some(s) =>
      RoundNearest(s.maxTokensForSale - s.tokensSold);
      (NumberAmount(Num(Round(s.maxTokensForSale * s.tokenPrice) as real)),
       NumberAmount(Num(Round(s.maxTokensForSale - s.tokensSold) as real)))
  }

  /** Without sale data the dialog prices a token at 20. */
  lemma DefaultProjectPrice()
    ensures PricePerToken(ReadAmount(ProjectAmounts(None).0), ReadAmount(ProjectAmounts(None).1)) == Num(20.0)
  {
  }

  /** More tokens sold than offered gives a negative supply, and then every
      amount is refused: a positive one as above the maximum. */
  lemma OversoldRefusesAll(s: Sale, tokenAmount: string)
    requires s.tokensSold > s.maxTokensForSale + 0.5
    ensures ReadAmount(ProjectAmounts(Some(s)).1).value < 0.0
    ensures Validate(tokenAmount, ReadAmount(ProjectAmounts(Some(s)).1)).Some?
  {
  }

  /** `totalValueNum / tokensAvailableNum`; `NaN` here stands for any
      quotient that is not a finite number (a NaN operand or a zero
      divisor). */
  function PricePerToken(totalValue: JsNumber, tokensAvailable: JsNumber): (r: JsNumber)
    ensures r.Num? <==> totalValue.Num? && tokensAvailable.Num? && tokensAvailable.value != 0.0
    ensures r.Num? ==> r.value * tokensAvailable.value == totalValue.value
  {
    if totalValue.Num? && tokensAvailable.Num? && tokensAvailable.value != 0.0
    then Num(totalValue.value / tokensAvailable.value)
    else NaN
  }

  /** `parseFloat(tokenAmount) || 0`: NaN (and zero) become zero. */
  function TokenAmountNum(tokenAmount: string): (r: real)
    ensures r != 0.0 ==> ParseFloat(tokenAmount) == Num(r)
    ensures ParseFloat(tokenAmount).NaN? ==> r == 0.0
  {
    match ParseFloat(tokenAmount)
    case NaN => 0.0
    case Num(v) => v
  }

  /** `tokenAmountNum * pricePerToken`, the value sent to `onInvest`. */
  function InvestValue(tokens: real, price: JsNumber): JsNumber
  {
    match price
    case Num(p) => Num(tokens * p)
    case NaN => NaN
  }

  const InvalidAmountText := "Please enter a valid token amount"
  const FallbackFailureText := "Error processing investment"

  /** The errors the dialog shows. `MaximumAvailable` carries the maximum
      that the message `Maximum available: … tokens` prints. */
  datatype InvestError = InvalidAmount | MaximumAvailable(maxTokens: real) | InvestFailed(message: string)

  /** The two guards of `handleInvest`, in order: an empty or non-positive
      amount, then an amount above the tokens available. */
  function Validate(tokenAmount: string, maxTokens: JsNumber): (r: Option<InvestError>)
    ensures r.Some? ==> r.value.InvalidAmount? || (r.value.MaximumAvailable? && maxTokens == Num(r.value.maxTokens))
    ensures r.None? ==> TokenAmountNum(tokenAmount) > 0.0 && (maxTokens.NaN? || TokenAmountNum(tokenAmount) <= maxTokens.value)
  {
    var amount := TokenAmountNum(tokenAmount);
    if tokenAmount == "" || amount <= 0.0 then Some(InvalidAmount)
    else if maxTokens.Num? && amount > maxTokens.value then Some(MaximumAvailable(maxTokens.value))
    else None
  }

  /** An amount is sent exactly when it is a positive number no larger
      than the tokens available; an unreadable maximum (NaN) never stops
      it, since every comparison with NaN is false. */
  lemma ValidateIff(tokenAmount: string, maxTokens: JsNumber)
    ensures Validate(tokenAmount, maxTokens) == None <==>
            ParseFloat(tokenAmount).Num? && ParseFloat(tokenAmount).value > 0.0 &&
            (maxTokens.NaN? || ParseFloat(tokenAmount).value <= maxTokens.value)
    ensures Validate(tokenAmount, maxTokens) == Some(InvalidAmount) <==>
            ParseFloat(tokenAmount).NaN? || ParseFloat(tokenAmount).value <= 0.0
  {
    if tokenAmount == "" {
      assert TrimStart(tokenAmount) == "";
    }
  }

  /** `disabled={isLoading || !tokenAmount || tokenAmountNum <= 0}`. */
  predicate ConfirmDisabled(isLoading: bool, tokenAmount: string)
  {
    isLoading || tokenAmount == "" || TokenAmountNum(tokenAmount) <= 0.0
  }

  /** Confirm is disabled, when nothing is loading, exactly when the first
      guard of `handleInvest` would reject the amount. */
  lemma DisabledIffInvalid(tokenAmount: string, maxTokens: JsNumber)
    ensures ConfirmDisabled(false, tokenAmount) <==> Validate(tokenAmount, maxTokens) == Some(InvalidAmount)
  {
  }

  /** The token input's filter: the empty string, or text `Number` reads as
      a non-negative number. */
  predicate AcceptsInput(value: string)
  {
    value == "" || (StringToNumber(value).Num? && StringToNumber(value).value >= 0.0)
  }

  /** The decimal rendering of a whole number passes the input filter and
      both guards when the maximum is that number and it is positive: the
      MAX button followed by Confirm sends every available token. */
  lemma MaxIsAccepted(n: nat)
    requires n >= 1
    ensures AcceptsInput(JsNumberToString(Num(n as real)))
    ensures TokenAmountNum(JsNumberToString(Num(n as real))) == n as real
    ensures Validate(JsNumberToString(Num(n as real)), Num(n as real)) == None
  {
    WholeNumberToString(n);
  }

  /** Investing every available token sends the project's total value. */
  lemma AllTokensCostTotal(totalValue: JsNumber, tokensAvailable: JsNumber)
    requires PricePerToken(totalValue, tokensAvailable).Num?
    ensures InvestValue(tokensAvailable.value, PricePerToken(totalValue, tokensAvailable)) == Num(totalValue.value)
  {
    var p := PricePerToken(totalValue, tokensAvailable).value;
    assert p == totalValue.value / tokensAvailable.value;
    assert p * tokensAvailable.value == totalValue.value;
    assert tokensAvailable.value * p == p * tokensAvailable.value;
  }

  /** A rejected amount past the first guard is one above the maximum. */
  lemma MaximumExceeded(tokenAmount: string, maxTokens: real)
    requires tokenAmount != "" && ParseFloat(tokenAmount).Num? && 0.0 < maxTokens < ParseFloat(tokenAmount).value
    ensures Validate(tokenAmount, Num(maxTokens)) == Some(MaximumAvailable(maxTokens))
  {
  }

  /** The loaded buildings' `"50,000"` tokens, stripped and parsed. */
  lemma DecodedTokensRead()
    ensures ParseStripped(DecodedTokensAvailable) == Num(50000.0)
  {
    assert DecodedTokensAvailable == "50" + "," + "000";
    KeepNumericDropsCommas("50", "000");
    assert NatToDecimal(50000) == "50000";
    ReadStripped(DecodedTokensAvailable, 50000);
  }

  /** The loaded buildings' `"1,500,000"` total value, stripped and parsed. */
  lemma DecodedTotalRead()
    ensures ParseStripped(DecodedTotalValue) == Num(1500000.0)
  {
    StripTotal();
    assert NatToDecimal(1500000) == "1500000";
    ReadStripped(DecodedTotalValue, 1500000);
  }

  lemma StripTotal()
    ensures KeepNumeric(DecodedTotalValue) == "1500000"
  {
    assert DecodedTotalValue == "1,500" + ",000";
    KeepNumericAppend("1,500", ",000");
    KeepNumericDropsCommas("1", "500");
    assert "" + "," + "000" == ",000";
    KeepNumericDropsCommas("", "000");
  }

  /** Text that strips to the decimal rendering of `n` reads as `n`. */
  lemma ReadStripped(s: string, n: nat)
    requires KeepNumeric(s) == NatToDecimal(n)
    ensures ParseStripped(s) == Num(n as real)
  {
    ScanDigits(NatToDecimal(n));
    DecimalRoundTrip(n);
  }

  /** The two decoded string constants, read by the strip, divide to 30
      per token. */
  lemma DecodedPrice()
    ensures PricePerToken(ParseStripped(DecodedTotalValue), ParseStripped(DecodedTokensAvailable)) == Num(30.0)
  {
    DecodedTotalRead();
    DecodedTokensRead();
  }

  lemma KeepNumericDropsCommas(a: string, b: string)
    requires forall i :: 0 <= i < |a| ==> IsNumeric(a[i])
    requires forall i :: 0 <= i < |b| ==> IsNumeric(b[i])
    ensures KeepNumeric(a + "," + b) == a + b
  {
    var tail := [','] + b;
    assert a + "," + b == a + tail;
    KeepNumericAppend(a, tail);
    KeepNumericSkip(',', b);
    KeepNumericFixes(b);
    assert KeepNumeric(tail) == b;
    KeepNumericFixes(a);
    assert KeepNumeric(a + tail) == a + b;
  }

  /** The outcome of the awaited `onInvest`: it resolved, or it threw,
      with the message of an `Error` or with something else. */
  datatype InvestOutcome = Resolved | Rejected(errorMessage: Option<string>)

  /** The call `onInvest(totalValue, tokenAmountNum)`, recorded by its two
      factors: the value sent is `Amount()`. */
  datatype InvestRequest = InvestRequest(tokens: real, pricePerToken: JsNumber)
  {
    function Amount(): JsNumber
    {
      InvestValue(tokens, pricePerToken)
    }
  }

  /** The message shown for a failed `onInvest`. */
  function FailureText(errorMessage: Option<string>): (r: string)
    ensures errorMessage.Some? ==> r == errorMessage.value
    ensures errorMessage.None? ==> r == FallbackFailureText
  {
    match errorMessage
    case Some(m) => m
    case None => FallbackFailureText
  }

  /** The dialog's state. `closeRequests` counts the calls to the parent's
      `onClose`, which is what closes the dialog. */
  class InvestModal {
    const totalValueNum: JsNumber
    const maxTokens: JsNumber
    var tokenAmount: string
    var isLoading: bool
    var error: Option<InvestError>
    var closeRequests: nat

    /** The dialog for a project with these two amounts, each read with
        `ReadAmount` on every render. */
    constructor(totalValue: ProjectAmount, tokensAvailable: ProjectAmount)
      ensures totalValueNum == ReadAmount(totalValue) && maxTokens == ReadAmount(tokensAvailable)
      ensures tokenAmount == "" && !isLoading && error == None && closeRequests == 0
    {
      var total, supply := ReadAmount(totalValue), ReadAmount(tokensAvailable);
      totalValueNum := total;
      maxTokens := supply;
      tokenAmount := "";
      isLoading := false;
      error := None;
      closeRequests := 0;
    }

    /** `pricePerToken`, the project's total value over its tokens. */
    function PricePerTokenNum(): JsNumber
    {
      PricePerToken(totalValueNum, maxTokens)
    }

    /** The first half of `handleInvest`, up to the awaited call: either an
        error and no call, or the error cleared, loading started and the
        call made. */
    method HandleInvest() returns (request: Option<InvestRequest>)
      modifies this
      ensures tokenAmount == old(tokenAmount) && closeRequests == old(closeRequests)
      ensures Validate(tokenAmount, maxTokens).Some? ==>
                request == None && error == Validate(tokenAmount, maxTokens) && isLoading == old(isLoading)
      ensures Validate(tokenAmount, maxTokens).None? ==>
                var tokens := TokenAmountNum(tokenAmount);
                request == Some(InvestRequest(tokens, PricePerTokenNum())) &&
                error == None && isLoading
    {
      var tokenAmountNum := TokenAmountNum(tokenAmount);
      if tokenAmount == "" || tokenAmountNum <= 0.0 {
        error := Some(InvalidAmount);
        return None;
      }
      if maxTokens.Num? && tokenAmountNum > maxTokens.value {
        error := Some(MaximumAvailable(maxTokens.value));
        return None;
      }
      error := None;
      isLoading := true;
      request := Some(InvestRequest(tokenAmountNum, PricePerTokenNum()));
    }

    /** The second half of `handleInvest`, once `onInvest` has settled: on
        success the input is cleared and the dialog asks to close; on
        failure the error is shown and the amount kept; loading ends
        either way. */
    method InvestSettled(outcome: InvestOutcome)
      modifies this
      ensures !isLoading
      ensures outcome.Resolved? ==>
                tokenAmount == "" && closeRequests == old(closeRequests) + 1 && error == old(error)
      ensures outcome.Rejected? ==>
                tokenAmount == old(tokenAmount) && closeRequests == old(closeRequests) &&
                error == Some(InvestFailed(FailureText(outcome.errorMessage)))
    {
      match outcome {
        case Resolved =>
          tokenAmount := "";
          closeRequests := closeRequests + 1;
        case Rejected(errorMessage) =>
          error := Some(InvestFailed(FailureText(errorMessage)));
      }
      isLoading := false;
    }

    /** `handleClose`: ignored while loading; otherwise the input and the
        error are cleared and the dialog asks to close. */
    method HandleClose()
      modifies this
      ensures old(isLoading) ==>
                tokenAmount == old(tokenAmount) && error == old(error) && closeRequests == old(closeRequests)
      ensures !old(isLoading) ==> tokenAmount == "" && error == None && closeRequests == old(closeRequests) + 1
      ensures isLoading == old(isLoading)
    {
      if !isLoading {
        tokenAmount := "";
        error := None;
        closeRequests := closeRequests + 1;
      }
    }

    /** The `keydown` listener, registered while the dialog is open: Escape
        closes it unless an investment is in progress. */
    method HandleKeyDown(isOpen: bool, key: string)
      modifies this
      ensures isOpen && key == "Escape" && !old(isLoading) ==>
                tokenAmount == "" && error == None && closeRequests == old(closeRequests) + 1
      ensures !(isOpen && key == "Escape" && !old(isLoading)) ==>
                tokenAmount == old(tokenAmount) && error == old(error) && closeRequests == old(closeRequests)
      ensures isLoading == old(isLoading)
    {
      if isOpen && key == "Escape" && !isLoading {
        HandleClose();
      }
    }

    /** The input's `onChange`: an accepted value replaces the amount and
        clears the error; anything else is ignored. */
    method OnTokenInput(value: string)
      modifies this
      ensures AcceptsInput(value) ==> tokenAmount == value && error == None
      ensures !AcceptsInput(value) ==> tokenAmount == old(tokenAmount) && error == old(error)
      ensures isLoading == old(isLoading) && closeRequests == old(closeRequests)
    {
      if value == "" || (StringToNumber(value).Num? && StringToNumber(value).value >= 0.0) {
        tokenAmount := value;
        error := None;
      }
    }

    /** The MAX button: the amount becomes `maxTokens.toString()`. */
    method OnMax()
      modifies this
      ensures tokenAmount == JsNumberToString(maxTokens)
      ensures error == old(error) && isLoading == old(isLoading) && closeRequests == old(closeRequests)
    {
      tokenAmount := JsNumberToString(maxTokens);
    }
  }
}
