/**
 * The fixed-point arithmetic of the BCH wallet: turning satoshis into a BCH
 * amount, truncating an entered amount to whole satoshis, and reading the
 * optional fee, up to the request handed to the wallet library's `send`.
 */
module BchAmounts {
  import opened Python
  import opened PyText
  import opened Decimals

  /** 10^8 satoshis make one BCH. */
  const SatoshisPerBch: nat := 100_000_000

  /** `Decimal('0')`, what `satoshis_to_bch(None)` returns. */
  const Zero: Decimal := Decimal(0, 0)

  /**
   * `satoshis_to_bch(sats)`: `Decimal(sats) / Decimal(1e8)` quantized to eight
   * places. The quotient is exact, so the result is sats × 10^-8 with
   * coefficient `sats`; a coefficient of 29 digits or more makes `quantize`
   * raise InvalidOperation.
   */
  function SatoshisToBch(sats: Option<int>): (r: Outcome<Decimal>)
    ensures sats.None? ==> r == Ok(Zero)
    ensures sats.Some? ==> (r.Ok? <==> FitsPrecision(sats.value))
    ensures sats.Some? && r.Ok? ==> r.value.exp == EightPlaces && Value(r.value) == sats.value as real / SatoshisPerBch as real
  {
    match sats
    case None => Ok(Zero)
    case Some(s) =>
      EightPlacesUnit();
      if FitsPrecision(s) then Ok(Decimal(s, EightPlaces))
      else Raised("[<class 'decimal.InvalidOperation'>]")
  }

  /** What `Decimal(text)` made of the entered amount. */
  datatype AmountInput =
    | Finite(d: Decimal)
    | QuietNaN
    | SignalingNaN
    | Infinite(negative: bool)
    /** The text is not a number: `Decimal()` raised InvalidOperation. */
    | Malformed

  datatype AmountError =
    /** `Decimal(text)` raised. */
    | Unreadable
    /** `quantize` raised: an infinity, a signalling NaN, or more than 28 digits. */
    | QuantizeInvalid
    /** `amount_bch <= 0` raised: a quiet NaN does not compare. */
    | Unordered
    /** "Amount must be positive." */
    | NotPositive

  /**
   * The amount check of `send_bch`: quantize to eight places rounding down,
   * then refuse anything not above zero.
   */
  function AcceptAmount(a: AmountInput): (r: Result<Decimal, AmountError>)
    ensures r.Success? ==> r.value.exp == EightPlaces && r.value.coef > 0 && FitsPrecision(r.value.coef)
  {
    match a
    case Malformed => Failure(Unreadable)
    case SignalingNaN => Failure(QuantizeInvalid)
    case Infinite(_) => Failure(QuantizeInvalid)
    case QuietNaN => Failure(Unordered)
    case Finite(d) =>
      match QuantizeDown(d, EightPlaces)
      case None => Failure(QuantizeInvalid)
      case Some(q) => if q.coef <= 0 then Failure(NotPositive) else Success(q)
  }

  /**
   * An amount is accepted exactly when it is a finite number whose value cut
   * to whole satoshis is at least one satoshi and fits in 28 digits.
   */
  lemma AcceptAmountExactly(a: AmountInput)
    ensures AcceptAmount(a).Success? <==>
      a.Finite? && 0 < RescaledDown(a.d, EightPlaces) && FitsPrecision(RescaledDown(a.d, EightPlaces))
    ensures AcceptAmount(a).Success? ==> AcceptAmount(a).value == Decimal(RescaledDown(a.d, EightPlaces), EightPlaces)
  {
  }

  /**
   * An accepted amount is the entered one cut toward zero at eight places:
   * never more, short by less than one satoshi, and equal to it when it had
   * at most eight places.
   */
  lemma AcceptedAmountTruncates(d: Decimal)
    requires AcceptAmount(Finite(d)).Success?
    ensures var q := AcceptAmount(Finite(d)).value;
      Value(q) <= Value(d) < Value(q) + 1.0 / SatoshisPerBch as real
    ensures d.exp >= EightPlaces ==> Value(AcceptAmount(Finite(d)).value) == Value(d)
  {
    if d.coef <= 0 {
      NonPositiveCutsNonPositive(d);
      assert false;
    }
    RescaleEightPlacesBounds(d);
    EightPlacesUnit();
  }

  /** A Decimal with a coefficient at or below zero stays at or below zero when cut down. */
  lemma NonPositiveCutsNonPositive(d: Decimal)
    requires d.coef <= 0
    ensures RescaledDown(d, EightPlaces) <= 0
  {
    if d.exp >= EightPlaces {
      var p := Pow10(d.exp - EightPlaces);
      assert d.coef * p <= 0 by { NonPositiveTimesPositive(d.coef, p); }
    } else {
      var p := Pow10(EightPlaces - d.exp);
      var q := TruncDiv(d.coef, p);
      assert q * p <= 0;
      if q > 0 {
        PositiveTimesPositive(q, p);
        assert false;
      }
    }
  }

  lemma NonPositiveTimesPositive(a: int, b: nat)
    requires a <= 0
    ensures a * b <= 0
  {
  }

  lemma PositiveTimesPositive(a: int, b: nat)
    requires a > 0 && b > 0
    ensures a * b > 0
  {
  }

  /** Zero, negative amounts and amounts below one satoshi are all refused. */
  lemma BelowOneSatoshiRejected(d: Decimal)
    requires Value(d) < 1.0 / SatoshisPerBch as real
    ensures AcceptAmount(Finite(d)).Failure?
    ensures Value(d) <= 0.0 ==> AcceptAmount(Finite(d)) == Failure(NotPositive) || AcceptAmount(Finite(d)) == Failure(QuantizeInvalid)
  {
    EightPlacesUnit();
    if d.coef <= 0 {
      NonPositiveCutsNonPositive(d);
    } else {
      RescaleEightPlacesBounds(d);
    }
  }

  /**
   * The accepted amount is a whole number of satoshis: converting that number
   * back with `satoshis_to_bch` gives the same Decimal.
   */
  lemma AcceptedAmountIsSatoshis(a: AmountInput)
    requires AcceptAmount(a).Success?
    ensures SatoshisToBch(Some(AcceptAmount(a).value.coef)) == Ok(AcceptAmount(a).value)
  {
  }

  datatype FeeError =
    /** `int(fee_input)` raised ValueError. */
    | NotAnInteger
    /** "Fee must be >= 0" */
    | NegativeFee

  /**
   * What rich's `Prompt.ask` returns for the typed text: the answer with
   * `str.strip` applied (a blank answer gives the default "").
   */
  function PromptAnswer(typed: string): (a: string)
    ensures a == [] <==> AllSpace(typed)
    ensures a != [] ==> !IsSpace(a[0]) && !IsSpace(a[|a| - 1])
  {
    StripBlank(typed);
    Strip(typed)
  }

  /**
   * What `send_bch` makes of the fee answer: a blank answer means no fee
   * argument; otherwise `int()` of the answer must give an integer that is
   * not negative.
   */
  function FeeOfAnswer(answer: string): (r: Result<Option<nat>, FeeError>)
    ensures r == Success(None) <==> AllSpace(answer)
    ensures r.Success? && r.value.Some? ==> ParseInt(answer) == Some(r.value.value as int)
    ensures !AllSpace(answer) && ParseInt(answer).Some? && ParseInt(answer).value >= 0 ==>
      r == Success(Some(ParseInt(answer).value as nat))
    ensures r == Failure(NegativeFee) <==> !AllSpace(answer) && ParseInt(answer).Some? && ParseInt(answer).value < 0
    ensures r == Failure(NotAnInteger) <==> !AllSpace(answer) && ParseInt(answer).None?
  {
    StripBlank(answer);
    if Strip(answer) == "" then Success(None)
    else
      match ParseInt(answer)
      case None => Failure(NotAnInteger)
      case Some(n) => if n < 0 then Failure(NegativeFee) else Success(Some(n))
  }

  /** The fee prompt of `send_bch` for the text typed at it. */
  function ParseFee(typed: string): (r: Result<Option<nat>, FeeError>)
    ensures r == Success(None) <==> AllSpace(typed)
    ensures r.Success? && r.value.Some? ==> ParseInt(PromptAnswer(typed)) == Some(r.value.value as int)
    ensures !AllSpace(typed) && ParseInt(PromptAnswer(typed)).Some? && ParseInt(PromptAnswer(typed)).value >= 0 ==>
      r == Success(Some(ParseInt(PromptAnswer(typed)).value as nat))
    ensures r == Failure(NegativeFee) <==>
      !AllSpace(typed) && ParseInt(PromptAnswer(typed)).Some? && ParseInt(PromptAnswer(typed)).value < 0
    ensures r == Failure(NotAnInteger) <==> !AllSpace(typed) && ParseInt(PromptAnswer(typed)).None?
  {
    FeeOfAnswer(PromptAnswer(typed))
  }

  /** Whitespace typed around an answer does not change the fee. */
  lemma FeeOfPadded(left: string, answer: string, right: string)
    requires AllSpace(left) && AllSpace(right)
    requires answer != [] && !IsSpace(answer[0]) && !IsSpace(answer[|answer| - 1])
    ensures ParseFee(left + answer + right) == FeeOfAnswer(answer)
  {
    StripPadded(left, answer, right);
  }

  /**
   * An answer made of a sign and digit groups is refused when it has more
   * digits than `int()` converts or when it is a negative number, and is
   * otherwise taken as the value of its digits.
   */
  lemma FeeOfSignedDigits(sign: string, b: string)
    requires sign == "" || sign == "+" || sign == "-"
    requires DigitGroups(b)
    ensures DigitCount(b) > MaxStrDigits ==> FeeOfAnswer(sign + b) == Failure(NotAnInteger)
    ensures DigitCount(b) <= MaxStrDigits && sign == "-" && DigitsValue(b) > 0 ==> FeeOfAnswer(sign + b) == Failure(NegativeFee)
    ensures DigitCount(b) <= MaxStrDigits && !(sign == "-" && DigitsValue(b) > 0) ==>
      FeeOfAnswer(sign + b) == Success(Some(DigitsValue(b)))
  {
    var a := sign + b;
    assert a[|a| - 1] == b[|b| - 1];
    assert !AllSpace(a);
    ParseIntPlain(sign, b);
    var p := ParseInt(a);
    if p.Some? {
      var v := p.value;
      if sign == "-" {
        assert v == -(DigitsValue(b) as int);
      } else {
        assert v == DigitsValue(b) as int;
      }
    }
  }

  /**
   * A fee typed as digit groups, with an optional plus sign and any
   * surrounding whitespace ("+5", "007", "1_000"), is taken as their value,
   * unless it has more digits than `int()` converts.
   */
  lemma FeeAcceptsDigitGroups(left: string, sign: string, b: string, right: string)
    requires AllSpace(left) && AllSpace(right)
    requires sign == "" || sign == "+"
    requires DigitGroups(b)
    ensures DigitCount(b) <= MaxStrDigits ==> ParseFee(left + sign + b + right) == Success(Some(DigitsValue(b)))
    ensures DigitCount(b) > MaxStrDigits ==> ParseFee(left + sign + b + right) == Failure(NotAnInteger)
  {
    var core := sign + b;
    assert left + sign + b + right == left + core + right;
    assert core[|core| - 1] == b[|b| - 1];
    assert core[0] == if sign == "" then b[0] else sign[0];
    FeeOfPadded(left, core, right);
    FeeOfSignedDigits(sign, b);
  }

  /** A plus sign is accepted: "+5" is a fee of 5. */
  lemma FeePlusSign()
    ensures ParseFee("+5") == Success(Some(5))
  {
    assert "+5" == "" + "+" + "5" + "";
    assert DigitsValue("5") == 5 by {
      assert "5"[..0] == "";
    }
    FeeAcceptsDigitGroups("", "+", "5", "");
  }

  /** Leading zeros are accepted: "007" is a fee of 7. */
  lemma FeeLeadingZeros()
    ensures ParseFee("007") == Success(Some(7))
  {
    var b := "007";
    assert b == "" + "" + b + "";
    assert DigitsValue(b) == 7 by {
      assert b[..2] == "00" && "00"[..1] == "0" && "0"[..0] == "";
    }
    FeeAcceptsDigitGroups("", "", b, "");
  }

  /** An underscore between digits is accepted: "1_000" is a fee of 1000. */
  lemma FeeUnderscore()
    ensures ParseFee("1_000") == Success(Some(1000))
  {
    var b := "1_000";
    assert b == "" + "" + b + "";
    assert DigitGroups(b) by {
      assert forall i :: 0 <= i < |b| && b[i] == '_' ==> i == 1;
    }
    assert DigitsValue(b) == 1000 by {
      assert b[..4] == "1_00" && "1_00"[..3] == "1_0" && "1_0"[..2] == "1_";
      assert "1_"[..1] == "1" && "1"[..0] == "";
    }
    assert DigitCount(b) <= MaxStrDigits by {
      assert DigitCount(b) <= |b|;
    }
    FeeAcceptsDigitGroups("", "", b, "");
  }

  /** A fee typed as `str(n)`, with any surrounding whitespace, is taken as n satoshis (0 included). */
  lemma FeeAcceptsDecimal(left: string, n: nat, right: string)
    requires AllSpace(left) && AllSpace(right)
    ensures ParseFee(left + DecimalString(n) + right) ==
      if |DecimalString(n)| <= MaxStrDigits then Success(Some(n)) else Failure(NotAnInteger)
  {
    var d := DecimalString(n);
    assert DigitGroups(d) && DigitCount(d) == |d| && DigitsValue(d) == n by {
      DigitsAreGroups(d);
      DecimalStringValue(n);
    }
    assert left + "" + d + right == left + d + right;
    FeeAcceptsDigitGroups(left, "", d, right);
  }

  /**
   * A fee typed as a minus sign and a positive number, with any surrounding
   * whitespace, is refused; "-0" is a fee of 0.
   */
  lemma FeeNegative(left: string, n: nat, right: string)
    requires AllSpace(left) && AllSpace(right)
    ensures |DecimalString(n)| <= MaxStrDigits && n > 0 ==> ParseFee(left + "-" + DecimalString(n) + right) == Failure(NegativeFee)
    ensures n == 0 ==> ParseFee(left + "-" + DecimalString(n) + right) == Success(Some(0))
    ensures |DecimalString(n)| > MaxStrDigits ==> ParseFee(left + "-" + DecimalString(n) + right) == Failure(NotAnInteger)
  {
    var d := DecimalString(n);
    assert DigitGroups(d) && DigitCount(d) == |d| && DigitsValue(d) == n by {
      DigitsAreGroups(d);
      DecimalStringValue(n);
    }
    var core := "-" + d;
    assert left + "-" + d + right == left + core + right;
    assert core[|core| - 1] == d[|d| - 1];
    FeeOfPadded(left, core, right);
    FeeOfSignedDigits("-", d);
  }

  /** One output of a send: (address, amount, 'bch'). */
  datatype Output = Output(address: string, amount: Decimal, currency: string)

  /** `key.send(outputs)` when `fee` is None, `key.send(outputs, fee=n)` when it is Some(n). */
  datatype SendRequest = SendRequest(outputs: seq<Output>, fee: Option<nat>)

  datatype SendInputError = InvalidAmount(amount: AmountError) | InvalidFee(fee: FeeError)

  /**
   * The input half of `send_bch`: the amount is checked first, then the fee,
   * and a valid pair becomes a request for exactly one output.
   */
  function PlanSend(toAddr: string, amount: AmountInput, feeText: string): (r: Result<SendRequest, SendInputError>)
    ensures r.Success? <==> AcceptAmount(amount).Success? && ParseFee(feeText).Success?
    ensures AcceptAmount(amount).Failure? ==> r == Failure(InvalidAmount(AcceptAmount(amount).error))
    ensures AcceptAmount(amount).Success? && ParseFee(feeText).Failure? ==> r == Failure(InvalidFee(ParseFee(feeText).error))
  {
    match AcceptAmount(amount)
    case Failure(e) => Failure(InvalidAmount(e))
    case Success(q) =>
      match ParseFee(feeText)
      case Failure(e) => Failure(InvalidFee(e))
      case Success(fee) => Success(SendRequest([Output(toAddr, q, "bch")], fee))
  }

  /**
   * A planned send pays the entered address exactly one output of the
   * truncated amount in BCH, and names a fee exactly when one was typed.
   */
  lemma SendRequestShape(toAddr: string, amount: AmountInput, feeText: string)
    requires PlanSend(toAddr, amount, feeText).Success?
    ensures var req := PlanSend(toAddr, amount, feeText).value;
      && req.outputs == [Output(toAddr, AcceptAmount(amount).value, "bch")]
      && (req.fee.Some? <==> !AllSpace(feeText))
      && (req.fee.Some? ==> ParseInt(PromptAnswer(feeText)) == Some(req.fee.value as int))
      && req.outputs[0].amount.coef > 0
  {
  }
}
