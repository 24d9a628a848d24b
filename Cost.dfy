/**
 * The cost a time entry is saved with, as `rapport_neu` (app/main.py:137-143) and
 * `rapport_bearbeiten` (app/main.py:167-173) choose it: the submitted cost when there is
 * one, otherwise the duration in hours times the client's hourly rate, rounded to two
 * decimals. Both handlers run the same code, so one function models both.
 *
 * Float arithmetic is modelled with `real`; the two-decimal `round` is a parameter.
 */
module Cost {
  import opened Wrappers
  import opened Text

  /**
   * The rate of the handler's fallback `if kunde else 120.0` (app/main.py:142) for a client id
   * with no row. The column default of the `kunden` table is a separate mechanism, not modelled here.
   */
  const DefaultRate: real := 120.0

  /** What `SELECT stundensatz FROM kunden WHERE id = ?` returns. */
  datatype RateLookup =
    | NoClient                  // no row: `fetchone()` is `None`
    | Rate(rate: real)          // a numeric rate
    | NotNumeric                // `NULL` or text the `REAL` column could not convert

  /** The saved cost: the submitted text as it is, or the computed amount. */
  datatype Cost = Entered(text: string) | Computed(amount: real)

  /** Where the handler stops with an exception instead of saving. */
  datatype CostError =
    | MissingField              // `request.form[...]` raises for an absent field
    | DurationNotInteger        // `int(dauer)` raises `ValueError`
    | RateNotNumeric            // `None * float` or `str * float` raises `TypeError`

  /** The rate the formula uses: the client's own, or the default for an unknown client. */
  function HourlyRate(lookup: RateLookup): (r: Option<real>)
    ensures lookup.NoClient? ==> r == Some(DefaultRate)
    ensures lookup.Rate? ==> r == Some(lookup.rate)
    ensures lookup.NotNumeric? ==> r.None?
  {
    match lookup
    case NoClient => Some(DefaultRate)
    case Rate(x) => Some(x)
    case NotNumeric => None
  }

  /** `(dauer_minuten / 60.0) * stundensatz`: the duration in hours times the hourly rate. */
  function Amount(minutes: int, rate: real): (r: real)
    ensures r * 60.0 == minutes as real * rate
    ensures minutes >= 0 && rate >= 0.0 ==> r >= 0.0
    ensures minutes == 60 ==> r == rate
  {
    var hours := minutes as real / 60.0;
    assert hours * 60.0 == minutes as real;
    assert hours * rate * 60.0 == hours * 60.0 * rate;
    hours * rate
  }

  /**
   * Lines 137-143 and 167-173: a submitted cost that is present and not empty is kept;
   * otherwise the client field and the duration are read, the duration parsed with `int`,
   * the client's rate looked up, and `round(minutes / 60 * rate, 2)` computed.
   */
  function SelectCost(kosten: Option<string>, kundeId: Option<string>, dauer: Option<string>,
                      lookup: string -> RateLookup, round: real -> real): (r: Result<Cost, CostError>)
    ensures kosten.Some? && kosten.value != [] ==> r == Ok(Entered(kosten.value))
    ensures r.Ok? && r.value.Entered? ==> kosten == Some(r.value.text)
    ensures r.Ok? && r.value.Computed? ==> kosten.None? || kosten.value == []
  {
    if kosten.Some? && kosten.value != [] then Ok(Entered(kosten.value))
    else if kundeId.None? || dauer.None? then Err(MissingField)
    else
      match ParseInt(dauer.value)
      case None => Err(DurationNotInteger)
      case Some(minutes) =>
        match HourlyRate(lookup(kundeId.value))
        case None => Err(RateNotNumeric)
        case Some(rate) => Ok(Computed(round(Amount(minutes, rate))))
  }

  /** A submitted cost wins whatever the duration, the client and the rounding are. */
  lemma EnteredCostWins(kosten: string, kundeId: Option<string>, dauer: Option<string>,
                        lookup: string -> RateLookup, round: real -> real,
                        kundeId': Option<string>, dauer': Option<string>,
                        lookup': string -> RateLookup, round': real -> real)
    requires kosten != []
    ensures SelectCost(Some(kosten), kundeId, dauer, lookup, round)
         == SelectCost(Some(kosten), kundeId', dauer', lookup', round')
  {
  }

  /** A missing cost field and an empty one select the same way. */
  lemma MissingLikeEmpty(kundeId: Option<string>, dauer: Option<string>,
                         lookup: string -> RateLookup, round: real -> real)
    ensures SelectCost(None, kundeId, dauer, lookup, round) == SelectCost(Some([]), kundeId, dauer, lookup, round)
  {
  }

  /** Without a cost, a duration `int` accepts and a numeric rate give the rounded product. */
  lemma ComputedFrom(kundeId: string, dauer: string, minutes: int, rate: real,
                     lookup: string -> RateLookup, round: real -> real)
    requires ParseInt(dauer) == Some(minutes) && lookup(kundeId) == Rate(rate)
    ensures SelectCost(None, Some(kundeId), Some(dauer), lookup, round)
         == Ok(Computed(round(Amount(minutes, rate))))
  {
    var hourly := HourlyRate(lookup(kundeId));
    assert hourly == Some(rate);
    assert SelectCost(None, Some(kundeId), Some(dauer), lookup, round)
        == match hourly case None => Err(RateNotNumeric) case Some(x) => Ok(Computed(round(Amount(minutes, x))));
  }

  /** A duration written as `str(minutes)` is read back as `minutes`. */
  lemma ComputedCost(kundeId: string, minutes: int, rate: real,
                     lookup: string -> RateLookup, round: real -> real)
    requires lookup(kundeId) == Rate(rate)
    ensures SelectCost(None, Some(kundeId), Some(IntToString(minutes)), lookup, round)
         == Ok(Computed(round(Amount(minutes, rate))))
  {
    ParseIntShow(minutes);
    ComputedFrom(kundeId, IntToString(minutes), minutes, rate, lookup, round);
  }

  /** An unknown client is charged exactly as a client with the default rate. */
  lemma UnknownClientDefault(kosten: Option<string>, kundeId: string, dauer: Option<string>,
                             lookup: string -> RateLookup, lookup': string -> RateLookup, round: real -> real)
    requires lookup(kundeId) == NoClient && lookup'(kundeId) == Rate(DefaultRate)
    ensures SelectCost(kosten, Some(kundeId), dauer, lookup, round) == SelectCost(kosten, Some(kundeId), dauer, lookup', round)
  {
  }

  /** Only the looked-up client's rate matters, not the rates of the other clients. */
  lemma OnlyOwnRate(kosten: Option<string>, kundeId: string, dauer: Option<string>,
                    lookup: string -> RateLookup, lookup': string -> RateLookup, round: real -> real)
    requires lookup(kundeId) == lookup'(kundeId)
    ensures SelectCost(kosten, Some(kundeId), dauer, lookup, round) == SelectCost(kosten, Some(kundeId), dauer, lookup', round)
  {
  }

  /** The handler fails exactly when no cost was entered and a field, the duration or the rate is unusable. */
  lemma CostErrors(kosten: Option<string>, kundeId: Option<string>, dauer: Option<string>,
                   lookup: string -> RateLookup, round: real -> real)
    ensures SelectCost(kosten, kundeId, dauer, lookup, round).Err? <==>
      (kosten.None? || kosten.value == []) &&
      (kundeId.None? || dauer.None? || ParseInt(dauer.value).None? || lookup(kundeId.value).NotNumeric?)
  {
  }

  /** Ninety minutes, submitted with surrounding blanks, at the default rate cost round(180.0). */
  lemma NinetyMinutesDefault(d: string, kundeId: string, lookup: string -> RateLookup, round: real -> real)
    requires d == " 90 " && lookup(kundeId) == NoClient
    ensures SelectCost(Some([]), Some(kundeId), Some(d), lookup, round) == Ok(Computed(round(180.0)))
  {
    NinetyParsed(d);
    assert Amount(90, DefaultRate) == 180.0;
  }

  lemma NinetyParsed(d: string)
    requires d == " 90 "
    ensures ParseInt(d) == Some(90)
  {
    var pad, digits := " ", "90";
    assert d == pad + digits + pad;
    assert AllSpace(pad);
    NinetyDigits(digits);
    ParsePadded(pad, digits, pad);
  }

  lemma NinetyDigits(digits: string)
    requires digits == "90"
    ensures |digits| >= 1 && AllDigits(digits) && DigitsValue(digits) == 90
  {
    assert digits[..1] == "9";
    assert DigitsValue("9") == 9 by {
      assert "9"[..0] == [];
    }
  }
}
