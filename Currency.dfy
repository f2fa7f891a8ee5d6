/**
  Conversions between bitcoin, satoshis and a fiat currency. Amounts are
  exact reals; the exchange rate, which the source fetches over HTTP, is a
  parameter, and the rate text of the price feed is an input.
*/
module CurrencyConverter {
  import opened Wrappers
  import opened Seqs
  import opened PyText
  import opened JsonValues

  /** `Decimal(1e8)`: the double 1e8 is exactly one hundred million. */
  const SatsPerBtc: real := 100000000.0

  /**
    `Decimal(1e-8)`: the exact value of the double nearest to 10^-8, which
    is slightly more than 10^-8.
  */
  const BtcPerSat: real := 0.000000010000000000000000209225608301284726753266340892878361046314239501953125

  /** How far `BtcPerSat` is from the exact 10^-8, relative to it. */
  const SatExcess: real := BtcPerSat * SatsPerBtc - 1.0

  /** `btc_to_sats` */
  function BtcToSats(btc: real): (sats: real)
    ensures btc >= 0.0 ==> sats >= btc
  {
    btc * SatsPerBtc
  }

  /** `sats_to_btc`, with the constant the source writes. */
  function SatsToBtc(sats: real): (btc: real)
    ensures sats > 0.0 ==> 0.0 < btc < sats
    ensures sats == 0.0 <==> btc == 0.0
  {
    sats * BtcPerSat
  }

  /** `btc_to_fiat` at the given rate: dividing by a non-zero rate gives the bitcoin back. */
  function BtcToFiat(btc: real, rate: real): (fiat: real)
    ensures rate != 0.0 ==> fiat / rate == btc
    ensures fiat == 0.0 <==> btc == 0.0 || rate == 0.0
  {
    btc * rate
  }

  /** Why a Decimal division raised: 0/0 is an invalid operation, any other x/0 a division by zero. */
  datatype ConversionError = InvalidOperation | DivisionByZero

  /** `fiat_to_btc` at the given rate; a zero rate makes the Decimal division raise. */
  function FiatToBtc(fiat: real, rate: real): (r: Result<real, ConversionError>)
    ensures r.Success? <==> rate != 0.0
    ensures r.Success? ==> r.value * rate == fiat
    ensures r.Failure? ==> (r.error == InvalidOperation <==> fiat == 0.0)
  {
    if rate == 0.0 then Failure(if fiat == 0.0 then InvalidOperation else DivisionByZero)
    else Success(fiat / rate)
  }

  /** `sats_to_fiat`: satoshis to bitcoin, then bitcoin to fiat. */
  function SatsToFiat(sats: real, rate: real): (fiat: real)
    ensures fiat == 0.0 <==> sats == 0.0 || rate == 0.0
    ensures rate > 0.0 ==> (fiat > 0.0 <==> sats > 0.0)
  {
    BtcToFiat(SatsToBtc(sats), rate)
  }

  /** `fiat_to_sats`: fiat to bitcoin, then bitcoin to satoshis. */
  function FiatToSats(fiat: real, rate: real): (r: Result<real, ConversionError>)
    ensures r.Success? <==> rate != 0.0
    ensures r.Success? ==> r.value * rate == fiat * SatsPerBtc
    ensures r.Failure? ==> r.error == FiatToBtc(fiat, rate).error
  {
    var btc :- FiatToBtc(fiat, rate);
    Success(BtcToSats(btc))
  }

  /** The constant of `sats_to_btc` exceeds 10^-8, by less than 10^-24. */
  lemma BtcPerSatNearlyExact()
    ensures 0.0 < SatExcess < 0.0000000000000001
    ensures 0.00000001 < BtcPerSat < 0.00000001 + 0.000000000000000000000001
  {
  }

  /** Both unit conversions are linear. */
  lemma ConversionsLinear(a: real, b: real, k: real)
    ensures BtcToSats(a + b) == BtcToSats(a) + BtcToSats(b)
    ensures BtcToSats(k * a) == k * BtcToSats(a)
    ensures SatsToBtc(a + b) == SatsToBtc(a) + SatsToBtc(b)
    ensures SatsToBtc(k * a) == k * SatsToBtc(a)
  {
  }

  /** Both unit conversions are strictly increasing. */
  lemma ConversionsMonotone(a: real, b: real)
    requires a < b
    ensures BtcToSats(a) < BtcToSats(b)
    ensures SatsToBtc(a) < SatsToBtc(b)
  {
    assert SatsToBtc(b) - SatsToBtc(a) == (b - a) * BtcPerSat;
  }

  /**
    Bitcoin to satoshis and back is not the identity: every non-zero amount
    comes back scaled by 1 + SatExcess.
  */
  lemma SatsRoundTripDrifts(btc: real)
    ensures SatsToBtc(BtcToSats(btc)) == btc * (1.0 + SatExcess)
    ensures btc != 0.0 ==> SatsToBtc(BtcToSats(btc)) != btc
  {
    BtcPerSatNearlyExact();
    assert SatsToBtc(BtcToSats(btc)) == btc * (SatsPerBtc * BtcPerSat);
    if btc != 0.0 {
      assert btc * SatExcess != 0.0;
    }
  }

  /** One bitcoin converted to satoshis and back. */
  lemma OneBitcoinRoundTrip()
    ensures BtcToSats(1.0) == 100000000.0
    ensures SatsToBtc(BtcToSats(1.0)) == 1.0000000000000000209225608301284726753266340892878361046314239501953125
  {
  }

  /** Fiat to bitcoin undoes bitcoin to fiat at any non-zero rate, and the other way round. */
  lemma FiatRoundTrips(btc: real, fiat: real, rate: real)
    requires rate != 0.0
    ensures FiatToBtc(BtcToFiat(btc, rate), rate) == Success(btc)
    ensures BtcToFiat(FiatToBtc(fiat, rate).value, rate) == fiat
  {
    assert (btc * rate) / rate == btc;
  }

  /** The sats-to-fiat composition in closed form. */
  lemma SatsToFiatClosedForm(sats: real, rate: real)
    ensures SatsToFiat(sats, rate) == sats * BtcPerSat * rate
    ensures SatsToFiat(sats, rate) == BtcToFiat(sats, rate) * BtcPerSat
  {
  }

  /** The fiat-to-sats composition in closed form. */
  lemma FiatToSatsClosedForm(fiat: real, rate: real)
    requires rate != 0.0
    ensures FiatToSats(fiat, rate) == Success(fiat / rate * SatsPerBtc)
  {
  }

  /**
    Satoshis to fiat and back at a non-zero rate drift exactly as bitcoin to
    satoshis and back does: by the factor 1 + SatExcess.
  */
  lemma SatsFiatRoundTrip(sats: real, rate: real)
    requires rate != 0.0
    ensures FiatToSats(SatsToFiat(sats, rate), rate) == Success(sats * (1.0 + SatExcess))
  {
    var btc := SatsToBtc(sats);
    assert SatsToFiat(sats, rate) / rate == btc;
    assert BtcToSats(btc) == sats * (BtcPerSat * SatsPerBtc);
  }

  /** A zero rate makes fiat-to-sats raise as fiat-to-btc does. */
  lemma FiatToSatsZeroRate(fiat: real)
    ensures FiatToSats(fiat, 0.0) == Failure(if fiat == 0.0 then InvalidOperation else DivisionByZero)
  {
  }

  function NotComma(c: char): bool {
    c != ','
  }

  /** `s.replace(",", "")` */
  function StripCommas(s: string): (r: string)
    ensures ',' !in r
    ensures |r| <= |s|
    decreases |s|
  {
    if s == [] then []
    else if s[0] == ',' then StripCommas(s[1..])
    else [s[0]] + StripCommas(s[1..])
  }

  /** Removing commas from a concatenation removes them from each part. */
  lemma {:induction false} StripCommasAppend(a: string, b: string)
    ensures StripCommas(a + b) == StripCommas(a) + StripCommas(b)
    decreases |a|
  {
    if a == [] {
      assert a + b == b;
    } else {
      assert (a + b)[0] == a[0];
      assert (a + b)[1..] == a[1..] + b;
      StripCommasAppend(a[1..], b);
      if a[0] != ',' {
        assert [a[0]] + (StripCommas(a[1..]) + StripCommas(b)) == ([a[0]] + StripCommas(a[1..])) + StripCommas(b);
      }
    }
  }

  /** Removing the commas keeps every other character, in order. */
  lemma {:induction false} StripCommasKeepsOthers(s: string)
    ensures StripCommas(s) == Filter(s, NotComma)
    decreases |s|
  {
    if s != [] {
      var n := |s| - 1;
      StripCommasKeepsOthers(s[..n]);
      assert s == s[..n] + [s[n]];
      StripCommasAppend(s[..n], [s[n]]);
      assert StripCommas([s[n]]) == if s[n] == ',' then [] else [s[n]];
    }
  }

  /** Text without commas is kept as it is. */
  lemma {:induction false} StripCommasNoComma(s: string)
    requires ',' !in s
    ensures StripCommas(s) == s
    decreases |s|
  {
    if s != [] {
      assert ',' !in s[1..] by {
        assert forall c :: c in s[1..] ==> c in s;
      }
      StripCommasNoComma(s[1..]);
      assert [s[0]] + s[1..] == s;
    }
  }

  /** Removing commas twice is removing them once. */
  lemma {:induction false} StripCommasTwice(s: string)
    ensures StripCommas(StripCommas(s)) == StripCommas(s)
  {
    StripCommasNoComma(StripCommas(s));
  }

  /** Why the rate could not be read from the price feed. */
  datatype RateError =
    | NotAnObject      // the feed or one of its levels is not a dict
    | MissingKey(key: string)
    | RateNotText      // the rate has no `replace`
    | MalformedRate    // Decimal raised on the de-grouped text

  function Field(v: Json, key: string): Result<Json, RateError> {
    if !v.JObject? then Failure(NotAnObject)
    else if key !in v.fields then Failure(MissingKey(key))
    else Success(v.fields[key])
  }

  /** The rate text of `fiat` in the feed, when the feed has one. */
  function RateText(data: Json, fiat: string): Option<string> {
    if data.JObject? && "bpi" in data.fields
       && data.fields["bpi"].JObject? && fiat in data.fields["bpi"].fields
       && data.fields["bpi"].fields[fiat].JObject? && "rate" in data.fields["bpi"].fields[fiat].fields
       && data.fields["bpi"].fields[fiat].fields["rate"].JStr?
    then Some(data.fields["bpi"].fields[fiat].fields["rate"].s)
    else None
  }

  /** `_get_btc_rate` on the decoded price feed `data` instead of a fetched one. */
  function BtcRate(data: Json, fiat: string): (r: Result<real, RateError>)
    ensures r.Success? <==> RateText(data, fiat).Some? && ParseDecimal(StripCommas(RateText(data, fiat).value)).Some?
    ensures r.Success? ==> r.value == ParseDecimal(StripCommas(RateText(data, fiat).value)).value
    ensures RateText(data, fiat).Some? && r.Failure? ==> r.error == MalformedRate
  {
    var bpi :- Field(data, "bpi");
    var entry :- Field(bpi, fiat);
    var rate :- Field(entry, "rate");
    if !rate.JStr? then Failure(RateNotText)
    else
      match ParseDecimal(StripCommas(rate.s))
      case None => Failure(MalformedRate)
      case Some(d) => Success(d)
  }

  /** A thousands separator between two comma-free runs is dropped and the runs are joined. */
  lemma StripCommasJoins(a: string, b: string)
    requires ',' !in a && ',' !in b
    ensures StripCommas(a + [','] + b) == a + b
  {
    assert a + [','] + b == a + ([','] + b);
    StripCommasAppend(a, [','] + b);
    StripCommasAppend([','], b);
    StripCommasNoComma(a);
    StripCommasNoComma(b);
  }

  /** A feed quoting "65,432.10" for USD gives that rate for USD and none for EUR. */
  lemma RateScenario(feed: Json, text: string)
    requires text == "65" + [','] + "432.10"
    requires feed == JObject(map["bpi" := JObject(map["USD" := JObject(map["rate" := JStr(text)])])])
    ensures BtcRate(feed, "USD") == Success(65432.10)
    ensures BtcRate(feed, "EUR") == Failure(MissingKey("EUR"))
  {
    var bpi := JObject(map["USD" := JObject(map["rate" := JStr(text)])]);
    assert Field(feed, "bpi") == Success(bpi);
    assert Field(bpi, "EUR") == Failure(MissingKey("EUR"));
    assert RateText(feed, "USD") == Some(text);
    StripCommasJoins("65", "432.10");
    assert "65" + "432.10" == "65432.10";
    RateTextParses();
  }

  /** The de-grouped rate text reads as the decimal it spells. */
  lemma RateTextParses()
    ensures ParseDecimal("65432.10") == Some(65432.10)
  {
    assert "65432.10" == "65432" + "." + "10";
    ParseDecimalPoint("65432", "10");
    RateValue();
  }

  /** "65432" and "10" after the point are 65432.10. */
  lemma RateValue()
    ensures DecimalValue("65432", "10") == 65432.10
  {
    assert Pow10(|"10"|) == 100;
    assert "10"[..1] == "1";
    assert DigitsValue("6") == 6;
    assert "65"[..1] == "6";
    assert DigitsValue("65") == 65;
    assert "654"[..2] == "65";
    assert DigitsValue("654") == 654;
    assert "6543"[..3] == "654";
    assert DigitsValue("6543") == 6543;
    assert "65432"[..4] == "6543";
  }
}
