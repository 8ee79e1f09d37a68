/** Conversion of the detector clock (nanoseconds since the epoch, 19 decimal
    digits) to a database timestamp at the database's sub-second precision. */
module TimeStampDecoder {
  import opened Results
  import opened Decimal
  import opened IOVData

  /** The first 10 + p digits of a 19-digit rendering with '.' inserted after digit 10. */
  function DecodedString(ts: u64, p: Precision): (s: string)
    requires |Digits(ts)| == 19
    ensures |s| == 11 + p
    ensures s[10] == '.'
    ensures s[..10] == Digits(ts)[..10]
    ensures s[11..] == Digits(ts)[10..10 + p]
  {
    var time := Digits(ts)[..10 + p];
    time[..10] + "." + time[10..]
  }

  /** DecodeTimeStamp: render, check for 19 digits, truncate to precision, insert the point, parse. */
  function DecodeTimeStamp(ts: u64, p: Precision): (r: Result<IOVTimeStamp, IOVDataError>)
    ensures r.Ok? <==> |Digits(ts)| == 19
    ensures r.Err? ==> r.error == UnknownTimeStampFormat(ts)
    ensures r.Ok? ==> r.value.Stamp? && Less(r.value, MaxTimeStamp())
  {
    var time := Digits(ts);
    if |time| == 19 then
      DecodedStringParses(ts, p);
      GetFromString(DecodedString(ts, p), p)
    else
      Err(UnknownTimeStampFormat(ts))
  }

  /** The parser reads the decoded string field by field. */
  lemma DecodedStringParses(ts: u64, p: Precision)
    requires |Digits(ts)| == 19
    ensures GetFromString(DecodedString(ts, p), p)
         == Ok(Stamp(Value(Digits(ts)[..10]), Value(Digits(ts)[10..10 + p])))
  {
    var digits := Digits(ts);
    var left, right := digits[..10], digits[10..10 + p];
    assert DecodedString(ts, p) == left + "." + right;
    ParseFields(left, right, p);
    assert FitWidth(right, p) == right;
  }

  /** The result is exactly the first ten digits as seconds and the next p digits as sub-seconds. */
  lemma DecodeFields(ts: u64, p: Precision)
    requires |Digits(ts)| == 19
    ensures DecodeTimeStamp(ts, p) == Ok(Stamp(Value(Digits(ts)[..10]), Value(Digits(ts)[10..10 + p])))
  {
    DecodedStringParses(ts, p);
  }

  /** Only 19-digit clock values decode. */
  lemma DecodeAcceptsNineteenDigits(ts: u64, p: Precision)
    ensures DecodeTimeStamp(ts, p).Ok? <==> Pow10(18) <= ts < Pow10(19)
  {
    NineteenDigits(ts);
  }

  /** Decoding truncates and never rounds: the seconds are the whole seconds of
      the nanosecond count, and seconds and sub-seconds together are the count
      with its last 9 - p digits dropped. */
  lemma DecodeTruncates(ts: u64, p: Precision)
    requires Pow10(18) <= ts < Pow10(19)
    ensures var r := DecodeTimeStamp(ts, p);
      && r.Ok? && r.value.Stamp?
      && r.value.seconds == ts / Pow10(9)
      && r.value.subseconds < Pow10(p)
      && r.value.seconds * Pow10(p) + r.value.subseconds == ts / Pow10(9 - p)
  {
    NineteenDigits(ts);
    DecodeFields(ts, p);
    ValueOfDigits(ts);
    DigitFields(Digits(ts), p);
  }

  /** The truncation facts determine the decoded value: seconds and sub-seconds
      satisfying them are the ones the decoder returns. */
  lemma DecodeCharacterised(ts: u64, p: Precision, seconds: nat, subseconds: nat)
    requires Pow10(18) <= ts < Pow10(19)
    requires seconds == ts / Pow10(9)
    requires subseconds < Pow10(p)
    requires seconds * Pow10(p) + subseconds == ts / Pow10(9 - p)
    ensures DecodeTimeStamp(ts, p) == Ok(Stamp(seconds, subseconds))
  {
    DecodeTruncates(ts, p);
    var r := DecodeTimeStamp(ts, p).value;
    var scale := Pow10(p);
    assert r.seconds == seconds;
    assert r.seconds * scale == seconds * scale;
    assert r.subseconds == subseconds;
  }

  /** Arithmetic of the two fields of a 19-digit string. */
  lemma DigitFields(digits: string, p: Precision)
    requires AllDigits(digits) && |digits| == 19
    ensures Value(digits[..10]) == Value(digits) / Pow10(9)
    ensures Value(digits[10..10 + p]) < Pow10(p)
    ensures Value(digits[..10]) * Pow10(p) + Value(digits[10..10 + p]) == Value(digits) / Pow10(9 - p)
  {
    PrefixValue(digits, 10);
    PrefixValue(digits, 10 + p);
    ValueBound(digits[10..10 + p]);
    PrefixFields(digits, p);
  }

  /** The first 10 + p digits split into the seconds field and p fraction digits. */
  lemma PrefixFields(digits: string, p: Precision)
    requires AllDigits(digits) && |digits| == 19
    ensures Value(digits[..10 + p]) == Value(digits[..10]) * Pow10(p) + Value(digits[10..10 + p])
  {
    var t := digits[..10 + p];
    ValueSplit(t, 10);
    assert t[..10] == digits[..10];
    assert t[10..] == digits[10..10 + p];
  }

  /** Equal-length clock values keep their order through decoding. */
  lemma DecodeMonotone(a: u64, b: u64, p: Precision)
    requires Pow10(18) <= a <= b < Pow10(19)
    ensures DecodeTimeStamp(a, p).Ok? && DecodeTimeStamp(b, p).Ok?
    ensures LessEq(DecodeTimeStamp(a, p).value, DecodeTimeStamp(b, p).value)
  {
    DecodeTruncates(a, p);
    DecodeTruncates(b, p);
    var x, y := DecodeTimeStamp(a, p).value, DecodeTimeStamp(b, p).value;
    DivMono(a, b, Pow10(9 - p));
    DivMono(a, b, Pow10(9));
    MulGap(y.seconds, x.seconds, Pow10(p));
  }

  /** 1620000000123456789 at microsecond precision is 1620000000.123456. */
  lemma DecodeExample()
    ensures DecodeTimeStamp(1620000000123456789, 6) == Ok(Stamp(1620000000, 123456))
  {
    Pow10Values();
    DecodeCharacterised(1620000000123456789, 6, 1620000000, 123456);
  }
}
