/** The database timestamp value type: whole seconds plus a fixed number of
    sub-second digits, totally ordered, with a maximum used for open-ended
    intervals of validity. */
module IOVData {
  import opened Results
  import opened Decimal

  /** Number of sub-second digits the database keeps (kMAX_SUBSTAMP_LENGTH). */
  type Precision = p: nat | p <= 9

  datatype IOVTimeStamp =
    | Stamp(seconds: nat, subseconds: nat)
    | MaxStamp   // later than every other timestamp

  datatype IOVDataError =
    | UnknownTimeStampFormat(raw: nat)   // raw clock value that is not 19 digits long
    | MalformedTimeStamp(text: string)   // text that is not "<seconds>.<subseconds>"

  function MaxTimeStamp(): IOVTimeStamp
  {
    MaxStamp
  }

  /** Strict order: by seconds, then by sub-seconds; MaxStamp above everything. */
  predicate Less(a: IOVTimeStamp, b: IOVTimeStamp)
  {
    match (a, b)
    case (Stamp(s1, f1), Stamp(s2, f2)) => s1 < s2 || (s1 == s2 && f1 < f2)
    case (Stamp(_, _), MaxStamp) => true
    case (MaxStamp, _) => false
  }

  predicate LessEq(a: IOVTimeStamp, b: IOVTimeStamp)
  {
    a == b || Less(a, b)
  }

  /** The maximum is above every other timestamp. */
  lemma MaxIsGreatest(t: IOVTimeStamp)
    ensures t != MaxTimeStamp() ==> Less(t, MaxTimeStamp())
    ensures !Less(MaxTimeStamp(), t)
  {
  }

  lemma TotalOrder(a: IOVTimeStamp, b: IOVTimeStamp, c: IOVTimeStamp)
    ensures !Less(a, a)
    ensures Less(a, b) ==> !Less(b, a)
    ensures Less(a, b) && Less(b, c) ==> Less(a, c)
    ensures Less(a, b) || a == b || Less(b, a)
  {
  }

  // ---------------------------------------------------------------------
  // Canonical text form "<seconds>.<subseconds>"

  /** Index of the first '.', or |s| when there is none. */
  function FirstDot(s: string): (i: nat)
    ensures i <= |s|
    ensures i < |s| ==> s[i] == '.'
    ensures forall j :: 0 <= j < i ==> s[j] != '.'
  {
    if s == [] then 0
    else if s[0] == '.' then 0
    else 1 + FirstDot(s[1..])
  }

  /** Fraction digits cut or zero-extended to exactly p digits. */
  function FitWidth(digits: string, p: Precision): (r: string)
    requires AllDigits(digits)
    ensures |r| == p && AllDigits(r)
    ensures |digits| >= p ==> r == digits[..p]
    ensures |digits| < p ==> r[..|digits|] == digits && forall i :: |digits| <= i < p ==> r[i] == '0'
  {
    if |digits| >= p then digits[..p] else digits + seq(p - |digits|, _ => '0')
  }

  /** The text before the first '.'. */
  function SecondsField(s: string): string
  {
    s[..FirstDot(s)]
  }

  /** The text after the first '.', empty when there is none. */
  function FractionField(s: string): string
  {
    var i := FirstDot(s);
    if i < |s| then s[i + 1..] else []
  }

  /** The fraction digits read at p-digit precision. */
  function FractionValue(digits: string, p: Precision): (v: nat)
    requires AllDigits(digits)
    ensures v < Pow10(p)
  {
    var fraction := FitWidth(digits, p);
    ValueBound(fraction);
    Value(fraction)
  }

  /** A fraction longer than p digits is truncated, never rounded: its value at
      precision p is its value with the extra digits dropped. */
  lemma FractionTruncates(digits: string, p: Precision)
    requires AllDigits(digits) && |digits| >= p
    ensures FractionValue(digits, p) == Value(digits) / Pow10(|digits| - p)
  {
    PrefixValue(digits, p);
  }

  /** A fraction shorter than p digits is zero-extended: its value is scaled up
      by the missing digit positions. */
  lemma FractionZeroExtends(digits: string, p: Precision)
    requires AllDigits(digits) && |digits| < p
    ensures FractionValue(digits, p) == Value(digits) * Pow10(p - |digits|)
  {
    var r := FitWidth(digits, p);
    ValueSplit(r, |digits|);
    assert r[..|digits|] == digits;
    var zeros := r[|digits|..];
    assert forall i :: 0 <= i < |zeros| ==> zeros[i] == r[|digits| + i];
    ZerosValue(zeros);
  }

  /** Parses "<seconds>" or "<seconds>.<fraction>": the seconds field is read as
      a decimal number, the fraction is zero-extended or truncated to p digits. */
  function GetFromString(s: string, p: Precision): (r: Result<IOVTimeStamp, IOVDataError>)
    ensures r.Ok? ==> r.value.Stamp? && r.value.subseconds < Pow10(p)
    ensures r.Err? ==> r.error == MalformedTimeStamp(s)
  {
    var left, right := SecondsField(s), FractionField(s);
    if left == [] || !AllDigits(left) || !AllDigits(right) then
      Err(MalformedTimeStamp(s))
    else
      Ok(Stamp(Value(left), FractionValue(right, p)))
  }

  /** The canonical text of a timestamp (DBStamp): the seconds, a '.', and the
      sub-seconds zero-padded to p digits.  The maximum is given the open-end
      marker "-" here; decoded times, the only ones rendered, are never the maximum. */
  function DBStamp(t: IOVTimeStamp, p: Precision): (s: string)
  {
    match t
    case Stamp(sec, sub) => Digits(sec) + "." + Fixed(sub, p)
    case MaxStamp => "-"
  }

  /** The end of an interval of validity as the database reports it: "-" means open-ended. */
  function ParseEndTime(s: string, p: Precision): (r: Result<IOVTimeStamp, IOVDataError>)
    ensures r == Ok(MaxStamp) <==> s == "-"
    ensures s != "-" ==> r == GetFromString(s, p)
  {
    if s == "-" then Ok(MaxTimeStamp()) else GetFromString(s, p)
  }

  /** Rendering a timestamp at database precision and parsing the text back gives the timestamp. */
  lemma StampRoundTrip(t: IOVTimeStamp, p: Precision)
    requires t.Stamp? && t.subseconds < Pow10(p)
    ensures GetFromString(DBStamp(t, p), p) == Ok(t)
  {
    var left, right := Digits(t.seconds), Fixed(t.subseconds, p);
    assert DBStamp(t, p) == left + "." + right;
    ParseFields(left, right, p);
    assert FitWidth(right, p) == right;
    ValueOfDigits(t.seconds);
    FixedOfSmall(t.subseconds, p);
  }

  /** A seconds field, a '.', and a fraction parse field by field. */
  lemma ParseFields(left: string, right: string, p: Precision)
    requires left != [] && AllDigits(left) && AllDigits(right)
    ensures GetFromString(left + "." + right, p) == Ok(Stamp(Value(left), FractionValue(right, p)))
  {
    var s := left + "." + right;
    FirstDotAfterDigits(left, right);
    assert SecondsField(s) == left;
    assert FractionField(s) == right;
  }

  lemma {:induction false} FirstDotAfterDigits(left: string, right: string)
    requires AllDigits(left)
    ensures FirstDot(left + "." + right) == |left|
    decreases |left|
  {
    if left != [] {
      assert (left + "." + right)[1..] == left[1..] + "." + right;
      FirstDotAfterDigits(left[1..], right);
    }
  }

  /** The canonical text of a finite timestamp is never the open-end marker, so
      the end-time reading parses it back to the timestamp. */
  lemma EndTimeRoundTrip(t: IOVTimeStamp, p: Precision)
    requires t.Stamp? && t.subseconds < Pow10(p)
    ensures ParseEndTime(DBStamp(t, p), p) == Ok(t)
  {
    StampRoundTrip(t, p);
    assert DBStamp(t, p)[0] != '-';
  }

  /** Parsing is idempotent through the canonical form: parse(serialize(parse(s))) == parse(s). */
  lemma CanonicalForm(s: string, p: Precision)
    requires GetFromString(s, p).Ok?
    ensures GetFromString(DBStamp(GetFromString(s, p).value, p), p) == GetFromString(s, p)
  {
    StampRoundTrip(GetFromString(s, p).value, p);
  }
}
