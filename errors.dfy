/**
 * The four error kinds the builder throws. Each constructor is named after
 * the error class it stands for; `Name` and `Message` give the `name` and
 * `message` fields that class sets.
 */
module Errors {
  import opened Decimal

  datatype MikroMetricError =
    | MissingRequiredStartParamsError
    | HasNonAsciiCharactersError
    | CannotAddMoreItemsToArrayError(maximumLength: nat)
    | LengthNotWithinBoundsError(maximumLength: nat)

  /** The `name` field: its class's name, which ends in "Error". */
  function Name(e: MikroMetricError): (r: string)
    ensures |r| > 5 && r[|r| - 5..] == "Error"
  {
    match e
    case MissingRequiredStartParamsError => "MissingRequiredStartParamsError"
    case HasNonAsciiCharactersError => "HasNonAsciiCharactersError"
    case CannotAddMoreItemsToArrayError(_) => "CannotAddMoreItemsToArrayError"
    case LengthNotWithinBoundsError(_) => "LengthNotWithinBoundsError"
  }

  const CapacityPrefix := "Cannot add more than "
  const CapacitySuffix := " metrics to a single metric log!"
  const BoundsPrefix := "Value must be between 1-"
  const BoundsSuffix := " characters!"

  /** The `message` field, the same text the constructor logs: a sentence ending in '!'. */
  function Message(e: MikroMetricError): (r: string)
    ensures |r| > 0 && r[|r| - 1] == '!'
  {
    match e
    case MissingRequiredStartParamsError =>
      "Missing namespace and/or service name " + "while initializing MikroMetric!"
    case HasNonAsciiCharactersError => "String contains non-ASCII characters!"
    case CannotAddMoreItemsToArrayError(max) => CapacityPrefix + NatToString(max) + CapacitySuffix
    case LengthNotWithinBoundsError(max) => BoundsPrefix + NatToString(max) + BoundsSuffix
  }

  /** Two errors of the same kind; the maximum they carry is ignored. */
  predicate SameKind(a: MikroMetricError, b: MikroMetricError) {
    (a.MissingRequiredStartParamsError? && b.MissingRequiredStartParamsError?) ||
    (a.HasNonAsciiCharactersError? && b.HasNonAsciiCharactersError?) ||
    (a.CannotAddMoreItemsToArrayError? && b.CannotAddMoreItemsToArrayError?) ||
    (a.LengthNotWithinBoundsError? && b.LengthNotWithinBoundsError?)
  }

  /** The `name` field tells the four kinds apart and nothing more. */
  lemma NamesIdentifyKinds(a: MikroMetricError, b: MikroMetricError)
    ensures Name(a) == Name(b) <==> SameKind(a, b)
  {
  }

  /** `p + x + q == p + y + q` forces `x == y`. */
  lemma CancelFrame(p: string, x: string, y: string, q: string)
    requires p + x + q == p + y + q
    ensures x == y
  {
    var s := p + x + q;
    assert |x| == |y|;
    assert x == s[|p|..|p| + |x|];
    assert y == s[|p|..|p| + |y|];
  }

  /** The first character of each message tells the four kinds apart. */
  function Initial(e: MikroMetricError): char {
    match e
    case MissingRequiredStartParamsError => 'M'
    case HasNonAsciiCharactersError => 'S'
    case CannotAddMoreItemsToArrayError(_) => 'C'
    case LengthNotWithinBoundsError(_) => 'V'
  }

  lemma FirstOfConcat(a: string, b: string)
    requires |a| > 0
    ensures (a + b)[0] == a[0]
  {
  }

  lemma MessageInitial(e: MikroMetricError)
    ensures |Message(e)| > 0 && Message(e)[0] == Initial(e)
  {
    match e
    case MissingRequiredStartParamsError =>
      FirstOfConcat("Missing namespace and/or service name ", "while initializing MikroMetric!");
    case HasNonAsciiCharactersError =>
    case CannotAddMoreItemsToArrayError(m) =>
      FirstOfConcat(CapacityPrefix, NatToString(m));
      FirstOfConcat(CapacityPrefix + NatToString(m), CapacitySuffix);
    case LengthNotWithinBoundsError(m) =>
      FirstOfConcat(BoundsPrefix, NatToString(m));
      FirstOfConcat(BoundsPrefix + NatToString(m), BoundsSuffix);
  }

  /** The message determines the error, the embedded maximum included. */
  lemma {:induction false} MessageInjective(a: MikroMetricError, b: MikroMetricError)
    requires Message(a) == Message(b)
    ensures a == b
  {
    MessageInitial(a);
    MessageInitial(b);
    match a
    case MissingRequiredStartParamsError =>
    case HasNonAsciiCharactersError =>
    case CannotAddMoreItemsToArrayError(m) =>
      if b.CannotAddMoreItemsToArrayError? {
        CancelFrame(CapacityPrefix, NatToString(m), NatToString(b.maximumLength), CapacitySuffix);
        NatToStringInjective(m, b.maximumLength);
      }
    case LengthNotWithinBoundsError(m) =>
      if b.LengthNotWithinBoundsError? {
        CancelFrame(BoundsPrefix, NatToString(m), NatToString(b.maximumLength), BoundsSuffix);
        NatToStringInjective(m, b.maximumLength);
      }
  }

  /** The capacity error raised for dimensions (limit 30) still speaks of metrics. */
  lemma DimensionCapacityMessage()
    ensures Message(CannotAddMoreItemsToArrayError(30)) == CapacityPrefix + "30" + CapacitySuffix
  {
    assert NatToString(30) == "30" by {
      assert NatToString(3) == "3";
    }
  }

  /** The bounds error names the inclusive range 1..max. */
  lemma BoundsMessages()
    ensures Message(LengthNotWithinBoundsError(255)) == BoundsPrefix + "255" + BoundsSuffix
    ensures Message(LengthNotWithinBoundsError(1024)) == BoundsPrefix + "1024" + BoundsSuffix
  {
    assert NatToString(255) == "255" by {
      assert NatToString(25) == "25" by { assert NatToString(2) == "2"; }
    }
    assert NatToString(1024) == "1024" by {
      assert NatToString(102) == "102" by {
        assert NatToString(10) == "10" by { assert NatToString(1) == "1"; }
      }
    }
  }
}
