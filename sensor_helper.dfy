/**
 * Model of the flat-array overload of `SensorHelper.CompareObservation`, a unit-test
 * helper that lets a sensor write its observation into a fresh buffer and compares the
 * buffer with the expected values.
 *
 * The C# method answers with a bool and an `out string` message that is null on success;
 * here the message is an `Option<ErrorMessage>` whose constructors stand for the three
 * messages the source can produce.
 */
module SensorHelper {

  import opened Wrappers
  import opened Floats
  import opened Sensors

  /** The sentinel every slot of the output buffer holds before the sensor writes. */
  const Fill: Float := Finite(-1337.0)

  datatype ErrorMessage =
    | BufferNotFilled    // "Error setting output buffer."
    | SetTargetModified  // "ObservationWriter.SetTarget modified a buffer it shouldn't have."
    | Differed(position: nat, expected: Float, actual: Float)
                         // "Expected and actual differed in position {i}. Expected: … Actual: …"

  /** The helper's answer: the returned bool and the `out` message. */
  datatype Report = Report(ok: bool, errorMessage: Option<ErrorMessage>)

  /** A buffer of `n` slots that all hold the sentinel. */
  function Filled(n: nat): (r: seq<Float>)
    ensures |r| == n && !SentinelDisturbed(r)
  {
    seq(n, _ => Fill)
  }

  /** The buffer is non-empty and its first slot no longer holds the sentinel. */
  predicate SentinelDisturbed(buffer: seq<Float>)
    ensures SentinelDisturbed(buffer) <==> |buffer| > 0 && buffer[0] != Fill
  {
    |buffer| > 0 && !Equal(Fill, buffer[0])
  }

  /** Slot by slot, the two sequences compare equal under float `==`. */
  predicate AllEqual(expected: seq<Float>, actual: seq<Float>)
    requires |expected| == |actual|
  {
    forall i :: 0 <= i < |expected| ==> Equal(expected[i], actual[i])
  }

  /** The lowest position at which the two sequences compare unequal, if there is one. */
  function FirstMismatch(expected: seq<Float>, actual: seq<Float>): (r: Option<nat>)
    requires |expected| == |actual|
    ensures r.Some? ==> r.value < |expected|
  {
    if |expected| == 0 then None
    else if !Equal(expected[0], actual[0]) then Some(0)
    else match FirstMismatch(expected[1..], actual[1..])
      case None => None
      case Some(j) => Some(j + 1)
  }

  lemma {:induction false} NoMismatchIffAllEqual(expected: seq<Float>, actual: seq<Float>)
    requires |expected| == |actual|
    ensures FirstMismatch(expected, actual) == None <==> AllEqual(expected, actual)
  {
    if |expected| > 0 {
      var e, a := expected[1..], actual[1..];
      NoMismatchIffAllEqual(e, a);
      if AllEqual(expected, actual) {
        assert AllEqual(e, a) by {
          forall i | 0 <= i < |e| ensures Equal(e[i], a[i]) {
            assert e[i] == expected[i + 1] && a[i] == actual[i + 1];
          }
        }
      }
      if Equal(expected[0], actual[0]) && AllEqual(e, a) {
        forall i | 0 <= i < |expected| ensures Equal(expected[i], actual[i]) {
          if i > 0 {
            assert expected[i] == e[i - 1] && actual[i] == a[i - 1];
          }
        }
      }
    }
  }

  lemma {:induction false} FirstMismatchIsFirst(expected: seq<Float>, actual: seq<Float>, i: nat)
    requires |expected| == |actual|
    ensures FirstMismatch(expected, actual) == Some(i) <==>
              i < |expected| && !Equal(expected[i], actual[i]) &&
              forall j :: 0 <= j < i ==> Equal(expected[j], actual[j])
  {
    if |expected| > 0 && i > 0 {
      var e, a := expected[1..], actual[1..];
      FirstMismatchIsFirst(e, a, i - 1);
      if i < |expected| {
        assert expected[i] == e[i - 1] && actual[i] == a[i - 1];
        if forall j :: 0 <= j < i ==> Equal(expected[j], actual[j]) {
          forall j | 0 <= j < i - 1 ensures Equal(e[j], a[j]) {
            assert e[j] == expected[j + 1] && a[j] == actual[j + 1];
          }
        }
        if Equal(expected[0], actual[0]) && forall j :: 0 <= j < i - 1 ==> Equal(e[j], a[j]) {
          forall j | 0 <= j < i ensures Equal(expected[j], actual[j]) {
            if j > 0 {
              assert expected[j] == e[j - 1] && actual[j] == a[j - 1];
            }
          }
        }
      }
    }
  }

  /**
   * The report the helper gives for `expected`, given the buffer as `SetTarget` left it
   * (`bound`) and as the sensor's `Write` left it (`written`).
   */
  function Verdict(expected: seq<Float>, bound: seq<Float>, written: seq<Float>): (r: Report)
    requires |bound| == |expected| && |written| == |expected|
    ensures r.ok <==> r.errorMessage == None
    ensures r.errorMessage != Some(BufferNotFilled)
    ensures r.errorMessage == Some(SetTargetModified) <==> SentinelDisturbed(bound)
  {
    if SentinelDisturbed(bound) then Report(false, Some(SetTargetModified))
    else match FirstMismatch(expected, written)
      case None => Report(true, None)
      case Some(i) => Report(false, Some(Differed(i, expected[i], written[i])))
  }

  /** Success exactly when SetTarget left the sentinel and every written slot equals its expected value. */
  lemma SucceedsIffAllEqual(expected: seq<Float>, bound: seq<Float>, written: seq<Float>)
    requires |bound| == |expected| && |written| == |expected|
    ensures Verdict(expected, bound, written).ok <==>
              !SentinelDisturbed(bound) && AllEqual(expected, written)
  {
    NoMismatchIffAllEqual(expected, written);
  }

  /** A reported mismatch is a real one, at the lowest such position, and carries both values. */
  lemma ReportedMismatchIsFirst(expected: seq<Float>, bound: seq<Float>, written: seq<Float>)
    requires |bound| == |expected| && |written| == |expected|
    requires Verdict(expected, bound, written).errorMessage.Some?
    requires Verdict(expected, bound, written).errorMessage.value.Differed?
    ensures var m := Verdict(expected, bound, written).errorMessage.value;
            && !SentinelDisturbed(bound)
            && m.position < |expected|
            && m.expected == expected[m.position]
            && m.actual == written[m.position]
            && !Equal(m.expected, m.actual)
            && forall j :: 0 <= j < m.position ==> Equal(expected[j], written[j])
  {
    var i := FirstMismatch(expected, written).value;
    FirstMismatchIsFirst(expected, written, i);
  }

  /** Conversely, the lowest unequal position is the one reported, with both values. */
  lemma FirstMismatchIsReported(expected: seq<Float>, bound: seq<Float>, written: seq<Float>, i: nat)
    requires |bound| == |expected| && |written| == |expected|
    requires !SentinelDisturbed(bound)
    requires i < |expected| && !Equal(expected[i], written[i])
    requires forall j :: 0 <= j < i ==> Equal(expected[j], written[j])
    ensures Verdict(expected, bound, written).errorMessage == Some(Differed(i, expected[i], written[i]))
  {
    FirstMismatchIsFirst(expected, written, i);
  }

  /** If no collaborator touches the buffer, success means every expected value is the sentinel. */
  lemma UntouchedBufferSucceedsIffAllFill(expected: seq<Float>)
    ensures Verdict(expected, Filled(|expected|), Filled(|expected|)).ok <==>
              forall i :: 0 <= i < |expected| ==> Equal(expected[i], Fill)
  {
    SucceedsIffAllEqual(expected, Filled(|expected|), Filled(|expected|));
  }

  /** A sensor that writes exactly the expected values passes, unless one of them is NaN. */
  lemma ExactWriteSucceeds(expected: seq<Float>, bound: seq<Float>)
    requires |bound| == |expected| && !SentinelDisturbed(bound)
    requires forall i :: 0 <= i < |expected| ==> !expected[i].NaN?
    ensures Verdict(expected, bound, expected) == Report(true, None)
  {
    NoMismatchIffAllEqual(expected, expected);
  }

  /** An expected NaN can never be matched, whatever the sensor writes. */
  lemma ExpectedNaNFails(expected: seq<Float>, bound: seq<Float>, written: seq<Float>, k: nat)
    requires |bound| == |expected| && |written| == |expected|
    requires k < |expected| && expected[k].NaN?
    ensures !Verdict(expected, bound, written).ok
  {
    SucceedsIffAllEqual(expected, bound, written);
  }

  /** Altering one expected value (in a NaN-free observation) is reported at that position with both values. */
  lemma SingleAlterationReported(written: seq<Float>, bound: seq<Float>, i: nat, x: Float)
    requires |bound| == |written| && !SentinelDisturbed(bound)
    requires forall j :: 0 <= j < |written| ==> !written[j].NaN?
    requires i < |written| && !Equal(x, written[i])
    ensures Verdict(written[i := x], bound, written).errorMessage == Some(Differed(i, x, written[i]))
  {
    FirstMismatchIsReported(written[i := x], bound, written, i);
  }

  /** Expected [1, 2, 3] against a written [1, 9, 3] fails at position 1, expected 2, actual 9. */
  lemma DifferAtSecondPosition()
    ensures var expected := [Finite(1.0), Finite(2.0), Finite(3.0)];
            Verdict(expected, Filled(3), [Finite(1.0), Finite(9.0), Finite(3.0)]) ==
              Report(false, Some(Differed(1, Finite(2.0), Finite(9.0))))
  {
  }

  /**
   * Allocates a buffer the size of `expected`, fills it with the sentinel, checks the
   * sentinel before and after binding a writer to it, lets `sensor` write, and compares.
   * The ghost results record the buffer after the fill loop (`filled`), after `SetTarget`
   * (`bound`) and after `Write` (`written`), and whether `Write` was called (`wrote`).
   */
  method CompareObservation(sensor: Sensor, expected: array<Float>)
    returns (ok: bool, errorMessage: Option<ErrorMessage>,
             ghost filled: seq<Float>, ghost bound: seq<Float>, ghost written: seq<Float>, ghost wrote: bool)
    ensures filled == Filled(expected.Length)
    ensures |bound| == expected.Length && |written| == expected.Length
    ensures wrote <==> !SentinelDisturbed(bound)
    ensures !wrote ==> written == bound
    ensures expected.Length == 0 ==> ok && errorMessage == None
    ensures Report(ok, errorMessage) == Verdict(expected[..], bound, written)
  {
    var numExpected := expected.Length;
    var output := new Float[numExpected](_ => Finite(0.0));
    for i := 0 to numExpected
      invariant forall k :: 0 <= k < i ==> output[k] == Fill
    {
      output[i] := Fill;
    }
    filled := output[..];

    if numExpected > 0 {
      if !Equal(Fill, output[0]) {
        ok, errorMessage := false, Some(BufferNotFilled);
        bound, written, wrote := [], [], false;
        return;
      }
    }

    var writer := new ObservationWriter();
    var spec := sensor.GetObservationSpec();
    writer.SetTarget(output, spec, 0);
    bound := output[..];

    // The writer must not have touched the buffer.
    if numExpected > 0 {
      if !Equal(Fill, output[0]) {
        ok, errorMessage := false, Some(SetTargetModified);
        written, wrote := output[..], false;
        return;
      }
    }

    sensor.Write(writer);
    written, wrote := output[..], true;
    for i := 0 to output.Length
      invariant output[..] == written
      invariant forall k :: 0 <= k < i ==> Equal(expected[k], output[k])
    {
      if !Equal(expected[i], output[i]) {
        FirstMismatchIsFirst(expected[..], written, i);
        ok, errorMessage := false, Some(Differed(i, expected[i], output[i]));
        return;
      }
    }

    NoMismatchIffAllEqual(expected[..], written);
    ok, errorMessage := true, None;
  }
}
