# SensorHelper.CompareObservation (flat overload), modelled in Dafny

`SensorHelper.CompareObservation(ISensor, float[], out string)` is a unit-test helper of the
ML-Agents Unity package. It lets a sensor write its observation into a fresh buffer and checks the
buffer against the expected values. It works in four steps:

1. It allocates an output buffer the size of `expected` and fills every slot with the sentinel `-1337f`.
2. It checks that the first slot still holds the sentinel. It binds an `ObservationWriter` to the
   buffer with `SetTarget` and checks the first slot again. If the second check fails, it answers
   "ObservationWriter.SetTarget modified a buffer it shouldn't have."
3. It calls the sensor's `Write`.
4. It scans both arrays in ascending order. It answers `false` with a message naming the position
   and both values at the first slot where they compare unequal. If no slot differs, it answers
   `true` with a null message.

The model has four modules:

- `Floats` holds the observation value type. It is a datatype with finite values (exact reals),
  both infinities and NaN. The predicate `Equal` is C#'s `==` on `float`: NaN equals nothing, not
  even itself. Reals have one zero, so `-0.0 == 0.0` holds. The helper does no arithmetic, so
  rounding never comes into it.
- `Wrappers` holds `Option`, which models the nullable message.
- `Sensors` holds the foreign collaborators: `Sensor` (`ISensor`) and `ObservationWriter`.
  `SetTarget` and `Write` overwrite the buffer with unknown values. Their contracts say nothing
  about its contents, so the helper's proof allows them to do anything to it.
- `SensorHelper` holds the method `CompareObservation` with both of its loops. It also holds the
  pure specification it is proved against (`FirstMismatch`, `Verdict`) and the lemmas about that
  specification.

`CompareObservation` returns `ok` and `errorMessage` as the C# method does, plus four ghost
results. They record the buffer after the fill loop (`filled`), after `SetTarget` (`bound`) and
after `Write` (`written`), and whether `Write` was called (`wrote`). The method's postcondition
connects the real answer to `Verdict(expected, bound, written)`. The lemmas then state what that
answer means.

The method has no `modifies` clause. So it provably never writes `expected`, or any other array
that existed before the call. The comparison scan contains no assignment to `output`.

## Model

| member | source | states |
|---|---|---|
| `Floats.Equal` | com.unity.ml-agents/Runtime/SensorHelper.cs:55 | float `==`: equal values are identical and not NaN; every non-NaN value equals itself |
| `SensorHelper.FirstMismatch` | com.unity.ml-agents/Runtime/SensorHelper.cs:53-60 | a reported first-mismatch position lies within the arrays |
| `SensorHelper.NoMismatchIffAllEqual` | com.unity.ml-agents/Runtime/SensorHelper.cs:53-63 | the scan finds no mismatch exactly when every slot compares equal |
| `SensorHelper.FirstMismatchIsFirst` | com.unity.ml-agents/Runtime/SensorHelper.cs:53-58 | the scan stops at i exactly when slot i differs and every slot below i compares equal (both directions) |
| `SensorHelper.Verdict` | com.unity.ml-agents/Runtime/SensorHelper.cs:43-63 | success exactly when there is no message; "Error setting output buffer." is never produced; the SetTarget message is produced exactly when SetTarget changed slot 0 of a non-empty buffer |
| `SensorHelper.SucceedsIffAllEqual` | com.unity.ml-agents/Runtime/SensorHelper.cs:43-63 | true with a null message exactly when SetTarget left the sentinel and every expected value equals the written value at its index |
| `SensorHelper.ReportedMismatchIsFirst` | com.unity.ml-agents/Runtime/SensorHelper.cs:53-58 | a value-mismatch message names an in-range position where the values differ, carries expected[i] and output[i], and every lower position matched |
| `SensorHelper.FirstMismatchIsReported` | com.unity.ml-agents/Runtime/SensorHelper.cs:53-58 | conversely, the lowest unequal position is the one reported, with both of its values |
| `SensorHelper.UntouchedBufferSucceedsIffAllFill` | com.unity.ml-agents/Runtime/SensorHelper.cs:23-63 | if neither SetTarget nor Write touches the buffer, success means every expected value equals the sentinel -1337 |
| `SensorHelper.ExactWriteSucceeds` | com.unity.ml-agents/Runtime/SensorHelper.cs:52-63 | a sensor that writes exactly the expected (NaN-free) values passes with a null message |
| `SensorHelper.ExpectedNaNFails` | com.unity.ml-agents/Runtime/SensorHelper.cs:55-58 | a NaN among the expected values makes the comparison fail whatever the sensor writes |
| `SensorHelper.SingleAlterationReported` | com.unity.ml-agents/Runtime/SensorHelper.cs:53-58 | changing one expected value of a NaN-free observation is reported at that position with the altered and the written value |
| `SensorHelper.DifferAtSecondPosition` | com.unity.ml-agents/Runtime/SensorHelper.cs:53-58 | expected [1, 2, 3] against written [1, 9, 3] fails at position 1 with expected 2 and actual 9 |
| `SensorHelper.CompareObservation` | com.unity.ml-agents/Runtime/SensorHelper.cs:20-64 | after the fill loop the buffer has expected's length and holds only the sentinel; Write is called exactly when the SetTarget check passes, otherwise the buffer stays as SetTarget left it; an empty expected succeeds with a null message; the answer equals Verdict of expected and the buffer states |
| `SensorHelper.Filled` | com.unity.ml-agents/Runtime/SensorHelper.cs:23-28 | the buffer after the fill loop has expected's length and never trips the sentinel check, which is why "Error setting output buffer." is unreachable |
| `SensorHelper.SentinelDisturbed` | com.unity.ml-agents/Runtime/SensorHelper.cs:43-45 | the guard `numExpected > 0 && fill != output[0]` holds exactly when the buffer is non-empty and slot 0 is some value other than -1337 (the sentinel is not NaN, so float `!=` against it is plain inequality) |
| `Sensors.Sensor.Write` | com.unity.ml-agents/Runtime/SensorHelper.cs:52 | the sensor may change every slot of the buffer the writer is bound to, and nothing else; the writer stays bound to that buffer |
| `Sensors.Sensor.GetObservationSpec` | com.unity.ml-agents/Runtime/SensorHelper.cs:40 | returns some observation spec about which nothing is known; the helper only passes it on to SetTarget |
| `Sensors.ObservationWriter.SetTarget` | com.unity.ml-agents/Runtime/SensorHelper.cs:39-40 | binds the writer to the buffer at offset 0 with the sensor's spec; the buffer contents afterwards are unknown |

## Left out

- The 3D overload `CompareObservation(ISensor, float[,,], out string)` (SensorHelper.cs:76-128). Its
  buffer length, loop bounds and flat indices come from Barracuda's `TensorShape` (`length`,
  negative axis indexing, `RavelIndex`). That library is not part of this model, and the source
  marks those lines as unverified.
- The bodies of `ISensor.Write`, `ISensor.GetObservationSpec` and `ObservationWriter.SetTarget`.
  They are foreign code, modelled as calls that may overwrite every slot of the buffer.
- Anything a foreign call does beyond the output buffer. It could change the sensor's own state,
  or write into `expected` through an alias the sensor holds. The model's `Write` may modify only
  the buffer the writer is bound to. The int that `ISensor.Write` returns is ignored by the
  helper and not modelled.
- The text of the error messages, including how floats are formatted inside them. Each message is
  a constructor of `ErrorMessage`, and the mismatch message carries the position and both values.
- IEEE 754 beyond equality. Floats are distinguished only as far as `==` distinguishes them. Two
  NaN payloads are one value, and `-0.0` and `0.0` are one value. The difference could show in a
  formatted message, but never in the bool the helper returns. `Finite` admits every real, so the
  model's values are a superset of `float` (0.1 and 1e100 are values here). Every lemma holds for
  all values, so it also holds for the ones a `float` can hold.
- Null arguments and exceptions. A null `expected` throws at SensorHelper.cs:22, and a null
  `sensor` throws at line 40. Any exception raised by `GetObservationSpec`, `SetTarget` or `Write`
  escapes the C# method, because nothing catches it. The model's parameters are non-null, and its
  collaborators always return. So every `ensures` of `CompareObservation` covers exactly the runs
  in which each call returns normally. In particular, an empty `expected` succeeds only when the
  foreign calls do not throw.
