/**
 * The collaborators that the comparison helper calls but does not define: a sensor
 * (`ISensor`) and the writer (`ObservationWriter`) it writes its observation through.
 * Their implementations are not part of this model. Each call that receives the
 * buffer may leave any values in it: the bodies below overwrite every slot with
 * values about which nothing is known, and no postcondition says what they are.
 */
module Sensors {

  import opened Floats

  /** The sensor's description of its observation shape; the helper only passes it on. */
  datatype ObservationSpec = ObservationSpec(shape: seq<nat>)

  /** Overwrites every slot of `buffer` with unknown values: a foreign write. */
  method Overwrite(buffer: array<Float>)
    modifies buffer
  {
    assert |buffer[..]| == buffer.Length;
    var values: seq<Float> :| |values| == buffer.Length;
    forall i | 0 <= i < buffer.Length {
      buffer[i] := values[i];
    }
  }

  /** Writes observations into a flat float buffer at a given offset. */
  class ObservationWriter {

    var target: array?<Float>
    var spec: ObservationSpec
    var offset: nat

    constructor ()
      ensures target == null
    {
      target := null;
      spec := ObservationSpec([]);
      offset := 0;
    }

    /** Binds the writer to `buffer`; whether this touches the buffer is not known. */
    method SetTarget(buffer: array<Float>, spec: ObservationSpec, offset: nat)
      modifies this, buffer
      ensures target == buffer && this.spec == spec && this.offset == offset
    {
      target := buffer;
      this.spec := spec;
      this.offset := offset;
      Overwrite(buffer);
    }
  }

  /** A sensor: it describes its observation and writes it through a bound writer. */
  class Sensor {

    constructor ()
    {
    }

    method GetObservationSpec() returns (spec: ObservationSpec)
    {
      var shape: seq<nat> :| true;
      spec := ObservationSpec(shape);
    }

    /** Writes the observation into the writer's buffer: any slot may change. */
    method Write(writer: ObservationWriter)
      requires writer.target != null
      modifies writer.target
      ensures writer.target == old(writer.target)
    {
      Overwrite(writer.target);
    }
  }
}
