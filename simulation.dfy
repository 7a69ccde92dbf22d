/** The rendering program's upload of particle positions: `to_raw` pads each position to
    the four floats `[x, y, z, 0]` that the storage buffer holds per particle. */
module Simulation {
  import opened Vectors

  /** One entry of the storage buffer: four floats. */
  type Raw = r: seq<real> | |r| == 4 witness [0.0, 0.0, 0.0, 0.0]

  /** `SimulationState::to_raw`: every position, in order, as `[x, y, z, 0]`. */
  function ToRaw(positions: seq<Vec3>): (raw: seq<Raw>)
    ensures |raw| == |positions|
    ensures forall i :: 0 <= i < |raw| ==> raw[i][3] == 0.0
  {
    seq(|positions|, i requires 0 <= i < |positions| =>
      [positions[i].x, positions[i].y, positions[i].z, 0.0])
  }

  /** How the buffer entries are read back as positions: the first three floats. */
  function FromRaw(raw: seq<Raw>): (positions: seq<Vec3>)
    ensures |positions| == |raw|
  {
    seq(|raw|, i requires 0 <= i < |raw| => Vec3(raw[i][0], raw[i][1], raw[i][2]))
  }

  /** The padding loses nothing: the positions read back are the positions written. */
  lemma RawRoundTrip(positions: seq<Vec3>)
    ensures FromRaw(ToRaw(positions)) == positions
  {
  }

  /** Padding works entry by entry: it commutes with concatenation, and maps no
      positions to no entries. */
  lemma ToRawAppend(a: seq<Vec3>, b: seq<Vec3>)
    ensures ToRaw(a + b) == ToRaw(a) + ToRaw(b)
    ensures ToRaw([]) == []
  {
    assert forall i :: 0 <= i < |a + b| ==> ToRaw(a + b)[i] == (ToRaw(a) + ToRaw(b))[i];
  }
}
