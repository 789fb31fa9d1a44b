/** A running sensor: its device, view and composed matrices, and every buffer of coordinates it keeps
    in world space.  Whatever matrices are set, in whatever order, each cached coordinate stays the
    image of the coordinate the sensor measured.  */
module Device {
  import opened Affine

  const NUM_SAMPLE_BUFFERS: nat := 3

  /** A detected object: two corners and their midpoint. */
  datatype Blob = Blob(lower: Vector3D, higher: Vector3D, center: Vector3D)

  function Midpoint(a: Vector3D, b: Vector3D): Vector3D {
    Vector3D((a.x + b.x) * 0.5, (a.y + b.y) * 0.5, (a.z + b.z) * 0.5)
  }

  function MovedBlob(m: Matrix3H, b: Blob): Blob {
    var lower, higher := Apply(m, b.lower), Apply(m, b.higher);
    Blob(lower, higher, Midpoint(lower, higher))
  }

  /** The coordinates a sensor measured, before any placement. */
  datatype Local = Local(buffers: seq<seq<Vector3D>>, env: seq<Vector3D>, envRaw: seq<Vector3D>,
                         accum: seq<Vector3D>, blobs: seq<Blob>)

  ghost predicate InFrame(m: Matrix3H, local: seq<Vector3D>, world: seq<Vector3D>) {
    |world| == |local| && forall i :: 0 <= i < |local| ==> world[i] == Apply(m, local[i])
  }

  ghost predicate AllInFrame(m: Matrix3H, local: seq<seq<Vector3D>>, world: seq<seq<Vector3D>>) {
    |world| == |local| && forall b :: 0 <= b < |local| ==> InFrame(m, local[b], world[b])
  }

  ghost predicate BlobsInFrame(m: Matrix3H, local: seq<Blob>, world: seq<Blob>) {
    |world| == |local| &&
    forall i :: 0 <= i < |local| ==>
      world[i].lower == Apply(m, local[i].lower) && world[i].higher == Apply(m, local[i].higher) &&
      world[i].center == Apply(m, local[i].center)
  }

  ghost predicate WellCentred(blobs: seq<Blob>) {
    forall i :: 0 <= i < |blobs| ==> blobs[i].center == Midpoint(blobs[i].lower, blobs[i].higher)
  }

  /** An affine map keeps midpoints, so recomputing the centre of a moved object moves the centre. */
  lemma MidpointMoves(m: Matrix3H, a: Vector3D, b: Vector3D)
    ensures Apply(m, Midpoint(a, b)) == Midpoint(Apply(m, a), Apply(m, b))
  {
    hide Rotate;
    RotateIsHalved(m, a, b);
  }

  lemma RotateIsHalved(m: Matrix3H, a: Vector3D, b: Vector3D)
    ensures Rotate(m, Midpoint(a, b)) == Midpoint(Rotate(m, a), Rotate(m, b))
  {
    assert Midpoint(a, b) == Scale(Add(a, b), 0.5);
    RotateScale(m, Add(a, b), 0.5);
    RotateAdd(m, a, b);
  }

  /** Moving what is already placed by `a` places it by the product. */
  lemma MovedTwice(a: Matrix3H, m: Matrix3H, local: seq<Vector3D>, before: seq<Vector3D>, after: seq<Vector3D>)
    requires InFrame(a, local, before) && InFrame(m, before, after)
    ensures InFrame(Mul(m, a), local, after)
  {
    hide Mul, Apply;
    forall i | 0 <= i < |local| ensures after[i] == Apply(Mul(m, a), local[i]) {
      MulActs(m, a, local[i]);
    }
  }

  lemma BlobMovedTwice(a: Matrix3H, m: Matrix3H, b: Blob, placed: Blob)
    requires b.center == Midpoint(b.lower, b.higher)
    requires placed == Blob(Apply(a, b.lower), Apply(a, b.higher), Apply(a, b.center))
    ensures MovedBlob(m, placed) ==
      Blob(Apply(Mul(m, a), b.lower), Apply(Mul(m, a), b.higher), Apply(Mul(m, a), b.center))
  {
    hide Mul, Apply, Midpoint;
    MulActs(m, a, b.lower);
    MulActs(m, a, b.higher);
    MidpointMoves(Mul(m, a), b.lower, b.higher);
  }

  lemma BlobsMovedTwice(a: Matrix3H, m: Matrix3H, local: seq<Blob>, placed: seq<Blob>, moved: seq<Blob>)
    requires WellCentred(local) && BlobsInFrame(a, local, placed)
    requires |moved| == |placed| && forall i :: 0 <= i < |placed| ==> moved[i] == MovedBlob(m, placed[i])
    ensures BlobsInFrame(Mul(m, a), local, moved)
  {
    hide Mul, Apply, Midpoint, MovedBlob;
    forall i | 0 <= i < |local|
      ensures moved[i] == Blob(Apply(Mul(m, a), local[i].lower), Apply(Mul(m, a), local[i].higher),
                               Apply(Mul(m, a), local[i].center))
    {
      BlobMovedTwice(a, m, local[i], placed[i]);
    }
  }

  lemma HasDeterminant(m: Matrix3H)
    requires Invertible(m)
    ensures Det(m) != 0.0
  {
  }

  lemma IdentityMovesNothing(a: Matrix3H, m: Matrix3H)
    requires m == IDENTITY
    ensures Mul(m, a) == a
  {
    IdentityIsNeutral(a);
  }

  /** Every sample of a buffer moved in place, unless the matrix is the identity. */
  method MoveSamples(samples: seq<Vector3D>, m: Matrix3H) returns (moved: seq<Vector3D>)
    ensures InFrame(m, samples, moved)
  {
    moved := samples;
    if m == IDENTITY {
      forall i | 0 <= i < |samples| ensures moved[i] == Apply(m, samples[i]) {
        IdentityActs(samples[i]);
      }
      return;
    }
    var i := |samples|;
    while i > 0
      invariant 0 <= i <= |samples| == |moved|
      invariant forall k :: 0 <= k < i ==> moved[k] == samples[k]
      invariant forall k :: i <= k < |samples| ==> moved[k] == Apply(m, samples[k])
    {
      i := i - 1;
      moved := moved[i := Apply(m, moved[i])];
    }
  }

  method MoveBlobs(blobs: seq<Blob>, m: Matrix3H) returns (moved: seq<Blob>)
    requires m != IDENTITY
    ensures |moved| == |blobs|
    ensures forall i :: 0 <= i < |blobs| ==> moved[i] == MovedBlob(m, blobs[i])
  {
    moved := blobs;
    var i := |blobs|;
    while i > 0
      invariant 0 <= i <= |blobs| == |moved|
      invariant forall k :: 0 <= k < i ==> moved[k] == blobs[k]
      invariant forall k :: i <= k < |blobs| ==> moved[k] == MovedBlob(m, blobs[k])
    {
      i := i - 1;
      moved := moved[i := MovedBlob(m, moved[i])];
    }
  }

  class LidarDevice {
    var deviceMatrix: Matrix3H
    var viewMatrix: Matrix3H
    var matrix: Matrix3H
    var matrixInverse: Matrix3H

    var samples: seq<seq<Vector3D>>
    var envValid: bool
    var envSamples: seq<Vector3D>
    var envRawSamples: seq<Vector3D>
    var isAccumulating: bool
    var accumSamples: seq<Vector3D>
    var objects: seq<Blob>

    ghost var local: Local

    /** Every live coordinate is the placed local one and `matrixInverse` undoes `matrix`. */
    ghost predicate Framed()
      reads this
    {
      && Invertible(matrix) && matrixInverse == Inverse(matrix)
      && |samples| == |local.buffers| == NUM_SAMPLE_BUFFERS && AllInFrame(matrix, local.buffers, samples)
      && (envValid ==> InFrame(matrix, local.env, envSamples) && InFrame(matrix, local.envRaw, envRawSamples))
      && (isAccumulating ==> InFrame(matrix, local.accum, accumSamples))
      && WellCentred(local.blobs) && BlobsInFrame(matrix, local.blobs, objects)
    }

    ghost predicate Valid()
      reads this
    {
      Framed() && Invertible(deviceMatrix) && Invertible(viewMatrix) && matrix == Mul(viewMatrix, deviceMatrix)
    }

    constructor ()
      ensures Valid() && matrix == deviceMatrix == viewMatrix == IDENTITY
    {
      deviceMatrix, viewMatrix, matrix, matrixInverse := IDENTITY, IDENTITY, IDENTITY, IDENTITY;
      samples := [[], [], []];
      envValid, envSamples, envRawSamples := false, [], [];
      isAccumulating, accumSamples := false, [];
      objects := [];
      local := Local([[], [], []], [], [], [], []);
      IdentityIsOwnInverse();
      IdentityIsNeutral(IDENTITY);
    }

    /** A measured coordinate enters a sample buffer. */
    method StoreSample(b: nat, i: nat, coord: Vector3D)
      requires Valid() && b < |samples| && i < |samples[b]|
      modifies this`samples, this`local
      ensures Valid()
      ensures samples == old(samples)[b := old(samples)[b][i := Apply(matrix, coord)]]
      ensures local == old(local).(buffers := old(local).buffers[b := old(local).buffers[b][i := coord]])
    {
      samples := samples[b := samples[b][i := Apply(matrix, coord)]];
      local := local.(buffers := local.buffers[b := local.buffers[b][i := coord]]);
    }

    method MoveBuffers(m: Matrix3H)
      requires |samples| == NUM_SAMPLE_BUFFERS && AllInFrame(matrix, local.buffers, samples)
      modifies this`samples
      ensures |samples| == NUM_SAMPLE_BUFFERS && AllInFrame(Mul(m, matrix), local.buffers, samples)
    {
      hide Mul, Inverse, Det, Apply, InFrame;
      var i := 0;
      while i < NUM_SAMPLE_BUFFERS
        invariant 0 <= i <= NUM_SAMPLE_BUFFERS == |samples|
        invariant forall b :: 0 <= b < i ==> InFrame(Mul(m, matrix), local.buffers[b], samples[b])
        invariant forall b :: i <= b < |samples| ==> samples[b] == old(samples)[b]
      {
        var moved := MoveSamples(samples[i], m);
        MovedTwice(matrix, m, local.buffers[i], samples[i], moved);
        samples := samples[i := moved];
        i := i + 1;
      }
    }

    /** The whole device moved by `m`. */
    method MultiplyBy(m: Matrix3H)
      requires Framed() && Invertible(m)
      modifies this`samples, this`envSamples, this`envRawSamples, this`accumSamples, this`objects
      modifies this`matrix, this`matrixInverse
      ensures Framed() && matrix == Mul(m, old(matrix))
    {
      hide Mul, Inverse, Det, Apply, InFrame, AllInFrame, WellCentred, BlobsInFrame, MovedBlob, Invertible;
      if m == IDENTITY {
        IdentityMovesNothing(matrix, m);
        return;
      }
      ghost var a := matrix;
      MoveBuffers(m);
      if envValid {
        var env := MoveSamples(envSamples, m);
        MovedTwice(a, m, local.env, envSamples, env);
        envSamples := env;
        var raw := MoveSamples(envRawSamples, m);
        MovedTwice(a, m, local.envRaw, envRawSamples, raw);
        envRawSamples := raw;
      }
      if isAccumulating {
        var acc := MoveSamples(accumSamples, m);
        MovedTwice(a, m, local.accum, accumSamples, acc);
        accumSamples := acc;
      }
      var blobs := MoveBlobs(objects, m);
      BlobsMovedTwice(a, m, local.blobs, objects, blobs);
      objects := blobs;
      InvertiblesFormAGroup(m, a);
      matrix := Mul(m, matrix);
      HasDeterminant(m);
      matrixInverse := Mul(matrixInverse, Inverse(m));
    }

    method SetMatrix(m: Matrix3H)
      requires Framed() && Invertible(m)
      modifies this`samples, this`envSamples, this`envRawSamples, this`accumSamples, this`objects
      modifies this`matrix, this`matrixInverse
      ensures Framed() && matrix == m
    {
      hide Mul, Inverse, Det, Apply;
      if m == matrix {
        return;
      }
      InverseIsInvertible(matrix);
      InverseIsTwoSided(matrix);
      MultiplyBy(Inverse(matrix));
      IdentityIsNeutral(m);
      MultiplyBy(m);
      matrix := m;
      matrixInverse := Inverse(m);
    }

    method SetDeviceMatrix(devMatrix: Matrix3H)
      requires Valid() && Invertible(devMatrix)
      modifies this
      ensures Valid() && deviceMatrix == devMatrix && viewMatrix == old(viewMatrix) && local == old(local)
    {
      hide Mul, Inverse, Det, Apply;
      if deviceMatrix == devMatrix {
        return;
      }
      deviceMatrix := devMatrix;
      InvertiblesFormAGroup(viewMatrix, deviceMatrix);
      SetMatrix(Mul(viewMatrix, deviceMatrix));
    }

    method SetViewMatrix(vMatrix: Matrix3H)
      requires Valid() && Invertible(vMatrix)
      modifies this
      ensures Valid() && viewMatrix == vMatrix && deviceMatrix == old(deviceMatrix) && local == old(local)
    {
      hide Mul, Inverse, Det, Apply;
      if viewMatrix == vMatrix {
        return;
      }
      viewMatrix := vMatrix;
      InvertiblesFormAGroup(viewMatrix, deviceMatrix);
      SetMatrix(Mul(viewMatrix, deviceMatrix));
    }

    /** Saving the environment takes the samples back to the sensor's own coordinates, writes those, and
        places them again: the file holds the local coordinates and the samples end where they were. */
    method WriteEnv() returns (written: seq<Vector3D>)
      requires Valid()
      modifies this`envRawSamples
      ensures Valid() && envRawSamples == old(envRawSamples)
      ensures InFrame(matrix, written, envRawSamples) && (envValid ==> written == local.envRaw)
    {
      hide Mul, Inverse, Det, Apply;
      ghost var raw := envRawSamples;
      var back := MoveSamples(envRawSamples, matrixInverse);
      InverseIsTwoSided(matrix);
      if envValid {
        MovedTwice(matrix, matrixInverse, local.envRaw, envRawSamples, back);
        Unmoved(local.envRaw, back);
      }
      written := back;
      envRawSamples := MoveSamples(back, matrix);
      MovedTwice(matrixInverse, matrix, raw, back, envRawSamples);
      Unmoved(raw, envRawSamples);
    }
  }

  lemma Unmoved(a: seq<Vector3D>, b: seq<Vector3D>)
    requires InFrame(IDENTITY, a, b)
    ensures a == b
  {
    forall i | 0 <= i < |b| ensures b[i] == a[i] {
      IdentityActs(a[i]);
    }
  }

  /** The middle is as far from one end as from the other. */
  lemma MidpointIsHalfway(a: Vector3D, b: Vector3D)
    ensures var m := Midpoint(a, b); m.x - a.x == b.x - m.x && m.y - a.y == b.y - m.y && m.z - a.z == b.z - m.z
  {
  }
}
