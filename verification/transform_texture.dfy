/**
 * `TransformTexture`: the RGBA32F texture that holds one 4x4 matrix per
 * geometry part, four pixels (sixteen floats) per matrix, 64 matrices per
 * 256-pixel row. The GL calls are recorded as sub-upload events.
 */
module TransformTex {
  import opened Wrappers
  import opened MathUtils
  import Mat4
  import ByteCodec

  const MAX_SIZE: int := 256
  /** Matrices per texture row: each matrix takes four pixels. */
  const ROW_MATRICES: int := MAX_SIZE / 4

  /** The sizes chosen at construction, and the initial texel data. */
  datatype Texture = Texture(numPixels: int, width: int, height: int, copyBufferFloats: int, data: seq<real>)

  /** The value written at float `i` of the initial data. */
  function DefaultFloat(i: int): real {
    if i % 16 % 5 == 0 then 1.0 else 0.0
  }

  /** `createDefaultFloatBuffer(numFloats)`. */
  function DefaultData(numFloats: nat): (d: seq<real>)
    ensures |d| == numFloats
    ensures forall i :: 0 <= i < numFloats ==> d[i] == (if i % 16 in {0, 5, 10, 15} then 1.0 else 0.0)
  {
    seq(numFloats, i => DefaultFloat(i))
  }

  /** Every 16-float block of the initial data is the identity in upload order. */
  lemma DefaultDataIsIdentities(numFloats: nat, k: nat)
    requires 16 * (k + 1) <= numFloats
    ensures DefaultData(numFloats)[16 * k .. 16 * (k + 1)] == Mat4.UploadToBuffer(Mat4.IDENTITY, x => x)
  {
    var d := DefaultData(numFloats)[16 * k .. 16 * (k + 1)];
    var u := Mat4.UploadToBuffer(Mat4.IDENTITY, x => x);
    assert u == [1.0, 0.0, 0.0, 0.0, 0.0, 1.0, 0.0, 0.0, 0.0, 0.0, 1.0, 0.0, 0.0, 0.0, 0.0, 1.0];
    forall j | 0 <= j < 16
      ensures d[j] == u[j]
    {
      ByteCodec.DivUnique(16 * k + j, 16, k, j);
      assert d[j] == DefaultData(numFloats)[16 * k + j];
    }
  }

  const TOO_MANY_PARTS: string := "Bro how do u have over 16384 model parts what r u doing"

  /**
   * The constructor `new TransformTexture(n)`. `n * 4` is Java `int`
   * arithmetic; a wrapped value above 2^30 would hang `nextPowerOfTwo`.
   */
  function Create(n: int): (r: Result<Texture>)
    requires IsInt32(n) && Wrap32(n * 4) <= MAX_POW2
    ensures r.Err? <==> NextPowerOfTwo(Wrap32(n * 4)) > MAX_SIZE * MAX_SIZE
    ensures r.Err? ==> r.error == IllegalState(TOO_MANY_PARTS)
    ensures r.Ok? ==> r.value.numPixels == NextPowerOfTwo(Wrap32(n * 4))
  {
    var numPixels := NextPowerOfTwo(Wrap32(n * 4));
    if numPixels > MAX_SIZE * MAX_SIZE then
      Err(IllegalState(TOO_MANY_PARTS))
    else
      var width := if MAX_SIZE < numPixels then MAX_SIZE else numPixels;
      var height := if numPixels / MAX_SIZE > 1 then numPixels / MAX_SIZE else 1;
      Ok(Texture(numPixels, width, height, width * 4, DefaultData(numPixels * 4)))
  }

  /** For a count that does not overflow, construction fails exactly above 16384 matrices. */
  lemma CreateFailsIffTooMany(n: int)
    requires -0x2000_0000 <= n <= 0x1000_0000
    ensures Create(n).Err? <==> n > 16384
  {
    assert Wrap32(n * 4) == n * 4;
    if n <= 16384 {
      assert IsPowerOfTwo(65536) by { assert 65536 == Pow2(16) by { Pow2Add(8, 8); assert Pow2(8) == 256; } }
      NextPowerOfTwoMonotone(n * 4, 65536);
      NextPowerOfTwoFixesPowers(65536);
    }
  }

  /** A successful construction has room for every matrix and a rectangle of whole rows. */
  lemma CreateGeometry(n: int)
    requires IsInt32(n) && Wrap32(n * 4) <= MAX_POW2 && Create(n).Ok?
    ensures var t := Create(n).value;
      t.width * t.height == t.numPixels && t.numPixels >= Wrap32(n * 4)
      && 1 <= t.width <= MAX_SIZE && t.height >= 1
      && t.copyBufferFloats == 4 * t.width && |t.data| == 4 * t.numPixels
      && (t.numPixels < MAX_SIZE ==> t.height == 1)
      && (t.numPixels >= MAX_SIZE ==> t.width == MAX_SIZE)
  {
    var t := Create(n).value;
    if t.numPixels >= MAX_SIZE {
      PowerOfTwoRows(t.numPixels);
    }
  }

  /** The number of whole matrices a texture holds. */
  function Capacity(t: Texture): int {
    t.numPixels / 4
  }

  /** Where matrix `k` lands: pixel column and row of its first pixel. */
  datatype Texel = Texel(x: int, y: int)

  function Placement(k: nat): (p: Texel)
    ensures p.x % 4 == 0 && 0 <= p.x <= MAX_SIZE - 4
    ensures p.y * MAX_SIZE + p.x == 4 * k
  {
    Texel((k % ROW_MATRICES) * 4, k / ROW_MATRICES)
  }

  /** Every matrix a texture has room for lies entirely inside it. */
  lemma PlacementInside(n: int, k: nat)
    requires IsInt32(n) && Wrap32(n * 4) <= MAX_POW2 && Create(n).Ok?
    requires k < Capacity(Create(n).value)
    ensures var t := Create(n).value; var p := Placement(k);
      p.x + 4 <= t.width && p.y < t.height
  {
    var t := Create(n).value;
    var p := Placement(k);
    CreateGeometry(n);
    if t.numPixels >= MAX_SIZE {
      ByteCodec.DivUnique(t.numPixels, 4, 64 * t.height, 0);
      assert 256 * p.y < 256 * t.height;
    } else {
      ByteCodec.DivUnique(k, ROW_MATRICES, 0, k);
    }
  }

  /** One `glTexSubImage2D` of a single row: `count` matrices from `offset` floats into `buf`. */
  datatype SubUpload = SubUpload(x: int, y: int, pixels: int, offset: int, count: int)

  function SubUploadFor(first: int, start: int, endCopy: int): SubUpload {
    var copyWidth := endCopy - start + 1;
    SubUpload((start % ROW_MATRICES) * 4, start / ROW_MATRICES, copyWidth * 4, (start - first) * 16, copyWidth)
  }

  /** The last matrix of the row holding matrix `k`. */
  function RowEnd(k: int): (e: int)
    ensures k <= e && e - k + 1 + k % ROW_MATRICES == ROW_MATRICES
    ensures (e + 1) % ROW_MATRICES == 0 && (e + 1) / ROW_MATRICES == k / ROW_MATRICES + 1
  {
    var e := (k / ROW_MATRICES + 1) * ROW_MATRICES - 1;
    ByteCodec.DivUnique(e + 1, ROW_MATRICES, k / ROW_MATRICES + 1, 0);
    e
  }

  function Min(a: int, b: int): int {
    if a < b then a else b
  }

  /**
   * One pass of `uploadData`'s loop as written: the row end is taken from
   * `firstIndex`, not from the current `startCopy`.
   */
  function StepAsWritten(first: int, last: int, start: int): (SubUpload, int) {
    var endCopy := Min(last, RowEnd(first));
    (SubUploadFor(first, start, endCopy), endCopy + 1)
  }

  /** Up to `fuel` passes of the loop as written; `done` iff the loop exited. */
  datatype Run = Run(uploads: seq<SubUpload>, done: bool)

  function RunAsWritten(first: int, last: int, start: int, fuel: nat): Run
    decreases fuel
  {
    if start > last then Run([], true)
    else if fuel == 0 then Run([], false)
    else
      var (u, next) := StepAsWritten(first, last, start);
      var rest := RunAsWritten(first, last, next, fuel - 1);
      Run([u] + rest.uploads, rest.done)
  }

  /** Within one row the loop as written does a single sub-upload of the whole range. */
  lemma AsWrittenOneRow(first: int, last: int)
    requires 0 <= first <= last && first / ROW_MATRICES == last / ROW_MATRICES
    ensures RunAsWritten(first, last, first, 1)
         == Run([SubUpload((first % ROW_MATRICES) * 4, first / ROW_MATRICES, (last - first + 1) * 4, 0, last - first + 1)], true)
  {
  }

  /**
   * A range that crosses a row: the second pass copies nothing and leaves
   * `startCopy` where it was, so however many passes run, the loop never exits.
   */
  lemma {:induction false} AsWrittenNeverExits(first: int, last: int, fuel: nat)
    requires 0 <= first <= last && first / ROW_MATRICES < last / ROW_MATRICES
    ensures !RunAsWritten(first, last, first, fuel).done
  {
    var stuck := RowEnd(first) + 1;
    assert StepAsWritten(first, last, first).1 == stuck;
    assert StepAsWritten(first, last, stuck) == (SubUpload((stuck % ROW_MATRICES) * 4, stuck / ROW_MATRICES, 0, (stuck - first) * 16, 0), stuck);
    if fuel > 0 {
      StuckForever(first, last, stuck, fuel - 1);
    }
  }

  lemma {:induction false} StuckForever(first: int, last: int, stuck: int, fuel: nat)
    requires stuck <= last && StepAsWritten(first, last, stuck).1 == stuck
    ensures !RunAsWritten(first, last, stuck, fuel).done
    decreases fuel
  {
    if fuel > 0 {
      StuckForever(first, last, stuck, fuel - 1);
    }
  }

  /** Whether `uploadData(first, last, buf)` as written returns: the range ends within `first`'s row. */
  predicate Returns(first: int, last: int) {
    last <= RowEnd(first)
  }

  /**
   * The loop as written exits after some number of passes exactly when the
   * range ends within the first index's row; otherwise no number of passes
   * ever ends it.
   */
  lemma ReturnsIffExits(first: int, last: int)
    requires 0 <= first
    ensures Returns(first, last) ==> RunAsWritten(first, last, first, 1).done
    ensures !Returns(first, last) ==> forall fuel: nat :: !RunAsWritten(first, last, first, fuel).done
  {
    var e := RowEnd(first);
    if Returns(first, last) {
      if first <= last {
        assert last / ROW_MATRICES == first / ROW_MATRICES by {
          ByteCodec.DivUnique(last, ROW_MATRICES, first / ROW_MATRICES, last - first / ROW_MATRICES * ROW_MATRICES);
        }
        AsWrittenOneRow(first, last);
      }
    } else {
      assert first / ROW_MATRICES < last / ROW_MATRICES by {
        ByteCodec.DivUnique(e + 1, ROW_MATRICES, first / ROW_MATRICES + 1, 0);
        DivMonotone(e + 1, last);
      }
      forall fuel: nat ensures !RunAsWritten(first, last, first, fuel).done {
        AsWrittenNeverExits(first, last, fuel);
      }
    }
  }

  lemma DivMonotone(a: int, b: int)
    requires a <= b
    ensures a / ROW_MATRICES <= b / ROW_MATRICES
  {
  }

  /**
   * `uploadData` with the row end taken from the current `startCopy`, as the
   * loop's comment intends: the sub-uploads from `start` to `last`.
   */
  function Uploads(first: int, last: int, start: int): (us: seq<SubUpload>)
    requires 0 <= first <= start
    decreases last - start
    ensures forall i :: 0 <= i < |us| ==> 1 <= us[i].count <= ROW_MATRICES && us[i].x + us[i].pixels <= MAX_SIZE
    ensures Covered(us) == (if start <= last then last - start + 1 else 0)
    ensures start <= last ==> |us| > 0 && us[0].offset == (start - first) * 16
  {
    if start > last then []
    else
      var endCopy := Min(last, RowEnd(start));
      var rest := Uploads(first, last, endCopy + 1);
      var us := [SubUploadFor(first, start, endCopy)] + rest;
      assert us[1..] == rest;
      us
  }

  /** How many matrices a list of sub-uploads copies. */
  function Covered(us: seq<SubUpload>): int {
    if us == [] then 0 else us[0].count + Covered(us[1..])
  }

  /**
   * The corrected sub-uploads tile `[first, last]`: each starts where the
   * previous ended, in the buffer and in the texture.
   */
  lemma {:induction false} UploadsContiguous(first: int, last: int, start: int, i: int)
    requires 0 <= first <= start
    requires 0 <= i < |Uploads(first, last, start)| - 1
    ensures var us := Uploads(first, last, start);
      us[i + 1].offset == us[i].offset + 16 * us[i].count
      && us[i + 1].y * MAX_SIZE + us[i + 1].x == us[i].y * MAX_SIZE + us[i].x + us[i].pixels
    decreases last - start
  {
    var endCopy := Min(last, RowEnd(start));
    var us := Uploads(first, last, start);
    if i > 0 {
      UploadsContiguous(first, last, endCopy + 1, i - 1);
      assert us[1..] == Uploads(first, last, endCopy + 1);
    } else {
      var rest := Uploads(first, last, endCopy + 1);
      assert us[1] == rest[0];
      assert rest[0] == SubUploadFor(first, endCopy + 1, Min(last, RowEnd(endCopy + 1)));
      assert Placement(start).y * MAX_SIZE + Placement(start).x == 4 * start;
      assert Placement(endCopy + 1).y * MAX_SIZE + Placement(endCopy + 1).x == 4 * (endCopy + 1);
    }
  }

  /** The corrected loop agrees with the one as written whenever that one exits. */
  lemma UploadsOneRow(first: int, last: int)
    requires 0 <= first <= last && first / ROW_MATRICES == last / ROW_MATRICES
    ensures Uploads(first, last, first) == RunAsWritten(first, last, first, 1).uploads
  {
    AsWrittenOneRow(first, last);
  }

  /** Every corrected sub-upload fits the copy buffer of a texture that holds `last`. */
  lemma UploadsFitCopyBuffer(n: int, first: int, last: int, i: int)
    requires IsInt32(n) && Wrap32(n * 4) <= MAX_POW2 && Create(n).Ok?
    requires 0 <= first <= last < Capacity(Create(n).value)
    requires 0 <= i < |Uploads(first, last, first)|
    ensures 16 * Uploads(first, last, first)[i].count <= Create(n).value.copyBufferFloats
  {
    CreateGeometry(n);
    UploadsCountBounded(first, last, first, i);
  }

  lemma {:induction false} UploadsCountBounded(first: int, last: int, start: int, i: int)
    requires 0 <= first <= start
    requires 0 <= i < |Uploads(first, last, start)|
    ensures Uploads(first, last, start)[i].count <= last - start + 1
    decreases last - start
  {
    var endCopy := Min(last, RowEnd(start));
    if i > 0 {
      UploadsCountBounded(first, last, endCopy + 1, i - 1);
    }
  }
}
