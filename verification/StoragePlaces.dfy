/** Where the elements of a tensor lie in each storage format. */
module StoragePlaces {
  import opened Bits
  import opened StorageFormats

  predicate Inside(e: Shape, shape: Shape) {
    |e| == |shape| && forall i :: 0 <= i < |e| ==> 0 <= e[i] < shape[i]
  }

  /** The formats and ranks in which every element has a place of its own. */
  predicate Places(format: AclFormat, rank: nat) {
    match format
    case NCHW => rank <= 4
    case ND => true
    case NHWC => rank == 4
    case NDHWC => rank == 5
    case NCDHW => rank == 5
    case _ => PaddedFor(format, rank)
  }

  /** The shape whose elements are stored. */
  function Logical(format: AclFormat, dims: Shape): Shape {
    if format == NCHW then Widened(dims) else BaseDims(format, dims)
  }

  /** The trailing dimensions of the storage that count inside a block. */
  function Inner(format: AclFormat): nat {
    match format
    case NC1HWC0 => 1
    case NDC1HWC0 => 1
    case FRACTAL_NZ => 2
    case FRACTAL_Z => 2
    case FRACTAL_Z_3D => 2
    case _ => 0
  }

  /** The place of element e: channels and other blocked dimensions are split into block
      and position in the block; the fractal formats count block, height and width (and
      depth) in one dimension. */
  function Place(format: AclFormat, dims: Shape, itemsize: nat, e: Shape): Shape
    requires Places(format, |dims|) && itemsize != 0 && |e| == |Logical(format, dims)|
  {
    var m := |e| - 2;
    match format
    case NC1HWC0 => [e[0], e[1] / 16, e[2], e[3], e[1] % 16]
    case FRACTAL_Z =>
      var d := Logical(format, dims);
      [(e[1] / 16 * d[2] + e[2]) * d[3] + e[3], e[0] / 16, e[0] % 16, e[1] % 16]
    case FRACTAL_NZ =>
      var last := LastSize(itemsize);
      e[..m] + [e[m + 1] / last, e[m] / 16, e[m] % 16, e[m + 1] % last]
    case NDHWC => [e[0], e[2], e[3], e[4], e[1]]
    case NDC1HWC0 => [e[0], e[2], e[1] / 16, e[3], e[4], e[1] % 16]
    case FRACTAL_Z_3D =>
      var c1 := Blocks(dims[1], 16);
      [((e[2] * c1 + e[1] / 16) * dims[3] + e[3]) * dims[4] + e[4], e[0] / 16, e[0] % 16, e[1] % 16]
    case _ => e
  }

  // ----- Counting two dimensions as one -----

  lemma RadixInside(a: int, x: int, b: int, y: int)
    requires 0 <= a < x && 0 <= b < y
    ensures 0 <= a * y + b < x * y
  {
    Distribute(x, a, y);
    AtLeastOneMultiple(x - a, y);
    ScaleMonotone(y, 0, a);
  }

  lemma RadixApart(a: int, b: int, a': int, b': int, y: int)
    requires 0 <= b < y && 0 <= b' < y && a * y + b == a' * y + b'
    ensures a == a' && b == b'
  {
    UniqueRemainder(a * y + b, y, a, b);
    UniqueRemainder(a * y + b, y, a', b');
  }

  lemma RadixLast(x: int, y: int)
    ensures (x - 1) * y + (y - 1) == x * y - 1
  {
    Distribute(x, 1, y);
  }

  lemma BlockInside(e: int, x: int, b: int)
    requires 0 <= e < x && b >= 1
    ensures 0 <= e / b < Blocks(x, b) && 0 <= e % b < b
  {
    RoundUpFacts(x, b);
    var q, n := e / b, Blocks(x, b);
    assert e == q * b + e % b;
    if q >= n {
      Distribute(q, n, b);
      ScaleMonotone(b, n, q);
    }
  }

  lemma LastBlock(x: int, b: int)
    requires x >= 1 && b >= 1
    ensures (x - 1) / b == Blocks(x, b) - 1
  {
    RoundUpFacts(x, b);
    var n := Blocks(x, b);
    Distribute(n, 1, b);
    UniqueRemainder(x - 1, b, n - 1, x - 1 - (n - 1) * b);
  }

  lemma SplitApart(e: int, e': int, b: int)
    requires b >= 1 && e / b == e' / b && e % b == e' % b
    ensures e == e'
  {
    assert e == (e / b) * b + e % b && e' == (e' / b) * b + e' % b;
  }

  // ----- The fractal formats -----

  lemma FractalInside(e: Shape, d: Shape)
    requires |e| == |d| == 4 && Inside(e, d)
    ensures 0 <= (e[1] / 16 * d[2] + e[2]) * d[3] + e[3] < Blocks(d[1], 16) * d[2] * d[3]
  {
    BlockInside(e[1], d[1], 16);
    RadixInside(e[1] / 16, Blocks(d[1], 16), e[2], d[2]);
    RadixInside(e[1] / 16 * d[2] + e[2], Blocks(d[1], 16) * d[2], e[3], d[3]);
  }

  lemma Fractal3DInside(e: Shape, d: Shape)
    requires |e| == |d| == 5 && Inside(e, d)
    ensures var c1 := Blocks(d[1], 16);
            0 <= ((e[2] * c1 + e[1] / 16) * d[3] + e[3]) * d[4] + e[4] < d[2] * c1 * d[3] * d[4]
  {
    var c1 := Blocks(d[1], 16);
    BlockInside(e[1], d[1], 16);
    RadixInside(e[2], d[2], e[1] / 16, c1);
    RadixInside(e[2] * c1 + e[1] / 16, d[2] * c1, e[3], d[3]);
    RadixInside((e[2] * c1 + e[1] / 16) * d[3] + e[3], d[2] * c1 * d[3], e[4], d[4]);
  }

  // ----- Every element has a place of its own, and no room is wasted -----

  /** Every element lies inside the storage. */
  lemma ElementsFit(format: AclFormat, dims: Shape, itemsize: nat, e: Shape)
    requires Places(format, |dims|) && itemsize != 0 && Inside(e, Logical(format, dims))
    ensures var storage := GetStorageSizes(format, dims, itemsize);
            storage.Ok? && Inside(Place(format, dims, itemsize, e), storage.value)
  {
    match format
    case NC1HWC0 => FitsNC1HWC0(dims, itemsize, e);
    case FRACTAL_Z => FitsZ(dims, itemsize, e);
    case FRACTAL_NZ => FitsNZ(dims, itemsize, e);
    case NDC1HWC0 => FitsNDC1HWC0(dims, itemsize, e);
    case FRACTAL_Z_3D => FitsZ3D(dims, itemsize, e);
    case NCDHW => assert dims[..5] == dims;
    case _ =>
  }

  lemma FitsNC1HWC0(dims: Shape, itemsize: nat, e: Shape)
    requires |dims| <= 4 && itemsize != 0 && Inside(e, Widened(dims))
    ensures Inside(Place(NC1HWC0, dims, itemsize, e), InferShape4To5(dims).value)
  {
    BlockInside(e[1], Widened(dims)[1], 16);
  }

  lemma FitsNDC1HWC0(dims: Shape, itemsize: nat, e: Shape)
    requires |dims| == 5 && itemsize != 0 && Inside(e, dims)
    ensures Inside(Place(NDC1HWC0, dims, itemsize, e), InferShapeOfNDC1HWC0(dims).value)
  {
    BlockInside(e[1], dims[1], 16);
  }

  lemma FitsZ(dims: Shape, itemsize: nat, e: Shape)
    requires |dims| <= 4 && itemsize != 0 && Inside(e, Widened(dims))
    ensures Inside(Place(FRACTAL_Z, dims, itemsize, e), InferShapeNDToZ(dims).value)
  {
    FractalInside(e, Widened(dims));
    BlockInside(e[0], Widened(dims)[0], 16);
    BlockInside(e[1], Widened(dims)[1], 16);
  }

  lemma FitsNZ(dims: Shape, itemsize: nat, e: Shape)
    requires itemsize != 0 && Inside(e, PaddedTo2(dims))
    ensures Inside(Place(FRACTAL_NZ, dims, itemsize, e), InferShapeNDToNZ(dims, itemsize).value)
  {
    var d, m := PaddedTo2(dims), |e| - 2;
    BlockInside(e[m], d[m], 16);
    BlockInside(e[m + 1], d[m + 1], LastSize(itemsize));
  }

  lemma FitsZ3D(dims: Shape, itemsize: nat, e: Shape)
    requires |dims| == 5 && itemsize != 0 && Inside(e, dims)
    ensures Inside(Place(FRACTAL_Z_3D, dims, itemsize, e), InferShapeOfFZ3D(dims).value)
  {
    Fractal3DInside(e, dims);
    BlockInside(e[0], dims[0], 16);
    BlockInside(e[1], dims[1], 16);
  }

  /** Different elements have different places. */
  lemma PlacesDiffer(format: AclFormat, dims: Shape, itemsize: nat, e: Shape, e': Shape)
    requires Places(format, |dims|) && itemsize != 0
    requires Inside(e, Logical(format, dims)) && Inside(e', Logical(format, dims))
    requires Place(format, dims, itemsize, e) == Place(format, dims, itemsize, e')
    ensures e == e'
  {
    var p, p' := Place(format, dims, itemsize, e), Place(format, dims, itemsize, e');
    match format
    case NC1HWC0 => SameFive(p, p'); SplitApart(e[1], e'[1], 16);
    case FRACTAL_Z => FractalApart(dims, e, e');
    case FRACTAL_NZ => BlocksApart(dims, itemsize, e, e');
    case NDHWC => SameFive(p, p');
    case NDC1HWC0 => SameFive(p, p'); assert p[5] == p'[5]; SplitApart(e[1], e'[1], 16);
    case FRACTAL_Z_3D => Fractal3DApart(dims, e, e');
    case _ =>
  }

  lemma SameFive(p: Shape, p': Shape)
    requires p == p' && |p| >= 5
    ensures p[0] == p'[0] && p[1] == p'[1] && p[2] == p'[2] && p[3] == p'[3] && p[4] == p'[4]
  {
  }

  lemma FractalApart(dims: Shape, e: Shape, e': Shape)
    requires Places(FRACTAL_Z, |dims|)
    requires Inside(e, Logical(FRACTAL_Z, dims)) && Inside(e', Logical(FRACTAL_Z, dims))
    requires Place(FRACTAL_Z, dims, 1, e) == Place(FRACTAL_Z, dims, 1, e')
    ensures e == e'
  {
    var p, p', d := Place(FRACTAL_Z, dims, 1, e), Place(FRACTAL_Z, dims, 1, e'), Logical(FRACTAL_Z, dims);
    assert p[0] == p'[0] && p[1] == p'[1] && p[2] == p'[2] && p[3] == p'[3];
    RadixApart(e[1] / 16 * d[2] + e[2], e[3], e'[1] / 16 * d[2] + e'[2], e'[3], d[3]);
    RadixApart(e[1] / 16, e[2], e'[1] / 16, e'[2], d[2]);
    SplitApart(e[1], e'[1], 16);
    SplitApart(e[0], e'[0], 16);
  }

  lemma BlocksApart(dims: Shape, itemsize: nat, e: Shape, e': Shape)
    requires itemsize != 0
    requires Inside(e, PaddedTo2(dims)) && Inside(e', PaddedTo2(dims))
    requires Place(FRACTAL_NZ, dims, itemsize, e) == Place(FRACTAL_NZ, dims, itemsize, e')
    ensures e == e'
  {
    var p, p', m := Place(FRACTAL_NZ, dims, itemsize, e), Place(FRACTAL_NZ, dims, itemsize, e'), |e| - 2;
    assert p[m] == p'[m] && p[m + 1] == p'[m + 1] && p[m + 2] == p'[m + 2] && p[m + 3] == p'[m + 3];
    assert p[..m] == e[..m] && p'[..m] == e'[..m];
    SplitApart(e[m], e'[m], 16);
    SplitApart(e[m + 1], e'[m + 1], LastSize(itemsize));
    assert e == e[..m] + [e[m], e[m + 1]] && e' == e'[..m] + [e'[m], e'[m + 1]];
  }

  lemma Fractal3DApart(dims: Shape, e: Shape, e': Shape)
    requires |dims| == 5 && Inside(e, dims) && Inside(e', dims)
    requires Place(FRACTAL_Z_3D, dims, 1, e) == Place(FRACTAL_Z_3D, dims, 1, e')
    ensures e == e'
  {
    var p, p', c1 := Place(FRACTAL_Z_3D, dims, 1, e), Place(FRACTAL_Z_3D, dims, 1, e'), Blocks(dims[1], 16);
    assert p[0] == p'[0] && p[1] == p'[1] && p[2] == p'[2] && p[3] == p'[3];
    BlockInside(e[1], dims[1], 16);
    BlockInside(e'[1], dims[1], 16);
    var a, a' := e[2] * c1 + e[1] / 16, e'[2] * c1 + e'[1] / 16;
    RadixApart(a * dims[3] + e[3], e[4], a' * dims[3] + e'[3], e'[4], dims[4]);
    RadixApart(a, e[3], a', e'[3], dims[3]);
    RadixApart(e[2], e[1] / 16, e'[2], e'[1] / 16, c1);
    SplitApart(e[1], e'[1], 16);
    SplitApart(e[0], e'[0], 16);
  }

  /** The element with the largest index in every dimension. */
  function Last(shape: Shape): Shape {
    seq(|shape|, i requires 0 <= i < |shape| => shape[i] - 1)
  }

  /** The coordinates before the inner ones are the largest there are. */
  predicate OuterLast(place: Shape, storage: Shape, inner: nat) {
    |place| == |storage| >= inner && forall k :: 0 <= k < |place| - inner ==> place[k] == storage[k] - 1
  }

  /** The inner dimensions are one block. */
  predicate InnerBlock(storage: Shape, inner: nat, last: int) {
    inner <= |storage| && forall k :: |storage| - inner <= k < |storage| ==>
                            storage[k] == if k == |storage| - 1 then last else 16
  }

  /** The storage is as small as blocks allow: its inner dimensions are one block, and in
      every other one the last element has the largest coordinate. */
  lemma ExtentsAreLeast(format: AclFormat, dims: Shape, itemsize: nat)
    requires Places(format, |dims|) && itemsize != 0
    requires forall i :: 0 <= i < |Logical(format, dims)| ==> Logical(format, dims)[i] >= 1
    ensures var storage, place := GetStorageSizes(format, dims, itemsize),
                                  Place(format, dims, itemsize, Last(Logical(format, dims)));
            && storage.Ok? && OuterLast(place, storage.value, Inner(format))
            && InnerBlock(storage.value, Inner(format), if format == FRACTAL_NZ then LastSize(itemsize) else 16)
  {
    var d := Logical(format, dims);
    match format
    case NC1HWC0 => LastBlock(d[1], 16);
    case FRACTAL_Z => LeastZ(dims, itemsize);
    case FRACTAL_NZ => LeastNZ(dims, itemsize);
    case NDC1HWC0 => LastBlock(d[1], 16);
    case FRACTAL_Z_3D => Fractal3DLast(dims);
    case NCDHW => assert dims[..5] == dims;
    case _ =>
  }

  lemma LeastZ(dims: Shape, itemsize: nat)
    requires |dims| <= 4 && itemsize != 0 && forall i :: 0 <= i < |Widened(dims)| ==> Widened(dims)[i] >= 1
    ensures var storage := InferShapeNDToZ(dims).value;
            && OuterLast(Place(FRACTAL_Z, dims, itemsize, Last(Widened(dims))), storage, 2)
            && InnerBlock(storage, 2, 16)
  {
    var d := Widened(dims);
    LastBlock(d[0], 16);
    LastBlock(d[1], 16);
    RadixLast(Blocks(d[1], 16), d[2]);
    RadixLast(Blocks(d[1], 16) * d[2], d[3]);
  }

  lemma LeastNZ(dims: Shape, itemsize: nat)
    requires itemsize != 0 && forall i :: 0 <= i < |PaddedTo2(dims)| ==> PaddedTo2(dims)[i] >= 1
    ensures var storage := InferShapeNDToNZ(dims, itemsize).value;
            && OuterLast(Place(FRACTAL_NZ, dims, itemsize, Last(PaddedTo2(dims))), storage, 2)
            && InnerBlock(storage, 2, LastSize(itemsize))
  {
    var d := PaddedTo2(dims);
    LastBlock(d[|d| - 2], 16);
    LastBlock(d[|d| - 1], LastSize(itemsize));
  }

  lemma Fractal3DLast(d: Shape)
    requires |d| == 5 && forall i :: 0 <= i < 5 ==> d[i] >= 1
    ensures (d[0] - 1) / 16 == Blocks(d[0], 16) - 1
    ensures var c1 := Blocks(d[1], 16);
            (((d[2] - 1) * c1 + (d[1] - 1) / 16) * d[3] + (d[3] - 1)) * d[4] + (d[4] - 1) == d[2] * c1 * d[3] * d[4] - 1
  {
    var c1 := Blocks(d[1], 16);
    LastBlock(d[0], 16);
    LastBlock(d[1], 16);
    RadixLast(d[2], c1);
    RadixLast(d[2] * c1, d[3]);
    RadixLast(d[2] * c1 * d[3], d[4]);
  }
}
