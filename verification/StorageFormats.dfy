/** Storage formats: the shape a tensor occupies on the device in each format, and
    the repair of a requested format that does not fit the tensor's rank. */
module StorageFormats {
  import opened Bits

  const BLOCKSIZE := 16
  const BLOCKBYTES := 32

  /** The formats of the format table; every other ACL format is Unlisted. */
  datatype AclFormat =
    | NCHW | NHWC | ND | NC1HWC0 | FRACTAL_Z | FRACTAL_NZ | NDHWC | NCDHW | NDC1HWC0 | FRACTAL_Z_3D
    | Unlisted(code: int)

  type Shape = seq<int>

  /** Raised stands for AT_ERROR and for a failing AT_ASSERT. */
  datatype Result<T> = Ok(value: T) | Raised

  predicate NonNegative(dims: Shape) {
    forall i :: 0 <= i < |dims| ==> dims[i] >= 0
  }

  function Product(s: Shape): int {
    if s == [] then 1 else s[0] * Product(s[1..])
  }

  /** Division as C++ does it: towards zero. */
  function Div(a: int, b: int): int
    requires b > 0
  {
    if a >= 0 then a / b else -((-a) / b)
  }

  function Blocks(x: int, b: int): int
    requires b > 0
  {
    Div(x + b - 1, b)
  }

  // ----- Shape inference, one function per format -----

  function InferShapeLessTo4(dims: Shape): Result<Shape> {
    if |dims| > 4 then Raised
    else Ok(match |dims|
            case 0 => [1, 1, 1, 1]
            case 1 => [1, dims[0], 1, 1]
            case 2 => [1, dims[0], dims[1], 1]
            case 3 => [1, dims[0], dims[1], dims[2]]
            case _ => dims)
  }

  /** The four dimensions a 4D layout works on: short shapes are widened, and the
      trailing dimensions of long ones are ignored. */
  function Widened(dims: Shape): (r: Shape)
    ensures |r| >= 4
  {
    if |dims| < 4 then InferShapeLessTo4(dims).value else dims
  }

  function InferShapeOfNHWC(dims: Shape): Result<Shape> {
    if |dims| == 4 then Ok(dims) else Raised
  }

  function InferShape4To5(dims: Shape): Result<Shape> {
    var d := Widened(dims);
    Ok([d[0], Div(d[1] + 15, 16), d[2], d[3], BLOCKSIZE])
  }

  function InferShape5To4(dims: Shape): Shape
    requires |dims| >= 4
  {
    [dims[0], Div(dims[1] + 15, 16) * 16, dims[2], dims[3]]
  }

  function PaddedTo2(dims: Shape): (r: Shape)
    ensures |r| >= 2
  {
    if |dims| == 0 then [1, 1] else if |dims| == 1 then [dims[0], 1] else dims
  }

  /** The last block is 32 bytes wide; items wider than two bytes are cast to two. */
  function LastSize(itemsize: nat): (b: int)
    requires itemsize != 0
    ensures b > 0
  {
    BLOCKBYTES / (if itemsize > 2 then 2 else itemsize)
  }

  function InferShapeNDToNZ(dims: Shape, itemsize: nat): Result<Shape> {
    if itemsize == 0 then Raised
    else
      var d := PaddedTo2(dims);
      var m := |d| - 2;
      Ok(d[..m] + [Blocks(d[m + 1], LastSize(itemsize)), Blocks(d[m], BLOCKSIZE), BLOCKSIZE, LastSize(itemsize)])
  }

  /** A block row is 32 bytes; items wider than two bytes are laid out as two. */
  lemma LastSizeFills32Bytes(itemsize: nat)
    requires itemsize != 0
    ensures LastSize(itemsize) == if itemsize == 1 then 32 else 16
  {
  }

  function InferShapeNDToZ(dims: Shape): Result<Shape> {
    var d := Widened(dims);
    Ok([Div(d[1] + 15, BLOCKSIZE) * d[2] * d[3], Div(d[0] + 15, BLOCKSIZE), BLOCKSIZE, BLOCKSIZE])
  }

  function InferShapeOfNDHWC(dims: Shape): Result<Shape> {
    if |dims| < 5 then Raised else Ok([dims[0], dims[2], dims[3], dims[4], dims[1]])
  }

  function InferShapeOfNCDHW(dims: Shape): Result<Shape> {
    if |dims| < 5 then Raised else Ok(dims[..5])
  }

  function InferShapeOfNDC1HWC0(dims: Shape): Result<Shape> {
    if |dims| < 5 then Raised
    else Ok([dims[0], dims[2], Blocks(dims[1], BLOCKSIZE), dims[3], dims[4], BLOCKSIZE])
  }

  function InferShapeOfFZ3D(dims: Shape): Result<Shape> {
    if |dims| < 5 then Raised
    else
      var merged := dims[2] * Blocks(dims[1], BLOCKSIZE) * dims[3] * dims[4];
      Ok([merged, Blocks(dims[0], BLOCKSIZE), BLOCKSIZE, BLOCKSIZE])
  }

  function InferShapeOfNCHW(dims: Shape): Result<Shape> {
    if |dims| < 5 then InferShapeLessTo4(dims) else Ok(dims)
  }

  // ----- Converters between the base formats -----

  function InferShapeNCHWToND(storage: Shape, base: Shape): Result<Shape> {
    if |storage| > 4 then Raised
    else
      var cur := Widened(storage);
      if |base| == 0 then InferShapeLessTo4([1])
      else if |base| == 1 then (if cur[0] == 1 && cur[2] == 1 && cur[3] == 1 then Ok([cur[1]]) else Raised)
      else if |base| == 2 then (if cur[0] == 1 && cur[3] == 1 then Ok([cur[1], cur[2]]) else Raised)
      else if |base| == 3 then (if cur[0] == 1 then Ok([cur[1], cur[2], cur[3]]) else Raised)
      else if |base| == 4 then Ok(cur)
      else Raised
  }

  function InferShapeNDToNCHW(storage: Shape, base: Shape): Result<Shape> {
    if |storage| > 4 || |base| > 4 then Raised else InferShapeLessTo4(base)
  }

  function InferShapeNDToNCDHW(storage: Shape): Result<Shape> {
    if |storage| == 5 then Ok(storage) else Raised
  }

  function InferShapeNCDHWToND(storage: Shape): Result<Shape> {
    if |storage| == 5 then Ok(storage) else Raised
  }

  // ----- The format table -----

  function GetBaseFormat(format: AclFormat): Result<AclFormat> {
    match format
    case NC1HWC0 => Ok(NCHW)
    case ND => Ok(ND)
    case NCHW => Ok(NCHW)
    case NHWC => Ok(NHWC)
    case FRACTAL_NZ => Ok(ND)
    case FRACTAL_Z => Ok(NCHW)
    case NDHWC => Ok(NCDHW)
    case NCDHW => Ok(NCDHW)
    case NDC1HWC0 => Ok(NCDHW)
    case FRACTAL_Z_3D => Ok(NCDHW)
    case Unlisted(_) => Raised
  }

  function GetStorageSizes(format: AclFormat, size: Shape, itemsize: nat): Result<Shape> {
    match format
    case NC1HWC0 => InferShape4To5(size)
    case ND => Ok(size)
    case NCHW => InferShapeOfNCHW(size)
    case NHWC => InferShapeOfNHWC(size)
    case FRACTAL_NZ => InferShapeNDToNZ(size, itemsize)
    case FRACTAL_Z => InferShapeNDToZ(size)
    case NDHWC => InferShapeOfNDHWC(size)
    case NCDHW => InferShapeOfNCDHW(size)
    case NDC1HWC0 => InferShapeOfNDC1HWC0(size)
    case FRACTAL_Z_3D => InferShapeOfFZ3D(size)
    case Unlisted(_) => Raised
  }

  // ----- Products -----

  lemma {:induction false} ProductConcat(a: Shape, b: Shape)
    ensures Product(a + b) == Product(a) * Product(b)
  {
    if a == [] {
      assert a + b == b;
    } else {
      assert (a + b)[1..] == a[1..] + b;
      ProductConcat(a[1..], b);
      assert Product(a + b) == a[0] * (Product(a[1..]) * Product(b));
      Associate(a[0], Product(a[1..]), Product(b));
    }
  }

  lemma Associate(x: int, y: int, z: int)
    ensures x * (y * z) == (x * y) * z
  {
  }

  lemma Product2(a: int, b: int)
    ensures Product([a, b]) == a * b
  {
    ProductCons(b, []);
    ProductCons(a, [b]);
    assert [a, b] == [a] + [b] && [b] == [b] + [];
  }

  lemma ProductCons(a: int, s: Shape)
    ensures Product([a] + s) == a * Product(s)
  {
    assert ([a] + s)[1..] == s;
  }

  lemma Product4(a: int, b: int, c: int, d: int)
    ensures Product([a, b, c, d]) == a * b * c * d
  {
    Product2(c, d);
    ProductCons(b, [c, d]);
    ProductCons(a, [b, c, d]);
    assert [a, b, c, d] == [a] + [b, c, d] && [b, c, d] == [b] + [c, d];
    Associate(a, b, c * d);
    Associate(a * b, c, d);
  }

  lemma {:induction false} ProductNonNegative(s: Shape)
    requires NonNegative(s)
    ensures Product(s) >= 0
    ensures Product(s) == 0 <==> 0 in s
  {
    if s != [] {
      ProductNonNegative(s[1..]);
      assert s == [s[0]] + s[1..];
    }
  }

  lemma ScaleMonotone(a: int, x: int, y: int)
    requires 0 <= a && x <= y
    ensures a * x <= a * y
    ensures a > 0 && a * x == a * y ==> x == y
  {
    Distribute(y, x, a);
    if a > 0 && x < y {
      AtLeastOneMultiple(a, y - x);
    }
  }

  lemma TimesMonotone(a: int, b: int, x: int, y: int)
    requires 0 <= a <= b && 0 <= x <= y
    ensures a * x <= b * y
    ensures a > 0 && x > 0 && a * x == b * y ==> a == b && x == y
  {
    ScaleMonotone(a, x, y);
    ScaleMonotone(y, a, b);
  }

  /** Enlarging dimensions enlarges the product, strictly so unless it is zero. */
  lemma {:induction false} ProductMonotone(s: Shape, t: Shape)
    requires |s| == |t| && NonNegative(s)
    requires forall i :: 0 <= i < |s| ==> s[i] <= t[i]
    ensures Product(s) <= Product(t)
    ensures 0 !in s && Product(s) == Product(t) ==> s == t
  {
    if s != [] {
      ProductMonotone(s[1..], t[1..]);
      ProductNonNegative(s[1..]);
      TimesMonotone(s[0], t[0], Product(s[1..]), Product(t[1..]));
      assert s == [s[0]] + s[1..] && t == [t[0]] + t[1..];
    }
  }

  // ----- Padded storage covers the tensor, and is tight -----

  /** The formats that pad, and the ranks they are meant for. */
  predicate PaddedFor(format: AclFormat, rank: nat) {
    match format
    case NC1HWC0 => rank <= 4
    case FRACTAL_Z => rank <= 4
    case FRACTAL_NZ => true
    case NDC1HWC0 => rank == 5
    case FRACTAL_Z_3D => rank == 5
    case _ => false
  }

  /** The dimensions before padding, as the format sees them. */
  function BaseDims(format: AclFormat, dims: Shape): Shape {
    match format
    case NC1HWC0 => Widened(dims)
    case FRACTAL_Z => Widened(dims)
    case FRACTAL_NZ => PaddedTo2(dims)
    case _ => dims
  }

  /** The block size of dimension i among rank dimensions; 1 where nothing is padded. */
  function BlockOf(format: AclFormat, itemsize: nat, i: int, rank: int): (b: int)
    requires itemsize != 0
    ensures b >= 1
  {
    match format
    case NC1HWC0 => if i == 1 then 16 else 1
    case FRACTAL_Z => if i == 0 || i == 1 then 16 else 1
    case FRACTAL_NZ => if i == rank - 1 then LastSize(itemsize) else if i == rank - 2 then 16 else 1
    case NDC1HWC0 => if i == 1 then 16 else 1
    case FRACTAL_Z_3D => if i == 0 || i == 1 then 16 else 1
    case _ => 1
  }

  /** The least multiple of b that is at least x. */
  function RoundUp(x: int, b: int): (r: int)
    requires x >= 0 && b >= 1
    ensures x <= r < x + b && r % b == 0
    ensures r == x <==> x % b == 0
  {
    RoundUpFacts(x, b);
    Blocks(x, b) * b
  }

  lemma RoundUpFacts(x: int, b: int)
    requires x >= 0 && b >= 1
    ensures x <= Blocks(x, b) * b < x + b
    ensures (Blocks(x, b) * b) % b == 0
    ensures Blocks(x, b) * b == x <==> x % b == 0
  {
    var q := (x + b - 1) / b;
    assert x + b - 1 == q * b + (x + b - 1) % b;
    UniqueRemainder(q * b, b, q, 0);
    if x % b == 0 {
      UniqueRemainder(x + b - 1, b, x / b, b - 1);
    }
  }

  /** The base dimensions with every blocked one rounded up to its block. */
  function Rounded(format: AclFormat, dims: Shape, itemsize: nat): Shape
    requires itemsize != 0 && NonNegative(dims)
  {
    var base := BaseDims(format, dims);
    seq(|base|, i requires 0 <= i < |base| => RoundUp(base[i], BlockOf(format, itemsize, i, |base|)))
  }

  lemma RoundedProduct(format: AclFormat, dims: Shape, itemsize: nat)
    requires PaddedFor(format, |dims|) && itemsize != 0 && NonNegative(dims)
    requires GetStorageSizes(format, dims, itemsize).Ok?
    ensures Product(GetStorageSizes(format, dims, itemsize).value) == Product(Rounded(format, dims, itemsize))
  {
    match format
    case NC1HWC0 => Rounded5D(dims, itemsize);
    case FRACTAL_Z => RoundedZ(dims, itemsize);
    case FRACTAL_NZ => RoundedNZ(dims, itemsize);
    case NDC1HWC0 => Rounded6D(dims, itemsize);
    case FRACTAL_Z_3D => RoundedZ3D(dims, itemsize);
  }

  /** Inside its ranks, every padded format stores exactly the base shape with its
      blocked dimensions rounded up, and the base shape has as many elements as the
      tensor. */
  lemma PaddedStorageIsRounded(format: AclFormat, dims: Shape, itemsize: nat)
    requires PaddedFor(format, |dims|) && itemsize != 0 && NonNegative(dims)
    ensures var storage := GetStorageSizes(format, dims, itemsize);
            storage.Ok? && Product(storage.value) == Product(Rounded(format, dims, itemsize))
    ensures Product(BaseDims(format, dims)) == Product(dims)
  {
    BaseKeepsProduct(format, dims);
    StorageRaisesExactly(format, dims, itemsize);
    RoundedProduct(format, dims, itemsize);
  }

  lemma BaseKeepsProduct(format: AclFormat, dims: Shape)
    requires PaddedFor(format, |dims|)
    ensures Product(BaseDims(format, dims)) == Product(dims)
  {
    if (format.NC1HWC0? || format.FRACTAL_Z?) && |dims| < 4 {
      LessTo4KeepsProduct(dims);
    } else if format.FRACTAL_NZ? {
      PaddingTo2KeepsProduct(dims);
    }
  }

  lemma PaddingTo2KeepsProduct(dims: Shape)
    ensures Product(PaddedTo2(dims)) == Product(dims)
  {
    if |dims| == 0 {
      Product2(1, 1);
    } else if |dims| == 1 {
      Product2(dims[0], 1);
      Product1(dims[0]);
      assert dims == [dims[0]];
    }
  }

  lemma Product1(a: int)
    ensures Product([a]) == a
  {
    assert [a][1..] == [];
  }

  /** Widening a shape to four dimensions keeps the number of elements. */
  lemma LessTo4KeepsProduct(dims: Shape)
    requires |dims| <= 4
    ensures InferShapeLessTo4(dims).Ok? && |InferShapeLessTo4(dims).value| == 4
    ensures Product(InferShapeLessTo4(dims).value) == Product(dims)
  {
    if |dims| == 0 {
      Product4(1, 1, 1, 1);
    } else if |dims| == 1 {
      Product4(1, dims[0], 1, 1);
      assert dims == [dims[0]] + [];
      ProductCons(dims[0], []);
    } else if |dims| == 2 {
      Product4(1, dims[0], dims[1], 1);
      assert dims == [dims[0], dims[1]];
      Product2(dims[0], dims[1]);
    } else if |dims| == 3 {
      Product4(1, dims[0], dims[1], dims[2]);
      assert dims == [dims[0]] + [dims[1], dims[2]];
      ProductCons(dims[0], [dims[1], dims[2]]);
      Product2(dims[1], dims[2]);
      Associate(dims[0], dims[1], dims[2]);
    }
  }

  lemma Rounded5D(dims: Shape, itemsize: nat)
    requires |dims| <= 4 && itemsize != 0 && NonNegative(dims)
    ensures Product(InferShape4To5(dims).value) == Product(Rounded(NC1HWC0, dims, itemsize))
  {
    var d := Widened(dims);
    var c := Blocks(d[1], 16);
    assert Rounded(NC1HWC0, dims, itemsize) == [d[0], c * 16, d[2], d[3]];
    Product4(d[0], c * 16, d[2], d[3]);
    assert InferShape4To5(dims).value == [d[0]] + [c, d[2], d[3], 16];
    ProductCons(d[0], [c, d[2], d[3], 16]);
    Product4(c, d[2], d[3], 16);
    Shuffle5(d[0], c, d[2], d[3]);
  }

  /** Folding the blocks of NC1HWC0 back into the channel dimension gives the base shape
      with its channels rounded up, and keeps the storage size. */
  lemma FoldedBlocksAreRounded(dims: Shape)
    requires |dims| == 4 && NonNegative(dims)
    ensures InferShape5To4(dims) == Rounded(NC1HWC0, dims, 1)
    ensures Product(InferShape5To4(dims)) == Product(InferShape4To5(dims).value)
  {
    Rounded5D(dims, 1);
  }

  lemma RoundedZ(dims: Shape, itemsize: nat)
    requires |dims| <= 4 && itemsize != 0 && NonNegative(dims)
    ensures Product(InferShapeNDToZ(dims).value) == Product(Rounded(FRACTAL_Z, dims, itemsize))
  {
    var d := Widened(dims);
    var n, c := Blocks(d[0], 16), Blocks(d[1], 16);
    assert Rounded(FRACTAL_Z, dims, itemsize) == [n * 16, c * 16, d[2], d[3]];
    Product4(n * 16, c * 16, d[2], d[3]);
    Product4(c * d[2] * d[3], n, 16, 16);
    Shuffle(n, c, d[2], d[3]);
  }

  lemma Shuffle5(n: int, c: int, h: int, w: int)
    ensures n * (c * h * w * 16) == n * (c * 16) * h * w
  {
    assert c * h * w * 16 == (c * 16) * (h * w) by {
      Associate(c, h, w);
    }
    Associate(n, c * 16, h * w);
    Associate(n * (c * 16), h, w);
  }

  lemma ShuffleNZ(a: int, b: int, last: int)
    ensures a * b * 16 * last == (b * 16) * (a * last)
  {
    Associate(b * 16, a, last);
    assert (b * 16) * a == a * b * 16;
  }

  lemma Shuffle(n: int, c: int, h: int, w: int)
    ensures (c * h * w) * n * 16 * 16 == (n * 16) * (c * 16) * h * w
  {
    assert (n * 16) * (c * 16) == n * c * 256;
    assert (n * c * 256) * h * w == n * (c * h * w) * 256;
  }

  lemma RoundedNZShape(dims: Shape, itemsize: nat)
    requires itemsize != 0 && NonNegative(dims)
    ensures var d, last := PaddedTo2(dims), LastSize(itemsize);
            Rounded(FRACTAL_NZ, dims, itemsize) ==
            d[..|d| - 2] + [Blocks(d[|d| - 2], 16) * 16, Blocks(d[|d| - 1], last) * last]
  {
  }

  lemma RoundedNZ(dims: Shape, itemsize: nat)
    requires itemsize != 0 && NonNegative(dims)
    ensures Product(InferShapeNDToNZ(dims, itemsize).value) == Product(Rounded(FRACTAL_NZ, dims, itemsize))
  {
    var d := PaddedTo2(dims);
    var m, last := |d| - 2, LastSize(itemsize);
    var a, b := Blocks(d[m + 1], last), Blocks(d[m], 16);
    RoundedNZShape(dims, itemsize);
    ProductConcat(d[..m], [b * 16, a * last]);
    ProductConcat(d[..m], [a, b, 16, last]);
    Product2(b * 16, a * last);
    Product4(a, b, 16, last);
    ShuffleNZ(a, b, last);
  }

  lemma Rounded6D(dims: Shape, itemsize: nat)
    requires |dims| == 5 && itemsize != 0 && NonNegative(dims)
    ensures Product(InferShapeOfNDC1HWC0(dims).value) == Product(Rounded(NDC1HWC0, dims, itemsize))
  {
    var c := Blocks(dims[1], 16);
    assert Rounded(NDC1HWC0, dims, itemsize) == [dims[0]] + [c * 16, dims[2], dims[3], dims[4]];
    ProductCons(dims[0], [c * 16, dims[2], dims[3], dims[4]]);
    Product4(c * 16, dims[2], dims[3], dims[4]);
    assert InferShapeOfNDC1HWC0(dims).value == [dims[0]] + ([dims[2]] + [c, dims[3], dims[4], 16]);
    ProductCons(dims[0], [dims[2]] + [c, dims[3], dims[4], 16]);
    ProductCons(dims[2], [c, dims[3], dims[4], 16]);
    Product4(c, dims[3], dims[4], 16);
    Shuffle6D(c, dims[2], dims[3], dims[4]);
  }

  lemma Shuffle6D(c: int, d: int, h: int, w: int)
    ensures d * (c * h * w * 16) == (c * 16) * d * h * w
  {
    Shuffle5(d, c, h, w);
  }

  lemma RoundedZ3D(dims: Shape, itemsize: nat)
    requires |dims| == 5 && itemsize != 0 && NonNegative(dims)
    ensures Product(InferShapeOfFZ3D(dims).value) == Product(Rounded(FRACTAL_Z_3D, dims, itemsize))
  {
    var n, c := Blocks(dims[0], 16), Blocks(dims[1], 16);
    var d, h, w := dims[2], dims[3], dims[4];
    assert Rounded(FRACTAL_Z_3D, dims, itemsize) == [n * 16] + [c * 16, d, h, w];
    ProductCons(n * 16, [c * 16, d, h, w]);
    Product4(c * 16, d, h, w);
    Product4(d * c * h * w, n, 16, 16);
    Shuffle3D(c, d, h, w);
    Spread(d * c * h * w, n);
  }

  lemma Shuffle3D(c: int, d: int, h: int, w: int)
    ensures (c * 16) * d * h * w == 16 * (d * c * h * w)
  {
    var x := d * c;
    assert (c * 16) * d == 16 * x;
    Associate(16, x, h);
    Associate(16, x * h, w);
  }

  lemma Spread(p: int, n: int)
    ensures p * n * 16 * 16 == (n * 16) * (16 * p)
  {
    var x := p * n;
    assert (n * 16) * (16 * p) == 256 * x;
  }

  /** Every dimension is a whole number of blocks. */
  predicate Blocked(format: AclFormat, base: Shape, itemsize: nat)
    requires itemsize != 0
  {
    forall i :: 0 <= i < |base| ==> base[i] % BlockOf(format, itemsize, i, |base|) == 0
  }

  lemma RoundedUnchangedExactly(format: AclFormat, dims: Shape, itemsize: nat)
    requires itemsize != 0 && NonNegative(dims)
    ensures Rounded(format, dims, itemsize) == BaseDims(format, dims) <==>
              Blocked(format, BaseDims(format, dims), itemsize)
  {
    var base, rounded := BaseDims(format, dims), Rounded(format, dims, itemsize);
    assert forall i :: 0 <= i < |base| ==> rounded[i] == RoundUp(base[i], BlockOf(format, itemsize, i, |base|));
    if Blocked(format, base, itemsize) {
      assert forall i :: 0 <= i < |base| ==> rounded[i] == base[i];
    }
  }

  lemma RoundedKeepsZero(format: AclFormat, dims: Shape, itemsize: nat)
    requires itemsize != 0 && NonNegative(dims) && 0 in BaseDims(format, dims)
    ensures 0 in Rounded(format, dims, itemsize)
  {
    var base := BaseDims(format, dims);
    var i :| 0 <= i < |base| && base[i] == 0;
    assert Rounded(format, dims, itemsize)[i] == RoundUp(0, BlockOf(format, itemsize, i, |base|)) == 0;
  }

  lemma BaseIsNonNegative(format: AclFormat, dims: Shape)
    requires NonNegative(dims)
    ensures NonNegative(BaseDims(format, dims))
  {
  }

  lemma RoundedCoversTightly(format: AclFormat, dims: Shape, itemsize: nat)
    requires itemsize != 0 && NonNegative(dims)
    ensures var base, rounded := BaseDims(format, dims), Rounded(format, dims, itemsize);
            && Product(rounded) >= Product(base)
            && (Product(rounded) == Product(base) <==> 0 in base || Blocked(format, base, itemsize))
  {
    var base, rounded := BaseDims(format, dims), Rounded(format, dims, itemsize);
    BaseIsNonNegative(format, dims);
    assert forall i :: 0 <= i < |base| ==> rounded[i] == RoundUp(base[i], BlockOf(format, itemsize, i, |base|));
    ProductMonotone(base, rounded);
    ProductNonNegative(base);
    ProductNonNegative(rounded);
    RoundedUnchangedExactly(format, dims, itemsize);
    if 0 in base {
      RoundedKeepsZero(format, dims, itemsize);
    }
  }

  /** Padded storage is never smaller than the tensor, and equally large exactly when
      nothing had to be padded or the tensor is empty. */
  lemma PaddedStorageCoversTightly(format: AclFormat, dims: Shape, itemsize: nat)
    requires PaddedFor(format, |dims|) && itemsize != 0 && NonNegative(dims)
    ensures var storage, base := GetStorageSizes(format, dims, itemsize), BaseDims(format, dims);
            && storage.Ok?
            && Product(storage.value) >= Product(dims)
            && (Product(storage.value) == Product(dims) <==> 0 in base || Blocked(format, base, itemsize))
  {
    PaddedStorageIsRounded(format, dims, itemsize);
    RoundedCoversTightly(format, dims, itemsize);
  }

  /** A format's base format stores the shape that the format pads, unpadded: what is padded
      and what is left when the padding is taken off are the same dimensions.  NZ pads the
      matrix it makes of a short shape, where ND keeps the shape. */
  lemma BaseFormatStoresTheBase(format: AclFormat, dims: Shape, itemsize: nat)
    requires PaddedFor(format, |dims|)
    ensures var base := GetBaseFormat(format);
            && base.Ok? && !PaddedFor(base.value, |dims|)
            && (GetStorageSizes(base.value, dims, itemsize) == Ok(BaseDims(format, dims)) <==>
                  !(format == FRACTAL_NZ && |dims| < 2))
  {
    if |dims| == 5 {
      assert dims[..5] == dims;
    }
  }

  /** The base format is the one whose rank the format works on: NCDHW for the formats cut
      at rank 5, NCHW for those cut at rank 4, ND for NZ; NCHW, NHWC and ND are their own. */
  lemma BaseFormatsExactly(format: AclFormat)
    ensures GetBaseFormat(format) == Ok(NCDHW) <==> Cuts(format) && CutRank(format) == 5
    ensures GetBaseFormat(format) == Ok(NCHW) <==> (Cuts(format) && CutRank(format) == 4) || format == NCHW
    ensures GetBaseFormat(format) == Ok(NHWC) <==> format == NHWC
    ensures GetBaseFormat(format) == Ok(ND) <==> format == ND || format == FRACTAL_NZ
    ensures GetBaseFormat(format).Raised? <==> format.Unlisted?
  {
  }

  /** The formats that do not pad store the shape itself from rank 4 on, channels-last formats
      included except that NDHWC moves the channels behind the rest. */
  lemma PlainStorageIsTheShape(format: AclFormat, dims: Shape, itemsize: nat)
    requires format in {ND, NCHW, NHWC, NCDHW, NDHWC} && CoversAtRank(format, |dims|)
    requires GetStorageSizes(format, dims, itemsize).Ok? && (format == ND || |dims| >= 4)
    ensures var storage := GetStorageSizes(format, dims, itemsize).value;
            && |storage| == |dims|
            && forall i :: 0 <= i < |dims| ==>
                 storage[i] == dims[if format != NDHWC || i == 0 then i else if i == |dims| - 1 then 1 else i + 1]
  {
  }

  // ----- Exactly where storage covers the tensor -----

  /** The formats that look at a fixed number of dimensions and ignore the rest. */
  predicate Cuts(format: AclFormat) {
    format in {NC1HWC0, FRACTAL_Z, NDHWC, NCDHW, NDC1HWC0, FRACTAL_Z_3D}
  }

  function CutRank(format: AclFormat): nat
    requires Cuts(format)
  {
    if format == NC1HWC0 || format == FRACTAL_Z then 4 else 5
  }

  /** Beyond its rank such a format depends on the leading dimensions only. */
  lemma LongShapesAreCut(format: AclFormat, dims: Shape, itemsize: nat)
    requires Cuts(format) && |dims| >= CutRank(format)
    ensures GetStorageSizes(format, dims, itemsize) == GetStorageSizes(format, dims[..CutRank(format)], itemsize)
  {
    assert dims[..CutRank(format)][..CutRank(format)] == dims[..CutRank(format)];
  }

  /** When inference succeeds, the storage has room for every element. */
  ghost predicate Covers(format: AclFormat, dims: Shape, itemsize: nat) {
    GetStorageSizes(format, dims, itemsize).Ok? ==>
      Product(GetStorageSizes(format, dims, itemsize).value) >= Product(dims)
  }

  predicate CoversAtRank(format: AclFormat, rank: nat) {
    Cuts(format) ==> rank <= CutRank(format)
  }

  lemma CoversWithinRank(format: AclFormat, dims: Shape, itemsize: nat)
    requires itemsize != 0 && NonNegative(dims) && CoversAtRank(format, |dims|)
    ensures Covers(format, dims, itemsize)
  {
    if PaddedFor(format, |dims|) {
      PaddedStorageCoversTightly(format, dims, itemsize);
    } else if format == NCHW && |dims| <= 4 {
      LessTo4KeepsProduct(dims);
    } else if format == NDHWC && |dims| == 5 {
      ChannelsLastKeepsProduct(dims);
    } else if format == NCDHW && |dims| == 5 {
      assert dims[..5] == dims;
    }
  }

  lemma ChannelsLastKeepsProduct(dims: Shape)
    requires |dims| == 5
    ensures Product(InferShapeOfNDHWC(dims).value) == Product(dims)
  {
    var head, c, tail := [dims[0]], [dims[1]], dims[2..];
    assert dims == head + (c + tail);
    assert InferShapeOfNDHWC(dims).value == head + (tail + c);
    ProductConcat(head, c + tail);
    ProductConcat(head, tail + c);
    ProductConcat(c, tail);
    ProductConcat(tail, c);
  }

  /** A shape of any rank beyond the cut whose storage is too small: the leading
      dimensions fill their blocks exactly, and the ignored ones are all 2. */
  function TooLong(format: AclFormat, rank: nat): (dims: Shape)
    requires !CoversAtRank(format, rank)
    ensures |dims| == rank && NonNegative(dims)
  {
    Filled(CutRank(format)) + seq(rank - CutRank(format), _ => 2)
  }

  function Filled(rank: nat): (dims: Shape)
    requires rank == 4 || rank == 5
    ensures |dims| == rank && NonNegative(dims)
  {
    if rank == 4 then [16, 16, 1, 1] else [16, 16, 1, 1, 1]
  }

  lemma FilledProduct(rank: nat)
    requires rank == 4 || rank == 5
    ensures Product(Filled(rank)) == 256
  {
    Product4(16, 16, 1, 1);
    if rank == 5 {
      assert Filled(5) == [16, 16, 1, 1] + [1];
      ProductConcat([16, 16, 1, 1], [1]);
      ProductCons(1, []);
      assert [1] == [1] + [];
    }
  }

  lemma {:induction false} ProductOfTwos(n: nat)
    requires n > 0
    ensures Product(seq(n, _ => 2)) >= 2
  {
    var twos := seq(n, _ => 2);
    if n > 1 {
      ProductOfTwos(n - 1);
      assert twos[1..] == seq(n - 1, _ => 2);
    }
  }

  lemma TooLongIsNotCovered(format: AclFormat, rank: nat, itemsize: nat)
    requires itemsize != 0 && !CoversAtRank(format, rank)
    ensures !Covers(format, TooLong(format, rank), itemsize)
  {
    var cut := CutRank(format);
    var dims, twos := TooLong(format, rank), seq(rank - cut, _ => 2);
    FilledProduct(cut);
    ProductOfTwos(rank - cut);
    ProductConcat(Filled(cut), twos);
    assert dims[..cut] == Filled(cut);
    LongShapesAreCut(format, dims, itemsize);
    FilledStorage(format, itemsize);
  }

  /** Full blocks are stored without padding. */
  lemma FilledStorage(format: AclFormat, itemsize: nat)
    requires itemsize != 0 && Cuts(format)
    ensures var storage := GetStorageSizes(format, Filled(CutRank(format)), itemsize);
            storage.Ok? && Product(storage.value) == 256
  {
    var dims := Filled(CutRank(format));
    FilledProduct(CutRank(format));
    if format == NDHWC {
      ChannelsLastKeepsProduct(dims);
    } else if format == NCDHW {
      assert dims[..5] == dims;
    } else {
      PaddedStorageCoversTightly(format, dims, itemsize);
    }
  }

  /** Storage covers every tensor of a rank exactly up to rank 4 for NC1HWC0 and FRACTAL_Z
      and rank 5 for the 3D formats; for the other formats always. */
  lemma CoversExactly(format: AclFormat, rank: nat, itemsize: nat)
    requires itemsize != 0
    ensures (forall dims: Shape :: |dims| == rank && NonNegative(dims) ==> Covers(format, dims, itemsize))
              <==> CoversAtRank(format, rank)
  {
    if CoversAtRank(format, rank) {
      forall dims: Shape | |dims| == rank && NonNegative(dims) ensures Covers(format, dims, itemsize) {
        CoversWithinRank(format, dims, itemsize);
      }
    } else {
      TooLongIsNotCovered(format, rank, itemsize);
    }
  }

  // ----- Round trips between the base formats -----

  /** Widening to NCHW and converting back with the same base shape returns the
      shape for ranks 1 to 4; a scalar comes back as four ones; above 4 it raises. */
  lemma WidenThenNarrow(dims: Shape)
    ensures var wide := InferShapeLessTo4(dims);
            && (wide.Raised? <==> |dims| > 4)
            && (wide.Ok? ==>
                  var back := InferShapeNCHWToND(wide.value, dims);
                  back == if |dims| == 0 then Ok([1, 1, 1, 1]) else Ok(dims))
  {
    if |dims| == 1 {
      assert dims == [dims[0]];
    } else if |dims| == 2 {
      assert dims == [dims[0], dims[1]];
    } else if |dims| == 3 {
      assert dims == [dims[0], dims[1], dims[2]];
    }
  }

  /** ND to NCHW looks at the base shape alone, and NCHW to ND brings it back. */
  lemma BaseSurvivesNCHW(storage: Shape, base: Shape)
    ensures var wide := InferShapeNDToNCHW(storage, base);
            && (wide.Raised? <==> |storage| > 4 || |base| > 4)
            && (wide.Ok? && base != [] ==> InferShapeNCHWToND(wide.value, base) == Ok(base))
  {
    WidenThenNarrow(base);
  }

  /** Narrowing raises exactly when it would erase a dimension other than 1 (or
      the ranks are out of range); when it succeeds no element is lost. */
  lemma NarrowKeepsProduct(storage: Shape, base: Shape)
    ensures InferShapeNCHWToND(storage, base).Ok? <==>
              && |storage| <= 4 && |base| <= 4
              && (1 <= |base| <= 3 ==> Widened(storage)[0] == 1)
              && (1 <= |base| <= 2 ==> Widened(storage)[3] == 1)
              && (|base| == 1 ==> Widened(storage)[2] == 1)
    ensures InferShapeNCHWToND(storage, base).Ok? && base != [] ==>
              |InferShapeNCHWToND(storage, base).value| == |base|
              && Product(InferShapeNCHWToND(storage, base).value) == Product(storage)
    ensures InferShapeNCHWToND(storage, base).Ok? && base == [] ==>
              InferShapeNCHWToND(storage, base).value == [1, 1, 1, 1]
  {
    if |storage| <= 4 {
      LessTo4KeepsProduct(storage);
      var cur := Widened(storage);
      assert cur == InferShapeLessTo4(storage).value;
      assert cur == [cur[0], cur[1], cur[2], cur[3]];
      if InferShapeNCHWToND(storage, base).Ok? && 1 <= |base| <= 3 {
        LessTo4KeepsProduct(InferShapeNCHWToND(storage, base).value);
        assert InferShapeLessTo4(InferShapeNCHWToND(storage, base).value).value == cur;
      }
    }
  }

  /** A shape of rank 5 survives ND to NCDHW and back; other ranks raise. */
  lemma Rank5RoundTrip(dims: Shape)
    ensures InferShapeNDToNCDHW(dims).Raised? <==> |dims| != 5
    ensures |dims| == 5 ==> InferShapeNCDHWToND(InferShapeNDToNCDHW(dims).value) == Ok(dims)
    ensures |dims| == 5 ==> GetStorageSizes(NCDHW, dims, 0) == Ok(dims)
  {
    if |dims| == 5 {
      assert dims[..5] == dims;
    }
  }

  // ----- Repairing a requested format -----

  function GuessFormatUnit(size: Shape, format: AclFormat): Result<(AclFormat, AclFormat)> {
    match GetBaseFormat(format)
    case Raised => Raised
    case Ok(base) =>
      if base == NCDHW && |size| > 4 then Ok((NCDHW, format))
      else if format == ND && |size| == 4 then Ok((NCHW, NCHW))
      else if base == NCDHW && |size| == 4 then Ok((NCHW, NCHW))
      else Ok((base, format))
  }

  function GuessBaseFormat(size: Shape): AclFormat {
    if |size| == 5 then NCDHW else if |size| == 4 then NCHW else ND
  }

  function GuessStorageFormat(size: Shape, format: AclFormat): Result<AclFormat> {
    if format == FRACTAL_NZ && |size| < 2 then Ok(ND)
    else match GetBaseFormat(format)
      case Raised => Raised
      case Ok(base) =>
        if base == format && base == NCDHW then
          Ok(if |size| == 4 then NCHW else if |size| == 5 then NCDHW else ND)
        else if format == NCHW && |size| != 4 then Ok(ND)
        else if |size| == 0 || (|size| == 1 && size[0] == 1 && base == ND) then Ok(ND)
        else Ok(format)
  }

  /** The origin format is always the base of the storage format, and repairing twice
      is repairing once. */
  lemma FormatUnitIsConsistent(size: Shape, format: AclFormat)
    ensures var unit := GuessFormatUnit(size, format);
            && (unit.Raised? <==> format.Unlisted?)
            && (unit.Ok? ==>
                  && GetBaseFormat(unit.value.1) == Ok(unit.value.0)
                  && GuessFormatUnit(size, unit.value.1) == unit)
  {
  }

  /** The repair changes a request exactly at rank 4, for ND and for the 3D formats other
      than those of rank above 4; then both halves are the base format of that rank. */
  lemma FormatUnitChangesExactly(size: Shape, format: AclFormat)
    requires GuessFormatUnit(size, format).Ok?
    ensures var unit := GuessFormatUnit(size, format).value;
            && (unit.1 != format <==> |size| == 4 && (format == ND || GetBaseFormat(format) == Ok(NCDHW)))
            && (unit.1 != format ==> unit == (GuessBaseFormat(size), GuessBaseFormat(size)) == (NCHW, NCHW))
            && (unit.1 == format ==> Ok(unit.0) == GetBaseFormat(format))
  {
  }

  /** The repair of a storage format changes a request exactly when a base format does not
      have the tensor's rank, when NZ is asked for below rank 2, and for scalars; NCDHW
      becomes the base format of the rank, everything else ND. */
  lemma StorageFormatChangesExactly(size: Shape, format: AclFormat)
    requires GuessStorageFormat(size, format).Ok?
    ensures var fixed := GuessStorageFormat(size, format).value;
            && (fixed != format <==>
                  || (format == NCDHW && |size| != 5)
                  || (format == NCHW && |size| != 4)
                  || (format == FRACTAL_NZ && |size| < 2)
                  || (format != ND && |size| == 0))
            && (fixed != format ==> fixed == if format == NCDHW then GuessBaseFormat(size) else ND)
  {
  }

  lemma StorageFormatIsIdempotent(size: Shape, format: AclFormat)
    ensures var fixed := GuessStorageFormat(size, format);
            && (fixed.Raised? <==> format.Unlisted?)
            && (fixed.Ok? ==> GuessStorageFormat(size, fixed.value) == fixed)
  {
  }

  /** When shape inference raises: a matter of format, rank and item size only. */
  lemma StorageRaisesExactly(format: AclFormat, size: Shape, itemsize: nat)
    ensures GetStorageSizes(format, size, itemsize).Raised? <==>
              || format.Unlisted?
              || (format.NHWC? && |size| != 4)
              || (format.FRACTAL_NZ? && itemsize == 0)
              || ((format.NDHWC? || format.NCDHW? || format.NDC1HWC0? || format.FRACTAL_Z_3D?) && |size| < 5)
  {
  }

  /** Shape inference for a repaired storage format raises exactly for NHWC off rank 4,
      for the derived 3D formats at ranks 1 to 4, and for items of size 0 in NZ;
      so never for ND, NCHW, NCDHW, NC1HWC0 or FRACTAL_Z, nor for NZ with real items. */
  lemma RepairedFormatRaisesExactly(format: AclFormat, size: Shape, itemsize: nat)
    requires GuessStorageFormat(size, format).Ok?
    ensures GetStorageSizes(GuessStorageFormat(size, format).value, size, itemsize).Raised? <==>
              || (format.NHWC? && |size| != 0 && |size| != 4)
              || ((format.NDHWC? || format.NDC1HWC0? || format.FRACTAL_Z_3D?) && 0 < |size| < 5)
              || (format.FRACTAL_NZ? && itemsize == 0 && |size| >= 2)
  {
    StorageRaisesExactly(GuessStorageFormat(size, format).value, size, itemsize);
  }

  /** The same for the storage half of GuessFormatUnit, which leaves more formats as
      they were: there 3D formats still raise below rank 4, NCDHW included. */
  lemma FormatUnitRaisesExactly(format: AclFormat, size: Shape, itemsize: nat)
    requires GuessFormatUnit(size, format).Ok?
    ensures GetStorageSizes(GuessFormatUnit(size, format).value.1, size, itemsize).Raised? <==>
              || (format.NHWC? && |size| != 4)
              || (GetBaseFormat(format) == Ok(NCDHW) && |size| < 4)
              || (format.FRACTAL_NZ? && itemsize == 0)
  {
    StorageRaisesExactly(GuessFormatUnit(size, format).value.1, size, itemsize);
  }

  ghost predicate CoversRepaired(format: AclFormat, dims: Shape, itemsize: nat) {
    GuessStorageFormat(dims, format).Ok? ==> Covers(GuessStorageFormat(dims, format).value, dims, itemsize)
  }

  ghost predicate CoversUnit(format: AclFormat, dims: Shape, itemsize: nat) {
    GuessFormatUnit(dims, format).Ok? ==> Covers(GuessFormatUnit(dims, format).value.1, dims, itemsize)
  }

  /** The repair of the storage format helps NCDHW only: it never requests more than the
      rank allows; the other formats that cut are left as they were. */
  lemma RepairedCoversExactly(format: AclFormat, rank: nat, itemsize: nat)
    requires itemsize != 0
    ensures (forall dims: Shape :: |dims| == rank && NonNegative(dims) ==> CoversRepaired(format, dims, itemsize))
              <==> format == NCDHW || CoversAtRank(format, rank)
  {
    if format == NCDHW || CoversAtRank(format, rank) {
      forall dims: Shape | |dims| == rank && NonNegative(dims) ensures CoversRepaired(format, dims, itemsize) {
        if GuessStorageFormat(dims, format).Ok? {
          CoversWithinRank(GuessStorageFormat(dims, format).value, dims, itemsize);
        }
      }
    } else {
      TooLongIsNotCovered(format, rank, itemsize);
      assert GuessStorageFormat(TooLong(format, rank), format) == Ok(format);
      assert !CoversRepaired(format, TooLong(format, rank), itemsize);
    }
  }

  /** GuessFormatUnit helps none of them. */
  lemma UnitCoversExactly(format: AclFormat, rank: nat, itemsize: nat)
    requires itemsize != 0
    ensures (forall dims: Shape :: |dims| == rank && NonNegative(dims) ==> CoversUnit(format, dims, itemsize))
              <==> CoversAtRank(format, rank)
  {
    if CoversAtRank(format, rank) {
      forall dims: Shape | |dims| == rank && NonNegative(dims) ensures CoversUnit(format, dims, itemsize) {
        if GuessFormatUnit(dims, format).Ok? {
          CoversWithinRank(GuessFormatUnit(dims, format).value.1, dims, itemsize);
        }
      }
    } else {
      TooLongIsNotCovered(format, rank, itemsize);
      assert GuessFormatUnit(TooLong(format, rank), format).value.1 == format;
      assert !CoversUnit(format, TooLong(format, rank), itemsize);
    }
  }

  /** The base format guessed from a shape stores it unchanged, and both repairs accept it. */
  lemma GuessedBaseFormatFits(size: Shape, itemsize: nat)
    ensures var format := GuessBaseFormat(size);
            && GetStorageSizes(format, size, itemsize) == Ok(size)
            && GetBaseFormat(format) == Ok(format)
            && GuessFormatUnit(size, format) == Ok((format, format))
            && GuessStorageFormat(size, format) == Ok(format)
  {
    if |size| == 5 {
      assert size[..5] == size;
    }
  }

  // ----- The same computed step by step -----

  method ComputeND(dims: Shape) returns (res: Shape)
    ensures Ok(res) == GetStorageSizes(ND, dims, 0)
  {
    res := seq(|dims|, _ => 0);
    for j := 0 to |dims|
      invariant |res| == |dims| && res[..j] == dims[..j]
    {
      res := res[j := dims[j]];
    }
    assert res == dims;
  }

  method ComputeNDToNZ(dims: Shape, itemsize: nat) returns (r: Result<Shape>)
    ensures r == InferShapeNDToNZ(dims, itemsize)
  {
    var dim: Shape := [];
    for i := 0 to |dims|
      invariant dim == dims[..i]
    {
      dim := dim + [dims[i]];
    }
    if |dim| == 0 {
      dim := dim + [1];
    }
    if |dim| == 1 {
      dim := dim + [1];
    }
    assert dim == PaddedTo2(dims);
    var res: Shape := [];
    var i := 0;
    while i < |dim| - 2
      invariant 0 <= i <= |dim| - 2 && res == dim[..i]
    {
      res := res + [dim[i]];
      i := i + 1;
    }
    if itemsize == 0 {
      return Raised;
    }
    var lastSize := BLOCKBYTES / (if itemsize > 2 then 2 else itemsize);
    res := res + [Div(dim[i + 1] + lastSize - 1, lastSize)];
    res := res + [Div(dim[i] + BLOCKSIZE - 1, BLOCKSIZE)];
    res := res + [BLOCKSIZE];
    res := res + [lastSize];
    assert res == InferShapeNDToNZ(dims, itemsize).value;
    r := Ok(res);
  }

  /** Before a conversion, short ND shapes are given rank 2; no element is added. */
  method GuessStorageSizeWhenConvertFormat(format: AclFormat, baseSizes: Shape, itemsize: nat)
    returns (r: Result<Shape>)
    ensures r == GetStorageSizes(format, if format == ND then PaddedTo2(baseSizes) else baseSizes, itemsize)
    ensures format == ND ==> r.Ok? && Product(r.value) == Product(baseSizes)
  {
    var size := baseSizes;
    if |size| < 2 && format == ND {
      while true
        invariant |size| < 2
        invariant size == baseSizes || (baseSizes == [] && size == [1])
        decreases 2 - |size|
      {
        size := size + [1];
        if |size| >= 2 {
          break;
        }
      }
    }
    assert format == ND ==> size == PaddedTo2(baseSizes);
    BaseKeepsProduct(FRACTAL_NZ, baseSizes);
    r := GetStorageSizes(format, size, itemsize);
  }

  /** The part of a storage descriptor the in-place cast touches. */
  class StorageDesc {
    var npuFormat: AclFormat
    var storageSizes: Shape
    const baseSizes: Shape

    constructor (format: AclFormat, storage: Shape, base: Shape)
      ensures npuFormat == format && storageSizes == storage && baseSizes == base
    {
      npuFormat, storageSizes, baseSizes := format, storage, base;
    }

    /** Relabels between ND and NC1HWC0; any other pair changes nothing. */
    method UnsafeFormatCast(sizes: Shape, selfFormat: AclFormat, resultFormat: AclFormat)
      modifies this
      ensures selfFormat == ND && resultFormat == NC1HWC0 ==>
                npuFormat == NC1HWC0 && Ok(storageSizes) == GetStorageSizes(NC1HWC0, sizes, 1)
      ensures selfFormat == NC1HWC0 && resultFormat == ND ==> npuFormat == ND && storageSizes == baseSizes
      ensures !((selfFormat == ND && resultFormat == NC1HWC0) || (selfFormat == NC1HWC0 && resultFormat == ND)) ==>
                unchanged(this)
    {
      if selfFormat == ND && resultFormat == NC1HWC0 {
        storageSizes := InferShape4To5(sizes).value;
        npuFormat := NC1HWC0;
      } else if selfFormat == NC1HWC0 && resultFormat == ND {
        storageSizes := baseSizes;
        npuFormat := ND;
      }
    }
  }
}
