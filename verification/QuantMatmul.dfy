/** Shape and dtype inference of the quantised matrix product. */
module QuantMatmul {

  datatype DType = Int8 | Int32 | Int64 | Float16 | Float32 | BFloat16 | OtherDType

  datatype Option<T> = None | Some(value: T)

  datatype Result<T> = Ok(value: T) | Raised

  type Shape = seq<nat>

  datatype Tensor = Tensor(shape: Shape, dtype: DType)

  /** A call; the output dtype is optional, and so are three of the operands. */
  datatype Call = Call(x1: Tensor, x2: Tensor, scale: Tensor, offset: Option<Tensor>,
                       pertoken: Option<Tensor>, bias: Option<Tensor>, output: Option<DType>)

  // ----- Broadcasting -----

  function Max(a: nat, b: nat): nat {
    if a >= b then a else b
  }

  function Product(dims: Shape): nat {
    if dims == [] then 1 else Product(dims[..|dims| - 1]) * dims[|dims| - 1]
  }

  lemma ProductAppend(dims: Shape, d: nat)
    ensures Product(dims + [d]) == Product(dims) * d
  {
    assert (dims + [d])[..|dims|] == dims;
  }

  /** The size k places from the right; absent sizes count as 1. */
  function At(s: Shape, k: nat): nat {
    if k < |s| then s[|s| - 1 - k] else 1
  }

  /** The batch sizes: all but the last two. */
  function Batch(s: Shape): Shape {
    if |s| >= 2 then s[..|s| - 2] else []
  }

  /** PyTorch's broadcast of two right-aligned shapes: sizes agree or one of them is 1. */
  function Broadcast(a: Shape, b: Shape): Result<Shape>
    decreases |a|
  {
    if a == [] then Ok(b)
    else if b == [] then Ok(a)
    else
      var x, y := a[|a| - 1], b[|b| - 1];
      var rest := Broadcast(a[..|a| - 1], b[..|b| - 1]);
      if rest.Raised? || !(x == y || x == 1 || y == 1) then Raised
      else Ok(rest.value + [if x == 1 then y else x])
  }

  /** Two sizes above 1 differ at place k. */
  predicate ClashAt(a: Shape, b: Shape, k: nat) {
    At(a, k) > 1 && At(b, k) > 1 && At(a, k) != At(b, k)
  }

  predicate Clash(a: Shape, b: Shape) {
    exists k :: 0 <= k < Max(|a|, |b|) && ClashAt(a, b, k)
  }

  /** Exactly one of the two sizes at place k is zero. */
  predicate LoneZeroAt(a: Shape, b: Shape, k: nat) {
    (At(a, k) == 0) != (At(b, k) == 0)
  }

  predicate LoneZero(a: Shape, b: Shape) {
    exists k :: 0 <= k < Max(|a|, |b|) && LoneZeroAt(a, b, k)
  }

  /** Every place takes the larger size. */
  ghost predicate IsLargest(a: Shape, b: Shape, r: Shape) {
    |r| == Max(|a|, |b|) && forall k :: 0 <= k < |r| ==> At(r, k) == Max(At(a, k), At(b, k))
  }

  /** The sizes at place k agree, or one of them is 1. */
  predicate FitAt(a: Shape, b: Shape, k: nat) {
    At(a, k) == At(b, k) || At(a, k) == 1 || At(b, k) == 1
  }

  /** Broadcasting succeeds exactly when the sizes fit at every place, and then every
      place takes the size that is not 1. */
  lemma {:induction false} BroadcastMeans(a: Shape, b: Shape)
    ensures Broadcast(a, b).Ok? <==> forall k :: 0 <= k < Max(|a|, |b|) ==> FitAt(a, b, k)
    ensures Broadcast(a, b).Ok? ==>
              var r := Broadcast(a, b).value;
              && |r| == Max(|a|, |b|)
              && forall k :: 0 <= k < |r| ==> At(r, k) == if At(a, k) == 1 then At(b, k) else At(a, k)
    decreases |a|
  {
    if a != [] && b != [] {
      var a', b' := a[..|a| - 1], b[..|b| - 1];
      BroadcastMeans(a', b');
      forall k: nat ensures At(a, k + 1) == At(a', k) && At(b, k + 1) == At(b', k) {
      }
      if forall k :: 0 <= k < Max(|a|, |b|) ==> FitAt(a, b, k) {
        forall k | 0 <= k < Max(|a'|, |b'|) ensures FitAt(a', b', k) {
          assert FitAt(a, b, k + 1);
        }
        assert FitAt(a, b, 0);
      }
      if Broadcast(a, b).Ok? {
        forall k | 0 <= k < Max(|a|, |b|)
          ensures FitAt(a, b, k)
          ensures At(Broadcast(a, b).value, k) == if At(a, k) == 1 then At(b, k) else At(a, k)
        {
          if k > 0 {
            assert FitAt(a', b', k - 1);
            assert At(Broadcast(a, b).value, k) == At(Broadcast(a', b').value, k - 1);
          }
        }
      }
    }
  }

  lemma SamePlacesSameShape(r: Shape, s: Shape)
    requires |r| == |s| && forall k :: 0 <= k < |r| ==> At(r, k) == At(s, k)
    ensures r == s
  {
    forall i | 0 <= i < |r| ensures r[i] == s[i] {
      assert At(r, |r| - 1 - i) == At(s, |r| - 1 - i);
    }
  }

  /** The batch inference agrees with broadcasting, errors included, exactly when two
      sizes clash or no size 0 meets another size. */
  lemma AgreesWithBroadcastExactly(a: Shape, b: Shape, r: Shape)
    requires IsLargest(a, b, r)
    ensures (if Clash(a, b) then Raised else Ok(r)) == Broadcast(a, b) <==> Clash(a, b) || !LoneZero(a, b)
  {
    BroadcastMeans(a, b);
    if Clash(a, b) {
      var k :| 0 <= k < Max(|a|, |b|) && ClashAt(a, b, k);
      assert !FitAt(a, b, k);
    } else if LoneZero(a, b) {
      var k :| 0 <= k < Max(|a|, |b|) && LoneZeroAt(a, b, k);
      if Broadcast(a, b).Ok? {
        assert FitAt(a, b, k);
        assert At(r, k) == 1 && At(Broadcast(a, b).value, k) == 0;
      }
    } else {
      forall k | 0 <= k < Max(|a|, |b|)
        ensures FitAt(a, b, k)
      {
        assert !ClashAt(a, b, k) && !LoneZeroAt(a, b, k);
      }
      forall k | 0 <= k < |r| ensures At(r, k) == At(Broadcast(a, b).value, k) {
        assert !ClashAt(a, b, k) && !LoneZeroAt(a, b, k);
      }
      SamePlacesSameShape(r, Broadcast(a, b).value);
    }
  }

  /** An empty batch against a batch of 5: accepted with batch 5, though no broadcast exists;
      against a batch of 1 it is given one matrix instead of none. */
  lemma LoneZeroIsAccepted()
    ensures !Clash([0], [5]) && IsLargest([0], [5], [5]) && Broadcast([0], [5]).Raised?
    ensures !Clash([0], [1]) && IsLargest([0], [1], [1]) && Broadcast([0], [1]) == Ok([0])
  {
    assert At([0], 0) == 0 && At([5], 0) == 5 && At([1], 0) == 1;
    BroadcastMeans([0], [5]);
    assert !FitAt([0], [5], 0);
    BroadcastMeans([0], [1]);
    assert FitAt([0], [1], 0);
    SamePlacesSameShape(Broadcast([0], [1]).value, [0]);
  }

  /** The size of the shorter operand above position i of the longer one. */
  function ShortDim(short: Shape, offset: nat, i: nat): nat
    requires i < offset + |short|
  {
    if i < offset then 1 else short[i - offset]
  }

  predicate PairClashes(x: nat, y: nat) {
    x > 1 && y > 1 && x != y
  }

  /** Position i from the left is place n - 1 - i from the right. */
  lemma PlaceOf(long: Shape, short: Shape, i: nat)
    requires |short| <= |long| && i < |long| - 2
    ensures var k := |Batch(long)| - 1 - i;
            && 0 <= k < Max(|Batch(long)|, |Batch(short)|)
            && At(Batch(long), k) == long[i]
            && At(Batch(short), k) == ShortDim(short, |long| - |short|, i)
  {
  }

  lemma AllPlaces(long: Shape, short: Shape, dims: Shape)
    requires |short| <= |long| && |dims| == |Batch(long)|
    requires forall i :: 0 <= i < |dims| ==> !PairClashes(ShortDim(short, |long| - |short|, i), long[i])
    requires forall i :: 0 <= i < |dims| ==> dims[i] == Max(ShortDim(short, |long| - |short|, i), long[i])
    ensures !Clash(Batch(long), Batch(short)) && IsLargest(Batch(long), Batch(short), dims)
  {
    forall k | 0 <= k < |dims|
      ensures !ClashAt(Batch(long), Batch(short), k)
      ensures At(dims, k) == Max(At(Batch(long), k), At(Batch(short), k))
    {
      PlaceOf(long, short, |dims| - 1 - k);
    }
  }

  lemma Symmetric(a: Shape, b: Shape)
    ensures Clash(a, b) <==> Clash(b, a)
  {
    if Clash(a, b) {
      var k :| 0 <= k < Max(|a|, |b|) && ClashAt(a, b, k);
      assert ClashAt(b, a, k);
    }
    if Clash(b, a) {
      var k :| 0 <= k < Max(|a|, |b|) && ClashAt(b, a, k);
      assert ClashAt(a, b, k);
    }
  }

  /** The loop over the leading sizes: the batch sizes and their product. */
  method InferBatch(x1: Shape, x2: Shape) returns (r: Result<Shape>, batchVal: nat)
    ensures r.Raised? <==> Clash(Batch(x1), Batch(x2))
    ensures r.Ok? ==> IsLargest(Batch(x1), Batch(x2), r.value) && batchVal == Product(r.value)
  {
    var long := if |x1| > |x2| then x1 else x2;
    var short := if |x1| > |x2| then x2 else x1;
    var validOffset := |long| - |short|;
    Symmetric(Batch(x1), Batch(x2));
    batchVal := 1;
    var dims: Shape := [];
    var i := 0;
    while i < |long| - 2
      invariant 0 <= i <= |Batch(long)| && |dims| == i
      invariant forall j :: 0 <= j < i ==> !PairClashes(ShortDim(short, validOffset, j), long[j])
      invariant forall j :: 0 <= j < i ==> dims[j] == Max(ShortDim(short, validOffset, j), long[j])
      invariant batchVal == Product(dims)
    {
      var shortDim := ShortDim(short, validOffset, i);
      var longDim := long[i];
      if PairClashes(shortDim, longDim) {
        PlaceOf(long, short, i);
        assert ClashAt(Batch(long), Batch(short), |Batch(long)| - 1 - i);
        return Raised, batchVal;
      }
      var cur := Max(shortDim, longDim);
      ProductAppend(dims, cur);
      batchVal := batchVal * cur;
      dims := dims + [cur];
      i := i + 1;
    }
    AllPlaces(long, short, dims);
    r := Ok(dims);
  }

  // ----- The checks -----

  predicate BiasShapeCheck(x2: Shape, bias: Shape, batchVal: nat)
    requires |x2| >= 2
  {
    var n := x2[|x2| - 1];
    if |bias| == 1 then bias[0] == n
    else |bias| == 3 && bias[0] == batchVal && bias[1] == 1 && bias[2] == n
  }

  predicate ShapeCheck(c: Call) {
    var x1, x2 := c.x1.shape, c.x2.shape;
    && 2 <= |x1| <= 6 && 2 <= |x2| <= 6
    && At(x1, 0) == At(x2, 1)
    && (c.offset.Some? ==> VectorOf(c.offset.value.shape, At(x2, 0)))
    && (c.pertoken.Some? ==> c.pertoken.value.shape == [At(x1, 1)])
    && VectorOf(c.scale.shape, At(x2, 0))
  }

  predicate VectorOf(s: Shape, n: nat) {
    |s| == 1 && (s[0] == 1 || s[0] == n)
  }

  predicate DtypeCheck(c: Call) {
    && c.x1.dtype == Int8 && c.x2.dtype == Int8
    && c.scale.dtype in {Float32, Int64, BFloat16}
    && (c.offset.Some? ==> c.offset.value.dtype == Float32)
    && (c.pertoken.Some? ==> c.pertoken.value.dtype == Float32)
    && (c.bias.Some? ==> c.bias.value.dtype == Int32 || c.bias.value.dtype == BFloat16)
  }

  predicate ScaleOffsetOutCheck(c: Call) {
    && (c.scale.dtype == BFloat16 ==> c.output == Some(BFloat16))
    && (c.output == Some(BFloat16) ==> c.scale.dtype == BFloat16)
    && (c.offset.Some? ==> c.output == None || c.output == Some(Int8))
    && (c.pertoken.Some? ==>
          && (c.output == Some(Float16) ==> c.scale.dtype == Float32)
          && (c.output == Some(Float16) || c.output == Some(BFloat16)))
  }

  /** The output: dtype int8 unless asked otherwise. */
  function OutputDtype(c: Call): DType {
    if c.output == None then Int8 else c.output.value
  }

  /** The dtypes the operator takes, output dtype by output dtype. */
  predicate DtypeTable(c: Call) {
    && c.x1.dtype == Int8 && c.x2.dtype == Int8
    && match OutputDtype(c)
       case Int8 =>
         && c.scale.dtype in {Float32, Int64} && c.pertoken == None
         && (c.offset == None || c.offset.value.dtype == Float32)
         && (c.bias == None || c.bias.value.dtype == Int32)
       case Float16 =>
         && c.offset == None
         && (if c.pertoken == None then c.scale.dtype in {Float32, Int64}
             else c.scale.dtype == Float32 && c.pertoken.value.dtype == Float32)
         && (c.bias == None || c.bias.value.dtype == Int32)
       case BFloat16 =>
         && c.offset == None && c.scale.dtype == BFloat16
         && (c.pertoken == None || c.pertoken.value.dtype == Float32)
         && (c.bias == None || c.bias.value.dtype in {Int32, BFloat16})
       case _ => false
  }

  /** The shapes the operator takes: 2 to 6 dimensions, equal inner sizes, batches that do
      not clash, and operands that fit the last sizes; a bias of rank 3 needs a result of
      rank 3. */
  predicate ShapesFit(c: Call) {
    var x1, x2 := c.x1.shape, c.x2.shape;
    && |x1| in {2, 3, 4, 5, 6} && |x2| in {2, 3, 4, 5, 6}
    && x1[|x1| - 1] == x2[|x2| - 2]
    && !Clash(Batch(x1), Batch(x2))
    && var m, n := x1[|x1| - 2], x2[|x2| - 1];
       && (c.scale.shape == [1] || c.scale.shape == [n])
       && (c.offset.Some? ==> c.offset.value.shape == [1] || c.offset.value.shape == [n])
       && (c.pertoken.Some? ==> c.pertoken.value.shape == [m])
       && (c.bias.Some? ==> BiasFits(c, c.bias.value.shape))
  }

  predicate BiasFits(c: Call, bias: Shape)
    requires |c.x2.shape| >= 2
  {
    var n := c.x2.shape[|c.x2.shape| - 1];
    || bias == [n]
    || (&& Max(|c.x1.shape|, |c.x2.shape|) == 3
        && bias == [Max(At(c.x1.shape, 2), At(c.x2.shape, 2)), 1, n])
  }

  lemma BiasCheckedExactly(c: Call, bias: Shape, batch: Shape)
    requires ShapeCheck(c) && IsLargest(Batch(c.x1.shape), Batch(c.x2.shape), batch)
    ensures BiasFits(c, bias) <==>
              (|bias| == 3 ==> |batch| + 2 == 3) && BiasShapeCheck(c.x2.shape, bias, Product(batch))
  {
    if |batch| == 1 {
      assert At(batch, 0) == Max(At(c.x1.shape, 2), At(c.x2.shape, 2)) by {
        assert At(Batch(c.x1.shape), 0) == At(c.x1.shape, 2);
        assert At(Batch(c.x2.shape), 0) == At(c.x2.shape, 2);
      }
      assert batch[..0] == [] && Product([]) == 1;
      assert Product(batch) == batch[0];
    }
  }

  /** The dtype checks, the one on the bias included, are the table. */
  lemma ChecksAreTheTable(c: Call)
    ensures DtypeTable(c) <==>
              && DtypeCheck(c) && ScaleOffsetOutCheck(c)
              && (c.bias.Some? && c.bias.value.dtype == BFloat16 ==> c.output == Some(BFloat16))
              && OutputDtype(c) in {Int8, Float16, BFloat16}
  {
  }

  lemma ChecksAreTheFit(c: Call, batch: Shape)
    requires IsLargest(Batch(c.x1.shape), Batch(c.x2.shape), batch)
    ensures ShapesFit(c) <==>
              && ShapeCheck(c) && !Clash(Batch(c.x1.shape), Batch(c.x2.shape))
              && (c.bias.Some? ==>
                    && (|c.bias.value.shape| == 3 ==> |batch| + 2 == 3)
                    && BiasShapeCheck(c.x2.shape, c.bias.value.shape, Product(batch)))
  {
    if ShapeCheck(c) && c.bias.Some? {
      BiasCheckedExactly(c, c.bias.value.shape, batch);
    }
  }

  /** The batch sizes followed by the rows of x1 and the columns of x2. */
  lemma ResultParts(x1: Shape, x2: Shape, batch: Shape)
    requires |x1| >= 2 && |x2| >= 2
    ensures var dims := batch + [x1[|x1| - 2], x2[|x2| - 1]];
            Batch(dims) == batch && At(dims, 1) == At(x1, 1) && At(dims, 0) == At(x2, 0)
  {
  }

  /** The operator succeeds exactly for fitting shapes and dtypes of the table; the result
      then has the inferred batch sizes, the rows of x1 and the columns of x2. */
  method NpuQuantMatmul(c: Call) returns (r: Result<Tensor>)
    ensures r.Ok? <==> ShapesFit(c) && DtypeTable(c)
    ensures r.Ok? ==>
              && r.value.dtype == OutputDtype(c)
              && |r.value.shape| >= 2
              && IsLargest(Batch(c.x1.shape), Batch(c.x2.shape), Batch(r.value.shape))
              && At(r.value.shape, 1) == At(c.x1.shape, 1) && At(r.value.shape, 0) == At(c.x2.shape, 0)
  {
    var x1, x2 := c.x1.shape, c.x2.shape;
    var batch, batchVal := InferBatch(x1, x2);
    if batch.Raised? || !ShapeCheck(c) {
      return Raised;
    }
    ChecksAreTheFit(c, batch.value);
    ChecksAreTheTable(c);
    var dims := batch.value + [x1[|x1| - 2], x2[|x2| - 1]];
    ResultParts(x1, x2, batch.value);
    if c.bias.Some? {
      var bias := c.bias.value;
      if bias.dtype == BFloat16 && c.output != Some(BFloat16) {
        return Raised;
      }
      if |bias.shape| == 3 && |dims| != 3 {
        return Raised;
      }
      if !BiasShapeCheck(x2, bias.shape, batchVal) {
        return Raised;
      }
    }
    if !DtypeCheck(c) || !ScaleOffsetOutCheck(c) {
      return Raised;
    }
    if c.output == Some(Float16) {
      r := Ok(Tensor(dims, Float16));
    } else if c.output == Some(BFloat16) {
      r := Ok(Tensor(dims, BFloat16));
    } else if c.output == None || c.output == Some(Int8) {
      r := Ok(Tensor(dims, Int8));
    } else {
      r := Raised;
    }
  }

  // ----- What an accepted call means -----

  /** PyTorch's shape of a product of stacks of matrices. */
  function MatmulShape(a: Shape, b: Shape): Result<Shape> {
    if |a| < 2 || |b| < 2 || a[|a| - 1] != b[|b| - 2] then Raised
    else
      match Broadcast(a[..|a| - 2], b[..|b| - 2])
      case Ok(batch) => Ok(batch + [a[|a| - 2], b[|b| - 1]])
      case Raised => Raised
  }

  /** The result has the shape of PyTorch's product exactly when no batch size 0 meets
      another size; out is the shape the operator answers. */
  lemma ResultIsMatmulShapeExactly(c: Call, out: Shape)
    requires ShapesFit(c) && |out| >= 2
    requires IsLargest(Batch(c.x1.shape), Batch(c.x2.shape), Batch(out))
    requires At(out, 1) == At(c.x1.shape, 1) && At(out, 0) == At(c.x2.shape, 0)
    ensures MatmulShape(c.x1.shape, c.x2.shape) == Ok(out) <==> !LoneZero(Batch(c.x1.shape), Batch(c.x2.shape))
  {
    var x1, x2 := c.x1.shape, c.x2.shape;
    AgreesWithBroadcastExactly(Batch(x1), Batch(x2), Batch(out));
    assert out == Batch(out) + [x1[|x1| - 2], x2[|x2| - 1]];
    if MatmulShape(x1, x2) == Ok(out) {
      assert Batch(out) == Broadcast(Batch(x1), Batch(x2)).value;
    }
  }

  /** s broadcasts onto the shape out, which keeps its own sizes. */
  ghost predicate FitsOnto(s: Shape, out: Shape) {
    Broadcast(s, out) == Ok(out)
  }

  lemma FitsOntoWhen(s: Shape, out: Shape)
    requires |s| <= |out| && forall k :: 0 <= k < |s| ==> At(s, k) == 1 || At(s, k) == At(out, k)
    ensures FitsOnto(s, out)
  {
    BroadcastMeans(s, out);
    if Broadcast(s, out).Ok? {
      forall k | 0 <= k < |out| ensures At(Broadcast(s, out).value, k) == At(out, k) {
      }
      SamePlacesSameShape(Broadcast(s, out).value, out);
    }
  }

  /** The batch size of a result of rank 3. */
  lemma BatchOfRank3(a: Shape, b: Shape, out: Shape)
    requires 2 <= |a| <= 3 && 2 <= |b| <= 3 && |out| == 3 && IsLargest(Batch(a), Batch(b), Batch(out))
    ensures At(out, 2) == Max(At(a, 2), At(b, 2))
  {
    assert At(Batch(out), 0) == At(out, 2);
    assert At(Batch(a), 0) == At(a, 2) && At(Batch(b), 0) == At(b, 2);
  }

  lemma VectorFitsOnto(n: nat, s: Shape, out: Shape)
    requires |out| >= 2 && At(out, 0) == n && (s == [1] || s == [n])
    ensures FitsOnto(s, out)
  {
    FitsOntoWhen(s, out);
  }

  lemma ColumnFitsOnto(m: nat, s: Shape, out: Shape)
    requires |out| >= 2 && At(out, 1) == m && s == [m]
    ensures FitsOnto(s + [1], out)
  {
    assert At(s + [1], 0) == 1 && At(s + [1], 1) == m;
    FitsOntoWhen(s + [1], out);
  }

  lemma BiasFitsOnto(c: Call, out: Shape)
    requires ShapesFit(c) && c.bias.Some? && |out| >= 2 && At(out, 0) == At(c.x2.shape, 0)
    requires IsLargest(Batch(c.x1.shape), Batch(c.x2.shape), Batch(out))
    ensures FitsOnto(c.bias.value.shape, out)
  {
    var bias := c.bias.value.shape;
    if |bias| == 3 {
      BatchOfRank3(c.x1.shape, c.x2.shape, out);
      assert At(bias, 0) == At(out, 0) && At(bias, 1) == 1 && At(bias, 2) == At(out, 2);
    }
    FitsOntoWhen(bias, out);
  }

  /** In a call that is accepted, bias, scale and offset broadcast onto the result, and
      so does the per-token scale as a column, none of them growing it. */
  lemma OperandsBroadcastOntoResult(c: Call, out: Shape)
    requires ShapesFit(c) && |out| >= 2
    requires IsLargest(Batch(c.x1.shape), Batch(c.x2.shape), Batch(out))
    requires At(out, 1) == At(c.x1.shape, 1) && At(out, 0) == At(c.x2.shape, 0)
    ensures FitsOnto(c.scale.shape, out)
    ensures c.bias.Some? ==> FitsOnto(c.bias.value.shape, out)
    ensures c.offset.Some? ==> FitsOnto(c.offset.value.shape, out)
    ensures c.pertoken.Some? ==> FitsOnto(c.pertoken.value.shape + [1], out)
  {
    VectorFitsOnto(At(out, 0), c.scale.shape, out);
    if c.offset.Some? {
      VectorFitsOnto(At(out, 0), c.offset.value.shape, out);
    }
    if c.pertoken.Some? {
      ColumnFitsOnto(At(out, 1), c.pertoken.value.shape, out);
    }
    if c.bias.Some? {
      BiasFitsOnto(c, out);
    }
  }
}
