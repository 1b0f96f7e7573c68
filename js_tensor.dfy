/** The typed-array <-> tensor boundary of the WebAssembly core (src/lib.rs).

    A JavaScript typed array is a kind tag plus its elements; a tract tensor is a
    datum type, a shape and its elements in row-major order. Element values are
    only ever copied across the boundary, so they are an opaque type `E`. */
module JsTensor {
  import opened Wrappers

  /** The JavaScript typed-array kinds (plus "anything else" in HostValue). */
  datatype HostKind =
    | Int8 | Uint8 | Uint8Clamped | Int16 | Uint16 | Int32 | Uint32
    | Float32 | Float64 | BigInt64 | BigUint64

  /** A JavaScript value handed to the constructor: a typed array, or any other value. */
  datatype HostValue<E> = TypedArray(kind: HostKind, elems: seq<E>) | NotTypedArray

  /** tract's element types. */
  datatype DatumType =
    | Bool | U8 | U16 | U32 | U64 | I8 | I16 | I32 | I64
    | F16 | F32 | F64 | TDim | Blob | String

  /** A tract tensor. `data` lists the elements in row-major order; `contiguous`
      says whether the storage is laid out that way (a view produced by the
      engine need not be). */
  datatype TractTensor<E> = TractTensor(dt: DatumType, shape: seq<nat>, data: seq<E>, contiguous: bool)

  /** The tensor class exported to JavaScript: a wrapper around one tract tensor. */
  datatype Tensor<E> = Tensor(inner: TractTensor<E>)

  /** A tract error; its debug rendering is taken to be `diagnostic`. */
  datatype TractError = TractError(diagnostic: string)

  /** A loaded, optimized plan. Running it is a call into tract, so it is an opaque function. */
  datatype Model<!E> = Model(run: seq<TractTensor<E>> -> Result<seq<TractTensor<E>>, TractError>)

  const Uint32Modulus: int := 0x1_0000_0000

  /** `isize::MAX` on the 32-bit WebAssembly target. */
  const IsizeMax: int := 0x7FFF_FFFF

  /** The element count a shape describes. */
  function Product(dims: seq<nat>): nat
  {
    if |dims| == 0 then 1 else dims[0] * Product(dims[1..])
  }

  /** The product of the non-zero axis lengths, which ndarray requires to fit in
      `isize` even when a zero axis makes the array empty. */
  function NonzeroProduct(dims: seq<nat>): (p: nat)
    ensures p >= 1
  {
    if |dims| == 0 then 1
    else (if dims[0] == 0 then 1 else dims[0]) * NonzeroProduct(dims[1..])
  }

  /** The tensor's size invariant: as many elements as its shape describes, and
      a shape ndarray accepts on a 32-bit target. */
  ghost predicate SizeInvariant<E>(t: TractTensor<E>)
  {
    |t.data| == Product(t.shape) && NonzeroProduct(t.shape) <= IsizeMax
  }

  /** The panic of `unwrap` on an ndarray shape error of the given kind. */
  function ShapePanic(kind: string): Error
  {
    Panic("called `Result::unwrap()` on an `Err` value: ShapeError/" + kind)
  }

  /** `Uint32Array::new(&shape)` followed by `x as usize`: each JavaScript number
      goes through ToUint32, i.e. is taken modulo 2^32. */
  function Dims(shape: seq<int>): (dims: seq<nat>)
    ensures |dims| == |shape|
    ensures forall i :: 0 <= i < |shape| ==> dims[i] < Uint32Modulus && (dims[i] - shape[i]) % Uint32Modulus == 0
    ensures (forall i :: 0 <= i < |shape| ==> 0 <= shape[i] < Uint32Modulus) ==> dims == shape
  {
    seq(|shape|, i requires 0 <= i < |shape| => shape[i] % Uint32Modulus)
  }

  /** The host kinds the constructor accepts. */
  const AcceptedKinds: set<HostKind> :=
    {Float64, Float32, Uint16, Uint8, Uint8Clamped, Int32, Int16, Int8}

  /** Reference table: the datum type each host kind is stored as. */
  function DatumFor(k: HostKind): (d: Option<DatumType>)
    ensures d.Some? <==> k in AcceptedKinds
    ensures d.Some? ==> HostFor(d.value) == Some(if k == Uint8Clamped then Uint8 else k)
  {
    match k
    case Float64 => Some(F64)
    case Float32 => Some(F32)
    case Uint16 => Some(U16)
    case Uint8 => Some(U8)
    case Uint8Clamped => Some(U8)
    case Int32 => Some(I32)
    case Int16 => Some(I16)
    case Int8 => Some(I8)
    case _ => None
  }

  /** Reference table: the host kind each datum type is handed back as. */
  function HostFor(d: DatumType): Option<HostKind>
  {
    match d
    case F64 => Some(Float64)
    case F32 => Some(Float32)
    case U16 => Some(Uint16)
    case U8 => Some(Uint8)
    case I32 => Some(Int32)
    case I16 => Some(Int16)
    case I8 => Some(Int8)
    case _ => None
  }

  /** `Tensor::from_shape_vec`: a contiguous row-major tensor. The `unwrap`
      panics when ndarray rejects the shape: first when the non-zero axis
      lengths overflow `isize`, then when the shape describes more elements
      than given, then when it describes fewer. */
  function FromShapeVec<E>(dt: DatumType, data: seq<E>, shape: seq<int>): (r: Result<Tensor<E>, Error>)
    ensures r.Ok? <==> NonzeroProduct(Dims(shape)) <= IsizeMax && Product(Dims(shape)) == |data|
    ensures r.Ok? ==> SizeInvariant(r.value.inner) && r.value.inner.contiguous
    ensures r.Ok? ==> r.value.inner.dt == dt && r.value.inner.data == data && r.value.inner.shape == Dims(shape)
    ensures NonzeroProduct(Dims(shape)) > IsizeMax ==> r == Err(ShapePanic("Overflow"))
    ensures NonzeroProduct(Dims(shape)) <= IsizeMax && Product(Dims(shape)) > |data| ==> r == Err(ShapePanic("OutOfBounds"))
    ensures NonzeroProduct(Dims(shape)) <= IsizeMax && Product(Dims(shape)) < |data| ==> r == Err(ShapePanic("IncompatibleShape"))
  {
    var dims := Dims(shape);
    if NonzeroProduct(dims) > IsizeMax then Err(ShapePanic("Overflow"))
    else if Product(dims) > |data| then Err(ShapePanic("OutOfBounds"))
    else if Product(dims) != |data| then Err(ShapePanic("IncompatibleShape"))
    else Ok(Tensor(TractTensor(dt, dims, data, true)))
  }

  /** A shape without a zero axis is checked on its element count itself; only a
      zero axis lets a shape describe no elements yet overflow. */
  lemma {:induction false} NonzeroProductCovers(dims: seq<nat>)
    ensures Product(dims) == 0 || Product(dims) == NonzeroProduct(dims)
    ensures Product(dims) <= NonzeroProduct(dims)
  {
    if |dims| > 0 {
      NonzeroProductCovers(dims[1..]);
    }
  }

  /** An empty array can still be refused: `[65536, 65536, 0]` describes no
      elements, yet its non-zero lengths multiply to 2^32. */
  lemma EmptyShapeOverflows<E>()
    ensures Product(Dims([65536, 65536, 0])) == 0
    ensures New<E>(TypedArray(Float32, []), [65536, 65536, 0]) == Err(ShapePanic("Overflow"))
  {
    var shape: seq<int> := [65536, 65536, 0];
    var dims := Dims(shape);
    assert dims == [65536, 65536, 0] by {
      assert dims[0] == 65536 && dims[1] == 65536 && dims[2] == 0;
    }
    assert dims[1..] == [65536, 0] && dims[2..] == [0];
    assert NonzeroProduct([0]) == 1 && Product([0]) == 0;
    assert NonzeroProduct(dims) == 65536 * 65536;
    assert Product(dims) == 0;
    assert Probe<E>(TypedArray(Float32, [])) == Some(F32);
  }

  /** The `if let ... dyn_ref` cascade of the constructor: probes the value
      against eight typed-array kinds in a fixed order and yields the element
      type of the first that matches. */
  function Probe<E>(v: HostValue<E>): (d: Option<DatumType>)
    ensures d == (if v.TypedArray? then DatumFor(v.kind) else None)
  {
    if v.TypedArray? && v.kind == Float64 then Some(F64)
    else if v.TypedArray? && v.kind == Float32 then Some(F32)
    else if v.TypedArray? && v.kind == Uint16 then Some(U16)
    else if v.TypedArray? && v.kind == Uint8 then Some(U8)
    else if v.TypedArray? && v.kind == Uint8Clamped then Some(U8)
    else if v.TypedArray? && v.kind == Int32 then Some(I32)
    else if v.TypedArray? && v.kind == Int16 then Some(I16)
    else if v.TypedArray? && v.kind == Int8 then Some(I8)
    else None
  }

  /** The JavaScript constructor `new Tensor(data, shape)`: every branch of the
      cascade builds the tensor with `from_shape_vec`; no match is an error. */
  function New<E>(v: HostValue<E>, shape: seq<int>): (r: Result<Tensor<E>, Error>)
    ensures r.Ok? <==> v.TypedArray? && v.kind in AcceptedKinds
                       && NonzeroProduct(Dims(shape)) <= IsizeMax && Product(Dims(shape)) == |v.elems|
    ensures r.Ok? ==> r.value.inner == TractTensor(DatumFor(v.kind).value, Dims(shape), v.elems, true)
    ensures !(v.TypedArray? && v.kind in AcceptedKinds) ==> r == Err(JsError("asdf"))
  {
    match Probe(v)
    case Some(dt) => FromShapeVec(dt, v.elems, shape)
    case None => Err(JsError("asdf"))
  }

  /** The body of `make_array!`: copy the elements out, which needs a contiguous slice. */
  function MakeArray<E>(t: TractTensor<E>, kind: HostKind): Result<HostValue<E>, Error>
  {
    if t.contiguous then Ok(TypedArray(kind, t.data)) else Err(Panic("slice is not contiguous"))
  }

  /** `Tensor::data`: hands the elements back as the typed array of the tensor's
      datum type. Any other datum type panics; there is no narrowing conversion. */
  function Data<E>(t: Tensor<E>): (r: Result<HostValue<E>, Error>)
    ensures r.Ok? <==> HostFor(t.inner.dt).Some? && t.inner.contiguous
    ensures r.Ok? ==> r.value == TypedArray(HostFor(t.inner.dt).value, t.inner.data)
    ensures HostFor(t.inner.dt).None? ==> r == Err(Panic("unsupported data type"))
    ensures HostFor(t.inner.dt).Some? && !t.inner.contiguous ==> r == Err(Panic("slice is not contiguous"))
  {
    match t.inner.dt
    case F64 => MakeArray(t.inner, Float64)
    case F32 => MakeArray(t.inner, Float32)
    case U16 => MakeArray(t.inner, Uint16)
    case U8 => MakeArray(t.inner, Uint8)
    case I32 => MakeArray(t.inner, Int32)
    case I16 => MakeArray(t.inner, Int16)
    case I8 => MakeArray(t.inner, Int8)
    case _ => Err(Panic("unsupported data type"))
  }

  /** `Tensor::shape`: the stored shape, which describes the element count. */
  function Shape<E>(t: Tensor<E>): (r: seq<nat>)
    ensures SizeInvariant(t.inner) ==> Product(r) == |t.inner.data|
  {
    t.inner.shape
  }

  /** `Tensor::from_tract_tensor`. */
  function FromTractTensor<E>(tensor: TractTensor<E>): Tensor<E>
  {
    Tensor(tensor)
  }

  /** `Tensor::inner`. */
  function Inner<E>(t: Tensor<E>): TractTensor<E>
  {
    t.inner
  }

  /** Wrapping and unwrapping are inverse to each other. */
  lemma InnerInverse<E>(tensor: TractTensor<E>, t: Tensor<E>)
    ensures Inner(FromTractTensor(tensor)) == tensor
    ensures FromTractTensor(Inner(t)) == t
  {
  }

  /** `map_js_error`: success passes through unchanged; every tract error becomes
      a JavaScript error carrying its diagnostic. */
  function MapJsError<T>(res: Result<T, TractError>): (r: Result<T, Error>)
    ensures r.Ok? <==> res.Ok?
    ensures res.Ok? ==> r.value == res.value
    ensures res.Err? ==> r == Err(JsError(res.error.diagnostic))
  {
    match res
    case Ok(x) => Ok(x)
    case Err(x) => Err(JsError(x.diagnostic))
  }

  /** `Model::predict`: run the plan on exactly one input and return output 0
      (indexing an empty output list panics). */
  function Predict<E>(m: Model<E>, data: Tensor<E>): (r: Result<Tensor<E>, Error>)
    ensures var outs := m.run([data.inner]);
      && (r.Ok? <==> outs.Ok? && |outs.value| > 0)
      && (r.Ok? ==> Inner(r.value) == outs.value[0])
      && (outs.Err? ==> r == Err(JsError(outs.error.diagnostic)))
      && (outs.Ok? && |outs.value| == 0 ==> r == Err(Panic("index out of bounds")))
  {
    match MapJsError(m.run([Inner(data)]))
    case Err(e) => Err(e)
    case Ok(outputs) =>
      if |outputs| == 0 then Err(Panic("index out of bounds"))
      else Ok(FromTractTensor(outputs[0]))
  }

  /** The stored shape is the given one after the Uint32 conversion, and exactly
      the given one when every entry is a valid 32-bit unsigned integer. */
  lemma ShapeOfNew<E>(v: HostValue<E>, shape: seq<int>)
    requires New(v, shape).Ok?
    ensures Shape(New(v, shape).value) == Dims(shape)
    ensures (forall i :: 0 <= i < |shape| ==> 0 <= shape[i] < Uint32Modulus) ==> Shape(New(v, shape).value) == shape
  {
  }

  /** Round trip host -> tensor -> host: the same elements come back, in the
      same order, as the same kind (a clamped byte array comes back as Uint8). */
  lemma DataOfNew<E>(k: HostKind, xs: seq<E>, shape: seq<int>)
    requires New(TypedArray(k, xs), shape).Ok?
    ensures Data(New(TypedArray(k, xs), shape).value) == Ok(TypedArray(if k == Uint8Clamped then Uint8 else k, xs))
  {
  }

  /** Every axis length is at most the product of the non-zero lengths. */
  lemma {:induction false} AxisBelowNonzeroProduct(dims: seq<nat>, i: nat)
    requires i < |dims|
    ensures dims[i] <= NonzeroProduct(dims)
  {
    var factor := if dims[0] == 0 then 1 else dims[0];
    var rest := NonzeroProduct(dims[1..]);
    assert NonzeroProduct(dims) == factor * rest;
    if i > 0 {
      AxisBelowNonzeroProduct(dims[1..], i - 1);
      assert dims[i] == dims[1..][i - 1];
      FactorAtMostProduct(rest, factor);
    } else {
      FactorAtMostProduct(factor, rest);
    }
  }

  lemma FactorAtMostProduct(a: nat, b: nat)
    requires b >= 1
    ensures a <= a * b && a <= b * a
  {
  }

  /** A shape ndarray accepts on a 32-bit target has only 32-bit axis lengths,
      so it survives the `Uint32Array` conversion unchanged. */
  lemma AxisBelowUint32(dims: seq<nat>)
    requires NonzeroProduct(dims) <= IsizeMax
    ensures forall i :: 0 <= i < |dims| ==> dims[i] < Uint32Modulus
  {
    forall i | 0 <= i < |dims|
      ensures dims[i] < Uint32Modulus
    {
      AxisBelowNonzeroProduct(dims, i);
    }
  }

  /** Round trip tensor -> host -> tensor: a tensor whose data can be read out is
      rebuilt exactly from what it hands out and its own shape. */
  lemma NewOfData<E>(t: Tensor<E>)
    requires Data(t).Ok? && SizeInvariant(t.inner)
    ensures New(Data(t).value, Shape(t)) == Ok(t)
  {
    var v := Data(t).value;
    AxisBelowUint32(t.inner.shape);
    assert Dims(t.inner.shape) == t.inner.shape;
    assert DatumFor(v.kind) == Some(t.inner.dt) by {
      match t.inner.dt
      case F64 => case F32 => case U16 => case U8 => case I32 => case I16 => case I8 =>
      case _ =>
    }
  }

  /** Converting a shape twice (TypeScript's `new Uint32Array(shape)`, then the
      core's own conversion) is the same as converting it once. */
  lemma DimsIdempotent(shape: seq<int>)
    ensures Dims(Dims(shape)) == Dims(shape)
  {
  }

  /** Only the two byte kinds share a datum type; every other accepted kind has its own. */
  lemma DatumForInjective(k1: HostKind, k2: HostKind)
    requires DatumFor(k1).Some? && DatumFor(k1) == DatumFor(k2)
    ensures k1 == k2 || {k1, k2} == {Uint8, Uint8Clamped}
  {
  }
}
