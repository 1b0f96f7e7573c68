/** The Web Worker side of the TypeScript wrapper (wrapper/src/worker.ts): a
    registry of loaded models keyed by small integer ids, and the marshalling of
    tensors into and out of the WebAssembly core. */
module Worker {
  import opened Wrappers
  import JsTensor

  /** The wrapper's `Tensor` (wrapper/src/tensor.ts): a typed array and a shape of JavaScript numbers. */
  datatype HostTensor<E> = HostTensor(data: JsTensor.HostValue<E>, shape: seq<int>)

  /** A loaded core model; its `predict` is a call into the WebAssembly core. */
  datatype CoreModel<!E> = CoreModel(predict: seq<JsTensor.Tensor<E>> -> Result<seq<JsTensor.Tensor<E>>, Error>)

  /** `id` is the smallest non-negative integer that is not a key. */
  ghost predicate IsSmallestFree(keys: set<int>, id: int)
  {
    0 <= id && id !in keys && forall j :: 0 <= j < id ==> j in keys
  }

  /** A set holding all of 0 .. n-1 has at least n elements. */
  lemma {:induction false} CoversRange(keys: set<int>, n: nat)
    requires forall j :: 0 <= j < n ==> j in keys
    ensures n <= |keys|
  {
    if n > 0 {
      var rest := keys - {n - 1};
      assert forall j :: 0 <= j < n - 1 ==> j in rest;
      CoversRange(rest, n - 1);
    }
  }

  /** The id `add` hands out is at most the number of models already stored. */
  lemma SmallestFreeBound(keys: set<int>, id: int)
    requires IsSmallestFree(keys, id)
    ensures id <= |keys|
  {
    CoversRange(keys, id);
  }

  /** There is exactly one smallest free id. */
  lemma SmallestFreeUnique(keys: set<int>, a: int, b: int)
    requires IsSmallestFree(keys, a) && IsSmallestFree(keys, b)
    ensures a == b
  {
  }

  /** Ids are recycled: removing a stored id below which every id is taken makes
      it the smallest free id again. */
  lemma RemovedIdIsReused<M>(store: map<int, M>, id: int)
    requires id in store && 0 <= id
    requires forall j :: 0 <= j < id ==> j in store
    ensures IsSmallestFree((store - {id}).Keys, id)
  {
  }

  /** The worker's `ModelStorage`: a table from integer id to model. */
  class ModelStorage<M> {
    var store: map<int, M>

    constructor()
      ensures store == map[]
    {
      store := map[];
    }

    /** `add`: store the model under the smallest free id; nothing else changes. */
    method Add(model: M) returns (id: nat)
      modifies this
      ensures IsSmallestFree(old(store).Keys, id)
      ensures id <= |old(store)|
      ensures store == old(store)[id := model]
      ensures Get(id) == Some(model)
    {
      id := 0;
      while id in store
        invariant store == old(store)
        invariant forall j :: 0 <= j < id ==> j in store
        invariant id <= |store|
        decreases |store| - id
      {
        CoversRange(store.Keys, id + 1);
        id := id + 1;
      }
      store := store[id := model];
    }

    /** `get`: the model stored under `id`, or `undefined`. */
    function Get(id: int): (r: Option<M>)
      reads this
      ensures r.Some? <==> id in store
      ensures r.Some? ==> r.value == store[id]
    {
      if id in store then Some(store[id]) else None
    }

    /** `remove`: delete exactly that key; an absent id is a no-op. */
    method Remove(id: int)
      modifies this
      ensures store == old(store) - {id}
      ensures id !in old(store) ==> store == old(store)
      ensures Get(id) == None
    {
      store := store - {id};
    }
  }

  /** One input of `predict`: `new CoreTensor(tensor.data, new Uint32Array(tensor.shape))`. */
  function CoreInput<E>(t: HostTensor<E>): (r: Result<JsTensor.Tensor<E>, Error>)
    ensures r.Ok? ==> JsTensor.Shape(r.value) == JsTensor.Dims(t.shape)
    ensures r.Ok? ==>
      (t.data.TypedArray? && JsTensor.Data(r.value) ==
       Ok(JsTensor.TypedArray(if t.data.kind == JsTensor.Uint8Clamped then JsTensor.Uint8 else t.data.kind, t.data.elems)))
  {
    JsTensor.DimsIdempotent(t.shape);
    JsTensor.New(t.data, JsTensor.Dims(t.shape))
  }

  /** The inputs `predict` pushes, in order; the first conversion that throws
      aborts the whole call. */
  function CoreInputs<E>(ts: seq<HostTensor<E>>): (r: Result<seq<JsTensor.Tensor<E>>, Error>)
    ensures r.Ok? ==> |r.value| == |ts| && forall i :: 0 <= i < |ts| ==> CoreInput(ts[i]) == Ok(r.value[i])
    ensures r.Ok? <==> forall i :: 0 <= i < |ts| ==> CoreInput(ts[i]).Ok?
  {
    if |ts| == 0 then Ok([])
    else
      match CoreInputs(ts[..|ts| - 1])
      case Err(e) => Err(e)
      case Ok(prev) =>
        match CoreInput(ts[|ts| - 1])
        case Err(e) => Err(e)
        case Ok(c) => Ok(prev + [c])
  }

  /** Once a prefix of the inputs has failed, the whole conversion fails with that error. */
  lemma {:induction false} CoreInputsFailurePersists<E>(ts: seq<HostTensor<E>>, n: nat)
    requires n <= |ts| && CoreInputs(ts[..n]).Err?
    ensures CoreInputs(ts) == CoreInputs(ts[..n])
    decreases |ts|
  {
    if n < |ts| {
      var init := ts[..|ts| - 1];
      assert init[..n] == ts[..n];
      CoreInputsFailurePersists(init, n);
    } else {
      assert ts[..n] == ts;
    }
  }

  /** One output of `predict`: `new Tensor(coreTensor.data(), Array.from(coreTensor.shape()))`. */
  function HostOutput<E>(t: JsTensor.Tensor<E>): (r: Result<HostTensor<E>, Error>)
    ensures r.Ok? <==> JsTensor.Data(t).Ok?
    ensures r.Ok? ==> r.value.data == JsTensor.Data(t).value && r.value.shape == JsTensor.Shape(t)
  {
    match JsTensor.Data(t)
    case Err(e) => Err(e)
    case Ok(d) => Ok(HostTensor(d, JsTensor.Shape(t)))
  }

  /** What the output loop of `predict` builds: one tensor per core output, each
      converted from output 0 (`outputs.get(0)`), aborting if that conversion throws. */
  function HostOutputs<E>(outputs: seq<JsTensor.Tensor<E>>): (r: Result<seq<HostTensor<E>>, Error>)
    ensures r.Ok? <==> |outputs| == 0 || JsTensor.Data(outputs[0]).Ok?
    ensures r.Ok? ==> |r.value| == |outputs| && forall j :: 0 <= j < |outputs| ==> HostOutput(outputs[0]) == Ok(r.value[j])
  {
    if |outputs| == 0 then Ok([])
    else
      match HostOutput(outputs[0])
      case Err(e) => Err(e)
      case Ok(h) => Ok(seq(|outputs|, _ => h))
  }

  /** The whole of `predict` as a value: convert every input, look the model up
      (an unknown id makes `model.predict` throw), run it, and convert its outputs.
      For an unknown id only the error kind, a TypeError, is modelled; its message
      is one engine's wording and differs between JavaScript engines. */
  ghost function PredictResult<E>(store: map<int, CoreModel<E>>, modelId: int, tensors: seq<HostTensor<E>>)
    : Result<seq<HostTensor<E>>, Error>
  {
    match CoreInputs(tensors)
    case Err(e) => Err(e)
    case Ok(inputs) =>
      if modelId !in store then Err(TypeError("Cannot read properties of undefined (reading 'predict')"))
      else
        match store[modelId].predict(inputs)
        case Err(e) => Err(e)
        case Ok(outputs) => HostOutputs(outputs)
  }

  /** A successful `predict` returns one tensor per core output, every one of them
      converted from output 0, which is read out as its own elements and shape. */
  lemma PredictOutputs<E>(store: map<int, CoreModel<E>>, modelId: int, tensors: seq<HostTensor<E>>)
    requires PredictResult(store, modelId, tensors).Ok?
    ensures modelId in store && CoreInputs(tensors).Ok?
    ensures var outputs := store[modelId].predict(CoreInputs(tensors).value);
      && outputs.Ok?
      && |PredictResult(store, modelId, tensors).value| == |outputs.value|
      && forall i :: 0 <= i < |outputs.value| ==>
           var out := PredictResult(store, modelId, tensors).value[i];
           && JsTensor.Data(outputs.value[0]) == Ok(out.data)
           && out.shape == JsTensor.Shape(outputs.value[0])
  {
  }

  /** `predict` hands the model one core tensor per input, in the same order,
      holding the input's elements under its Uint32-converted shape. */
  lemma PredictInputs<E>(tensors: seq<HostTensor<E>>, i: int)
    requires CoreInputs(tensors).Ok? && 0 <= i < |tensors|
    ensures var c := CoreInputs(tensors).value[i];
      && c.inner.shape == JsTensor.Dims(tensors[i].shape)
      && c.inner.data == tensors[i].data.elems
      && c.inner.dt == JsTensor.DatumFor(tensors[i].data.kind).value
  {
    JsTensor.DimsIdempotent(tensors[i].shape);
  }

  /** The `forEach` of `predict` that pushes one core tensor per input. */
  method ConvertInputs<E>(tensors: seq<HostTensor<E>>) returns (r: Result<seq<JsTensor.Tensor<E>>, Error>)
    ensures r == CoreInputs(tensors)
  {
    var inputs: seq<JsTensor.Tensor<E>> := [];
    var i := 0;
    while i < |tensors|
      invariant 0 <= i <= |tensors|
      invariant CoreInputs(tensors[..i]) == Ok(inputs)
    {
      var coreTensor := JsTensor.New(tensors[i].data, JsTensor.Dims(tensors[i].shape));
      assert tensors[..i + 1][..i] == tensors[..i];
      if coreTensor.Err? {
        CoreInputsFailurePersists(tensors, i + 1);
        return Err(coreTensor.error);
      }
      inputs := inputs + [coreTensor.value];
      i := i + 1;
    }
    assert tensors[..i] == tensors;
    r := Ok(inputs);
  }

  /** The `for` loop of `predict` that pushes one host tensor per output. */
  method ConvertOutputs<E>(outputs: seq<JsTensor.Tensor<E>>) returns (r: Result<seq<HostTensor<E>>, Error>)
    ensures r == HostOutputs(outputs)
  {
    var outputTensors: seq<HostTensor<E>> := [];
    var k := 0;
    while k < |outputs|
      invariant 0 <= k <= |outputs|
      invariant |outputTensors| == k
      invariant forall j :: 0 <= j < k ==> HostOutput(outputs[0]) == Ok(outputTensors[j])
    {
      var tensor := HostOutput(outputs[0]);
      if tensor.Err? {
        return Err(tensor.error);
      }
      outputTensors := outputTensors + [tensor.value];
      k := k + 1;
    }
    if |outputs| > 0 {
      assert HostOutput(outputs[0]) == Ok(outputTensors[0]);
      assert outputTensors == seq(|outputs|, _ => HostOutput(outputs[0]).value);
    }
    r := Ok(outputTensors);
  }

  /** The worker's `predict`. As in PredictResult, the message of the TypeError
      for an unknown id is one engine's wording; only the error kind is modelled. */
  method Predict<E>(storage: ModelStorage<CoreModel<E>>, modelId: int, tensors: seq<HostTensor<E>>)
    returns (r: Result<seq<HostTensor<E>>, Error>)
    ensures r == PredictResult(storage.store, modelId, tensors)
  {
    var model := storage.Get(modelId);
    var inputs := ConvertInputs(tensors);
    if inputs.Err? {
      return Err(inputs.error);
    }
    if model.None? {
      return Err(TypeError("Cannot read properties of undefined (reading 'predict')"));
    }
    var outputs := model.value.predict(inputs.value);
    if outputs.Err? {
      return Err(outputs.error);
    }
    r := ConvertOutputs(outputs.value);
  }

  /** The worker's `destroy`: exactly `remove`. */
  method Destroy<M>(storage: ModelStorage<M>, modelId: int)
    modifies storage
    ensures storage.store == old(storage.store) - {modelId}
  {
    storage.Remove(modelId);
  }
}
