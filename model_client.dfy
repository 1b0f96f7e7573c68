/** The caller-facing `Model` class of the TypeScript wrapper (wrapper/src/index.ts):
    normalising the user's loading options, and the single-tensor prediction. */
module ModelClient {
  import opened Wrappers
  import Worker

  // The option types of wrapper/src/options.ts.

  /** Values bound to symbolic dimensions. */
  type SymbolValues = map<string, int>

  /** A symbolic dimension: a bare symbol, or `slope * symbol + intercept`. */
  datatype DimSymbol = Named(id: string) | Affine(id: string, slope: int, intercept: int)

  datatype Format = Onnx | Tensorflow

  /** One entry of a shape: a number or a symbolic dimension. */
  datatype ShapeEntry = Number(n: int) | Symbolic(sym: DimSymbol)

  /** A fact on one input: an element type name and a shape. */
  datatype Fact = Fact(dtype: string, shape: seq<ShapeEntry>)

  /** The user's loading options; every field may be undefined. */
  datatype Options = Options(
    format: Option<Format>,
    optimize: Option<bool>,
    inputs: Option<seq<string>>,
    outputs: Option<seq<string>>,
    inputFacts: Option<map<int, Fact>>)

  /** The options handed to the worker: format, optimize and inputFacts always defined. */
  datatype InternalOptions = InternalOptions(
    format: Format,
    optimize: bool,
    inputs: Option<seq<string>>,
    outputs: Option<seq<string>>,
    inputFacts: map<int, Fact>)

  /** `{}`: no option given. */
  const EmptyOptions: Options := Options(None, None, None, None, None)

  /** `formatEndings`, in the order `Object.entries` visits it. */
  const FormatEndings: seq<(Format, seq<string>)> := [(Onnx, [".onnx"]), (Tensorflow, [".pb"])]

  /** JavaScript's `s.endsWith(suffix)`. */
  predicate EndsWith(s: string, suffix: string)
  {
    |suffix| <= |s| && s[|s| - |suffix|..] == suffix
  }

  /** `endings.some((ending) => url.endsWith(ending))`. */
  predicate AnyEndsWith(url: string, endings: seq<string>)
  {
    exists e :: e in endings && EndsWith(url, e)
  }

  /** Reference definition of format inference: `.onnx` means ONNX, `.pb` means
      TensorFlow, anything else cannot be inferred. */
  function FormatFor(url: string): Option<Format>
  {
    if EndsWith(url, ".onnx") then Some(Onnx)
    else if EndsWith(url, ".pb") then Some(Tensorflow)
    else None
  }

  /** The `for` loop over `formatEndings`: the first format one of whose endings
      the URL has, stopping at the first match. */
  method InferFormat(url: string) returns (format: Option<Format>)
    ensures format == FormatFor(url)
  {
    format := None;
    var i := 0;
    while i < |FormatEndings|
      invariant 0 <= i <= |FormatEndings|
      invariant format == None
      invariant forall j :: 0 <= j < i ==> !AnyEndsWith(url, FormatEndings[j].1)
    {
      if AnyEndsWith(url, FormatEndings[i].1) {
        format := Some(FormatEndings[i].0);
        break;
      }
      i := i + 1;
    }
    AnyEndsWithSingle(url, ".onnx");
    AnyEndsWithSingle(url, ".pb");
    assert FormatEndings[0] == (Onnx, [".onnx"]) && FormatEndings[1] == (Tensorflow, [".pb"]);
  }

  /** With a single ending, `some` is that ending's `endsWith`. */
  lemma AnyEndsWithSingle(url: string, ending: string)
    ensures AnyEndsWith(url, [ending]) <==> EndsWith(url, ending)
  {
    if EndsWith(url, ending) {
      assert ending in [ending];
    }
  }

  /** A URL cannot end in both `.onnx` and `.pb`, so the order of the table only
      decides which entry is tried first. */
  lemma SuffixesExclusive(url: string)
    ensures !(EndsWith(url, ".onnx") && EndsWith(url, ".pb"))
  {
    if EndsWith(url, ".onnx") {
      assert url[|url| - 1] == 'x';
      assert ".pb"[2] == 'b';
    }
  }

  /** Inference reads the suffix only: `.onnx` gives ONNX, `.pb` gives TensorFlow,
      and a URL with neither suffix gives nothing. */
  lemma FormatForSuffix(prefix: string)
    ensures FormatFor(prefix + ".onnx") == Some(Onnx)
    ensures FormatFor(prefix + ".pb") == Some(Tensorflow)
  {
    assert (prefix + ".onnx")[|prefix|..] == ".onnx";
    assert (prefix + ".pb")[|prefix|..] == ".pb";
    SuffixesExclusive(prefix + ".pb");
  }

  /** The inferred format is exactly the one whose suffix the URL has. */
  lemma FormatForExact(url: string)
    ensures FormatFor(url) == Some(Onnx) <==> EndsWith(url, ".onnx")
    ensures FormatFor(url) == Some(Tensorflow) <==> EndsWith(url, ".pb")
    ensures FormatFor(url) == None <==> !EndsWith(url, ".onnx") && !EndsWith(url, ".pb")
  {
    SuffixesExclusive(url);
  }

  /** The `internalOptions` literal: `optimize` defaults to true, `inputFacts` to `{}`,
      the rest is copied. */
  function ToInternal(o: Options, format: Format): (io: InternalOptions)
    ensures io.format == format
    ensures io.optimize <==> o.optimize != Some(false)
    ensures io.inputs == o.inputs && io.outputs == o.outputs
    ensures o.inputFacts.None? ==> io.inputFacts == map[]
    ensures o.inputFacts.Some? ==> io.inputFacts == o.inputFacts.value
  {
    InternalOptions(
      format,
      if o.optimize.Some? then o.optimize.value else true,
      o.inputs,
      o.outputs,
      if o.inputFacts.Some? then o.inputFacts.value else map[])
  }

  /** Internal options seen as fully specified user options. */
  function Widen(io: InternalOptions): Options
  {
    Options(Some(io.format), Some(io.optimize), io.inputs, io.outputs, Some(io.inputFacts))
  }

  /** Normalisation is idempotent: fully specified options come back unchanged,
      and normalising twice is normalising once. */
  lemma ToInternalIdempotent(o: Options, format: Format)
    ensures ToInternal(Widen(ToInternal(o, format)), format) == ToInternal(o, format)
    ensures forall io: InternalOptions :: ToInternal(Widen(io), io.format) == io
  {
  }

  /** The error the constructor throws when no format is known. */
  function NoFormatError(url: string): Error
  {
    JsError("format could not be inferred from URL \"" + url + "\". Please specify it manually.")
  }

  /** The option handling of the `Model` constructor. `written` is the caller's
      options object after the constructor has run (the inferred format is
      written into it); `r` is what is sent to the worker, or the thrown error. */
  method NormalizeOptions(url: string, options: Option<Options>) returns (written: Options, r: Result<InternalOptions, Error>)
    ensures var given := if options.Some? then options.value else EmptyOptions;
      && written == given.(format := if given.format.Some? then given.format else FormatFor(url))
      && (given.format.Some? ==> written.format == given.format)
      && (r.Ok? <==> given.format.Some? || EndsWith(url, ".onnx") || EndsWith(url, ".pb"))
      && (r.Err? ==> r.error == NoFormatError(url))
      && (r.Ok? ==> written.format == Some(r.value.format) && r.value == ToInternal(given, r.value.format))
  {
    var opts := if options.Some? then options.value else EmptyOptions;

    if opts.format.None? {
      var inferred := InferFormat(url);
      if inferred.Some? {
        opts := opts.(format := inferred);
      }
    }
    written := opts;

    if opts.format.None? {
      r := Err(NoFormatError(url));
      return;
    }

    r := Ok(ToInternal(opts, opts.format.value));
  }

  /** `predict_one`: send the one-element list `[input]` and return element 0 of
      the answer (`undefined` when the answer is empty). `send` stands for the
      round trip through the worker. */
  function PredictOne<E>(send: seq<Worker.HostTensor<E>> -> Result<seq<Worker.HostTensor<E>>, Error>, input: Worker.HostTensor<E>)
    : (r: Result<Option<Worker.HostTensor<E>>, Error>)
    ensures r.Ok? <==> send([input]).Ok?
    ensures r.Ok? ==> (r.value.Some? <==> |send([input]).value| > 0)
    ensures r.Ok? && r.value.Some? ==> r.value.value == send([input]).value[0]
  {
    match send([input])
    case Err(e) => Err(e)
    case Ok(tensors) => Ok(if |tensors| == 0 then None else Some(tensors[0]))
  }

  /** `predict_one` through the worker: the model is run on exactly the one
      converted input, and the answer is its output 0 read back. */
  lemma PredictOneThroughWorker<E>(
    send: seq<Worker.HostTensor<E>> -> Result<seq<Worker.HostTensor<E>>, Error>,
    store: map<int, Worker.CoreModel<E>>, modelId: int, input: Worker.HostTensor<E>)
    requires forall ts :: send(ts) == Worker.PredictResult(store, modelId, ts)
    requires PredictOne(send, input).Ok?
    ensures Worker.CoreInput(input).Ok? && modelId in store
    ensures var outs := store[modelId].predict([Worker.CoreInput(input).value]);
      var one := PredictOne(send, input).value;
      && outs.Ok?
      && (one.Some? <==> |outs.value| > 0)
      && (one.Some? ==> Worker.HostOutput(outs.value[0]) == Ok(one.value))
  {
    var inputs := [input];
    assert inputs[..|inputs| - 1] == [];
    assert send(inputs) == Worker.PredictResult(store, modelId, inputs);
    var converted := Worker.CoreInputs(inputs);
    assert converted.Ok?;
    assert converted.value == [Worker.CoreInput(input).value];
    assert modelId in store;
    var outs := store[modelId].predict(converted.value);
    assert outs.Ok?;
    assert send(inputs) == Worker.HostOutputs(outs.value);
  }
}
