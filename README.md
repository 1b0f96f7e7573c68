# tractjs core, modelled in Dafny

tractjs runs ONNX and TensorFlow models in the browser. Rust code on top of
the tract inference engine is compiled to WebAssembly. src/lib.rs shows its
JavaScript bindings: a `Tensor` class and a `Model` loaded from a URL that
predicts on one tensor. The TypeScript wrapper runs a Web Worker that imports
`CoreModel`, `CoreTensor` and `CoreTensorVec` from a package `tract-js-core`.
That package's source is not part of this model. Its `CoreModel` loads from
bytes and predicts on a vector of tensors. The worker model assumes that
`CoreTensor`'s constructor, `data` and `shape` behave like those of
src/lib.rs's `Tensor`, and treats `CoreModel.predict` as an opaque function.
This project models four pieces of sequential logic from the repository and
proves their properties:

- `js_tensor.dfy` (module `JsTensor`) models the typed-array ↔ tensor
  boundary of the core (`src/lib.rs`):
  - constructing a tensor from a JavaScript typed array and a shape;
  - reading its elements and shape back;
  - error mapping;
  - single-input prediction.
- `worker.dfy` (module `Worker`) models the worker's model registry
  `ModelStorage`, a table from small integer ids to models. It also models the
  marshalling loops of the worker's `predict` and its `destroy`
  (`wrapper/src/worker.ts`).
- `model_client.dfy` (module `ModelClient`) models two parts of the `Model`
  class (`wrapper/src/index.ts`):
  - the constructor's option normalisation: format inference from the URL
    suffix, the error when none is found, and the defaults sent to the worker;
  - `predict_one`.
- `synset.dfy` (module `Synset`) models the label parser of the
  image-classification demo (`demos/index.js`). It splits the text into lines,
  skips blank lines, and takes the text after the first space of each line,
  cut at the first comma.
- `wrappers.dfy` (module `Wrappers`) holds `Option`, `Result` and the error
  kinds:
  - `JsError` is a JavaScript `Error` or an `Err(JsValue)`;
  - `Panic` is a Rust `unwrap`, `expect` or `panic!`;
  - `TypeError` is the one JavaScript raises on a property read of `undefined`.

The model makes these choices:

- Element values are only copied across the boundary, so they are an opaque
  type parameter `E`.
- A JavaScript value handed to the tensor constructor is either a typed array
  of a given kind or some other value.
- Shapes pass through a `Uint32Array`, so each shape entry is reduced modulo
  2^32 (ECMAScript ToUint32). This is written out explicitly.
- The core runs on the 32-bit WebAssembly target, so ndarray refuses a shape
  whose non-zero axis lengths multiply past `isize::MAX` (2^31-1). It does so
  even when a zero axis makes the array empty.
- In three places the model keeps the code as written:
  - `Tensor::data` has no narrowing conversions (for example int64 to int32).
    Every datum type outside its seven-entry table panics.
  - The stored shape is the ToUint32 image of the given shape, not the shape
    itself. It equals the given shape when every entry is a valid 32-bit
    unsigned integer (`ShapeOfNew`).
  - The worker's `predict` builds every output from output 0. This quirk is kept.

## Model

| member | source | states |
|---|---|---|
| `JsTensor.Dims` | src/lib.rs:44-48 | The shape conversion keeps the length. Each entry is below 2^32 and congruent to the given entry modulo 2^32. The conversion is the identity on shapes whose entries are already valid 32-bit unsigned integers. |
| `JsTensor.DatumFor` | src/lib.rs:56-71 | A host kind has a datum type exactly when it is one of the eight accepted kinds. Reading that datum type back gives the same kind, except that Uint8Clamped comes back as Uint8. |
| `JsTensor.Probe` | src/lib.rs:56-74 | The eight-step `dyn_ref` cascade yields exactly the datum type of the value's kind, and nothing for a non-typed-array value or an unaccepted kind. |
| `JsTensor.FromShapeVec` | src/lib.rs:43-52 | Construction succeeds exactly when the non-zero axis lengths of the converted shape multiply to at most `isize::MAX` (2^31-1 on the 32-bit target) and the product of the shape equals the element count. A success is contiguous, satisfies the size invariant and holds the given datum type, elements and converted shape. Each failure is the `unwrap` panic for its ndarray error kind: overflow first, then a shape that describes more elements than given, then one that describes fewer. |
| `JsTensor.NonzeroProductCovers` | src/lib.rs:50 | The element count never exceeds the product of the non-zero axis lengths, and equals it unless an axis is zero. So the overflow check only adds a refusal for shapes with a zero axis. |
| `JsTensor.EmptyShapeOverflows` | src/lib.rs:50 | The shape `[65536, 65536, 0]` describes no elements. An empty Float32Array with that shape is still refused, with the overflow panic. |
| `JsTensor.MakeArray` | src/lib.rs:78-88 | The body of `make_array!`. Its contiguity panic and element copy are stated by the contract of `JsTensor.Data`. |
| `JsTensor.FromTractTensor` | src/lib.rs:108-110 | Wrapping a tract tensor. `JsTensor.InnerInverse` proves it inverse to `inner`. |
| `JsTensor.Inner` | src/lib.rs:112-114 | Unwrapping a tract tensor. `JsTensor.InnerInverse` proves it inverse to `from_tract_tensor`. |
| `JsTensor.New` | src/lib.rs:54-75 | `new` succeeds exactly for an accepted typed array whose length matches its shape and whose shape ndarray accepts. It stores the kind's datum type, the converted shape and the elements unchanged. Any other value is the `"asdf"` error. |
| `JsTensor.Data` | src/lib.rs:77-99 | `data` succeeds exactly for the seven datum types of its table on a contiguous tensor, and hands the elements back unchanged as that type's typed array. Any other datum type panics with "unsupported data type". A non-contiguous view panics with "slice is not contiguous". |
| `JsTensor.Shape` | src/lib.rs:102-104 | The returned shape describes exactly the tensor's element count. |
| `JsTensor.InnerInverse` | src/lib.rs:108-114 | `from_tract_tensor` and `inner` are inverse to each other. |
| `JsTensor.MapJsError` | src/lib.rs:23-29 | `map_js_error` passes success through unchanged and turns every tract error into a JavaScript error carrying its diagnostic. |
| `JsTensor.Predict` | src/lib.rs:140-143 | `predict` runs the plan on exactly the one given input. It succeeds exactly when the run succeeds with at least one output, and then returns output 0. A run error becomes a JavaScript error. An empty output list is the "index out of bounds" panic of `outputs[0]`. |
| `JsTensor.ShapeOfNew` | src/lib.rs:44-51 | The shape of a constructed tensor is the converted given shape, and exactly the given shape when all its entries are 32-bit unsigned integers. |
| `JsTensor.DataOfNew` | src/lib.rs:55-97 | Round trip host → tensor → host: the same elements come back in the same order, as the same kind, except that Uint8Clamped comes back as Uint8. |
| `JsTensor.NewOfData` | src/lib.rs:77-97 | Round trip tensor → host → tensor: every readable tensor that satisfies the size invariant is rebuilt exactly from its own data and shape. |
| `JsTensor.AxisBelowNonzeroProduct` | src/lib.rs:50 | No axis length exceeds the product of the non-zero axis lengths. |
| `JsTensor.AxisBelowUint32` | src/lib.rs:44-50 | Every axis length of a shape ndarray accepts is below 2^32. So such a shape comes through the `Uint32Array` conversion unchanged. |
| `JsTensor.DatumForInjective` | src/lib.rs:56-71 | Each accepted kind reaches its own datum type, except that Uint8 and Uint8Clamped share U8. |
| `JsTensor.DimsIdempotent` | wrapper/src/worker.ts:47 | Converting a shape to `Uint32Array` in the worker and again in the core is the same as converting it once. |
| `Worker.CoversRange` | wrapper/src/worker.ts:12-14 | A key set holding every id below n has at least n keys. This bounds the `while` loop of `add`. |
| `Worker.SmallestFreeBound` | wrapper/src/worker.ts:9-17 | The smallest free id is at most the number of stored models. |
| `Worker.SmallestFreeUnique` | wrapper/src/worker.ts:10-14 | The smallest free id is unique, so `add`'s choice is determined by the keys alone. |
| `Worker.RemovedIdIsReused` | wrapper/src/worker.ts:12-14 | Removing an id below which every id is taken makes it the smallest free id again, so the next `add` hands it out. |
| `Worker.ModelStorage.constructor` | wrapper/src/worker.ts:7 | A new registry is empty. |
| `Worker.ModelStorage.Add` | wrapper/src/worker.ts:9-18 | `add` returns the smallest non-negative id that is not a key, at most the number of stored models. It inserts the model under that id and changes no other entry. Afterwards `get` of that id returns the model. |
| `Worker.ModelStorage.Get` | wrapper/src/worker.ts:20-22 | `get` returns the stored model exactly when the id is a key, and nothing otherwise. |
| `Worker.ModelStorage.Remove` | wrapper/src/worker.ts:24-26 | `remove` deletes exactly that key and leaves the others unchanged. An absent id is a no-op. Afterwards `get` of that id returns nothing. |
| `Worker.CoreInput` | wrapper/src/worker.ts:47 | A converted input has the given shape after ToUint32. It reads back as the same elements of the same kind, with Uint8Clamped read back as Uint8. |
| `Worker.CoreInputs` | wrapper/src/worker.ts:45-50 | Input conversion succeeds exactly when every input converts. It then yields one core tensor per input, in the same order. |
| `Worker.CoreInputsFailurePersists` | wrapper/src/worker.ts:46-50 | Once a prefix of the inputs fails to convert, the whole conversion fails with that prefix's error. |
| `Worker.HostOutput` | wrapper/src/worker.ts:57 | An output converts exactly when its data can be read. The host tensor then holds that data and the tensor's shape. |
| `Worker.HostOutputs` | wrapper/src/worker.ts:55-60 | The output loop yields one host tensor per core output. Every one is converted from output 0, and the loop fails exactly when output 0 cannot be read. |
| `Worker.PredictResult` | wrapper/src/worker.ts:41-63 | The reference definition of the worker's `predict` as a value. `Worker.Predict` is proved equal to it. `Worker.PredictOutputs` and `Worker.PredictInputs` state what it returns and what the model receives. |
| `Worker.PredictOutputs` | wrapper/src/worker.ts:52-62 | A successful `predict` has a stored model and convertible inputs, and the model run succeeded. It returns one tensor per model output, each holding output 0's data and shape. |
| `Worker.PredictInputs` | wrapper/src/worker.ts:45-50 | The model receives, for input i, a core tensor with input i's converted shape, its elements and its kind's datum type. |
| `Worker.ConvertInputs` | wrapper/src/worker.ts:45-50 | The `forEach` that pushes core tensors computes exactly the input conversion, and stops at the first failure. |
| `Worker.ConvertOutputs` | wrapper/src/worker.ts:53-62 | The `for` loop that pushes host tensors computes exactly the output conversion. |
| `Worker.Predict` | wrapper/src/worker.ts:41-63 | The worker's `predict` converts the inputs, looks the model up, runs it and converts the outputs. An unknown id gives a `TypeError`, from reading `predict` on `undefined`. Only the error kind is modelled: the message text is one engine's wording. |
| `Worker.Destroy` | wrapper/src/worker.ts:65-67 | `destroy` removes exactly that id from the registry. |
| `ModelClient.InferFormat` | wrapper/src/index.ts:47-59 | The loop over `formatEndings` with `break` yields ONNX for a URL ending in `.onnx`, TensorFlow for one ending in `.pb`, and nothing otherwise. |
| `ModelClient.EndsWith` | wrapper/src/index.ts:54 | JavaScript's `endsWith`: the string's last characters are the suffix. `ModelClient.FormatForSuffix` and `ModelClient.SuffixesExclusive` are proved from it. |
| `ModelClient.AnyEndsWith` | wrapper/src/index.ts:54 | `endings.some(...)`. `ModelClient.AnyEndsWithSingle` reduces it to `EndsWith` for the one-element endings lists. |
| `ModelClient.AnyEndsWithSingle` | wrapper/src/index.ts:54 | With a single ending, `some` over the endings is that ending's `endsWith`. |
| `ModelClient.SuffixesExclusive` | wrapper/src/index.ts:48-51 | No URL ends in both `.onnx` and `.pb`, so the table's order never changes the answer. |
| `ModelClient.FormatForSuffix` | wrapper/src/index.ts:53-58 | Any URL ending in `.onnx` infers ONNX, and any URL ending in `.pb` infers TensorFlow. |
| `ModelClient.FormatForExact` | wrapper/src/index.ts:53-58 | Each inferred format holds exactly when its suffix is present. No format is inferred exactly when neither suffix is present. |
| `ModelClient.ToInternal` | wrapper/src/index.ts:69-75 | The internal options carry the chosen format. `optimize` is true unless `false` was given. `inputs` and `outputs` are copied. `inputFacts` is the given map, or empty when undefined. |
| `ModelClient.ToInternalIdempotent` | wrapper/src/index.ts:69-75 | Defaulting is idempotent: fully specified options pass through unchanged. |
| `ModelClient.NormalizeOptions` | wrapper/src/index.ts:43-75 | A given format is kept whatever the URL. Otherwise the inferred format is written back into the caller's options. The constructor succeeds exactly when a format is given or the URL has a known suffix, and otherwise throws the "format could not be inferred" error. On success the worker receives the defaulted options with the final format. |
| `ModelClient.PredictOne` | wrapper/src/index.ts:106-112 | `predict_one` sends the one-element list `[input]`. It fails exactly when the call fails, and otherwise returns element 0 of the answer, or `undefined` when the answer is empty. |
| `ModelClient.PredictOneThroughWorker` | wrapper/src/index.ts:106-112 | Through the worker, a successful `predict_one` ran the model on exactly the one converted input. It returns output 0 read back, and `undefined` exactly when the model produced no output. |
| `Synset.Split` | demos/index.js:10 | `split` always yields at least one piece. |
| `Synset.Join` | demos/index.js:15 | JavaScript's `join`. `Synset.JoinSplit` proves that it undoes `split`, and `Synset.SplitTail` states what it yields after `slice(1)`. |
| `Synset.JoinSplit` | demos/index.js:15 | `join(sep)` undoes `split(sep)`, so the spaces inside a label are kept. |
| `Synset.SplitPiecesFree` | demos/index.js:10 | No piece of a split contains the separator. |
| `Synset.BeforeFirst` | demos/index.js:15 | The text before the first separator is a prefix of the string. It holds no separator and is followed by one when shorter than the string. |
| `Synset.AfterFirst` | demos/index.js:15 | The text after the first separator is empty when there is no separator. Otherwise the string is that prefix, the separator and the remainder. |
| `Synset.SplitHead` | demos/index.js:15 | `split(sep)[0]` is the text before the first separator. |
| `Synset.SplitTail` | demos/index.js:15 | `split(sep).slice(1).join(sep)` is the text after the first separator. |
| `Synset.TrimStart` | demos/index.js:11 | `trimStart` yields a suffix of the line. Everything it drops is white space, and the result does not start with white space. So exactly the leading white space is removed. |
| `Synset.TrimEnd` | demos/index.js:11 | `trimEnd` yields a prefix of the line. Everything it drops is white space, and the result does not end in white space. So exactly the trailing white space is removed. |
| `Synset.Trim` | demos/index.js:11 | `trim()` is `trimEnd` after `trimStart`. `Synset.TrimStart` and `Synset.TrimEnd` state what each removes. |
| `Synset.IsBlank` | demos/index.js:11 | The test `line.trim().length == 0`. `Synset.BlankIffWhitespace` proves it holds exactly for lines made only of white space. |
| `Synset.TrimStartEmpty` | demos/index.js:11 | `trimStart` leaves nothing exactly when the line is all white space. |
| `Synset.TrimEndEmpty` | demos/index.js:11 | `trimEnd` leaves nothing exactly when the line is all white space. |
| `Synset.BlankIffWhitespace` | demos/index.js:11-13 | A line is skipped exactly when every character of it is JavaScript white space or a line terminator. |
| `Synset.Label` | demos/index.js:15 | The expression `line.split(" ").slice(1).join(" ").split(",")[0]`. `Synset.LabelSpec` states what it yields. |
| `Synset.LabelSpec` | demos/index.js:15 | The label is the text after the first space, cut before the first comma. It never contains a comma. A line without a space yields the empty label. When no comma follows the space, the label is the whole remainder. |
| `Synset.NonBlankLinesConcat` | demos/index.js:10-17 | Skipping blank lines works line by line: each line's contribution stays in place. |
| `Synset.NonBlankLines` | demos/index.js:10-13 | The kept lines are never more than the lines. A line is kept exactly when it occurs in the text and is not blank. `Synset.NonBlankLinesConcat` adds that the kept lines stay in input order. |
| `Synset.LabelsOfAt` | demos/index.js:15-16 | There is one label per line, in order. The k-th label is line k's label and contains no comma. |
| `Synset.PushedIsLabelsOfNonBlank` | demos/index.js:10-17 | What the `forEach` pushes is the label of each non-blank line, in input order. |
| `Synset.ParseLabels` | demos/index.js:7-20 | The callback returns exactly the labels of the non-blank lines of the text split on newlines, in order. |

## Left out

- Fetching and loading are left out because they are network and file I/O,
  and parsing is done by the foreign tract library. This covers `fetch`,
  `Model::load` in src/lib.rs, `loadModel` in wrapper/src/worker.ts, and the
  utils loaders.
- `call` in wrapper/src/index.ts is left out: it is asynchronous Web Worker
  message passing with random uids. The model stands it in by the function
  `send` of `ModelClient.PredictOne`, and `PredictOneThroughWorker` ties that
  function to the worker's `predict`.
- The async `Model.predict` and `Model.destroy` of wrapper/src/index.ts are
  left out: they only forward through `call`.
- Foreign tract calls are left out:
  - running a plan (`SimplePlan::run`) and a core model's `predict` are opaque
    functions supplied as values;
  - `into_optimized`, `auto_outputs` and `console_error_panic_hook` are not
    modelled.
- A tract error's `{:#?}` debug rendering is taken to be its `diagnostic`
  string.
- JavaScript numbers in shapes are modelled as integers. Fractional, NaN and
  infinite entries are left out, because the ToUint32 of those is not
  modelled. A non-array shape argument is left out as well.
- FromShapeVec: the panic message names only the ndarray error kind. The
  description text ndarray's debug formatting appends after it is not
  modelled, because ndarray is not part of this model.
- CoreInput: relies on `CoreTensor` from `tract-js-core`, whose source is not
  part of this model. It is assumed to behave like src/lib.rs's `Tensor::new`.
- HostOutput: relies on `CoreTensor.data()` and `shape()` from `tract-js-core`.
  They are assumed to behave like src/lib.rs's `Tensor::data` and
  `Tensor::shape`. A core variant that accepts other datum types on output
  would fail in fewer cases.
- HostOutputs: its failure condition rests on the same `tract-js-core`
  assumption as `HostOutput`.
- JsTensor.Predict: does not capture that the argument is taken by value. In
  the source, wasm-bindgen invalidates the caller's JavaScript handle to the
  input tensor after the call. Ownership of JavaScript handles is not
  modelled.
- The error path of `to_array_view` is left out. It cannot occur because
  `data` always asks for the tensor's own datum type.
- Element values are opaque. Floating-point semantics are not modelled, and
  neither is the clamping of Uint8Clamped, since values are only copied.
- Symbolic and affine dimension facts exist only as datatypes. Their
  interpretation is not part of this model.
- The write-back of the inferred format into the caller's options object is
  modelled by returning the updated options (`written`) instead of mutating a
  shared object. Aliasing of that object is therefore not captured.
- In the demo, `getData`, `softmax`, `getTopK` and the DOM code are left out.
  They are canvas access and floating-point arithmetic.
- Tests and benchmarks are left out because they are harnesses.
