# A verified model of ollaya's graph rewrites, row encoders and protocol code

ollaya serves small decision models. This project models, in Dafny, the parts of it where a mistake would change an answer
without anything failing, and proves what those parts are for. `dafny verify dfyconfig.toml` checks everything.

The modules follow the program:

- **Graph rewrites.** `Onnx` is the common ground: tensors in row-major order, an ordered list of single-assignment nodes, and
  an evaluator that fails on an ill-formed step; `OnnxMeaning` says what its operators compute, element by element. Everything a
  rewrite must not depend on (how Cast rounds, how a dot product is summed, what any other operator does) is a parameter, so each
  theorem holds for all of them. `SinkCasts` moves Cast below Gather and prunes dead chains; `Weightless` and `WeightlessProofs`
  replace initializers by checkpoint tensors, and `Locations` says for which checkpoint files that is safe; `Quantize`, `WebGraph`
  and `WebGraphProofs` replace float weights by packed 2-bit and 4-bit codes. The rewrites are methods that change a `Graph`
  object, each proved equal to a function of the old graph; the theorems say that this function keeps every output.
  `SinkChains`, `Externalized` and `Conversions` say of the graph and its numbers alone which nodes and initializers each rewrite
  replaces, and by what.
- **Row encoders.** `Rows`, `Clef`, `ClefSpans`, `ClefOrder`, `Laya`, `Substrings` and `D1Omni`: a state and questions become a
  token row within a budget. The tokenizer is an arbitrary function that may fail. `ClefRows`, `LayaRows` and `D1OmniRows` write
  each row out, from the request's texts to the place of every token, with every error.
- **Durations.** `Durations`, `DurationProofs` and `KeepAlive`: the parser and printer of `keep_alive` values; `KeepAliveTexts`
  gives the answer for every input from its characters.
- **Streams and buffers.** `Ndjson` (progress lines out of arbitrary chunks), `NdjsonRuns` (what a stream yields, from its lines)
  and `Stream` (a growing buffer).
- **Decisions.** `Calibration` and `Answer`: temperatures, probabilities, the decision and its confidences; `Formulas` writes
  them out.
- **Allocation.** `Batches` and `BatchLists` (length batches), `Sampling` and `SampleLimits` (water-filling) and `Strides`
  (tensors read in place from an archive).

`Wrappers`, `Text`, `TokenIds`, `ByteStrings`, `Arithmetic`, `Shapes`, `Collections` and `QuestionTypes` are small helpers.

## Where the code and its documentation differ

The model follows the code. These are results of the model, each a lemma with a concrete input beside a lemma that says exactly
when the promise holds.

- `keep_alive.rs:277` says that digits past the 18th cannot change a result. They change it, by one nanosecond, exactly when
  what they add carries into the nanoseconds (`CutLosesOne`, lifted to components and sums by `ComponentValue` and
  `SumNearExact`). That never happens for `ns` to `s` (`CutHoldsBelowMinutes`); for `h` it does in `CutLosesANanosecond`.
- `keep_alive.rs:281` adds without a check. In a release build the addition wraps at 128 bits; `UncheckedAddition` says from
  the components of the text exactly when the result then differs from the intended one, `AdditionWraps` is such an input, and
  `SmallNeverWraps` shows that integer parts below 2^64 are safe.
- `Display` for a keep_alive longer than `u64::MAX` nanoseconds writes text that `parse` refuses (`DisplayReadsBack`).
- The external name `w:<location>:<key>` is ambiguous when two files have one location, or one location, with a colon, starts
  another: two tensors can share the name, and the second initializer then reads the first one's data. `LocationsDecide` says for
  every list of locations whether initializers always get their values back, `ColonLosesAValue` is an instance, and
  `PlainLocationsUnambiguous` is the rule that avoids it.
- Without `verify`, a normal return is meant to say that every checkpoint tensor is used. Unused tensors are collected by location,
  so a later source hides those of an earlier one at the same location (`SharedLocationHidesATensor`). `FilesDecide` says for which
  files a normal return always means a bijection, `BijectionWithoutVerify` for which rewrites it does, and `BijectionOfLocations` is
  the rule that avoids it.
- Replacing the mask text by a space can put the mask text back together. `SurvivesIff`: it does for some text exactly when the
  mask text has a space (or is empty).
- The stride check refuses some tensors that can be read in place: those with another stride in a dimension of one element, and
  empty ones with the strides of a full one (`RefusedIff` says exactly which, `StricterThanRowMajor` has one of each).

## Model

| member | source | states |
|---|---|---|
| OnnxMeaning.GatherSays | convert/ollaya_convert/weightless_sharded.py:174-177 | Gather along axis 0 takes the rows its indices name, a negative index counting from the end, and fails exactly when an index names none |
| OnnxMeaning.MatMulSays | train/webgraph.py:40-51 | each element of a MatMul by a matrix is the dot product of a row and a column |
| OnnxMeaning.TransposeSays | convert/ollaya_convert/weightless_sharded.py:324-331 | the order [1, 0] puts row r, column c at row c, column r |
| SinkCasts.Index | convert/ollaya_convert/weightless_sharded.py:183-183 | the producer map names, for every name, the last node that outputs it, and nothing else |
| SinkCasts.FindSource | convert/ollaya_convert/weightless_sharded.py:192-199 | the backwards walk through pass-through nodes terminates and computes the specified source; `SinkChains.SourceIff` says which names have one |
| SinkChains.SourceIff | convert/ollaya_convert/weightless_sharded.py:185-199 | a name has a source exactly when Identity and order-keeping Transpose nodes lead back from it to the Cast of an external bfloat16 or float16 initializer; it is that initializer and the type of that Cast |
| SinkCasts.SourceMeaning | convert/ollaya_convert/weightless_sharded.py:192-199 | in every run, a name with a source holds exactly that checkpoint tensor, cast |
| SinkCasts.GatherCommutesWithCast | convert/ollaya_convert/weightless_sharded.py:174-177 | casting and then gathering rows (Gather axis 0, GatherND batch_dims 0) is gathering and then casting, and fails exactly when it does |
| SinkCasts.SinkMeaning | convert/ollaya_convert/weightless_sharded.py:206-217 | the rewritten node list gives every name the value it had |
| SinkCasts.PruneMeaning | convert/ollaya_convert/weightless_sharded.py:220-227 | dropping dead Cast and pass-through nodes to a fixpoint keeps the value of every output |
| SinkCasts.SinkKeepsOutputs | convert/ollaya_convert/weightless_sharded.py:173-230 | the whole pass leaves every graph output unchanged, for all inputs, checkpoints and other operators |
| SinkCasts.SinkResultShape | convert/ollaya_convert/weightless_sharded.py:206-230 | the result is again in a valid order, has no unused Cast or pass-through node, and the pass is idempotent |
| SinkCasts.SinkCastsBelowGathers | convert/ollaya_convert/weightless_sharded.py:173-230 | the method computes that result in place, terminates, and returns the number of Gathers rewritten; `SinkChains.SinkSays` says what that is |
| SinkChains.SinkSays | convert/ollaya_convert/weightless_sharded.py:173-230 | every Gather axis 0 or GatherND batch_dims 0 whose data ends such a chain becomes the same gather of the initializer, named with `:narrow`, and the Cast, and these are what is counted; every other node stays, unless it is a Cast or pass-through node that nothing reads any more; no gather at the end of such a chain is left |
| Weightless.ValueIsExact | convert/ollaya_convert/weightless_sharded.py:77-82 | shifting bf16 bits to float32 changes no element's value |
| Weightless.FindByName | convert/ollaya_convert/weightless_sharded.py:283-293 | the loop over candidate names computes the specified search; `Externalized.ByNameIs` says what it finds |
| Weightless.FindByShape | convert/ollaya_convert/weightless_sharded.py:294-307 | the first unused tensor of the shape with the value; untransposed ones before transposed ones |
| Weightless.FindTensor | convert/ollaya_convert/weightless_sharded.py:264-307 | by name, then by shape for large tensors; without `verify` by name and shape only; `Externalized.ChooseIs` says which tensor that is |
| Externalized.SameIs | convert/ollaya_convert/weightless_sharded.py:288-288 | untransposed, a tensor matches exactly when it has the shape and every number, decoded and converted, is the initializer's |
| Externalized.TransposedIs | convert/ollaya_convert/weightless_sharded.py:290-291 | transposed, exactly when row r, column c is the initializer's row c, column r |
| Externalized.ByNameIs | convert/ollaya_convert/weightless_sharded.py:283-293 | the first key whose first tensor in the files has the value, untransposed if that has it, else transposed; nothing exactly when no key has one |
| Externalized.ByShapeIs | convert/ollaya_convert/weightless_sharded.py:294-307 | the first tensor in the order of the files that no earlier initializer uses and that has the value in that orientation; nothing exactly when there is none |
| Externalized.ChooseIs | convert/ollaya_convert/weightless_sharded.py:264-312 | with `verify`, an initializer stays inline exactly when no key gives its value and (it has at most 4096 elements or no unused tensor has it), else it goes to the first such key, or the first unused tensor, untransposed before transposed; without `verify` the first key any file has decides, and a tensor of another shape or already in use is the error |
| Externalized.SinglesAre | convert/ollaya_convert/weightless_sharded.py:71-82 | binary32 patterns: sign, exponent with bias 127 and 23 bits of fraction, subnormals included |
| Externalized.HalvesAre | convert/ollaya_convert/weightless_sharded.py:71-82 | binary16 patterns: bias 15 and ten bits of fraction |
| Externalized.BrainFloatsAre | convert/ollaya_convert/weightless_sharded.py:71-82 | a bfloat16 pattern denotes what the binary32 pattern with it as upper half does |
| Externalized.IntegersAre | convert/ollaya_convert/weightless_sharded.py:71-82 | signed integers are stored modulo the width |
| Weightless.PlaceInitializers | convert/ollaya_convert/weightless_sharded.py:264-334 | the loop over initializers: what is kept, which nodes are added, which tensors are used |
| Externalized.PlacedSays | convert/ollaya_convert/weightless_sharded.py:264-334 | the whole loop: each initializer decided with the earlier ones' tensors in use; an inline one kept as it is, another adding its tensor under `w:<location>:<key>` unless that name is there, and the Cast to `:cast` where the types differ and the Transpose or Identity that give the initializer's name its value; or the first initializer that does not fit |
| Weightless.WrappingIsExact | convert/ollaya_convert/weightless_sharded.py:316-322 | conversions that wrap integers, as numpy and ONNX do, meet the one assumption the theorems make about conversions |
| Weightless.UnusedTensors | convert/ollaya_convert/weightless_sharded.py:361-361 | the dictionary of unused tensors: of sources with one location, only the last one's |
| Weightless.MakeWeightless | convert/ollaya_convert/weightless_sharded.py:233-367 | the graph after the rewrite, casts sunk or not, and exactly when the rewrite reports an error: an initializer that cannot be placed, or without `verify` an unused tensor in that dictionary; which tensors are placed is `Externalized.PlacedSays` |
| Externalized.RewiredSays | convert/ollaya_convert/weightless_sharded.py:336-342 | with `sink_casts` the node list is what `SinkChains.SinkSays` says of the inserted nodes and the old ones, without it just those |
| WeightlessProofs.NamesApart | convert/ollaya_convert/weightless_sharded.py:316-316 | two locations never give one external name exactly when neither, with a colon, starts the other |
| WeightlessProofs.PlainLocationsUnambiguous | convert/ollaya_convert/weightless_sharded.py:316-322 | distinct locations without a colon make every external name unique |
| WeightlessProofs.InitializersRestored | convert/ollaya_convert/weightless_sharded.py:308-334 | every original initializer gets its original value back from the external tensors and the inserted nodes |
| WeightlessProofs.WeightlessMeaning | convert/ollaya_convert/weightless_sharded.py:336-340 | wherever the exported graph has values the rewritten graph has the same ones |
| WeightlessProofs.WeightlessWellFormed | convert/ollaya_convert/weightless_sharded.py:336-340 | the inserted nodes followed by the old ones are in a valid order |
| WeightlessProofs.OutputsKept | convert/ollaya_convert/weightless_sharded.py:336-342 | the whole rewrite, with casts sunk or not, keeps every graph output |
| WeightlessProofs.ReportedIff | convert/ollaya_convert/weightless_sharded.py:361-367 | nothing is reported exactly when every tensor is used of each source whose location no later one repeats |
| WeightlessProofs.BijectionWithoutVerify | convert/ollaya_convert/weightless_sharded.py:266-367 | without `verify`, when the rewrite returns normally: externalized initializers and checkpoint tensors are in bijection exactly when every tensor is used of the sources whose location a later one repeats; pairs agree in name and shape |
| WeightlessProofs.BijectionOfLocations | convert/ollaya_convert/weightless_sharded.py:266-367 | so they are in bijection whenever the locations differ |
| WeightlessProofs.SharedLocationHidesATensor | convert/ollaya_convert/weightless_sharded.py:361-367 | two sources at one location for which a tensor stays unused and nothing is reported |
| Locations.LocationsDecide | convert/ollaya_convert/weightless_sharded.py:264-334 | for any list of locations: every verified rewrite over files there restores all initializers exactly when every two locations differ and neither, with a colon, starts the other |
| Locations.CollisionLosesAValue | convert/ollaya_convert/weightless_sharded.py:294-322 | whenever tensors of two files share an external name, at different locations or at one, some verified rewrite gives an initializer another one's value |
| Locations.ColonLosesAValue | convert/ollaya_convert/weightless_sharded.py:316-322 | so for files at `a` and `a:b` |
| Locations.FilesDecide | convert/ollaya_convert/weightless_sharded.py:264-367 | for any files: without `verify` some rewrite returns normally exactly when every tensor of a source whose location no later one repeats is the first of its key, and then every normal return is a bijection exactly when no source that has a tensor has its location repeated |
| Quantize.BlockDivides | train/webgraph.py:26-27 | a block size exists exactly for multiples of 16, divides the row and is the largest that does |
| Quantize.Pack | train/webgraph.py:30-37 | the or-ing loop computes the packed bytes, the first code in the lowest bits |
| Quantize.PackedDecodes | train/webgraph.py:30-37 | every code comes back out of its byte, whatever its neighbours |
| Quantize.ScaleIndex | train/webgraph.py:48-48 | the scale of an element by row and block is the scale by its place in row-major order |
| Quantize.ByteIndex | train/webgraph.py:33-33 | the byte and slot of an element in the runtime's [rows, blocks, bytes] layout is that of its row-major place |
| Quantize.DequantizedExactly | train/webgraph.py:46-48 | every element of an encoded matrix decodes to its code times its row's scale |
| Quantize.RowScaleComplete | train/ternary.py:131-135 | every matrix that is ternary by rows is recognised, with its scale per row; an all-zero row has scale zero |
| Quantize.TernaryExact | train/webgraph.py:44-46 | of every recognised row, all-zero ones included, the codes are -1, 0 or 1 and give it back exactly |
| Quantize.IntRows | train/ternary.py:138-150 | each row keeps the first of the seven candidate scales that gives it back exactly; None exactly when some row has none; `Conversions.IntegerRowIff` says which rows have one |
| Conversions.IntegerRowIff | train/ternary.py:138-150 | a row is taken exactly when it is codes in -7..7 times a scale at most three float32 steps from its largest magnitude over 7 (at least 1e-12), each code the rounded quotient |
| Conversions.FirstScaleIs | train/ternary.py:144-150 | its scale is the first that works in the order 0, 1, -1, 2, -2, 3, -3 steps |
| Conversions.QuantizedRow | train/ternary.py:138-150 | so every row of codes times a scale within three steps of the largest magnitude over 7 is taken, when float32 holds its products to an eighth of the scale and its quotients to a quarter |
| Conversions.TernaryColumnsIff | train/ternary.py:131-135 | a weight is ternary exactly when every column has one magnitude besides zero |
| WebGraph.CountUses | train/webgraph.py:69-69 | the counter counts the node inputs that read each name |
| WebGraph.PackTensor | train/webgraph.py:47-59 | the packed codes and repeated scales with the shapes the two operators read |
| WebGraph.MatMulNBitsNode | train/webgraph.py:40-51 | what a MatMul becomes, when it is left alone, and when the conversion raises |
| WebGraph.GatherQ4Node | train/webgraph.py:54-62 | what a Gather becomes, when it is left alone, and when the conversion raises, as specified; `Conversions.NodeBecomes` says when |
| WebGraph.ConvertGraph | train/webgraph.py:65-94 | the specified nodes and initializers of the graph, or an exception that leaves it alone; `Conversions.ConvertSays` says which |
| Conversions.UsesOnce | train/webgraph.py:69-76 | the counter says one exactly when the name is an input once in the whole graph |
| Conversions.NodeBecomes | train/webgraph.py:40-83 | a node raises, is replaced or stays exactly as said of its weight: read only there, a float matrix, ternary by columns or integer by rows, of a size that is a multiple of 16; what replaces it has the names, shapes, largest block size and scales the operators read, and gives the weight back |
| Conversions.ConvertSays | train/webgraph.py:65-94 | the conversion raises exactly when some node does; else every such node is replaced, every other stays, exactly the replaced weights are dropped, and the new initializers follow in the order of the nodes |
| WebGraphProofs.EncodedDequantizes | train/webgraph.py:47-59 | an encoded matrix dequantizes to exactly the matrix |
| WebGraphProofs.TernaryCodes | train/webgraph.py:44-46 | the assertion in `matmul_nbits` never fails on a matrix `_row_scale` accepts |
| WebGraphProofs.TernaryIsRewritten | train/webgraph.py:73-76 | a ternary weight is rewritten exactly when its inner size is a multiple of 16, and raises otherwise |
| WebGraphProofs.Int4IsRewritten | train/webgraph.py:78-83 | an embedding is rewritten exactly when each row has one of the candidate scales and its width is a multiple of 16, raises exactly when only the width is not or is zero, and is kept otherwise |
| WebGraphProofs.MatMulSame | train/webgraph.py:40-51 | MatMulNBits over the new initializers computes the tensor MatMul computed |
| WebGraphProofs.GatherSame | train/webgraph.py:54-62 | GatherBlockQuantized over the new initializers computes the tensor Gather computed |
| WebGraphProofs.DroppedUnread | train/webgraph.py:69-88 | a dropped initializer was read exactly once and no node still reads it |
| WebGraphProofs.DroppedInitializers | train/webgraph.py:84-94 | no node of the converted graph refers to a dropped initializer, and it defines the same names |
| WebGraphProofs.ConvertKeepsOutputs | train/webgraph.py:65-94 | the converted graph keeps every output, for every dot product and rounding that holds the weights |
| ClefSpans.SpanHolds | crates/ollaya-decision/src/clef.rs:200-214 | in the schema, a question's span holds exactly its instruction tokens |
| ClefSpans.OptionHolds | crates/ollaya-decision/src/clef.rs:217-230 | in the schema, an option's span holds exactly its tokens |
| ClefSpans.PlacesInOrder | crates/ollaya-decision/src/clef.rs:194-240 | spans are disjoint and in order: instructions, options, next question |
| Clef.Fill | crates/ollaya-decision/src/clef.rs:98-113 | the scanning loop is one-pass substitution |
| Clef.FilledOnce | crates/ollaya-decision/src/clef.rs:97-113 | in every template, each variable of its leftmost reading becomes its value as it is and all other text stays; values are never rescanned |
| Clef.TemplateReads | crates/ollaya-decision/src/clef.rs:98-113 | every template has such a reading |
| Clef.FieldVarsApart | crates/ollaya-decision/src/clef.rs:197-200 | of the variables of a field at most one starts at any place, so their order does not matter |
| Clef.SortedSorts | crates/ollaya-decision/src/clef.rs:161-162 | a choice's options are a permutation in code-point order |
| Clef.EncodeOption | crates/ollaya-decision/src/clef.rs:218-229 | one option's tokens and span, or the tokenizer's error |
| Clef.EncodeOptions | crates/ollaya-decision/src/clef.rs:216-230 | the options' tokens, spans and ids |
| Clef.ReadQuestion | crates/ollaya-decision/src/clef.rs:195-207 | the texts of a question, as specified; `ClefRows.PartsSay` says what they are |
| ClefRows.GetIs | crates/ollaya-decision/src/clef.rs:132-136 | a member is the first of that name |
| ClefRows.OptionsAre | crates/ollaya-decision/src/clef.rs:132-179 | from the definition alone: which are valid, and their options: noul "true" then "false", each with the criteria's own description, else the layout's; a choice's labels with theirs, in code-point order; level i with item i; null descriptions left out |
| ClefRows.PartsSay | crates/ollaya-decision/src/clef.rs:195-207 | the field with number, id and type name put in, and the instructions: the definition's own, or the id when they are missing, null or empty |
| Clef.EncodeQuestion | crates/ollaya-decision/src/clef.rs:200-239 | one question's tokens and spans, or the first error in the code's order |
| Clef.EncodeQuestions | crates/ollaya-decision/src/clef.rs:194-240 | all questions, one after the other |
| Clef.Rebase | crates/ollaya-decision/src/clef.rs:252-258 | every span moved in place by what precedes the schema |
| Clef.Assemble | crates/ollaya-decision/src/clef.rs:244-268 | the row, or the error that the questions do not fit |
| Clef.Encode | crates/ollaya-decision/src/clef.rs:182-269 | the whole encoder computes the specified row or error; `ClefRows.EncodeSays` says which |
| ClefRows.EncodeSays | crates/ollaya-decision/src/clef.rs:182-269 | the whole answer from the request: a row is the tokens of the prefix, as much of the state as fits, the schema's texts in order and the suffix, each question's and option's span at the place of its text, with ids and type index; an error is the first: no questions, a definition that is not valid, a text the tokenizer fails on, instructions without tokens, or the tokens that do not fit |
| Clef.RowFits | crates/ollaya-decision/src/clef.rs:244-268 | at most `max_tokens` tokens, the longest prefix of the state that fits, flagged as cut exactly when a token was dropped |
| Clef.SpanHoldsInstructions | crates/ollaya-decision/src/clef.rs:202-214 | in the row, a question's span is in bounds, not empty, and holds exactly its instruction tokens |
| Clef.OptionSpanHoldsOption | crates/ollaya-decision/src/clef.rs:218-229 | in the row, an option's span is in bounds and holds exactly the tokens of its id and description (which `ClefRows.OptionsAre` takes from the definition) |
| Clef.SpansInOrder | crates/ollaya-decision/src/clef.rs:253-258 | in the row, all spans are ordered and disjoint |
| ClefOrder.ChoiceIds | crates/ollaya-decision/src/clef.rs:155-163 | sorting keeps each label, once |
| ClefOrder.OrderRestored | crates/ollaya-decision/src/clef.rs:275-307 | logits come back in the order answers use: each label's, level's or noul value's own logit; no result exactly when there are too few (for levels, not as many) |
| ClefOrder.OrderSays | crates/ollaya-decision/src/clef.rs:275-307 | entry by entry: each label's own logit, or the error with the first label that has none; levels as they are, or the error with both counts |
| Durations.Evaluate | crates/ollaya-api/src/keep_alive.rs:254-282 | one component's nanoseconds, its errors in the code's order, the last addition wrapping |
| Durations.ParseGoDuration | crates/ollaya-api/src/keep_alive.rs:234-290 | the loop terminates and computes sign and total, or the first error |
| DurationProofs.ExactIsFloor | crates/ollaya-api/src/keep_alive.rs:276-282 | the exact value of a component is the floor of the real number it denotes |
| DurationProofs.CutIsExact | crates/ollaya-api/src/keep_alive.rs:277-282 | the 18-digit cut costs nothing where the unit divides 10^18, however long the fraction |
| DurationProofs.CutLosesOne | crates/ollaya-api/src/keep_alive.rs:277-282 | in any unit up to an hour it costs nothing exactly when what the cut digits add does not carry into the nanoseconds (`CutHolds`), and one nanosecond otherwise |
| DurationProofs.CutHoldsBelowMinutes | crates/ollaya-api/src/keep_alive.rs:277-282 | for `ns` to `s` that condition always holds |
| DurationProofs.ComponentValue | crates/ollaya-api/src/keep_alive.rs:271-282 | a component is its exact floor exactly when the condition holds, and one nanosecond less otherwise |
| DurationProofs.SumNearExact | crates/ollaya-api/src/keep_alive.rs:243-289 | the exact sum is the computed one and a nanosecond for each component whose cut does not hold |
| DurationProofs.TotalIs | crates/ollaya-api/src/keep_alive.rs:243-289 | the loop on every text: too large when a component before the first bad one exceeds 128 bits before its fraction is added, or their wrapped sum exceeds `u64::MAX`; else refused if there is a bad one; else that sum |
| DurationProofs.IntendedIs | crates/ollaya-api/src/keep_alive.rs:243-289 | the same for the loop with a checked addition: too large exactly when the unwrapped sum is |
| DurationProofs.DurationIsSum | crates/ollaya-api/src/keep_alive.rs:234-290 | wherever no component wraps: the sum of the components; too large exactly when the sum before the first bad one exceeds `u64::MAX`, refused exactly when it does not and there is a bad one |
| DurationProofs.UncheckedAddition | crates/ollaya-api/src/keep_alive.rs:281-286 | on every text: the code differs from a checked addition exactly when, before the first bad component, all products fit 128 bits, some component does not once its fraction is added, and the sum modulo 2^128 is at most `u64::MAX` |
| DurationProofs.SmallNeverWraps | crates/ollaya-api/src/keep_alive.rs:281-281 | integer parts below 2^64 never wrap |
| KeepAlive.SplitShown | crates/ollaya-api/src/keep_alive.rs:245-261 | the parser takes exactly one printed component off the text |
| KeepAlive.ComponentsShown | crates/ollaya-api/src/keep_alive.rs:244-288 | components written as text are read as the same components |
| KeepAlive.FormatDuration | crates/ollaya-api/src/keep_alive.rs:176-211 | the printer writes the components of the duration |
| KeepAlive.FormatSeconds | crates/ollaya-api/src/keep_alive.rs:201-208 | seconds with their fraction, trailing zeros trimmed |
| KeepAlive.FractionPrinted | crates/ollaya-api/src/keep_alive.rs:206-207 | the trimmed nine-digit fraction denotes the nanoseconds it came from |
| KeepAlive.PartsSum | crates/ollaya-api/src/keep_alive.rs:176-211 | the printed components add up to the duration |
| KeepAlive.FormatReadsBack | crates/ollaya-api/src/keep_alive.rs:176-290 | parsing a printed duration gives it back up to `u64::MAX` nanoseconds and reports overflow above |
| KeepAlive.CutLosesANanosecond | crates/ollaya-api/src/keep_alive.rs:277-282 | an hour component whose exact value is 1 ns and that reads as 0 |
| KeepAlive.AdditionWraps | crates/ollaya-api/src/keep_alive.rs:281-281 | a far too large duration that reads as 31.8 ms |
| KeepAlive.ReadsAsNumber | crates/ollaya-api/src/keep_alive.rs:214-226 | the counting loop accepts exactly the documented number syntax |
| KeepAlive.ParseKeepAlive | crates/ollaya-api/src/keep_alive.rs:49-69 | the method computes the specified answer; `KeepAliveTexts.ParseSays` says what it is |
| KeepAliveTexts.ComponentsAre | crates/ollaya-api/src/keep_alive.rs:244-288 | every text is components (digits, a point, digits, one of eight units) and a rest that none starts, and the parser finds them |
| KeepAliveTexts.ParseSays | crates/ollaya-api/src/keep_alive.rs:49-69 | the answer for every input from its characters: white space around it taken off, a number of seconds, or an optional sign and components; their sum in nanoseconds, with minus (unless it is zero) `Forever`; or invalid or too large, with the whole input |
| KeepAliveTexts.FormatSays | crates/ollaya-api/src/keep_alive.rs:176-211 | what is printed: hours, minutes and seconds that are not zero, with the shortest fraction; less than a second in the largest unit that divides it; "0s" |
| KeepAlive.DisplayReadsBack | crates/ollaya-api/src/keep_alive.rs:139-146 | `parse` undoes `Display` on `Forever` and on exactly the durations up to `u64::MAX` nanoseconds |
| Ndjson.LineReader.constructor | crates/ollaya-api/src/client.rs:406-412 | a new reader has the whole run before it |
| Ndjson.LineReader.Next | crates/ollaya-api/src/client.rs:413-453 | each call takes exactly the next item of the run, and none after the last |
| Ndjson.Collect | crates/ollaya-api/src/client.rs:406-455 | the items are a function of the received bytes and of how the connection ends |
| Ndjson.OneTerminalItem | crates/ollaya-api/src/client.rs:404-405 | every run has exactly one terminal item, its last |
| Ndjson.ChunksDoNotMatter | crates/ollaya-api/src/client.rs:427-428 | two ways of cutting the bytes into chunks give the same items |
| Ndjson.ItemsAreLines | crates/ollaya-api/src/client.rs:418-451 | a run is the parses of the complete non-blank lines up to the first terminal one, or else the end item |
| NdjsonRuns.RunSays | crates/ollaya-api/src/client.rs:404-455 | given the lines of the bytes: one item for each line that is not white space up to the first that does not parse or is the success line; else a last item for the end: transport error, a last line without newline that stops the stream, or incomplete |
| Ndjson.LinesAreBytes | crates/ollaya-api/src/client.rs:418-419 | lines and tail are the bytes; a line ends at its only newline |
| Ndjson.Drain | crates/ollaya-api/src/client.rs:364-376 | succeeds exactly when the terminal item is the success line, else fails with its error; every progress line is reported |
| NdjsonRuns.ReportedIs | crates/ollaya-api/src/client.rs:364-376 | the reported lines are all items, but for a last one that is an error |
| NdjsonRuns.NothingAfterBreak | crates/ollaya-api/src/client.rs:429-433 | nothing that arrives after a transport error is read |
| Substrings.SurvivesIff | crates/ollaya-decision/src/layout.rs:74-74 | the replacement leaves the mask text in some text exactly when the mask text is empty or has a space |
| Substrings.PlainKept | crates/ollaya-decision/src/layout.rs:74-74 | a text without the mask text is not changed |
| Substrings.FirstReplaced | crates/ollaya-decision/src/layout.rs:74-74 | else the first occurrence becomes a space, and what follows is treated alike |
| Substrings.AcrossSpace | crates/ollaya-decision/src/layout.rs:86-90 | joining texts at a space makes no new occurrence of a text without spaces |
| Laya.EncodeOptions | crates/ollaya-decision/src/layout.rs:93-99 | each option: the mask token and at most 48 tokens |
| Laya.ApplyBudget | crates/ollaya-decision/src/layout.rs:101-111 | the options within their budget and what they leave for the instructions |
| Laya.Arrange | crates/ollaya-decision/src/layout.rs:114-141 | the row, or too many options |
| Laya.Encode | crates/ollaya-decision/src/layout.rs:77-142 | the whole encoder computes the specified row or error; `LayaRows.EncodeSays` and `EncodeFails` say which |
| LayaRows.EncodeSays | crates/ollaya-decision/src/layout.rs:77-142 | the row from its texts: cls, the first tokens of "<type> question: <instructions>", sep, after each mask the first tokens of a space and the option, up to 48 and the option's share, sep, the state, sep, each at its place; or too many options, exactly when the last mask lies past `max_len` |
| LayaRows.EncodeFails | crates/ollaya-decision/src/layout.rs:91-96 | the tokenizer's error exactly on those texts |
| LayaRows.TextsAsTheyAre | crates/ollaya-decision/src/layout.rs:69-96 | texts without the mask text go in as they are |
| Laya.RowIsSound | crates/ollaya-decision/src/layout.rs:114-141 | at most `max_len` ids, a marker per option, strictly increasing, in range, each on a mask token; a prefix of the state, cut only when the row is full, and never so long that it pushes out anything else |
| Laya.RefusedIff | crates/ollaya-decision/src/layout.rs:101-136 | refusal from the token counts alone: it depends on the limits and on how many tokens the instructions and each option have, not on the state; otherwise there is a row |
| Laya.HeadBound | crates/ollaya-decision/src/layout.rs:101-112 | instructions and options take at most max(head_max_len, 4K + 8) tokens |
| Laya.NeverRefused | crates/ollaya-decision/src/layout.rs:130-136 | with two tokens more than that, options are never refused |
| Laya.MarkersAreTheMasks | crates/ollaya-decision/src/layout.rs:69-142 | given a tokenizer that emits the mask only for its text, the markers are the only mask tokens of the row, whatever the texts contain |
| D1Omni.Options | crates/ollaya-decision/src/d1_omni.rs:116-143 | which options a question has, and exactly when each error of a wrong count is returned |
| D1Omni.AddOption | crates/ollaya-decision/src/d1_omni.rs:174-178 | one option between its delimiters, its text cut to the share |
| D1Omni.AddOptions | crates/ollaya-decision/src/d1_omni.rs:171-179 | all options and where their masks are in the question |
| D1Omni.Finish | crates/ollaya-decision/src/d1_omni.rs:182-202 | the row put together, the markers moved past the state, the row checked |
| D1Omni.Encode | crates/ollaya-decision/src/d1_omni.rs:150-203 | the whole encoder computes the specified row or error; `D1OmniRows.EncodeSays` and `EncodeFails` say which |
| D1OmniRows.EncodeSays | crates/ollaya-decision/src/d1_omni.rs:150-203 | the row from its texts: the opening tokens, the state, the question's token and instructions, each option between its tokens with its mask, the deciding token, each part at its place and cut to its budget; or the error, exactly when the last mask does not fit |
| D1OmniRows.EncodeFails | crates/ollaya-decision/src/d1_omni.rs:150-179 | the error of a wrong count, or the tokenizer's on one of those texts |
| D1Omni.RowIsSound | crates/ollaya-decision/src/d1_omni.rs:182-202 | in every accepted row each marker is in range, in order and on the mask token; as much of the state as fits, and never so much that it pushes out a token of the question |
| D1Omni.QuestionBound | crates/ollaya-decision/src/d1_omni.rs:163-180 | with the declared budgets, question and opening tokens exceed the context by at most three |
| D1Omni.AlwaysFits | crates/ollaya-decision/src/d1_omni.rs:150-203 | with max_len at least max(192, 10K) options are never refused, and of opening tokens, kept state and whole question at most the last three tokens are cut |
| Batches.SortedAscends | train/sura.py:162-162 | each chunk is taken in order of its estimates |
| Batches.BatchChunk | train/sura.py:161-168 | the greedy loop computes the batches of a chunk |
| Batches.LengthBatches | train/sura.py:154-170 | all chunks, in the order the shuffles give |
| BatchLists.BatchesSay | train/sura.py:160-168 | the batches before the last shuffle: chunk after chunk of 4096 rows, each sorted by estimate with equal rows in their order, and cut where the rows, with the next one and padded to it, would exceed the budget |
| Batches.EveryRowOnce | train/sura.py:157-169 | every row is in exactly one batch, whatever the shuffles |
| Batches.AllFit | train/sura.py:163-166 | each batch is one row or fits the budget when padded to any of its rows |
| Batches.GreedyStaysAhead | train/sura.py:162-166 | no m disjoint groups that could be batches hold more rows of a chunk than its first m greedy batches |
| Batches.GreedyIsOptimal | train/sura.py:160-168 | no grouping of a chunk's rows, consecutive or not, needs fewer batches |
| Strides.Contiguous | convert/ollaya_convert/families/weightless_ext.py:80-85 | the loop accepts exactly the row-major strides |
| Strides.OffsetUnrank | convert/ollaya_convert/families/weightless_ext.py:80-85 | with these strides a multi-index has a place below numel, and it alone |
| Strides.UnrankOffset | convert/ollaya_convert/families/weightless_ext.py:80-85 | every place below numel is that of a multi-index |
| Strides.OffsetOrdered | convert/ollaya_convert/families/weightless_ext.py:80-85 | places are in the order of the multi-indices |
| Strides.RowMajorIff | convert/ollaya_convert/arch.py:107-113 | for every size and stride: row-major exactly when the tensor is empty or its strides are as expected wherever a dimension has more than one element |
| Strides.RefusedIff | convert/ollaya_convert/arch.py:107-113 | exactly which row-major tensors are refused: empty ones with any other stride, and others in which only dimensions of one element have another stride |
| Strides.StricterThanRowMajor | convert/ollaya_convert/arch.py:107-113 | a refused row-major tensor of each kind: sizes [1, 3] with strides [7, 1], and the empty [2, 0] with strides [1, 1] |
| Strides.BytesAreTheTensor | convert/ollaya_convert/families/weightless_ext.py:110-112 | numel times itemsize bytes at the computed offset are exactly the tensor's elements in row-major order |
| Strides.Starts | convert/ollaya_convert/families/weightless_ext.py:95-105 | where each stored record's data starts, the last of a name; or the first compressed record |
| Strides.DataFollows | convert/ollaya_convert/arch.py:92-94 | that place is where the data is, after a local header and the name and extra field whose lengths it gives |
| Strides.ReadIndex | convert/ollaya_convert/families/weightless_ext.py:106-113 | exactly the contiguous tensors, each at its byte range; no index when a storage is missing |
| Calibration.FromFile | crates/ollaya-decision/src/calibration.rs:172-191 | the temperatures a file gives, clamped, with neutral fallbacks |
| Formulas.FixedSays | crates/ollaya-decision/src/calibration.rs:143-205 | the fixed temperature from the file: that of the type and number of options, else of the type, clamped to the file's range or 0.5 to 5; 1 for what is not a number or missing |
| Formulas.MapIs | crates/ollaya-decision/src/calibration.rs:79-108 | exactly which temperature maps are valid, and their coefficients |
| Formulas.TemperatureSays | crates/ollaya-decision/src/calibration.rs:208-214 | a valid map's temperature, at least 1e-4, else the fixed one |
| Formulas.MapSays | crates/ollaya-decision/src/calibration.rs:111-137 | bias + entropy·H + log_tokens·log10(max(tokens, 1))/4 + n_options·K/8 between the bounds, H the normalised entropy of the softmax |
| Calibration.TemperaturePositive | crates/ollaya-decision/src/calibration.rs:199-214 | every calibration file, invalid entries, ranges and maps included, gives a positive temperature |
| Calibration.TemperatureInRange | crates/ollaya-decision/src/calibration.rs:143-158 | a fixed temperature is 1 or within the file's valid range (else 0.5 to 5), one from a map within the map's bounds and never below 1e-4 |
| Calibration.SoftmaxDistributes | crates/ollaya-decision/src/calibration.rs:223-228 | probabilities are positive and sum to one |
| Formulas.SoftmaxSays | crates/ollaya-decision/src/calibration.rs:223-228 | each probability is exp(z - max z) over their sum |
| Formulas.ProbabilitiesSay | crates/ollaya-decision/src/calibration.rs:217-220 | the probabilities are the softmax of the logits over the temperature |
| Calibration.ProbabilitiesKeepOrder | crates/ollaya-decision/src/calibration.rs:217-228 | calibrated probabilities are in the order of the raw logits |
| Answer.Argmax | crates/ollaya-decision/src/answer.rs:47-55 | the fold finds the first largest entry |
| Answer.DecisionIsRawArgmax | crates/ollaya-decision/src/answer.rs:29-55 | the decision is the first largest raw logit, whatever the calibration file |
| Formulas.DecisionSays | crates/ollaya-decision/src/answer.rs:47-55 | the decision is the first of the raw logits that none exceeds |
| Answer.ConfidenceUnclamped | crates/ollaya-decision/src/answer.rs:58-65 | the clamp in `confidence` never changes its value |
| Formulas.ConfidenceSays | crates/ollaya-decision/src/answer.rs:58-65 | (K·pmax - 1)/(K - 1), and 1 for fewer than two options |
| Answer.EntropyConfidenceUnclamped | crates/ollaya-decision/src/answer.rs:68-79 | the entropy is between 0 and ln K, so this clamp never changes the value either |
| Formulas.EntropyConfidenceSays | crates/ollaya-decision/src/answer.rs:68-79 | 1 - H/ln K, H the sum of -p·ln(max(p, 1e-12)), and 1 for fewer than two options |
| Answer.ScoreInRange | crates/ollaya-decision/src/answer.rs:81-87 | the expected score is between level 0 and level K - 1 |
| Formulas.ScoreSays | crates/ollaya-decision/src/answer.rs:81-87 | the sum of i·p_i |
| Sampling.SumCapped | train/data/build.py:283-283 | the questions a cap leaves |
| Sampling.Waterfill | train/data/build.py:278-287 | the largest cap up to the largest count whose capped sum fits the budget |
| Sampling.SampleSource | train/data/build.py:352-359 | one source: within its limit, and no row left that would still fit |
| Sampling.Sample | train/data/build.py:343-359 | the cap and every source's sample, for every shuffle |
| SampleLimits.CapSays | train/data/build.py:345-353 | the cap is at most 100 000 and the largest other source, keeps all sources together within 400 000 questions, and a larger one would not |
| SampleLimits.AllowanceIs | train/data/build.py:347-353 | a source's limit: for the four named ones their own questions up to 100 000, for the others the cap |
| Sampling.WholeFits | train/data/build.py:345-349 | the sources taken whole never exceed the budget |
| Sampling.SampleFits | train/data/build.py:343-359 | at most CAP_QUESTIONS questions in all and at most the share from any source |
| Stream.Set | web/ollaya.js:95-98 | a copy into the buffer changes nothing else |
| Stream.Receive | web/ollaya.js:84-103 | the result is the concatenation of the chunks for every announced length; at most twice the received bytes are copied while growing, none when the length is right |

## Left out

- Tokenizers, JSON text and rendered question texts are parameters; a theorem names what it assumes of them.
- Floating point: weights, logits and temperatures are reals or integers, without rounding (except where a rounding function is a parameter), NaN, infinities or negative zero. `exp` and `ln` are parameters with the laws the theorems name.
- ONNX beyond the operators named: subgraphs, opset imports, protobuf and file I/O. Generated names (`:narrow`, `:cast`, `w:…`, `.q2`, `.q4`, `.scale`) are assumed new, as the code assumes.
- make_weightless: a callable `maps` and a list of prefix pairs are both one function from a name to candidate names; the report, the sidecar files and the links are not modelled.
- webgraph.convert: a matrix with an empty inner dimension is modelled as the exception numpy raises for the maximum of nothing.
- WeightlessProofs.BijectionWithoutVerify: says nothing about values, since without `verify` the code compares none.
- WeightlessProofs.OutputsKept: asks that tensors that share an external name are the same (`LocationsDecide` says at which locations nothing is lost) and that a conversion leaves a finite number alone that the type can hold; checkpoint tensors with NaN or infinities are not modelled.
- WebGraphProofs.ConvertKeepsOutputs: asks that float32 rounding leaves the graph's own weights, 0, 1 and -1 alone; graph outputs that are themselves initializers are not covered.
- KeepAlive.ParseKeepAlive: a number of seconds goes through 64-bit floats in `from_seconds`, which is a parameter; `DisplayReadsBack` assumes of it only that "-1" keeps the model loaded.
- SinkChains.SinkSays: asks that the `:narrow` names are new and that initializers are defined before the nodes.
- OnnxMeaning.GatherSays: GatherND has no such lemma of its own; it is built from the same slices.
- Conversions.ConvertSays: asks that float32 rounding leaves the graph's own weights, 0, 1 and -1 alone.
- Conversions.QuantizedRow: asks how close float32 products and quotients are, since rounding is a parameter.
- Durations.Evaluate: models a release build; a debug build panics where the addition would wrap.
- DurationProofs.DurationIsSum: is about texts in which no component wraps; `TotalIs` and `UncheckedAddition` cover the rest.
- ClefOrder.OrderRestored: asks that a choice's labels differ, as the keys of one JSON object do.
- Laya.MarkersAreTheMasks: asks for a mask text that the replacement removes and that the type names and the word "question:" do not contain.
- D1Omni.RowIsSound: escaping of delimiters (`kev.rs`) is not part of this model; it is folded into the tokenizer.
- Batches.GreedyIsOptimal: is about one chunk of 4096 rows, since the code never batches across chunks.
- Batches.LengthBatches: the two shuffles are an arbitrary order of the rows and an arbitrary function on the batches.
- Strides.BytesAreTheTensor: tensors that several views share, negative strides and 64-bit overflow of sizes are not modelled.
- Stream.Receive: a Content-Length that is not a natural number (JavaScript throws on a negative one) and the progress callback are not modelled.
- Sampling.Sample: reading, validating and language filtering of rows come before it and are not modelled.
- HTTP, TLS, async scheduling, caches, training loops, builds and packaging are foreign calls.
- Catalog tables, presets, error texts and field-by-field request checks would only add single-branch facts.
