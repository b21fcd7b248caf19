# Kernel fallback execution and quantization-stats import, in Dafny

This project models two independent pieces of TensorFlow and proves what they
promise.

**Kernel fallback (compat mode).** When TFRT cannot run an op natively, it runs
the legacy TensorFlow `OpKernel` through an `OpKernelRunner`. The model covers
the following parts:

- the error fan-out, `KernelFallbackEmitError`;
- conversion and dtype validation of the inputs;
- the early-exit chain of `KernelFallbackExecuteCompatCoreRuntimeDispatch`;
- the synchronous and asynchronous execution paths;
- the thread's reusable scratch state, `OpKernelRunState`;
- the BEF kernels `KernelFallbackExecuteOp` and `FallbackAsyncExecuteOpSeq`;
- `KernelFallbackCreateOp` with its insert-once runner table;
- `FallbackSetResource` and `FallbackGetResource` on the resource array;
- `FallbackCopyTensorIfSmall`.

Async values are heap cells (`FallbackValues.AsyncValue`), so one error value
that is stored in every result slot is one shared cell, as in the source. The
result slots of a call are an `array<AsyncValue?>` together with the offset
where the call's slots start. The op chain is an optional cell that is passed
in and returned.

**Quantization-stats import (`ImportQuantStatsPass`).** The pass files the
entries of a `QuantizationInfo` into a name table and a regex table. Each
entry's `name[:port]` text is split into a key and a result index. The pass
then walks the ops of a function. For every op that an entry names, it inserts
statistics ops on the op's float results. The walk's effect is returned as the
list of statistics ops it inserts, in order.

Modules:

- `Wrappers` holds `Option` and `Result`.
- `FallbackValues` holds statuses, tensors, async values and runners.
- `FallbackTables` holds the runner table, the resource array and the request state.
- `FallbackRunState` holds `OpKernelRunState` and input preparation.
- `FallbackChecks` holds validation, conversion, `StripTfPrefix` and the early-exit decision.
- `FallbackExecute` holds the execution paths and the BEF kernels.
- `QuantParse` holds `StrSplit` on `':'`, `std::stoi` and `name[:port]`.
- `QuantImport` holds the pass.

These loops are proved against a specification function, and the
properties are stated about that function:

- `ValidateInputTypes` is proved against `Validation`.
- `ConvertInputTensors` is proved against `Converted`.
- `ParseQuantStats` is proved against `Classify`.
- `ImportAsStatsOps` is proved against `StatsOpsFor`.
- `RunOnFunction` is proved against `WalkStats`.

The other loops (`EmitError`, `Complete`, `RunNext`, `CopyOf`, `BindOwned`,
`FallbackGetResource`, `FallbackCopyTensorIfSmall`) are proved against
postconditions that state each slot's new value.

## Model

| member | source | states |
|---|---|---|
| FallbackValues.KernelErrorMessage | tensorflow/core/runtime_fallback/kernel/kernel_fallback_execute_compat.cc:82-83 | the message is "error running kernel fallback kernel " + op name + ": " + status message, so it ends with the status message |
| FallbackExecute.EmitError | tensorflow/core/runtime_fallback/kernel/kernel_fallback_execute_compat.cc:73-87 | one fresh errored value, with the status's code and the composed message, fills every slot of the call; the chain, when present, is that same value; slots before the call's range are untouched |
| FallbackChecks.ValidateInputTypes | tensorflow/core/runtime_fallback/kernel/kernel_fallback_execute_compat.cc:166-188 | the loop returns exactly Validation: the count check first, then the first dtype mismatch, else OK |
| FallbackChecks.FirstMismatch | tensorflow/core/runtime_fallback/kernel/kernel_fallback_execute_compat.cc:177-185 | a reported index lies in range and its dtype really differs |
| FallbackChecks.FirstMismatchSpec | tensorflow/core/runtime_fallback/kernel/kernel_fallback_execute_compat.cc:177-185 | no index is reported iff every dtype from there on matches; a reported index is the smallest mismatch |
| FallbackChecks.ValidationOkIff | tensorflow/core/runtime_fallback/kernel/kernel_fallback_execute_compat.cc:166-188 | validation is OK iff the counts agree and every input's dtype equals its declared type |
| FallbackChecks.ValidationCountFirst | tensorflow/core/runtime_fallback/kernel/kernel_fallback_execute_compat.cc:172-175 | a count mismatch gives InvalidArgument "expected N inputs, got M", whatever the dtypes |
| FallbackChecks.ValidationReportsFirstMismatch | tensorflow/core/runtime_fallback/kernel/kernel_fallback_execute_compat.cc:177-184 | with equal counts, the error names the smallest mismatching zero-based index, the expected type and the actual type |
| FallbackChecks.ConvertInputTensors | tensorflow/core/runtime_fallback/kernel/kernel_fallback_execute_compat.cc:149-164 | the loop returns exactly Converted: all conversions in order, or the first failure's error |
| FallbackChecks.ConvertedAllOk | tensorflow/core/runtime_fallback/kernel/kernel_fallback_execute_compat.cc:154-163 | when every argument converts, the result holds each conversion at its argument's index |
| FallbackChecks.ConvertedOkSpec | tensorflow/core/runtime_fallback/kernel/kernel_fallback_execute_compat.cc:154-163 | a successful result means every argument converted, and entry i is argument i's conversion |
| FallbackChecks.ConvertedFirstFailure | tensorflow/core/runtime_fallback/kernel/kernel_fallback_execute_compat.cc:156-159 | the error is the one of the first argument that fails to convert |
| FallbackChecks.StripTfPrefix | tensorflow/core/runtime_fallback/kernel/kernel_fallback_execute_compat.cc:485-487 | putting "tf." back in front of the result gives the op name exactly when the name had the prefix; otherwise the result is the name |
| FallbackChecks.StripTfPrefixOnce | tensorflow/core/runtime_fallback/kernel/kernel_fallback_execute_compat.cc:485-487 | exactly one leading "tf." is removed ("tf.tf.X" becomes "tf.X") |
| FallbackChecks.StripTfPrefixUnprefixed | tensorflow/core/runtime_fallback/kernel/kernel_fallback_execute_compat.cc:485-487 | a name without the prefix is unchanged |
| FallbackChecks.Decide | tensorflow/core/runtime_fallback/kernel/kernel_fallback_execute_compat.cc:383-445 | a kernel runs iff the request state is there, the runner was found or created, every argument converts, and validation succeeds or the op is _BatchFunctionFallback; it then runs that runner on the converted arguments |
| FallbackChecks.DecideRunnerFailure | tensorflow/core/runtime_fallback/kernel/kernel_fallback_execute_compat.cc:412-416 | a runner-creation failure is reported with its own status, whatever the arguments |
| FallbackChecks.DecideNoState | tensorflow/core/runtime_fallback/kernel/kernel_fallback_execute_compat.cc:383-391 | a missing request state aborts with NotFound before the runner, the conversion or the validation is looked at |
| FallbackChecks.DecideConversionFailure | tensorflow/core/runtime_fallback/kernel/kernel_fallback_execute_compat.cc:418-424 | with a runner in hand, a conversion failure aborts with Internal carrying the first failing argument's error, before any validation |
| FallbackChecks.DecideValidationFailure | tensorflow/core/runtime_fallback/kernel/kernel_fallback_execute_compat.cc:436-445 | for any op but _BatchFunctionFallback, a validation failure aborts with the status ValidateInputTypes returns |
| FallbackChecks.DecideExecuteWellTyped | tensorflow/core/runtime_fallback/kernel/kernel_fallback_execute_compat.cc:383-453 | a kernel runs only with a request state and a runner, on the conversions of all arguments in order, and (except for _BatchFunctionFallback) on inputs whose count and dtypes match the kernel's input types |
| FallbackChecks.DecideExempt | tensorflow/core/runtime_fallback/kernel/kernel_fallback_execute_compat.cc:439-445 | for _BatchFunctionFallback a validation failure does not stop the kernel |
| FallbackRunState.CopyIndicesExact | tensorflow/core/runtime_fallback/kernel/kernel_fallback_execute_compat.cc:638-640 | the copied positions are exactly the arguments that are neither immutable nor unique, in increasing order |
| FallbackRunState.KeptCopiesAt | tensorflow/core/runtime_fallback/kernel/kernel_fallback_execute_compat.cc:630-642 | the k-th kept copy is the tensor of the k-th argument that needs a copy |
| FallbackRunState.NoCopiesForExclusiveArgs | tensorflow/core/runtime_fallback/kernel/kernel_fallback_execute_compat.cc:633-640 | when every argument is immutable or unique no copy is kept |
| FallbackRunState.Resize | tensorflow/core/runtime_fallback/kernel/kernel_fallback_execute_compat.cc:629 | resizing the handle vector keeps its prefix and pads with null handles |
| FallbackRunState.RunState.constructor | tensorflow/core/runtime_fallback/kernel/kernel_fallback_execute_compat.cc:198 | the thread-local state starts with no copies, no handles and default parameters |
| FallbackRunState.RunState.CopyOf | tensorflow/core/runtime_fallback/kernel/kernel_fallback_execute_compat.cc:199-218 | the async copy owns a copy of every tensor the handles point at, its handle i points at its own copy i, and its parameters are the originals with `inputs` rebound to its own handles |
| FallbackRunState.RunState.SetUpParams | tensorflow/core/runtime_fallback/kernel/kernel_fallback_execute_compat.cc:225-255 | `inputs` points at this state's handles; the device is the request's custom device when set, else the runner's; kernel and the other fields come from the runner and the request |
| FallbackRunState.RunState.PrepareArgs | tensorflow/core/runtime_fallback/kernel/kernel_fallback_execute_compat.cc:626-642 | from empty copies: handle i points at argument i, the copies are KeptCopies of the arguments, and the kernel reads exactly the argument tensors |
| FallbackRunState.RunState.BindOwned | tensorflow/core/runtime_fallback/kernel/kernel_fallback_execute_compat.cc:447-451 | handle i points at owned tensor i, for exactly as many handles as owned tensors, so the kernel reads the owned tensors |
| FallbackExecute.ExecuteAsync | tensorflow/core/runtime_fallback/kernel/kernel_fallback_execute_compat.cc:272-304 | on return every result and the chain are fresh, distinct and unconstructed, and they are the cells the async state will fill; the async state holds a run-state copy of the inputs |
| FallbackExecute.AsyncState.constructor | tensorflow/core/runtime_fallback/kernel/kernel_fallback_execute_compat.cc:290-293 | the async state copies the run state (CopyOf) and keeps the runner, the chain and the result cells |
| FallbackExecute.AsyncState.Complete | tensorflow/core/runtime_fallback/kernel/kernel_fallback_execute_compat.cc:308-333 | the kernel runs on the copied inputs; an error is set in every result and the chain with the composed message, and nothing is enqueued; success enqueues the publishing step and touches no result |
| FallbackExecute.WorkQueue.Enqueue | tensorflow/core/runtime_fallback/kernel/kernel_fallback_execute_compat.cc:324-331 | the step is appended to the pending work |
| FallbackExecute.WorkQueue.RunNext | tensorflow/core/runtime_fallback/kernel/kernel_fallback_execute_compat.cc:324-331 | the oldest step emplaces output i into result i for every i, then makes the chain available |
| FallbackExecute.ExecuteSync | tensorflow/core/runtime_fallback/kernel/kernel_fallback_execute_compat.cc:344-365 | a failed kernel leaves one shared error in every slot and the chain; otherwise slot i holds output i for every i and the chain is available, so no partial result set is published |
| FallbackExecute.Launch | tensorflow/core/runtime_fallback/kernel/kernel_fallback_execute_compat.cc:456-462 | IsAsync picks the async path (its started state, with a new async state, chain and result cells) or the sync path (its outcome); the owned copies are cleared afterwards |
| FallbackExecute.CoreRuntimeDispatch | tensorflow/core/runtime_fallback/kernel/kernel_fallback_execute_compat.cc:375-465 | when Decide aborts, every result and the returned chain share the error; otherwise the kernel runs on the converted inputs, synchronously or asynchronously (a new pending state, chain and result cells); the scratch state is untouched on the first three exits and its copies are empty on the others |
| FallbackExecute.RunOnInputs | tensorflow/core/runtime_fallback/kernel/kernel_fallback_execute_compat.cc:428-464 | a validation failure (other than for the exempt op) fans out its error; otherwise handles point at the owned inputs, the parameters are set up and the kernel runs (asynchronously: on a new pending state, chain and result cells); the copies are empty on every exit |
| FallbackExecute.RunOnArgs | tensorflow/core/runtime_fallback/kernel/kernel_fallback_execute_compat.cc:621-654 | handle i points at argument i, the parameters name the runner's kernel, the kernel runs on the argument tensors (asynchronously: on a new pending state, chain and result cells), and the copies are empty on return |
| FallbackExecute.ExecuteOp | tensorflow/core/runtime_fallback/kernel/kernel_fallback_execute_compat.cc:581-655 | without request state every result and the chain share a NotFound error and the scratch state is untouched; otherwise the runner under the op key runs on the argument tensors, an async run leaving a new pending state, chain and result cells |
| FallbackExecute.ExecuteOpSeq | tensorflow/core/runtime_fallback/kernel/kernel_fallback_execute_compat.cc:787-803 | argument 0 and result 0 are the chains; the op's outcome is stated over results 1.. and result 0 is the chain the op leaves; an async run leaves a new pending state, chain and result cells |
| FallbackTables.RunnerTable.Insert | tensorflow/core/runtime_fallback/kernel/kernel_fallback_execute_compat.cc:693 | insertion succeeds iff the key is new; a present key keeps its runner |
| FallbackTables.RunnerTable.Get | tensorflow/core/runtime_fallback/kernel/kernel_fallback_execute_compat.cc:604 | the runner under the key, or None |
| FallbackTables.ResourceArray.SetResource | tensorflow/core/runtime_fallback/kernel/kernel_fallback_execute_compat.cc:725-727 | the index now holds a fresh cell with the tensor made immutable; the other indices are unchanged |
| FallbackTables.ResourceArray.GetResource | tensorflow/core/runtime_fallback/kernel/kernel_fallback_execute_compat.cc:761 | the cell stored at the index itself (shared, not copied) |
| FallbackExecute.CreateOp | tensorflow/core/runtime_fallback/kernel/kernel_fallback_execute_compat.cc:659-701 | no request state gives the not-found message; a creation failure is returned as a status; a key already present gives "OpKernelRunner already exists" naming the op and keeps the old runner; otherwise the runner created for the name with "tf." stripped is added |
| FallbackExecute.FallbackSetResource | tensorflow/core/runtime_fallback/kernel/kernel_fallback_execute_compat.cc:705-730 | without request state a not-found error; otherwise the index holds the argument's tensor as immutable and other indices are unchanged |
| FallbackExecute.FallbackGetResource | tensorflow/core/runtime_fallback/kernel/kernel_fallback_execute_compat.cc:734-765 | without request state only the out-chain is set, to an error; otherwise result i is the cell at indices[i] and the in-chain is forwarded |
| FallbackExecute.SetThenGetResource | tensorflow/core/runtime_fallback/kernel/kernel_fallback_execute_compat.cc:705-765 | getting an index after setting it yields the set tensor, now immutable |
| FallbackExecute.FallbackCopyTensorIfSmall | tensorflow/core/runtime_fallback/kernel/kernel_fallback_execute_compat.cc:805-831 | every result gets its own fresh available value that holds the argument's tensor with its mutability |
| QuantParse.Split | tensorflow/compiler/mlir/lite/quantization/import_quant_stats_pass.cc:106-107 | splitting always gives at least one piece |
| QuantParse.SplitJoin | tensorflow/compiler/mlir/lite/quantization/import_quant_stats_pass.cc:106-107 | joining the pieces with ':' gives back the text |
| QuantParse.SplitPieces | tensorflow/compiler/mlir/lite/quantization/import_quant_stats_pass.cc:106-108 | there is one piece more than there are colons, and no piece holds a colon |
| QuantParse.SplitColonFree | tensorflow/compiler/mlir/lite/quantization/import_quant_stats_pass.cc:106-107 | text without a colon is a single piece |
| QuantParse.SplitAfterKey | tensorflow/compiler/mlir/lite/quantization/import_quant_stats_pass.cc:106-107 | a colon-free key, a colon and the rest split into the key followed by the rest's pieces |
| QuantParse.KeyOf | tensorflow/compiler/mlir/lite/quantization/import_quant_stats_pass.cc:106-109 | the map key (the first piece of the split) never holds a colon |
| QuantParse.KeyOfBeforeFirstColon | tensorflow/compiler/mlir/lite/quantization/import_quant_stats_pass.cc:109 | the key is the colon-free prefix that stops at the first colon, and it is all of the text iff there is no colon |
| QuantParse.DigitPrefix | tensorflow/compiler/mlir/lite/quantization/import_quant_stats_pass.cc:108 | the longest prefix of digits |
| QuantParse.Stoi | tensorflow/compiler/mlir/lite/quantization/import_quant_stats_pass.cc:108 | std::stoi's value fits a 32-bit int |
| Digits.Decimal | tensorflow/compiler/mlir/lite/quantization/import_quant_stats_pass.cc:108 | the decimal spelling is a non-empty run of digits |
| Digits.DecimalValue | tensorflow/compiler/mlir/lite/quantization/import_quant_stats_pass.cc:108 | the digits of the decimal spelling of n have value n |
| QuantParse.DigitPrefixOfDigits | tensorflow/compiler/mlir/lite/quantization/import_quant_stats_pass.cc:108 | digits followed by a non-digit read back as those digits |
| QuantParse.StoiDecimal | tensorflow/compiler/mlir/lite/quantization/import_quant_stats_pass.cc:108 | stoi reads back a non-negative int's decimal spelling, ignoring the non-digit text that follows |
| QuantParse.StoiNegativeDecimal | tensorflow/compiler/mlir/lite/quantization/import_quant_stats_pass.cc:108 | stoi reads back "-" and a decimal spelling, down to the smallest int |
| QuantParse.PortOf | tensorflow/compiler/mlir/lite/quantization/import_quant_stats_pass.cc:106-108 | text without exactly one colon gets port -1; a port that is read fits an int |
| QuantParse.PortOfColons | tensorflow/compiler/mlir/lite/quantization/import_quant_stats_pass.cc:108 | the port is read exactly when the text has one colon (two pieces); otherwise it is -1 |
| QuantParse.NamePortRoundTrip | tensorflow/compiler/mlir/lite/quantization/import_quant_stats_pass.cc:106-109 | "name:port" parses back to key name and that port |
| QuantParse.NameWithoutPort | tensorflow/compiler/mlir/lite/quantization/import_quant_stats_pass.cc:106-109 | a colon-free name is its own key with port -1 (all float results) |
| QuantImport.RoutedKeysSpec | tensorflow/compiler/mlir/lite/quantization/import_quant_stats_pass.cc:104-116 | a key is routed to a table iff some entry is filed under it there |
| QuantImport.RoutedKeysSound | tensorflow/compiler/mlir/lite/quantization/import_quant_stats_pass.cc:104-116 | every routed key comes from an entry routed to that table |
| QuantImport.RoutedKeysComplete | tensorflow/compiler/mlir/lite/quantization/import_quant_stats_pass.cc:104-116 | every entry routed to a table contributes its key |
| QuantImport.RoutedKeysAbsent | tensorflow/compiler/mlir/lite/quantization/import_quant_stats_pass.cc:104-116 | a key no entry is routed under is not a routed key |
| QuantImport.Classify | tensorflow/compiler/mlir/lite/quantization/import_quant_stats_pass.cc:104-116 | filing entries in order never changes or removes a key already in either table (StringMap::insert keeps the first value) |
| QuantImport.ClassifyKeySet | tensorflow/compiler/mlir/lite/quantization/import_quant_stats_pass.cc:104-116 | each table's keys after filing are its old keys plus the routed keys |
| QuantImport.ClassifyKeys | tensorflow/compiler/mlir/lite/quantization/import_quant_stats_pass.cc:104-116 | a key is in a table after filing iff it was there or some entry routed to that table has it as key: a named entry goes only to the name table, an entry with only a regex goes only to the regex table, and an entry with neither goes nowhere |
| QuantImport.ClassifyFirstWins | tensorflow/compiler/mlir/lite/quantization/import_quant_stats_pass.cc:104-116 | for a new key, the table holds the port and entry of the first entry filed under it |
| QuantImport.ImportQuantStatsPass.constructor | tensorflow/compiler/mlir/lite/quantization/import_quant_stats_pass.cc:93-94 | a new pass starts with both tables empty |
| QuantImport.ImportQuantStatsPass.ParseQuantStats | tensorflow/compiler/mlir/lite/quantization/import_quant_stats_pass.cc:98-118 | a load failure returns true and leaves both tables unchanged; otherwise it returns false and the tables are Classify of the old tables and the entries in order |
| QuantImport.ImportQuantStatsPass.FileEntry | tensorflow/compiler/mlir/lite/quantization/import_quant_stats_pass.cc:105-115 | one entry is filed as ClassifyOne says: key before the first colon, port from the second piece or -1, and an existing key is kept |
| QuantImport.MinMaxValues | tensorflow/compiler/mlir/lite/quantization/import_quant_stats_pass.cc:135-142 | there are two values per pair |
| QuantImport.MinMaxValuesLayout | tensorflow/compiler/mlir/lite/quantization/import_quant_stats_pass.cc:137-142 | value 2k is min_k and value 2k+1 is max_k |
| QuantImport.Layout | tensorflow/compiler/mlir/lite/quantization/import_quant_stats_pass.cc:133-145 | an entry gives statistics iff it has params, and the layer stats are then its first min/max pair |
| QuantImport.BuildMinMaxs | tensorflow/compiler/mlir/lite/quantization/import_quant_stats_pass.cc:135-142 | the loop builds exactly MinMaxValues of the params |
| QuantImport.IsQuantizableResult | tensorflow/compiler/mlir/lite/quantization/import_quant_stats_pass.cc:78-83 | an index below 0 or at or past the result count is never quantizable |
| QuantImport.LayoutSpec | tensorflow/compiler/mlir/lite/quantization/import_quant_stats_pass.cc:133-154 | there are no stats iff there are no params; the layer stats are the first pair; axis stats of shape {n,2}, holding every pair interleaved, and the quantize axis are present iff n > 1 |
| QuantImport.TargetsSpec | tensorflow/compiler/mlir/lite/quantization/import_quant_stats_pass.cc:157-167 | a quantizable index selects that result alone; any other index, -1 included, selects every quantizable result once and in order; a non-quantizable result is never selected |
| QuantImport.QuantizableBelowSpec | tensorflow/compiler/mlir/lite/quantization/import_quant_stats_pass.cc:161-166 | the loop's picks are exactly the quantizable results below n, increasing |
| QuantImport.ImportQuantStatsPass.ImportAsStatsOps | tensorflow/compiler/mlir/lite/quantization/import_quant_stats_pass.cc:130-168 | the stats ops inserted are StatsOpsFor: one per selected target, each carrying the entry's layout |
| QuantImport.FirstMatch | tensorflow/compiler/mlir/lite/quantization/import_quant_stats_pass.cc:186-191 | a reported position matches and no earlier one does; no position means nothing matches |
| QuantImport.Selected | tensorflow/compiler/mlir/lite/quantization/import_quant_stats_pass.cc:178-191 | an entry that is selected is the name table's entry for an exact name, or else the entry of a regex key that matches the name |
| QuantImport.SelectedPrecedence | tensorflow/compiler/mlir/lite/quantization/import_quant_stats_pass.cc:178-191 | an exact name hit wins whatever the regexes say; otherwise an entry applies iff some regex matches, and it is the entry of the first matching regex in iteration order |
| QuantImport.ImportQuantStatsPass.ImportForOp | tensorflow/compiler/mlir/lite/quantization/import_quant_stats_pass.cc:174-192 | one op's step inserts exactly OpStats: nothing for a terminator, otherwise the selected entry's stats ops |
| QuantImport.ImportQuantStatsPass.RunOnFunction | tensorflow/compiler/mlir/lite/quantization/import_quant_stats_pass.cc:170-193 | the walk inserts exactly WalkStats: each op's stats ops, in op order |
| QuantImport.OpStatsSound | tensorflow/compiler/mlir/lite/quantization/import_quant_stats_pass.cc:174-192 | every stats op for op i sits after op i, which is not a terminator and which an entry names, on a quantizable result its port selects, carrying that entry's stats |
| QuantImport.WalkStatsSound | tensorflow/compiler/mlir/lite/quantization/import_quant_stats_pass.cc:170-193 | every stats op the walk inserts is justified in that way and follows a walked op |
| QuantImport.WalkStatsComplete | tensorflow/compiler/mlir/lite/quantization/import_quant_stats_pass.cc:170-193 | every target result of a walked non-terminator op with a selected entry that has params gets a stats op carrying that entry's statistics |
| QuantImport.CreateImportQuantStatsPass | tensorflow/compiler/mlir/lite/quantization/import_quant_stats_pass.cc:196-201 | no pass (null) iff the statistics fail to load; otherwise a fresh pass whose tables are the filed entries |

## Left out

- Concurrency is not modelled. This covers the thread-local run state, the worker thread that calls `done_callback`, and `tfrt::EnqueueWork`. The thread's run state is a parameter. The callback is the sequential `AsyncState.Complete`. The enqueued step goes on an explicit `WorkQueue`, and `RunNext` runs one step. Draining the queue is repeated `RunNext`, with no loop of its own.
- The runner cache's `GetOrCreate` is the parameter `lookup`. It includes the cache's at-most-once construction under concurrent lookup and the attribute builder (`FillAttrValueMap`).
- `OpKernelRunner::Create` with `SetUpAttrValueMap` is the parameter `create` of `CreateOp`.
- The kernel's `Run`/`RunAsync` is the function `Runner.kernel` of its inputs.
- `TFRTTensorToTFTensor` is the parameter `convert`. Its error text is carried as it is.
- `LoadProtoFromBuffer` is the parameter `loaded`, which is None when parsing fails.
- `ConstTensorProto` is protobuf parsing and is not part of this model.
- QuantParse.Stoi: std::stoi's skipping of leading whitespace is not modelled. Its exception on text without digits, or on a value outside int, is excluded by a precondition (`PortParses`) of `ParseQuantStats`.
- Tracing and logging are not modelled: `TraceMe`, `GetTracingMetadata`, `LOG`/`VLOG`, `OpLogger`, and the device-placement message.
- `GetTfDevice`, `SetUpKernelFallbackCompatRequestContext`, the kernel registration and the pass registration with its `cl::opt` are not part of this model.
- The request state is reduced to what the core reads: the runner table, the resource array, the custom device, and one opaque identity for the parameter fields it supplies. The runner is reduced the same way.
- `ConvertTfErrorCodeToTfrtErrorCode` is the identity over one shared error-code enumeration. An errored value that `EmitErrorAsync` creates without a status carries `Unknown`.
- Reference counts are not tracked. `AsyncValue.unique` is the `IsUnique()` answer of the argument as passed in.
- Buffer identity in `FallbackCopyTensorIfSmall` is not modelled. A fresh immutable copy and a shared immutable tensor both show up as the same tensor value.
- MLIR is not modelled: ops, the `StatisticsOp` that is built, `replaceAllUsesWith`, `APFloat` and `DenseFPElementsAttr`. An op is its name, its terminator flag and its result types. A stats op is recorded as (op index, result index, stats). Min/max values are carried as `real` and are never computed with.
- `llvm::Regex` matching is the parameter `matches`.
- The `StringMap` iteration order of the regex table is the parameter `regexOrder`, which lists each key once.
- QuantImport.ImportQuantStatsPass.RunOnFunction: the walk visits the function's own ops. The stats ops it inserts are not visited again.
- `CreateImportQuantStatsPassForTFControlDialect` only chooses the op-name function. An op's name is given directly (`Op.name`, "" when the op has no name attribute).
- A kernel that succeeds is assumed to set exactly `numOutputs` outputs (`WellFormedRunner`), a precondition of every execution path. The source relies on this without checking it when it reads every output of the context.
- The DCHECKs of the source become preconditions. These are the runner present under the op key with the expected output count (`ExecuteOpReady`), a resource index that is set (`GetResource`), and a non-empty frame for `ExecuteOpSeq`.
