/**
 * Kernel execution in fallback mode: error fan-out, the synchronous and
 * asynchronous execution paths, the core-runtime dispatch, and the BEF
 * kernels that execute an op, create a runner, use the resource array and
 * copy small tensors. An op either publishes every output and its chain,
 * or publishes one error in all of them.
 */
module FallbackExecute {
  import opened Wrappers
  import opened FallbackValues
  import opened FallbackTables
  import opened FallbackRunState
  import opened FallbackChecks

  // ---------------------------------------------------------------------
  // What the slots of an op hold afterwards

  /** Every slot holds one and the same errored value carrying d, and so
      does the op chain when there is one. The slots are results[lo..] at
      the moment of the call. */
  ghost predicate SharedError(slots: seq<AsyncValue?>, chain: Option<AsyncValue>, d: Diagnostic)
    reads set i | 0 <= i < |slots| :: slots[i]
    reads if chain.Some? then {chain.value} else {}
  {
    && (forall i :: 0 <= i < |slots| ==> slots[i] != null && slots[i].state == Error(d))
    && (forall i :: 0 <= i < |slots| ==> slots[i] == slots[0])
    && (chain.Some? ==> chain.value.state == Error(d) && (|slots| > 0 ==> chain.value == slots[0]))
  }

  /** Slot i holds output i, for every output. */
  ghost predicate Published(slots: seq<AsyncValue?>, kind: TensorKind, outputs: seq<Tensor>)
    reads set i | 0 <= i < |slots| :: slots[i]
  {
    && |outputs| == |slots|
    && forall i :: 0 <= i < |outputs| ==>
         slots[i] != null && slots[i].state == Available(Wrap(kind, outputs[i]))
  }

  /** What a synchronous run leaves: the kernel's error in every slot and the
      chain, or every output and an available chain. */
  ghost predicate SyncOutcome(slots: seq<AsyncValue?>, chain: Option<AsyncValue>,
                              kind: TensorKind, runner: Runner, inputs: seq<Tensor>)
    reads set i | 0 <= i < |slots| :: slots[i]
    reads if chain.Some? then {chain.value} else {}
  {
    match runner.kernel(inputs)
    case Failed(e) => SharedError(slots, chain, KernelDiagnostic(runner.name, e))
    case Done(outputs) =>
      Published(slots, kind, outputs) && (chain.Some? ==> chain.value.state == Available(ChainPayload))
  }

  // ---------------------------------------------------------------------
  // Error fan-out

  /** KernelFallbackEmitError: one errored value, carrying the composed
      message and the status's code, fills every slot and the op chain. */
  method EmitError(opName: string, status: TfError, opChain: Option<AsyncValue>,
                   results: array<AsyncValue?>, lo: nat)
    returns (chainOut: Option<AsyncValue>, error: AsyncValue)
    requires lo <= results.Length
    modifies results
    ensures fresh(error) && error.state == Error(KernelDiagnostic(opName, status))
    ensures forall i :: lo <= i < results.Length ==> results[i] == error
    ensures forall i :: 0 <= i < lo ==> results[i] == old(results[i])
    ensures chainOut == (if opChain.Some? then Some(error) else None)
    ensures SharedError(results[lo..], chainOut, KernelDiagnostic(opName, status))
  {
    error := new AsyncValue(Error(KernelDiagnostic(opName, status)));
    var i := lo;
    while i < results.Length
      invariant lo <= i <= results.Length
      invariant error.state == Error(KernelDiagnostic(opName, status))
      invariant forall j :: lo <= j < i ==> results[j] == error
      invariant forall j :: 0 <= j < lo ==> results[j] == old(results[j])
    {
      results[i] := error;
      i := i + 1;
    }
    chainOut := if opChain.Some? then Some(error) else None;
  }

  // ---------------------------------------------------------------------
  // Asynchronous execution

  /** The state an asynchronous run shares with its completion callback: its
      own copy of the run state, the kernel, the result values it will fill,
      the chain, and what the kernel leaves in its context once it is done. */
  class AsyncState {
    const runState: RunState
    const runner: Runner
    const kind: TensorKind
    const chain: AsyncValue
    const resultRefs: seq<AsyncValue>
    var outcome: Option<KernelOutcome>

    ghost predicate Valid()
      reads this
    {
      && |resultRefs| == runner.numOutputs
      && WellFormedRunner(runner)
      && (forall i, j :: 0 <= i < j < |resultRefs| ==> resultRefs[i] != resultRefs[j])
      && chain !in resultRefs
    }

    /** The run state is copied from the handles' view and the parameters. */
    constructor (params: Params, view: seq<Tensor>, runner: Runner, kind: TensorKind,
                 chain: AsyncValue, resultRefs: seq<AsyncValue>)
      requires |resultRefs| == runner.numOutputs && WellFormedRunner(runner)
      requires forall i, j :: 0 <= i < j < |resultRefs| ==> resultRefs[i] != resultRefs[j]
      requires chain !in resultRefs
      ensures Valid() && fresh(runState) && outcome.None?
      ensures this.runner == runner && this.kind == kind && this.chain == chain && this.resultRefs == resultRefs
      ensures runState.inputTfTensors == view && runState.inputTfTensorValues == OwnedRefs(|view|)
      ensures runState.params == params.(inputs := Some(runState))
    {
      runState := new RunState.CopyOf(view, params);
      this.runner := runner;
      this.kind := kind;
      this.chain := chain;
      this.resultRefs := resultRefs;
      outcome := None;
    }

    /** The kernel finishes on its copied inputs and calls done_callback: an
        error goes to every result and the chain at once; success enqueues
        the step that publishes the outputs. */
    method Complete(queue: WorkQueue)
      requires Valid() && outcome.None? && queue.Valid()
      modifies this, chain, resultRefs, queue
      ensures outcome == Some(runner.kernel(runState.inputTfTensors))
      ensures queue.Valid()
      ensures outcome.value.Failed? ==>
        var d := KernelDiagnostic(runner.name, outcome.value.error);
        && (forall i :: 0 <= i < |resultRefs| ==> resultRefs[i].state == Error(d))
        && chain.state == Error(d)
        && queue.pending == old(queue.pending)
      ensures outcome.value.Done? ==>
        && (forall i :: 0 <= i < |resultRefs| ==> resultRefs[i].state == old(resultRefs[i].state))
        && chain.state == old(chain.state)
        && queue.pending == old(queue.pending) + [this]
    {
      outcome := Some(runner.kernel(runState.inputTfTensors));
      match outcome.value
      case Failed(e) =>
        var d := KernelDiagnostic(runner.name, e);
        var i := 0;
        while i < |resultRefs|
          invariant 0 <= i <= |resultRefs|
          invariant forall j :: 0 <= j < i ==> resultRefs[j].state == Error(d)
          invariant unchanged(queue) && unchanged(chain)
          invariant outcome == Some(Failed(e))
        {
          resultRefs[i].state := Error(d);
          i := i + 1;
        }
        chain.state := Error(d);
      case Done(_) =>
        queue.Enqueue(this);
    }
  }

  /** The host's work queue: the publishing steps enqueued by successful
      completions, run one after another. */
  class WorkQueue {
    var pending: seq<AsyncState>

    /** Only completed, successful runs wait here. */
    ghost predicate Valid()
      reads this, pending
    {
      forall k :: 0 <= k < |pending| ==>
        && pending[k].Valid() && pending[k].outcome.Some? && pending[k].outcome.value.Done?
        && |pending[k].outcome.value.outputs| == |pending[k].resultRefs|
    }

    constructor ()
      ensures pending == [] && Valid()
    {
      pending := [];
    }

    method Enqueue(st: AsyncState)
      requires Valid() && st.Valid() && st.outcome.Some? && st.outcome.value.Done?
      requires |st.outcome.value.outputs| == |st.resultRefs|
      modifies this
      ensures pending == old(pending) + [st] && Valid()
    {
      pending := pending + [st];
    }

    /** The enqueued step: emplaces output i into result i, then the chain. */
    method RunNext()
      requires Valid() && pending != []
      modifies this, pending[0].chain, pending[0].resultRefs
      ensures pending == old(pending)[1..] && Valid()
      ensures var st := old(pending)[0];
        && (forall i :: 0 <= i < |st.resultRefs| ==>
              st.resultRefs[i].state == Available(Wrap(st.kind, st.outcome.value.outputs[i])))
        && st.chain.state == Available(ChainPayload)
    {
      var st := pending[0];
      pending := pending[1..];
      var outputs := st.outcome.value.outputs;
      var i := 0;
      while i < |st.resultRefs|
        invariant 0 <= i <= |st.resultRefs|
        invariant forall j :: 0 <= j < i ==> st.resultRefs[j].state == Available(Wrap(st.kind, outputs[j]))
        invariant pending == old(pending)[1..]
      {
        st.resultRefs[i].state := Available(Wrap(st.kind, outputs[i]));
        i := i + 1;
      }
      st.chain.state := Available(ChainPayload);
    }
  }

  /** What an asynchronous run leaves when the call returns: the results and
      the chain are the async state's unconstructed values. */
  ghost predicate AsyncStarted(st: AsyncState, slots: seq<AsyncValue?>, chain: Option<AsyncValue>,
                               runner: Runner, kind: TensorKind, inputs: seq<Tensor>)
    reads st, st.runState, st.chain, st.resultRefs
    reads if chain.Some? then {chain.value} else {}
  {
    && st.Valid() && st.outcome.None?
    && st.runner == runner && st.kind == kind
    && st.runState.inputTfTensors == inputs
    && |st.resultRefs| == |slots|
    && (forall i :: 0 <= i < |slots| ==> slots[i] == st.resultRefs[i] && st.resultRefs[i].state == Unconstructed)
    && st.chain.state == Unconstructed
    && (chain.Some? ==> chain.value == st.chain)
  }

  /** KernelFallbackExecuteCompatAsyncInternal up to the call of RunAsync. */
  method ExecuteAsync(kind: TensorKind, runner: Runner, runState: RunState, inputs: seq<Tensor>,
                      opChain: Option<AsyncValue>, results: array<AsyncValue?>, lo: nat)
    returns (chainOut: Option<AsyncValue>, st: AsyncState)
    requires lo + runner.numOutputs == results.Length && WellFormedRunner(runner)
    modifies results
    ensures fresh(st) && fresh(st.runState) && fresh(st.chain)
    ensures forall i :: 0 <= i < |st.resultRefs| ==> fresh(st.resultRefs[i])
    ensures forall i :: 0 <= i < lo ==> results[i] == old(results[i])
    ensures chainOut.Some? == opChain.Some?
    ensures AsyncStarted(st, results[lo..], chainOut, runner, kind, inputs)
    ensures st.runState.inputTfTensorValues == OwnedRefs(|inputs|)
    ensures st.runState.params == runState.params.(inputs := Some(st.runState))
  {
    var chain := new AsyncValue(Unconstructed);
    chainOut := if opChain.Some? then Some(chain) else None;
    var refs: seq<AsyncValue> := [];
    var i := 0;
    while i < runner.numOutputs
      invariant 0 <= i <= runner.numOutputs && |refs| == i
      invariant forall j :: 0 <= j < i ==> results[lo + j] == refs[j] && fresh(refs[j]) && refs[j].state == Unconstructed
      invariant forall j, k :: 0 <= j < k < i ==> refs[j] != refs[k]
      invariant chain !in refs && chain.state == Unconstructed
      invariant forall j :: 0 <= j < lo ==> results[j] == old(results[j])
    {
      var cell := new AsyncValue(Unconstructed);
      refs := refs + [cell];
      results[lo + i] := cell;
      i := i + 1;
    }
    st := new AsyncState(runState.params, inputs, runner, kind, chain, refs);
  }

  // ---------------------------------------------------------------------
  // Synchronous execution

  /** KernelFallbackExecuteCompatSyncInternal: runs the kernel; on error the
      error fans out, otherwise output i lands in slot lo + i and the chain
      becomes available. */
  method ExecuteSync(kind: TensorKind, runner: Runner, inputs: seq<Tensor>,
                     opChain: Option<AsyncValue>, results: array<AsyncValue?>, lo: nat)
    returns (chainOut: Option<AsyncValue>)
    requires lo + runner.numOutputs == results.Length && WellFormedRunner(runner)
    modifies results
    ensures forall i :: 0 <= i < lo ==> results[i] == old(results[i])
    ensures forall i :: lo <= i < results.Length ==> results[i] != null && fresh(results[i])
    ensures chainOut.Some? == opChain.Some? && (chainOut.Some? ==> fresh(chainOut.value))
    ensures SyncOutcome(results[lo..], chainOut, kind, runner, inputs)
  {
    var outcome := runner.kernel(inputs);
    if outcome.Failed? {
      var error;
      chainOut, error := EmitError(runner.name, outcome.error, opChain, results, lo);
      return;
    }
    var outputs := outcome.outputs;
    assert |outputs| == runner.numOutputs;
    var i := 0;
    while i < |outputs|
      invariant 0 <= i <= |outputs|
      invariant forall j :: 0 <= j < lo ==> results[j] == old(results[j])
      invariant forall j :: lo <= j < lo + i ==> results[j] != null && fresh(results[j])
      invariant forall j :: 0 <= j < i ==> results[lo + j] != null && results[lo + j].state == Available(Wrap(kind, outputs[j]))
    {
      results[lo + i] := new AsyncValue(Available(Wrap(kind, outputs[i])));
      i := i + 1;
    }
    if opChain.Some? {
      var ready := new AsyncValue(Available(ChainPayload));
      chainOut := Some(ready);
    } else {
      chainOut := None;
    }
  }

  /** The tail shared by dispatch and KernelFallbackExecuteOp: the runner's
      IsAsync picks the asynchronous or the synchronous path, and the
      thread's owned input tensors are released afterwards (clean_up_inputs). */
  method Launch(kind: TensorKind, runner: Runner, runState: RunState, inputs: seq<Tensor>,
                opChain: Option<AsyncValue>, results: array<AsyncValue?>, lo: nat)
    returns (chainOut: Option<AsyncValue>, pending: Option<AsyncState>)
    requires lo + runner.numOutputs == results.Length && WellFormedRunner(runner)
    modifies results, runState`inputTfTensors
    ensures forall i :: 0 <= i < lo ==> results[i] == old(results[i])
    ensures chainOut.Some? == opChain.Some?
    ensures runState.inputTfTensors == []
    ensures !runner.isAsync ==> pending.None? && SyncOutcome(results[lo..], chainOut, kind, runner, inputs)
    ensures runner.isAsync ==>
      && pending.Some? && fresh(pending.value) && fresh(pending.value.runState) && fresh(pending.value.chain)
      && (forall i :: 0 <= i < |pending.value.resultRefs| ==> fresh(pending.value.resultRefs[i]))
      && AsyncStarted(pending.value, results[lo..], chainOut, runner, kind, inputs)
  {
    if runner.isAsync {
      var st;
      chainOut, st := ExecuteAsync(kind, runner, runState, inputs, opChain, results, lo);
      pending := Some(st);
    } else {
      chainOut := ExecuteSync(kind, runner, inputs, opChain, results, lo);
      pending := None;
    }
    runState.inputTfTensors := [];
  }

  // ---------------------------------------------------------------------
  // Core-runtime dispatch

  /** KernelFallbackExecuteCompatCoreRuntimeDispatch. `lookup` is what the
      runner cache's GetOrCreate answers for this op, `convert` is the
      conversion of one argument to a tensorflow::Tensor, and `runState` is
      the calling thread's scratch state. The early exits follow Decide, each
      fanning its error out to all results and the returned chain; otherwise
      the kernel runs on the converted inputs. */
  method CoreRuntimeDispatch(reqState: Option<RequestState>, opName: string, args: seq<HostTensor>,
                             results: array<AsyncValue?>, lo: nat, lookup: Result<Runner, TfError>,
                             convert: HostTensor -> Result<Tensor, string>, runState: RunState)
    returns (opChain: AsyncValue, pending: Option<AsyncState>)
    requires lo <= results.Length
    requires var d := Decide(opName, reqState.Some?, lookup, args, convert);
      d.Execute? ==> lo + d.runner.numOutputs == results.Length && WellFormedRunner(d.runner)
    modifies results, runState
    ensures forall i :: 0 <= i < lo ==> results[i] == old(results[i])
    ensures var d := Decide(opName, reqState.Some?, lookup, args, convert);
      d.Abort? ==> pending.None? && SharedError(results[lo..], Some(opChain), KernelDiagnostic(opName, d.error))
    ensures var d := Decide(opName, reqState.Some?, lookup, args, convert);
      d.Execute? ==>
        && runState.inputTfTensors == []
        && runState.inputTfTensorValues == OwnedRefs(|d.inputs|)
        && runState.params.inputs == Some(runState)
        && runState.params.opKernel == d.runner.name
        && (!d.runner.isAsync ==>
              pending.None? && SyncOutcome(results[lo..], Some(opChain), KernelFallbackTensorKind, d.runner, d.inputs))
        && (d.runner.isAsync ==>
              pending.Some? && fresh(pending.value) && fresh(pending.value.chain)
              && (forall i :: 0 <= i < |pending.value.resultRefs| ==> fresh(pending.value.resultRefs[i]))
              && AsyncStarted(pending.value, results[lo..], Some(opChain), d.runner, KernelFallbackTensorKind, d.inputs))
    ensures reqState.None? || lookup.Fail? || Converted(args, convert).Fail? ==> unchanged(runState)
    ensures reqState.Some? && lookup.Ok? && Converted(args, convert).Ok? ==> runState.inputTfTensors == []
  {
    var ready := new AsyncValue(Available(ChainPayload));
    var chain: Option<AsyncValue> := Some(ready);
    var error: AsyncValue;
    pending := None;
    if reqState.None? {
      chain, error := EmitError(opName, TfError(NotFound, RequestStateNotFound), chain, results, lo);
      return chain.value, None;
    }
    if lookup.Fail? {
      chain, error := EmitError(opName, lookup.error, chain, results, lo);
      return chain.value, None;
    }
    var converted := ConvertInputTensors(args, convert);
    if converted.Fail? {
      chain, error := EmitError(opName, TfError(Internal, converted.error), chain, results, lo);
      return chain.value, None;
    }
    opChain, pending := RunOnInputs(opName, lookup.value, reqState.value, converted.value, ready,
                                    results, lo, runState);
  }

  /** The part of the dispatch after conversion: the converted tensors move
      into the thread's scratch state (cleared again on every exit), are
      validated, and the kernel runs on them unless validation fails for an
      op other than the exempt one. */
  method RunOnInputs(opName: string, runner: Runner, req: RequestState, inputs: seq<Tensor>,
                     ready: AsyncValue, results: array<AsyncValue?>, lo: nat, runState: RunState)
    returns (opChain: AsyncValue, pending: Option<AsyncState>)
    requires lo <= results.Length
    requires Validation(opName, inputs, runner.inputTypes).OK? || opName == BatchFunctionFallback ==>
      lo + runner.numOutputs == results.Length && WellFormedRunner(runner)
    modifies results, runState
    ensures forall i :: 0 <= i < lo ==> results[i] == old(results[i])
    ensures runState.inputTfTensors == []
    ensures var v := Validation(opName, inputs, runner.inputTypes);
      v.Err? && opName != BatchFunctionFallback ==>
        pending.None? && SharedError(results[lo..], Some(opChain), KernelDiagnostic(opName, v.error))
    ensures Validation(opName, inputs, runner.inputTypes).OK? || opName == BatchFunctionFallback ==>
      && runState.inputTfTensorValues == OwnedRefs(|inputs|)
      && runState.params.inputs == Some(runState)
      && runState.params.opKernel == runner.name
      && (!runner.isAsync ==>
            pending.None? && SyncOutcome(results[lo..], Some(opChain), KernelFallbackTensorKind, runner, inputs))
      && (runner.isAsync ==>
            pending.Some? && fresh(pending.value) && fresh(pending.value.chain)
            && (forall i :: 0 <= i < |pending.value.resultRefs| ==> fresh(pending.value.resultRefs[i]))
            && AsyncStarted(pending.value, results[lo..], Some(opChain), runner, KernelFallbackTensorKind, inputs))
  {
    var chain: Option<AsyncValue> := Some(ready);
    runState.inputTfTensors := inputs;
    var status := ValidateInputTypes(opName, runState.inputTfTensors, runner.inputTypes);
    if status.Err? && opName != BatchFunctionFallback {
      var error;
      chain, error := EmitError(opName, status.error, chain, results, lo);
      runState.inputTfTensors := [];
      return chain.value, None;
    }
    runState.BindOwned();
    runState.SetUpParams(runner, req);
    var view := runState.Inputs([]);
    chain, pending := Launch(KernelFallbackTensorKind, runner, runState, view, chain, results, lo);
    opChain := chain.value;
  }

  // ---------------------------------------------------------------------
  // BEF kernels

  /** What the BEF execute kernels rely on once the request state is there:
      the op key has a runner created for this op name, the slots match its
      outputs, and the thread's scratch copies are empty. */
  ghost predicate ExecuteOpReady(req: RequestState, opKey: int, opName: string, numResults: nat, runState: RunState)
    reads req.runnerTable, runState
  {
    && opKey in req.runnerTable.runners
    && req.runnerTable.runners[opKey].name == StripTfPrefix(opName)
    && req.runnerTable.runners[opKey].numOutputs == numResults
    && WellFormedRunner(req.runnerTable.runners[opKey])
    && runState.inputTfTensors == []
  }

  /** The part of KernelFallbackExecuteOp after the runner has been found:
      handle i points at argument i's tensor, copies are kept only while the
      kernel runs, and the scratch copies are empty again on return. */
  method RunOnArgs(runner: Runner, req: RequestState, args: seq<AsyncValue>, results: array<AsyncValue?>,
                   lo: nat, opChain: Option<AsyncValue>, runState: RunState)
    returns (chainOut: Option<AsyncValue>, pending: Option<AsyncState>)
    requires lo + runner.numOutputs == results.Length && WellFormedRunner(runner)
    requires AllFallbackTensors(args) && runState.inputTfTensors == []
    modifies results, runState
    ensures forall i :: 0 <= i < lo ==> results[i] == old(results[i])
    ensures chainOut.Some? == opChain.Some?
    ensures runState.inputTfTensors == []
    ensures runState.inputTfTensorValues == ArgRefs(|args|)
    ensures runState.params.inputs == Some(runState)
    ensures runState.params.opKernel == runner.name
    ensures !runner.isAsync ==>
      pending.None? && SyncOutcome(results[lo..], chainOut, FallbackTensorKind, runner, ArgTensors(ArgViews(args)))
    ensures runner.isAsync ==>
      && pending.Some? && fresh(pending.value) && fresh(pending.value.chain)
      && (forall i :: 0 <= i < |pending.value.resultRefs| ==> fresh(pending.value.resultRefs[i]))
      && AsyncStarted(pending.value, results[lo..], chainOut, runner, FallbackTensorKind, ArgTensors(ArgViews(args)))
  {
    var views := ArgViews(args);
    runState.PrepareArgs(views);
    runState.SetUpParams(runner, req);
    var inputs := runState.Inputs(ArgTensors(views));
    chainOut, pending := Launch(FallbackTensorKind, runner, runState, inputs, opChain, results, lo);
  }

  /** KernelFallbackExecuteOp: without request state every result and the
      chain get the NotFound error; otherwise the runner created under opKey
      runs on the argument tensors. With opChain = None this is
      FallbackAsyncExecuteOp. */
  method ExecuteOp(args: seq<AsyncValue>, results: array<AsyncValue?>, lo: nat, opChain: Option<AsyncValue>,
                   opName: string, opKey: int, reqState: Option<RequestState>, runState: RunState)
    returns (chainOut: Option<AsyncValue>, pending: Option<AsyncState>)
    requires lo <= results.Length && AllFallbackTensors(args)
    requires reqState.Some? ==> ExecuteOpReady(reqState.value, opKey, opName, results.Length - lo, runState)
    modifies results, runState
    ensures forall i :: 0 <= i < lo ==> results[i] == old(results[i])
    ensures chainOut.Some? == opChain.Some?
    ensures reqState.None? ==>
      && pending.None? && unchanged(runState)
      && SharedError(results[lo..], chainOut, KernelDiagnostic(opName, TfError(NotFound, RequestStateNotFound)))
    ensures reqState.Some? ==>
      var runner := reqState.value.runnerTable.runners[opKey];
      var inputs := ArgTensors(ArgViews(args));
      && runState.inputTfTensors == []
      && runState.inputTfTensorValues == ArgRefs(|args|)
      && runState.params.inputs == Some(runState)
      && runState.params.opKernel == runner.name
      && (!runner.isAsync ==>
            pending.None? && SyncOutcome(results[lo..], chainOut, FallbackTensorKind, runner, inputs))
      && (runner.isAsync ==>
            pending.Some? && fresh(pending.value) && fresh(pending.value.chain)
            && (forall i :: 0 <= i < |pending.value.resultRefs| ==> fresh(pending.value.resultRefs[i]))
            && AsyncStarted(pending.value, results[lo..], chainOut, runner, FallbackTensorKind, inputs))
  {
    if reqState.None? {
      var error;
      chainOut, error := EmitError(opName, TfError(NotFound, RequestStateNotFound), opChain, results, lo);
      return chainOut, None;
    }
    var found := reqState.value.runnerTable.Get(opKey);
    chainOut, pending := RunOnArgs(found.value, reqState.value, args, results, lo, opChain, runState);
  }

  /** FallbackAsyncExecuteOpSeq: argument 0 is the in-chain and result 0 the
      out-chain; the op runs on the remaining arguments and results, and the
      chain it leaves becomes result 0. */
  method ExecuteOpSeq(allArgs: seq<AsyncValue>, allResults: array<AsyncValue?>,
                      opName: string, opKey: int, reqState: Option<RequestState>, runState: RunState)
    returns (pending: Option<AsyncState>)
    requires |allArgs| > 0 && allResults.Length > 0
    requires AllFallbackTensors(allArgs[1..])
    requires reqState.Some? ==> ExecuteOpReady(reqState.value, opKey, opName, allResults.Length - 1, runState)
    modifies allResults, runState
    ensures allResults[0] != null
    ensures reqState.None? ==>
      pending.None? && SharedError(allResults[1..], Some(allResults[0]), KernelDiagnostic(opName, TfError(NotFound, RequestStateNotFound)))
    ensures reqState.Some? ==>
      var runner := reqState.value.runnerTable.runners[opKey];
      var inputs := ArgTensors(ArgViews(allArgs[1..]));
      && runState.inputTfTensors == []
      && (!runner.isAsync ==>
            pending.None? && SyncOutcome(allResults[1..], Some(allResults[0]), FallbackTensorKind, runner, inputs))
      && (runner.isAsync ==>
            pending.Some? && fresh(pending.value) && fresh(pending.value.chain)
            && (forall i :: 0 <= i < |pending.value.resultRefs| ==> fresh(pending.value.resultRefs[i]))
            && AsyncStarted(pending.value, allResults[1..], Some(allResults[0]), runner, FallbackTensorKind, inputs))
  {
    var chainOut;
    chainOut, pending := ExecuteOp(allArgs[1..], allResults, 1, Some(allArgs[0]), opName, opKey, reqState, runState);
    ghost var slots := allResults[1..];
    allResults[0] := chainOut.value;
    assert allResults[1..] == slots;
  }

  /** Errors of the BEF kernels that return llvm::Expected: a plain message
      (MakeStringError) or a status (MakeStatusError). */
  datatype KernelError = StringError(message: string) | StatusError(status: TfError)

  const RunnerExistsMessage: string := "KernelFallbackCreateOp: OpKernelRunner already exists: "

  /** KernelFallbackCreateOp: creates a runner for the op name with one
      leading "tf." stripped (`create` stands for OpKernelRunner::Create with
      its attribute builder) and inserts it under opKey; a key that already
      has a runner is an error naming the op, and that runner is kept. */
  method CreateOp(reqState: Option<RequestState>, opNameAttr: string, opKey: int,
                  create: string -> Result<Runner, TfError>)
    returns (r: Result<(), KernelError>)
    modifies if reqState.Some? then {reqState.value.runnerTable} else {}
    ensures reqState.None? ==> r == Fail(StringError(RequestStateNotFound))
    ensures reqState.Some? ==>
      var table := reqState.value.runnerTable;
      match create(StripTfPrefix(opNameAttr))
      case Fail(e) => r == Fail(StatusError(e)) && table.runners == old(table.runners)
      case Ok(runner) =>
        if opKey in old(table.runners) then
          r == Fail(StringError(RunnerExistsMessage + opNameAttr)) && table.runners == old(table.runners)
        else
          r == Ok(()) && table.runners == old(table.runners)[opKey := runner]
  {
    if reqState.None? {
      return Fail(StringError(RequestStateNotFound));
    }
    var table := reqState.value.runnerTable;
    var opName := StripTfPrefix(opNameAttr);
    var created := create(opName);
    if created.Fail? {
      return Fail(StatusError(created.error));
    }
    var inserted := table.Insert(opKey, created.value);
    if !inserted {
      return Fail(StringError(RunnerExistsMessage + opNameAttr));
    }
    return Ok(());
  }

  /** FallbackSetResource: stores the argument's tensor, made immutable, at
      index. */
  method FallbackSetResource(reqState: Option<RequestState>, arg: FallbackTensor, index: int)
    returns (r: Result<(), KernelError>)
    modifies if reqState.Some? then {reqState.value.resourceArray} else {}
    ensures reqState.None? ==> r == Fail(StringError(RequestStateNotFound))
    ensures reqState.Some? ==>
      var ra := reqState.value.resourceArray;
      && r == Ok(())
      && index in ra.resources
      && ra.resources[index].state == Available(Fallback(FallbackTensor(arg.tensor, true)))
      && ra.resources.Keys == old(ra.resources.Keys) + {index}
      && forall i :: i in old(ra.resources) && i != index ==> ra.resources[i] == old(ra.resources[i])
  {
    if reqState.None? {
      return Fail(StringError(RequestStateNotFound));
    }
    reqState.value.resourceArray.SetResource(index, arg.tensor);
    return Ok(());
  }

  /** FallbackGetResource: result i is the resource stored at indices[i] and
      the in-chain is forwarded; without request state only the out-chain is
      set, to an error. */
  method FallbackGetResource(reqState: Option<RequestState>, inCh: AsyncValue, indices: seq<int>,
                             results: array<AsyncValue?>)
    returns (outCh: AsyncValue)
    requires |indices| <= results.Length
    requires reqState.Some? ==> forall i :: 0 <= i < |indices| ==> indices[i] in reqState.value.resourceArray.resources
    modifies results
    ensures reqState.None? ==>
      && fresh(outCh) && outCh.state == Error(Diagnostic(Unknown, RequestStateNotFound))
      && forall i :: 0 <= i < results.Length ==> results[i] == old(results[i])
    ensures reqState.Some? ==>
      && outCh == inCh
      && (forall i :: 0 <= i < |indices| ==> results[i] == reqState.value.resourceArray.resources[indices[i]])
      && (forall i :: |indices| <= i < results.Length ==> results[i] == old(results[i]))
  {
    if reqState.None? {
      outCh := new AsyncValue(Error(Diagnostic(Unknown, RequestStateNotFound)));
      return;
    }
    var ra := reqState.value.resourceArray;
    var i := 0;
    while i < |indices|
      invariant 0 <= i <= |indices|
      invariant forall j :: 0 <= j < i ==> results[j] == ra.resources[indices[j]]
      invariant forall j :: i <= j < results.Length ==> results[j] == old(results[j])
    {
      results[i] := ra.resources[indices[i]];
      i := i + 1;
    }
    outCh := inCh;
  }

  /** A resource set at an index is what a later get of that index returns:
      the tensor, now immutable. */
  method SetThenGetResource(req: RequestState, t: FallbackTensor, index: int, inCh: AsyncValue,
                            results: array<AsyncValue?>)
    requires results.Length == 1
    modifies req.resourceArray, results
    ensures results[0] != null && results[0].state == Available(Fallback(FallbackTensor(t.tensor, true)))
  {
    var set_ := FallbackSetResource(Some(req), t, index);
    var outCh := FallbackGetResource(Some(req), inCh, [index], results);
  }

  /** FallbackCopyTensorIfSmall: every result gets its own available value
      holding the argument's tensor; a mutable tensor is re-wrapped from a
      fresh immutable copy, an immutable one is shared as it is. */
  method FallbackCopyTensorIfSmall(arg: FallbackTensor, results: array<AsyncValue?>)
    modifies results
    ensures forall i :: 0 <= i < results.Length ==>
      results[i] != null && fresh(results[i]) && results[i].state == Available(Fallback(arg))
    ensures forall i, j :: 0 <= i < j < results.Length ==> results[i] != results[j]
  {
    var i := 0;
    if !arg.immutable {
      while i < results.Length
        invariant 0 <= i <= results.Length
        invariant forall j :: 0 <= j < i ==> results[j] != null && fresh(results[j])
        invariant forall j :: 0 <= j < i ==> results[j].state == Available(Fallback(arg))
        invariant forall j, k :: 0 <= j < k < i ==> results[j] != results[k]
      {
        results[i] := new AsyncValue(Available(Fallback(FallbackTensor(arg.tensor, false))));
        i := i + 1;
      }
    } else {
      while i < results.Length
        invariant 0 <= i <= results.Length
        invariant forall j :: 0 <= j < i ==> results[j] != null && fresh(results[j])
        invariant forall j :: 0 <= j < i ==> results[j].state == Available(Fallback(arg))
        invariant forall j, k :: 0 <= j < k < i ==> results[j] != results[k]
      {
        results[i] := new AsyncValue(Available(Fallback(arg)));
        i := i + 1;
      }
    }
  }
}
