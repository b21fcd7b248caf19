/**
 * The checks a core-runtime dispatch makes before it runs a kernel: input
 * conversion, input type validation, and the order in which their failures
 * (and a missing request state or runner) end the dispatch early.
 */
module FallbackChecks {
  import opened Wrappers
  import opened FallbackValues
  import opened Digits

  // ---------------------------------------------------------------------
  // Input validation

  function CountMismatchMessage(expected: nat, got: nat): string
  {
    "expected " + Decimal(expected) + " inputs, got " + Decimal(got)
  }

  function DTypeMismatchMessage(opName: string, index: nat, expected: DataType, actual: DataType): string
  {
    "cannot compute " + opName + " as input #" + Decimal(index) + "(zero-based)"
      + " was expected to be a " + expected.name + " tensor but is a " + actual.name + " tensor"
  }

  /** The first position at or after `from` whose dtype differs. */
  function FirstMismatch(inputs: seq<Tensor>, types: seq<DataType>, from: nat): (r: Option<nat>)
    requires |inputs| == |types| && from <= |inputs|
    ensures r.Some? ==> from <= r.value < |inputs| && inputs[r.value].dtype != types[r.value]
    decreases |inputs| - from
  {
    if from == |inputs| then None
    else if inputs[from].dtype != types[from] then Some(from)
    else FirstMismatch(inputs, types, from + 1)
  }

  /** What ValidateInputTypes returns: the count is checked first, then the
      dtypes in order; the first mismatch is reported. */
  function Validation(opName: string, inputs: seq<Tensor>, types: seq<DataType>): Status
  {
    if |types| != |inputs| then
      Err(TfError(InvalidArgument, CountMismatchMessage(|types|, |inputs|)))
    else
      match FirstMismatch(inputs, types, 0)
      case None => OK
      case Some(i) => Err(TfError(InvalidArgument, DTypeMismatchMessage(opName, i, types[i], inputs[i].dtype)))
  }

  lemma {:induction false} FirstMismatchSpec(inputs: seq<Tensor>, types: seq<DataType>, from: nat)
    requires |inputs| == |types| && from <= |inputs|
    ensures FirstMismatch(inputs, types, from).None? <==>
      forall j :: from <= j < |inputs| ==> inputs[j].dtype == types[j]
    ensures FirstMismatch(inputs, types, from).Some? ==>
      var i := FirstMismatch(inputs, types, from).value;
      from <= i < |inputs| && inputs[i].dtype != types[i]
      && forall j :: from <= j < i ==> inputs[j].dtype == types[j]
    decreases |inputs| - from
  {
    if from < |inputs| && inputs[from].dtype == types[from] {
      FirstMismatchSpec(inputs, types, from + 1);
    }
  }

  /** Validation succeeds exactly when the counts agree and every dtype matches. */
  lemma ValidationOkIff(opName: string, inputs: seq<Tensor>, types: seq<DataType>)
    ensures Validation(opName, inputs, types) == OK <==>
      |types| == |inputs| && forall i :: 0 <= i < |inputs| ==> inputs[i].dtype == types[i]
  {
    if |types| == |inputs| {
      FirstMismatchSpec(inputs, types, 0);
    }
  }

  /** A count mismatch is reported whatever the dtypes are. */
  lemma ValidationCountFirst(opName: string, inputs: seq<Tensor>, types: seq<DataType>)
    requires |types| != |inputs|
    ensures Validation(opName, inputs, types) == Err(TfError(InvalidArgument, CountMismatchMessage(|types|, |inputs|)))
  {
  }

  /** With equal counts, the error names the smallest mismatching index. */
  lemma ValidationReportsFirstMismatch(opName: string, inputs: seq<Tensor>, types: seq<DataType>, i: nat)
    requires |types| == |inputs| && i < |inputs|
    requires inputs[i].dtype != types[i]
    requires forall j :: 0 <= j < i ==> inputs[j].dtype == types[j]
    ensures Validation(opName, inputs, types) ==
      Err(TfError(InvalidArgument, DTypeMismatchMessage(opName, i, types[i], inputs[i].dtype)))
  {
    FirstMismatchSpec(inputs, types, 0);
    var k := FirstMismatch(inputs, types, 0).value;
    assert !(k < i) && !(i < k);
  }

  /** ValidateInputTypes: a read-only loop over the inputs. */
  method ValidateInputTypes(opName: string, inputs: seq<Tensor>, types: seq<DataType>) returns (status: Status)
    ensures status == Validation(opName, inputs, types)
  {
    var n := |inputs|;
    if |types| != n {
      return Err(TfError(InvalidArgument, CountMismatchMessage(|types|, n)));
    }
    var i := 0;
    while i < n
      invariant 0 <= i <= n
      invariant FirstMismatch(inputs, types, 0) == FirstMismatch(inputs, types, i)
    {
      if inputs[i].dtype != types[i] {
        return Err(TfError(InvalidArgument, DTypeMismatchMessage(opName, i, types[i], inputs[i].dtype)));
      }
      i := i + 1;
    }
    return OK;
  }

  // ---------------------------------------------------------------------
  // Input conversion

  /** What ConvertInputTensors returns: every argument converted, or the
      error of the first argument that fails to convert. */
  function Converted(args: seq<HostTensor>, convert: HostTensor -> Result<Tensor, string>): Result<seq<Tensor>, string>
  {
    if args == [] then Ok([])
    else
      match convert(args[0])
      case Fail(e) => Fail(e)
      case Ok(t) =>
        match Converted(args[1..], convert)
        case Fail(e) => Fail(e)
        case Ok(ts) => Ok([t] + ts)
  }

  /** All arguments convert: the result holds their conversions in order. */
  lemma {:induction false} ConvertedAllOk(args: seq<HostTensor>, convert: HostTensor -> Result<Tensor, string>)
    requires forall i :: 0 <= i < |args| ==> convert(args[i]).Ok?
    ensures Converted(args, convert).Ok?
    ensures |Converted(args, convert).value| == |args|
    ensures forall i :: 0 <= i < |args| ==> Converted(args, convert).value[i] == convert(args[i]).value
  {
    if args != [] {
      ConvertedAllOk(args[1..], convert);
    }
  }

  /** A successful conversion converted every argument, in order. */
  lemma {:induction false} ConvertedOkSpec(args: seq<HostTensor>, convert: HostTensor -> Result<Tensor, string>)
    requires Converted(args, convert).Ok?
    ensures |Converted(args, convert).value| == |args|
    ensures forall i :: 0 <= i < |args| ==>
      convert(args[i]).Ok? && Converted(args, convert).value[i] == convert(args[i]).value
  {
    if args != [] {
      ConvertedOkSpec(args[1..], convert);
    }
  }

  /** The first failing argument decides the error. */
  lemma {:induction false} ConvertedFirstFailure(args: seq<HostTensor>, convert: HostTensor -> Result<Tensor, string>, i: nat)
    requires i < |args| && convert(args[i]).Fail?
    requires forall j :: 0 <= j < i ==> convert(args[j]).Ok?
    ensures Converted(args, convert) == Fail(convert(args[i]).error)
  {
    if i > 0 {
      ConvertedFirstFailure(args[1..], convert, i - 1);
    }
  }

  /** ConvertInputTensors: converts the arguments in order, stopping at the
      first failure. */
  method ConvertInputTensors(args: seq<HostTensor>, convert: HostTensor -> Result<Tensor, string>)
    returns (r: Result<seq<Tensor>, string>)
    ensures r == Converted(args, convert)
  {
    var tensors: seq<Tensor> := [];
    var i := 0;
    while i < |args|
      invariant 0 <= i <= |args|
      invariant forall j :: 0 <= j < i ==> convert(args[j]).Ok?
      invariant |tensors| == i
      invariant forall j :: 0 <= j < i ==> tensors[j] == convert(args[j]).value
    {
      var t := convert(args[i]);
      if t.Fail? {
        ConvertedFirstFailure(args, convert, i);
        return Fail(t.error);
      }
      tensors := tensors + [t.value];
      i := i + 1;
    }
    ConvertedAllOk(args, convert);
    assert Converted(args, convert).value == tensors;
    return Ok(tensors);
  }

  // ---------------------------------------------------------------------
  // Op names

  predicate HasTfPrefix(s: string)
  {
    |s| >= 3 && s[..3] == "tf."
  }

  /** StripTfPrefix: absl::StripPrefix(op_name, "tf."). */
  function StripTfPrefix(opName: string): (name: string)
    ensures opName == (if HasTfPrefix(opName) then "tf." + name else name)
  {
    if HasTfPrefix(opName) then opName[3..] else opName
  }

  /** Exactly one leading "tf." is removed. */
  lemma StripTfPrefixOnce(name: string)
    ensures StripTfPrefix("tf." + name) == name
  {
    assert ("tf." + name)[..3] == "tf.";
  }

  /** A name without the prefix is unchanged. */
  lemma StripTfPrefixUnprefixed(name: string)
    requires !HasTfPrefix(name)
    ensures StripTfPrefix(name) == name
  {
  }

  // ---------------------------------------------------------------------
  // Early exits of the core-runtime dispatch

  /** The op whose dtype validation failures are ignored. */
  const BatchFunctionFallback: string := "_BatchFunctionFallback"

  datatype Decision = Abort(error: TfError) | Execute(runner: Runner, inputs: seq<Tensor>)

  /** The early-exit chain of KernelFallbackExecuteCompatCoreRuntimeDispatch:
      missing request state, then the runner cache's failure, then a
      conversion failure, then a validation failure (except for the exempt
      op). `lookup` is the runner cache's answer. */
  function Decide(opName: string, hasState: bool, lookup: Result<Runner, TfError>,
                  args: seq<HostTensor>, convert: HostTensor -> Result<Tensor, string>): (d: Decision)
    ensures d.Execute? <==>
      && hasState && lookup.Ok? && Converted(args, convert).Ok?
      && (Validation(opName, Converted(args, convert).value, lookup.value.inputTypes).OK?
          || opName == BatchFunctionFallback)
    ensures d.Execute? ==> d.runner == lookup.value && d.inputs == Converted(args, convert).value
  {
    if !hasState then Abort(TfError(NotFound, RequestStateNotFound))
    else if lookup.Fail? then Abort(lookup.error)
    else
      match Converted(args, convert)
      case Fail(msg) => Abort(TfError(Internal, msg))
      case Ok(inputs) =>
        var v := Validation(opName, inputs, lookup.value.inputTypes);
        if v.Err? && opName != BatchFunctionFallback then Abort(v.error)
        else Execute(lookup.value, inputs)
  }

  /** A missing request state is reported before anything else is looked at. */
  lemma DecideNoState(opName: string, lookup: Result<Runner, TfError>,
                      args: seq<HostTensor>, convert: HostTensor -> Result<Tensor, string>)
    ensures Decide(opName, false, lookup, args, convert) == Abort(TfError(NotFound, RequestStateNotFound))
  {
  }

  /** A conversion failure is reported as Internal, carrying the error of the
      first argument that fails, before any validation. */
  lemma DecideConversionFailure(opName: string, runner: Runner, args: seq<HostTensor>,
                                convert: HostTensor -> Result<Tensor, string>, i: nat)
    requires i < |args| && convert(args[i]).Fail?
    requires forall j :: 0 <= j < i ==> convert(args[j]).Ok?
    ensures Decide(opName, true, Ok(runner), args, convert) == Abort(TfError(Internal, convert(args[i]).error))
  {
    ConvertedFirstFailure(args, convert, i);
  }

  /** A kernel only runs, for every op but the exempt one, on converted inputs
      whose count and dtypes match the kernel's declared input types. */
  lemma DecideExecuteWellTyped(opName: string, hasState: bool, lookup: Result<Runner, TfError>,
                               args: seq<HostTensor>, convert: HostTensor -> Result<Tensor, string>)
    requires Decide(opName, hasState, lookup, args, convert).Execute?
    ensures hasState && lookup.Ok?
    ensures var d := Decide(opName, hasState, lookup, args, convert);
      d.runner == lookup.value && |d.inputs| == |args|
      && (forall i :: 0 <= i < |args| ==> convert(args[i]).Ok? && d.inputs[i] == convert(args[i]).value)
      && (opName != BatchFunctionFallback ==>
            |d.inputs| == |d.runner.inputTypes|
            && forall i :: 0 <= i < |d.inputs| ==> d.inputs[i].dtype == d.runner.inputTypes[i])
  {
    var d := Decide(opName, hasState, lookup, args, convert);
    ConvertedOkSpec(args, convert);
    ValidationOkIff(opName, d.inputs, d.runner.inputTypes);
  }

  /** A runner-creation failure is reported as it is, before any argument
      is converted. */
  lemma DecideRunnerFailure(opName: string, e: TfError, args: seq<HostTensor>,
                            convert: HostTensor -> Result<Tensor, string>)
    ensures Decide(opName, true, Fail(e), args, convert) == Abort(e)
  {
  }

  /** A validation failure of a non-exempt op is reported with the error
      ValidateInputTypes returns. */
  lemma DecideValidationFailure(opName: string, runner: Runner, args: seq<HostTensor>,
                                convert: HostTensor -> Result<Tensor, string>)
    requires Converted(args, convert).Ok? && opName != BatchFunctionFallback
    requires Validation(opName, Converted(args, convert).value, runner.inputTypes).Err?
    ensures Decide(opName, true, Ok(runner), args, convert)
      == Abort(Validation(opName, Converted(args, convert).value, runner.inputTypes).error)
  {
  }

  /** For the exempt op a validation failure does not stop the kernel. */
  lemma DecideExempt(runner: Runner, args: seq<HostTensor>, convert: HostTensor -> Result<Tensor, string>)
    requires Converted(args, convert).Ok?
    ensures Decide(BatchFunctionFallback, true, Ok(runner), args, convert)
      == Execute(runner, Converted(args, convert).value)
  {
  }
}
