/**
 * OpKernelRunState: the per-thread scratch state a kernel invocation uses.
 * It owns the tensor copies the invocation needs, keeps a vector of borrowed
 * handles (TensorValue) that the parameter struct's `inputs` points at, and
 * is reused from one invocation to the next.
 */
module FallbackRunState {
  import opened Wrappers
  import opened FallbackValues
  import opened FallbackTables

  /** A tensorflow::TensorValue, by what its tensor pointer points at: nothing,
      the tensor of argument `index`, or entry `index` of the owned copies. */
  datatype TensorRef = NullRef | ArgTensor(index: nat) | OwnedTensor(index: nat)

  /** OpKernelContext::Params, reduced to: the run state whose handle vector
      `inputs` points at, the device, the op kernel's name, and opaque
      identities of the fields taken from the runner and from the request. */
  datatype Params = Params(
    inputs: Option<RunState>,
    device: string,
    opKernel: string,
    runnerHandles: int,
    requestHandles: int)

  const DefaultParams: Params := Params(None, "", "", 0, 0)

  /** A tensor argument of a BEF fallback kernel, as the kernel reads it: its
      FallbackTensor and whether the argument's reference is unique. */
  datatype Arg = Arg(fallback: FallbackTensor, unique: bool)

  /** Every argument holds an available FallbackTensor. */
  predicate AllFallbackTensors(args: seq<AsyncValue>)
    reads args
  {
    forall i :: 0 <= i < |args| ==> args[i].state.Available? && args[i].state.payload.Fallback?
  }

  /** The arguments as the kernel reads them. */
  function ArgViews(args: seq<AsyncValue>): (views: seq<Arg>)
    reads args
    requires AllFallbackTensors(args)
    ensures |views| == |args|
    ensures forall i :: 0 <= i < |args| ==>
      views[i] == Arg(args[i].state.payload.fallback, args[i].unique)
  {
    seq(|args|, i reads args requires 0 <= i < |args| && AllFallbackTensors(args) =>
      Arg(args[i].state.payload.fallback, args[i].unique))
  }

  /** The tensors of the arguments. */
  function ArgTensors(args: seq<Arg>): (ts: seq<Tensor>)
    ensures |ts| == |args|
    ensures forall i :: 0 <= i < |args| ==> ts[i] == args[i].fallback.tensor
  {
    seq(|args|, i requires 0 <= i < |args| => args[i].fallback.tensor)
  }

  /** An argument is copied when it is neither immutable nor unique: shared
      and mutable, so the kernel must not see later writes through it. */
  predicate NeedsCopy(a: Arg)
  {
    !a.fallback.immutable && !a.unique
  }

  /** The owned copies input preparation keeps, in argument order. */
  function KeptCopies(args: seq<Arg>): seq<Tensor>
  {
    if args == [] then []
    else
      var last := args[|args| - 1];
      KeptCopies(args[..|args| - 1]) + (if NeedsCopy(last) then [last.fallback.tensor] else [])
  }

  /** The positions of the arguments that need a copy, in increasing order. */
  function CopyIndices(args: seq<Arg>): seq<nat>
  {
    if args == [] then []
    else
      var n := |args| - 1;
      CopyIndices(args[..n]) + (if NeedsCopy(args[n]) then [n] else [])
  }

  /** CopyIndices holds exactly the positions of the arguments needing a copy,
      in increasing order. */
  lemma {:induction false} CopyIndicesExact(args: seq<Arg>)
    ensures forall i :: i in CopyIndices(args) <==> 0 <= i < |args| && NeedsCopy(args[i])
    ensures forall k, l :: 0 <= k < l < |CopyIndices(args)| ==> CopyIndices(args)[k] < CopyIndices(args)[l]
    ensures forall k :: 0 <= k < |CopyIndices(args)| ==> CopyIndices(args)[k] < |args|
  {
    if args != [] {
      var n := |args| - 1;
      CopyIndicesExact(args[..n]);
      assert forall i :: 0 <= i < n ==> args[..n][i] == args[i];
    }
  }

  /** The k-th kept copy is the tensor of the k-th argument needing a copy:
      a copy is kept exactly for the shared, mutable arguments. */
  lemma {:induction false} KeptCopiesAt(args: seq<Arg>)
    ensures |KeptCopies(args)| == |CopyIndices(args)|
    ensures forall k :: 0 <= k < |CopyIndices(args)| ==>
      CopyIndices(args)[k] < |args| && KeptCopies(args)[k] == args[CopyIndices(args)[k]].fallback.tensor
  {
    if args != [] {
      var n := |args| - 1;
      var init := args[..n];
      KeptCopiesAt(init);
      CopyIndicesExact(init);
      forall k | 0 <= k < |CopyIndices(args)|
        ensures CopyIndices(args)[k] < |args| && KeptCopies(args)[k] == args[CopyIndices(args)[k]].fallback.tensor
      {
        if k < |CopyIndices(init)| {
          assert CopyIndices(args)[k] == CopyIndices(init)[k];
          assert KeptCopies(args)[k] == KeptCopies(init)[k];
          assert init[CopyIndices(init)[k]] == args[CopyIndices(init)[k]];
        } else {
          assert NeedsCopy(args[n]) && CopyIndices(args)[k] == n;
        }
      }
    }
  }

  /** When every argument is immutable or unique, no copy is kept. */
  lemma {:induction false} NoCopiesForExclusiveArgs(args: seq<Arg>)
    requires forall i :: 0 <= i < |args| ==> args[i].fallback.immutable || args[i].unique
    ensures KeptCopies(args) == []
  {
    if args != [] {
      var n := |args| - 1;
      assert forall i :: 0 <= i < n ==> args[..n][i] == args[i];
      NoCopiesForExclusiveArgs(args[..n]);
    }
  }

  /** gtl::InlinedVector::resize for the handle vector: keeps the prefix and
      pads with null handles. */
  function Resize(refs: seq<TensorRef>, n: nat): (r: seq<TensorRef>)
    ensures |r| == n
    ensures forall i :: 0 <= i < n && i < |refs| ==> r[i] == refs[i]
    ensures forall i :: |refs| <= i < n ==> r[i] == NullRef
  {
    if |refs| >= n then refs[..n] else refs + seq(n - |refs|, _ => NullRef)
  }

  /** Handles to arguments 0 .. n-1, in order. */
  function ArgRefs(n: nat): (r: seq<TensorRef>)
    ensures |r| == n && forall i :: 0 <= i < n ==> r[i] == ArgTensor(i)
  {
    seq(n, i requires 0 <= i => ArgTensor(i))
  }

  /** Handles to owned copies 0 .. n-1, in order. */
  function OwnedRefs(n: nat): (r: seq<TensorRef>)
    ensures |r| == n && forall i :: 0 <= i < n ==> r[i] == OwnedTensor(i)
  {
    seq(n, i requires 0 <= i => OwnedTensor(i))
  }

  /** What a handle points at, given the call's argument tensors and the
      owned copies. */
  predicate Resolvable(refs: seq<TensorRef>, args: seq<Tensor>, owned: seq<Tensor>)
  {
    forall i :: 0 <= i < |refs| ==>
      match refs[i]
      case NullRef => false
      case ArgTensor(k) => k < |args|
      case OwnedTensor(k) => k < |owned|
  }

  function Resolve(refs: seq<TensorRef>, args: seq<Tensor>, owned: seq<Tensor>): (ts: seq<Tensor>)
    requires Resolvable(refs, args, owned)
    ensures |ts| == |refs|
  {
    seq(|refs|, i requires 0 <= i < |refs| && Resolvable(refs, args, owned) =>
      match refs[i]
      case ArgTensor(k) => args[k]
      case OwnedTensor(k) => owned[k])
  }

  class RunState {
    /** Owned tensor copies. */
    var inputTfTensors: seq<Tensor>
    /** Borrowed handles; `params.inputs` points at this vector. */
    var inputTfTensorValues: seq<TensorRef>
    var params: Params

    /** The thread-local instance as first created. */
    constructor ()
      ensures inputTfTensors == [] && inputTfTensorValues == [] && params == DefaultParams
    {
      inputTfTensors := [];
      inputTfTensorValues := [];
      params := DefaultParams;
    }

    /** The copy the async path keeps: it owns a copy of every tensor the
        given handles point at (`view`), its handles point at those copies,
        and its parameters are p with `inputs` rebound to its own vector. */
    constructor CopyOf(view: seq<Tensor>, p: Params)
      ensures inputTfTensors == view
      ensures inputTfTensorValues == OwnedRefs(|view|)
      ensures params == p.(inputs := Some(this))
    {
      var copies: seq<Tensor> := [];
      var i := 0;
      while i < |view|
        invariant 0 <= i <= |view|
        invariant copies == view[..i]
      {
        copies := copies + [view[i]];
        i := i + 1;
      }
      var values: seq<TensorRef> := [];
      i := 0;
      while i < |copies|
        invariant 0 <= i <= |copies|
        invariant values == OwnedRefs(i)
      {
        values := values + [OwnedTensor(i)];
        i := i + 1;
      }
      inputTfTensors := copies;
      inputTfTensorValues := values;
      new;
      params := p.(inputs := Some(this));
    }

    /** The tensors the kernel reads through the handles. */
    function Inputs(args: seq<Tensor>): seq<Tensor>
      reads this
      requires Resolvable(inputTfTensorValues, args, inputTfTensors)
    {
      Resolve(inputTfTensorValues, args, inputTfTensors)
    }

    /** SetUpParams: `inputs` is rebound to this run state's handles; the
        device is the request's custom device when there is one, otherwise
        the runner's; the rest comes from the runner and the request. */
    method SetUpParams(runner: Runner, req: RequestState)
      modifies this`params
      ensures params.inputs == Some(this)
      ensures params.device == (if req.customDevice.Some? then req.customDevice.value else runner.device)
      ensures params.opKernel == runner.name
      ensures params.runnerHandles == runner.handles && params.requestHandles == req.handles
    {
      var device := if req.customDevice.Some? then req.customDevice.value else runner.device;
      params := Params(Some(this), device, runner.name, runner.handles, req.handles);
    }

    /** Input preparation of the BEF kernel path: handle i points at argument
        i's tensor, and a copy is kept for each shared, mutable argument. */
    method PrepareArgs(args: seq<Arg>)
      requires inputTfTensors == []
      modifies this`inputTfTensors, this`inputTfTensorValues
      ensures inputTfTensorValues == ArgRefs(|args|)
      ensures inputTfTensors == KeptCopies(args)
      ensures Resolvable(inputTfTensorValues, ArgTensors(args), inputTfTensors)
      ensures Inputs(ArgTensors(args)) == ArgTensors(args)
    {
      inputTfTensorValues := Resize(inputTfTensorValues, |args|);
      var i := 0;
      while i < |args|
        invariant 0 <= i <= |args|
        invariant |inputTfTensorValues| == |args|
        invariant forall j :: 0 <= j < i ==> inputTfTensorValues[j] == ArgTensor(j)
        invariant inputTfTensors == KeptCopies(args[..i])
      {
        assert args[..i + 1][..i] == args[..i];
        if NeedsCopy(args[i]) {
          inputTfTensors := inputTfTensors + [args[i].fallback.tensor];
        }
        inputTfTensorValues := inputTfTensorValues[i := ArgTensor(i)];
        i := i + 1;
      }
      assert args[..|args|] == args;
    }

    /** Handle rebinding of the dispatch path: handle i points at owned
        tensor i. */
    method BindOwned()
      modifies this`inputTfTensorValues
      ensures inputTfTensorValues == OwnedRefs(|inputTfTensors|)
      ensures Resolvable(inputTfTensorValues, [], inputTfTensors)
      ensures Inputs([]) == inputTfTensors
    {
      inputTfTensorValues := Resize(inputTfTensorValues, |inputTfTensors|);
      var i := 0;
      while i < |inputTfTensors|
        invariant 0 <= i <= |inputTfTensors|
        invariant |inputTfTensorValues| == |inputTfTensors|
        invariant forall j :: 0 <= j < i ==> inputTfTensorValues[j] == OwnedTensor(j)
      {
        inputTfTensorValues := inputTfTensorValues[i := OwnedTensor(i)];
        i := i + 1;
      }
    }
  }
}
