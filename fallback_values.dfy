/**
 * Values of the kernel fallback: statuses, tensors, async values and the
 * opaque kernel runner. Everything the fallback only carries around is kept
 * abstract here; only what its decisions look at is spelled out.
 */
module FallbackValues {
  import opened Wrappers

  /** The error classification of a tensorflow::Status. The TFRT error code
      that ConvertTfErrorCodeToTfrtErrorCode derives is the same enumeration. */
  datatype ErrorCode =
    | Cancelled | Unknown | InvalidArgument | DeadlineExceeded | NotFound
    | AlreadyExists | PermissionDenied | ResourceExhausted | FailedPrecondition
    | Aborted | OutOfRange | Unimplemented | Internal | Unavailable | DataLoss
    | Unauthenticated

  /** A non-OK tensorflow::Status. */
  datatype TfError = TfError(code: ErrorCode, message: string)

  /** A tensorflow::Status. */
  datatype Status = OK | Err(error: TfError)

  /** A tensorflow::DataType, identified by what DataTypeString prints for it. */
  datatype DataType = DataType(name: string)

  /** A tensorflow::Tensor: its dtype and an opaque payload. */
  datatype Tensor = Tensor(dtype: DataType, payload: int)

  /** A tfrt_stub::FallbackTensor: a tensor plus whether it is immutable. */
  datatype FallbackTensor = FallbackTensor(tensor: Tensor, immutable: bool)

  /** A tensor argument of the core-runtime dispatch (a tfrt::Tensor), opaque. */
  datatype HostTensor = HostTensor(id: int)

  /** What an async value holds once it is available. */
  datatype Payload =
    | ChainPayload                        // a tfrt::Chain
    | CompatTensor(tensor: Tensor)        // a KernelFallbackTensor (dispatch path)
    | Fallback(fallback: FallbackTensor)  // a FallbackTensor (BEF kernel path)

  /** Which tensor type the execution paths publish (their template argument). */
  datatype TensorKind = KernelFallbackTensorKind | FallbackTensorKind

  /** Wrapping a kernel output as the published tensor type. A FallbackTensor
      built from a plain tensor is mutable. */
  function Wrap(kind: TensorKind, t: Tensor): Payload
  {
    match kind
    case KernelFallbackTensorKind => CompatTensor(t)
    case FallbackTensorKind => Fallback(FallbackTensor(t, false))
  }

  /** The diagnostic an errored async value carries. */
  datatype Diagnostic = Diagnostic(code: ErrorCode, message: string)

  /** The state of a tfrt::AsyncValue. */
  datatype ValueState = Unconstructed | Available(payload: Payload) | Error(diag: Diagnostic)

  /** A tfrt::AsyncValue. References to it (RCReference) are Dafny references,
      so a value stored in several slots is one shared cell. */
  class AsyncValue {
    var state: ValueState
    /** AsyncValue::IsUnique(): the holder's reference is the only one. Counts
        are not tracked as references are copied; a fresh value is unique. */
    var unique: bool

    constructor (s: ValueState)
      ensures state == s && unique
    {
      state := s;
      unique := true;
    }
  }

  /** What a legacy kernel run leaves in its OpKernelContext. */
  datatype KernelOutcome = Done(outputs: seq<Tensor>) | Failed(error: TfError)

  /** An OpKernelRunner: the op kernel's name, input types, output count and
      device, whether it runs asynchronously, opaque identities of the
      per-runner parameter fields (resource manager, allocation attributes,
      function library), and the kernel itself as a function of its inputs. */
  datatype Runner = Runner(
    name: string,
    device: string,
    inputTypes: seq<DataType>,
    numOutputs: nat,
    isAsync: bool,
    handles: int,
    kernel: seq<Tensor> -> KernelOutcome)

  /** A kernel that succeeds sets every one of its outputs. */
  ghost predicate WellFormedRunner(r: Runner)
  {
    forall inputs :: r.kernel(inputs).Done? ==> |r.kernel(inputs).outputs| == r.numOutputs
  }

  const RequestStateNotFound: string := "KernelFallbackCompatRequestState not found in RequestContext."

  /** The message KernelFallbackEmitError and the async callback compose. */
  function KernelErrorMessage(opName: string, message: string): (m: string)
    ensures |m| == |"error running kernel fallback kernel "| + |opName| + 2 + |message|
    ensures m[|m| - |message|..] == message
  {
    "error running kernel fallback kernel " + opName + ": " + message
  }

  /** The one error value all outputs of a failed op share. */
  function KernelDiagnostic(opName: string, e: TfError): Diagnostic
  {
    Diagnostic(e.code, KernelErrorMessage(opName, e.message))
  }
}
