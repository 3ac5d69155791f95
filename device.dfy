/** Choice of compute device and numeric precision for a model load, from the
    configured `WHISPER_DEVICE` / `WHISPER_COMPUTE_TYPE` values and, when the
    device is "auto", the outcome of probing for CUDA through `torch`. */
module Device {

  /** What `import torch; torch.cuda.is_available()` gave. */
  datatype Probe = CudaAvailable | CudaUnavailable | TorchMissing

  const AUTO := "auto"
  const CUDA := "cuda"
  const CPU := "cpu"
  const FLOAT16 := "float16"
  const INT8 := "int8"

  /** The device a load runs on: an explicit setting is kept as it is (even
      one the engine will refuse); "auto" becomes "cuda" exactly when the
      probe found CUDA and "cpu" when it did not or `torch` is missing. */
  function ResolveDevice(configured: string, probe: Probe): (device: string)
    ensures configured != AUTO ==> device == configured
    ensures configured == AUTO ==> device in {CUDA, CPU}
    ensures configured == AUTO ==> (device == CUDA <==> probe == CudaAvailable)
  {
    if configured == AUTO then
      if probe == CudaAvailable then CUDA else CPU
    else configured
  }

  /** The precision a load uses: an explicit setting is kept; "auto" becomes
      "float16" exactly when the device is "cuda", "int8" otherwise. */
  function ResolvePrecision(configured: string, device: string): (computeType: string)
    ensures configured != AUTO ==> computeType == configured
    ensures configured == AUTO ==> computeType in {FLOAT16, INT8}
    ensures configured == AUTO ==> (computeType == FLOAT16 <==> device == CUDA)
  {
    if configured == AUTO then
      if device == CUDA then FLOAT16 else INT8
    else configured
  }

  /** The (device, precision) pair a load is parameterised by. */
  datatype Profile = Profile(device: string, computeType: string)

  function Resolve(device: string, computeType: string, probe: Probe): (p: Profile)
    ensures p.device == ResolveDevice(device, probe)
    ensures p.computeType == ResolvePrecision(computeType, p.device)
  {
    var d := ResolveDevice(device, probe);
    Profile(d, ResolvePrecision(computeType, d))
  }

  /** With both settings on "auto" the profile is (cuda, float16) when the
      probe finds CUDA and (cpu, int8) otherwise; neither value stays "auto". */
  lemma AutoProfile(probe: Probe)
    ensures Resolve(AUTO, AUTO, probe)
            == if probe == CudaAvailable then Profile(CUDA, FLOAT16) else Profile(CPU, INT8)
    ensures Resolve(AUTO, AUTO, probe).device != AUTO
    ensures Resolve(AUTO, AUTO, probe).computeType != AUTO
  {
  }

  /** An explicit device leaves the probe without influence: the profile is
      the same whatever the probe says. */
  lemma ExplicitDeviceIgnoresProbe(device: string, computeType: string, p1: Probe, p2: Probe)
    requires device != AUTO
    ensures Resolve(device, computeType, p1) == Resolve(device, computeType, p2)
  {
  }
}
