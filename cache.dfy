/** The process-wide model cache behind `get_model`: a dictionary from model
    name to loaded engine, and the name of the model loaded last. Names are
    normalised against the fixed list of supported models; a miss resolves
    the device profile and constructs the engine, which may fail. */
module Cache {
  import opened Wrappers
  import Device

  /** The supported model names, in the order the server lists them. */
  const AVAILABLE_MODELS: seq<string> :=
    ["tiny", "tiny.en", "base", "base.en", "small", "small.en",
     "medium", "medium.en", "large-v2", "large-v3"]

  /** The environment settings the server reads once at start-up
      (`WHISPER_MODELS_DIR`, `WHISPER_DEFAULT_MODEL`, `WHISPER_DEVICE`,
      `WHISPER_COMPUTE_TYPE`). */
  datatype Config = Config(modelsDir: string, defaultModel: string, device: string, computeType: string)

  /** The names a cache key can take: a supported one or the configured
      default (which need not itself be supported). */
  function KnownNames(cfg: Config): set<string> {
    (set n | n in AVAILABLE_MODELS) + {cfg.defaultModel}
  }

  /** The name `get_model` looks up and loads: the requested name when it is
      supported and the configured default otherwise (also when the request
      carried no string at all). The replacement is silent. */
  function CacheKey(requested: Option<string>, defaultModel: string): (key: string)
    ensures requested.Some? && requested.value in AVAILABLE_MODELS ==> key == requested.value
    ensures (requested.None? || requested.value !in AVAILABLE_MODELS) ==> key == defaultModel
  {
    if requested.Some? && requested.value in AVAILABLE_MODELS then requested.value else defaultModel
  }

  /** Normalising a name already produced by normalisation changes nothing,
      and the result is always a known name. */
  lemma CacheKeyKnown(requested: Option<string>, cfg: Config)
    ensures CacheKey(requested, cfg.defaultModel) in KnownNames(cfg)
    ensures CacheKey(Some(CacheKey(requested, cfg.defaultModel)), cfg.defaultModel)
            == CacheKey(requested, cfg.defaultModel)
  {
  }

  /** The arguments of the `WhisperModel(...)` constructor call. */
  datatype LoadRequest = LoadRequest(name: string, device: string, computeType: string, downloadRoot: string)

  /** The load a miss on `key` performs: the key, the resolved device and
      precision, and the models directory as download root. */
  function LoadFor(cfg: Config, key: string, probe: Device.Probe): (req: LoadRequest)
    ensures req.name == key && req.downloadRoot == cfg.modelsDir
    ensures Device.Profile(req.device, req.computeType) == Device.Resolve(cfg.device, cfg.computeType, probe)
  {
    var p := Device.Resolve(cfg.device, cfg.computeType, probe);
    LoadRequest(key, p.device, p.computeType, cfg.modelsDir)
  }

  /** The cache's two globals: `model_cache` and `current_model_name`. */
  datatype CacheState<E> = CacheState(models: map<string, E>, current: Option<string>)

  /** What the cache keeps true: every key is a known name, the current
      name (when there is one) is a key, and there is a current name as soon
      as anything is cached. */
  predicate Inv<E>(st: CacheState<E>, cfg: Config) {
    && st.models.Keys <= KnownNames(cfg)
    && (st.current.Some? ==> st.current.value in st.models)
    && (st.current.None? ==> st.models == map[])
  }

  /** `get_model(requested)`: the engine it returns (or the exception it
      raises) and the cache state afterwards. `load` stands for constructing
      a `WhisperModel`; `probe` for the CUDA probe, consulted only on a miss. */
  function GetModel<E>(st: CacheState<E>, cfg: Config, requested: Option<string>,
                       probe: Device.Probe, load: LoadRequest -> Result<E>): (out: (Result<E>, CacheState<E>))
    // a hit returns the stored engine and changes nothing
    ensures var key := CacheKey(requested, cfg.defaultModel);
            key in st.models ==> out == (Success(st.models[key]), st)
    // a miss returns what the constructor gave for the resolved profile
    ensures var key := CacheKey(requested, cfg.defaultModel);
            key !in st.models ==> out.0 == load(LoadFor(cfg, key, probe))
    // a successful miss adds exactly that key and makes it current
    ensures var key := CacheKey(requested, cfg.defaultModel);
            key !in st.models && out.0.Success? ==>
              out.1 == CacheState(st.models[key := out.0.value], Some(key))
    // a failed load leaves both globals as they were
    ensures out.0.Failure? ==> out.1 == st
  {
    var key := CacheKey(requested, cfg.defaultModel);
    if key in st.models then (Success(st.models[key]), st)
    else
      match load(LoadFor(cfg, key, probe))
      case Failure(e) => (Failure(e), st)
      case Success(m) => (Success(m), CacheState(st.models[key := m], Some(key)))
  }

  /** `get_model` keeps the cache invariant: keys stay within the supported
      names and the default, and the current name stays a key. */
  lemma GetModelKeepsInv<E>(st: CacheState<E>, cfg: Config, requested: Option<string>,
                            probe: Device.Probe, load: LoadRequest -> Result<E>)
    requires Inv(st, cfg)
    ensures Inv(GetModel(st, cfg, requested, probe, load).1, cfg)
  {
    CacheKeyKnown(requested, cfg);
  }

  /** Entries are never removed or replaced: every engine in the cache before
      a call is still there, unchanged, after it. */
  lemma GetModelOnlyGrows<E>(st: CacheState<E>, cfg: Config, requested: Option<string>,
                             probe: Device.Probe, load: LoadRequest -> Result<E>, k: string)
    requires k in st.models
    ensures k in GetModel(st, cfg, requested, probe, load).1.models
    ensures GetModel(st, cfg, requested, probe, load).1.models[k] == st.models[k]
  {
  }

  /** A failed load does not poison the cache: asking again for the same name
      performs a fresh load, and if that one succeeds the engine is cached. */
  lemma RetryAfterFailure<E>(st: CacheState<E>, cfg: Config, requested: Option<string>,
                             p1: Device.Probe, l1: LoadRequest -> Result<E>,
                             p2: Device.Probe, l2: LoadRequest -> Result<E>)
    requires GetModel(st, cfg, requested, p1, l1).0.Failure?
    requires l2(LoadFor(cfg, CacheKey(requested, cfg.defaultModel), p2)).Success?
    ensures var st1 := GetModel(st, cfg, requested, p1, l1).1;
            var key := CacheKey(requested, cfg.defaultModel);
            var out := GetModel(st1, cfg, requested, p2, l2);
            && st1 == st
            && key !in st1.models
            && out.0 == l2(LoadFor(cfg, key, p2))
            && key in out.1.models && out.1.current == Some(key)
  {
  }

  /** After a successful call, the same request is a hit whatever the next
      probe and constructor would do: it returns the same engine, loads
      nothing and changes nothing. */
  lemma SecondRequestHits<E>(st: CacheState<E>, cfg: Config, requested: Option<string>,
                             p1: Device.Probe, l1: LoadRequest -> Result<E>,
                             p2: Device.Probe, l2: LoadRequest -> Result<E>)
    requires GetModel(st, cfg, requested, p1, l1).0.Success?
    ensures var first := GetModel(st, cfg, requested, p1, l1);
            GetModel(first.1, cfg, requested, p2, l2) == (first.0, first.1)
  {
  }

  /** One call of `get_model` with the environment it meets. */
  datatype Call<E> = Call(requested: Option<string>, probe: Device.Probe, load: LoadRequest -> Result<E>)

  /** The cache state after a sequence of calls. */
  function Replay<E>(st: CacheState<E>, cfg: Config, calls: seq<Call<E>>): CacheState<E>
    decreases |calls|
  {
    if calls == [] then st
    else
      var c := calls[0];
      Replay(GetModel(st, cfg, c.requested, c.probe, c.load).1, cfg, calls[1..])
  }

  /** The names that calls construct an engine for, successfully, in order. */
  function Loads<E>(st: CacheState<E>, cfg: Config, calls: seq<Call<E>>): seq<string>
    decreases |calls|
  {
    if calls == [] then []
    else
      var c := calls[0];
      var key := CacheKey(c.requested, cfg.defaultModel);
      var out := GetModel(st, cfg, c.requested, c.probe, c.load);
      (if key !in st.models && out.0.Success? then [key] else [])
        + Loads(out.1, cfg, calls[1..])
  }

  /** No name appears twice in `s`. */
  predicate Distinct(s: seq<string>) {
    forall i, j :: 0 <= i < j < |s| ==> s[i] != s[j]
  }

  /** The first call of a non-empty sequence: what it loads, and the state
      the remaining calls start from. */
  lemma ReplayStep<E>(st: CacheState<E>, cfg: Config, calls: seq<Call<E>>)
    requires calls != []
    ensures var c := calls[0];
            var key := CacheKey(c.requested, cfg.defaultModel);
            var out := GetModel(st, cfg, c.requested, c.probe, c.load);
            && Replay(st, cfg, calls) == Replay(out.1, cfg, calls[1..])
            && (key !in st.models && out.0.Success? ==>
                  && Loads(st, cfg, calls) == [key] + Loads(out.1, cfg, calls[1..])
                  && out.1.models.Keys == st.models.Keys + {key}
                  && out.1.current == Some(key))
            && (!(key !in st.models && out.0.Success?) ==>
                  && Loads(st, cfg, calls) == Loads(out.1, cfg, calls[1..])
                  && out.1 == st)
  {
  }

  /** Over any sequence of calls, each name is loaded successfully at most
      once, and never while it is cached. */
  lemma {:induction false} LoadsFresh<E>(st: CacheState<E>, cfg: Config, calls: seq<Call<E>>)
    ensures var loads := Loads(st, cfg, calls);
            && Distinct(loads)
            && (forall i :: 0 <= i < |loads| ==> loads[i] !in st.models)
    decreases |calls|
  {
    if calls != [] {
      var c := calls[0];
      var key := CacheKey(c.requested, cfg.defaultModel);
      var out := GetModel(st, cfg, c.requested, c.probe, c.load);
      LoadsFresh(out.1, cfg, calls[1..]);
      ReplayStep(st, cfg, calls);
      if key !in st.models && out.0.Success? {
        PrependLoad(key, Loads(out.1, cfg, calls[1..]), st.models.Keys);
      }
    }
  }

  /** Over any sequence of calls, the cache gains exactly the names loaded. */
  lemma {:induction false} ReplayKeys<E>(st: CacheState<E>, cfg: Config, calls: seq<Call<E>>)
    ensures var loads := Loads(st, cfg, calls);
            forall k :: k in Replay(st, cfg, calls).models <==> k in st.models || k in loads
    decreases |calls|
  {
    if calls != [] {
      var c := calls[0];
      var key := CacheKey(c.requested, cfg.defaultModel);
      var out := GetModel(st, cfg, c.requested, c.probe, c.load);
      var rest := Loads(out.1, cfg, calls[1..]);
      ReplayKeys(out.1, cfg, calls[1..]);
      ReplayStep(st, cfg, calls);
      if key !in st.models && out.0.Success? {
        assert forall k :: k in [key] + rest <==> k == key || k in rest;
      }
    }
  }

  /** Over any sequence of calls, the current name afterwards is the name
      loaded LAST (not the name requested last), or the old current name
      when nothing was loaded. */
  lemma {:induction false} ReplayCurrent<E>(st: CacheState<E>, cfg: Config, calls: seq<Call<E>>)
    ensures var loads := Loads(st, cfg, calls);
            Replay(st, cfg, calls).current == (if loads == [] then st.current else Some(loads[|loads| - 1]))
    decreases |calls|
  {
    if calls != [] {
      var c := calls[0];
      var key := CacheKey(c.requested, cfg.defaultModel);
      var out := GetModel(st, cfg, c.requested, c.probe, c.load);
      var rest := Loads(out.1, cfg, calls[1..]);
      var fin := Replay(st, cfg, calls);
      assert fin.current == if rest == [] then out.1.current else Some(rest[|rest| - 1]) by {
        ReplayCurrent(out.1, cfg, calls[1..]);
        ReplayStep(st, cfg, calls);
      }
      if key !in st.models && out.0.Success? {
        var loads := [key] + rest;
        assert Loads(st, cfg, calls) == loads && out.1.current == Some(key) by {
          ReplayStep(st, cfg, calls);
        }
        assert loads[|loads| - 1] == if rest == [] then key else rest[|rest| - 1];
      } else {
        assert Loads(st, cfg, calls) == rest && out.1 == st by {
          ReplayStep(st, cfg, calls);
        }
      }
    }
  }

  /** The bookkeeping step of LoadsFresh: putting a name loaded now in front
      of the names loaded later, none of which was cached once it was added. */
  lemma PrependLoad(key: string, rest: seq<string>, before: set<string>)
    requires key !in before
    requires Distinct(rest)
    requires forall i :: 0 <= i < |rest| ==> rest[i] !in before + {key}
    ensures Distinct([key] + rest)
    ensures forall i :: 0 <= i < |[key] + rest| ==> ([key] + rest)[i] !in before
  {
    var loads := [key] + rest;
    forall i, j | 0 <= i < j < |loads| ensures loads[i] != loads[j] {
      assert loads[j] == rest[j - 1];
      if i > 0 { assert loads[i] == rest[i - 1]; }
    }
    forall i | 0 <= i < |loads| ensures loads[i] !in before {
      if i > 0 { assert loads[i] == rest[i - 1]; }
    }
  }

  /** The cache object: `model_cache` and `current_model_name` as fields,
      updated in place by GetOrLoad (`get_model`). */
  class ModelCache<E> {
    const config: Config
    var models: map<string, E>
    var current: Option<string>

    /** The two globals as a value. */
    function State(): CacheState<E>
      reads this
    {
      CacheState(models, current)
    }

    ghost predicate Valid()
      reads this
    {
      Inv(State(), config)
    }

    /** The cache at process start: empty, with no current model. */
    constructor (cfg: Config)
      ensures Valid() && config == cfg
      ensures models == map[] && current == None
    {
      config := cfg;
      models := map[];
      current := None;
    }

    /** `model_loaded` of the health report: some model has been loaded. */
    function ModelLoaded(): (loaded: bool)
      reads this
      requires Valid()
      ensures loaded <==> models != map[]
    {
      current.Some?
    }

    /** `get_model(requested)`, step by step as the source does it. */
    method GetOrLoad(requested: Option<string>, probe: Device.Probe, load: LoadRequest -> Result<E>)
      returns (r: Result<E>)
      requires Valid()
      modifies this
      ensures Valid()
      ensures (r, State()) == GetModel(old(State()), config, requested, probe, load)
    {
      var name := requested.GetOr(config.defaultModel);
      if requested.None? || name !in AVAILABLE_MODELS {
        name := config.defaultModel;
      }
      if name in models {
        return Success(models[name]);
      }
      var device := config.device;
      if device == Device.AUTO {
        device := if probe == Device.CudaAvailable then Device.CUDA else Device.CPU;
      }
      var computeType := config.computeType;
      if computeType == Device.AUTO {
        computeType := if device == Device.CUDA then Device.FLOAT16 else Device.INT8;
      }
      var built := load(LoadRequest(name, device, computeType, config.modelsDir));
      if built.Failure? {
        return Failure(built.error);
      }
      CacheKeyKnown(requested, config);
      models := models[name := built.value];
      current := Some(name);
      r := Success(built.value);
    }
  }
}
