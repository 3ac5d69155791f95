/** The two transcription handlers, `POST /transcribe` (multipart upload)
    and `POST /transcribe-base64` (JSON body), over the paths the handlers
    create and delete and the model cache. Each validates its input, writes the audio to a fresh
    temporary file, gets a model from the cache, runs inference on the file,
    builds the response, and deletes the temporary file on every way out.
    The foreign calls are described by an `Env` value. */
module Server {
  import opened Wrappers
  import opened Text
  import Device
  import Cache
  import Payload
  import Transcript

  type Bytes = seq<bv8>

  /** The fixed voice-activity-detection arguments of every inference call. */
  const VAD_MIN_SILENCE_MS := 500
  const VAD_SPEECH_PAD_MS := 400
  /** The `task` argument the JSON endpoint always passes. */
  const TRANSCRIBE := "transcribe"

  /** The arguments of `whisper_model.transcribe(...)`, with the bytes found
      at `path` when the call is made. */
  datatype InferRequest = InferRequest(
    path: string, audio: Bytes, language: Option<string>, task: string,
    vadFilter: bool, minSilenceDurationMs: int, speechPadMs: int)

  /** What inference gives once its lazy segment stream has been consumed
      into a list (`list(segments)`), with its summary `info`. */
  datatype Inference = Inference(segments: seq<Transcript.Segment>, info: Transcript.Info)

  /** The outcome of every foreign call a request can make: the name the
      temporary-file module picks, the CUDA probe, the `WhisperModel`
      constructor, the engine's `transcribe` (including the consumption of
      its segments), and `base64.b64decode`. Each of the last three may
      raise, which is a `Failure` carrying the exception's text. */
  datatype Env<!E> = Env(
    tempName: string,
    probe: Device.Probe,
    load: Cache.LoadRequest -> Result<E>,
    infer: (E, InferRequest) -> Result<Inference>,
    decode: string -> Result<Bytes>)

  /** The JSON the handlers answer with. `segments` is present in the upload
      endpoint's answer only. */
  datatype Body = Body(text: string, language: string, languageProbability: real,
                       duration: real, segments: Option<seq<Transcript.SegmentRow>>)

  datatype Response = Transcribed(body: Body) | HttpError(status: int, detail: string)

  const NO_AUDIO_FILE := "No audio file provided"
  const NO_AUDIO_DATA := "No audio data provided"
  /** The text of the exception `NamedTemporaryFile` raises; the model does
      not distinguish the operating-system reasons. */
  const TEMP_FILE_ERROR := "could not create temporary file"

  /** The response body built from a finished inference. */
  function ResultBody(inf: Inference, withRows: bool): (body: Body)
    ensures body.text == Transcript.FullText(inf.segments)
    ensures body.language == inf.info.language
    ensures body.languageProbability == inf.info.languageProbability
    ensures body.duration == inf.info.duration
    ensures body.segments == (if withRows then Some(Transcript.Rows(inf.segments)) else None)
  {
    Body(Transcript.FullText(inf.segments), inf.info.language, inf.info.languageProbability,
         inf.info.duration, if withRows then Some(Transcript.Rows(inf.segments)) else None)
  }

  /** The part of the `try` block after `tmp_path` is set: get the model
      (which may load it), run inference, and build the answer. Either
      exception becomes a 500 carrying its text; the cache moves exactly as
      `get_model` moves it, whatever inference does. */
  function Recognition<E>(st: Cache.CacheState<E>, cfg: Cache.Config, model: Option<string>,
                          req: InferRequest, env: Env<E>, withRows: bool)
    : (out: (Response, Cache.CacheState<E>))
    ensures var got := Cache.GetModel(st, cfg, model, env.probe, env.load);
            && out.1 == got.1
            && (got.0.Failure? ==> out.0 == HttpError(500, got.0.error))
            && (got.0.Success? && env.infer(got.0.value, req).Failure? ==>
                  out.0 == HttpError(500, env.infer(got.0.value, req).error))
            && (got.0.Success? && env.infer(got.0.value, req).Success? ==>
                  out.0 == Transcribed(ResultBody(env.infer(got.0.value, req).value, withRows)))
    ensures out.0.HttpError? ==> out.0.status == 500
  {
    var got := Cache.GetModel(st, cfg, model, env.probe, env.load);
    match got.0
    case Failure(e) => (HttpError(500, e), got.1)
    case Success(engine) =>
      match env.infer(engine, req)
      case Failure(e) => (HttpError(500, e), got.1)
      case Success(inf) => (Transcribed(ResultBody(inf, withRows)), got.1)
  }

  /** An unrecognised model name never causes an error of its own: the
      request behaves exactly as a request for the configured default. */
  lemma UnknownModelActsAsDefault<E>(st: Cache.CacheState<E>, cfg: Cache.Config, name: string,
                                     req: InferRequest, env: Env<E>, withRows: bool)
    requires name !in Cache.AVAILABLE_MODELS
    ensures Recognition(st, cfg, Some(name), req, env, withRows)
            == Recognition(st, cfg, Some(cfg.defaultModel), req, env, withRows)
  {
  }

  /** A JSON body whose `model` is missing or `null` is served by the
      configured default model; a string field is normalised like any name. */
  lemma JsonModelField(model: Payload.JsonField, cfg: Cache.Config)
    ensures !model.Str? ==> Cache.CacheKey(Payload.ModelArg(model, cfg.defaultModel), cfg.defaultModel)
                            == cfg.defaultModel
    ensures model.Str? ==> Cache.CacheKey(Payload.ModelArg(model, cfg.defaultModel), cfg.defaultModel)
                           == Cache.CacheKey(Some(model.s), cfg.defaultModel)
  {
  }

  /** When the model is cached, the probe and the constructor play no part
      and the cache is left as it was. */
  lemma CachedModelNeedsNoLoad<E>(st: Cache.CacheState<E>, cfg: Cache.Config, model: Option<string>,
                                  req: InferRequest, env: Env<E>, load2: Cache.LoadRequest -> Result<E>,
                                  probe2: Device.Probe, withRows: bool)
    requires Cache.CacheKey(model, cfg.defaultModel) in st.models
    ensures Recognition(st, cfg, model, req, env, withRows).1 == st
    ensures Recognition(st, cfg, model, req, env, withRows)
            == Recognition(st, cfg, model, req, env.(load := load2, probe := probe2), withRows)
  {
  }

  /** Adding a fresh path and removing it again leaves the file system as it
      was. */
  lemma CreateThenUnlink(files: map<string, Bytes>, name: string, content: Bytes)
    requires name !in files
    ensures files[name := content] - {name} == files
  {
  }

  /** A name `NamedTemporaryFile` can create: free, non-empty, and ending in
      the requested suffix. The suffix is pasted into a name in the
      temporary directory, so a suffix holding a '/' names a file in a
      directory that does not exist, and one holding a NUL is refused by the
      operating system; both make the creation fail. */
  predicate TempNameOk(files: map<string, Bytes>, suffix: string, name: string) {
    && name !in files && name != ""
    && '/' !in suffix && '\0' !in suffix
    && |suffix| <= |name| && name[|name| - |suffix|..] == suffix
  }

  /** A JSON `format` holding a '/' can never be used as the temporary
      file's suffix: the creation fails, and the request is answered with
      500. */
  lemma FormatWithSlashRefused(files: map<string, Bytes>, format: string, name: string)
    requires '/' in format
    ensures !TempNameOk(files, Payload.FormatSuffix(Payload.Str(format)), name)
  {
    var suffix := Payload.FormatSuffix(Payload.Str(format));
    var k :| 0 <= k < |format| && format[k] == '/';
    assert suffix[1..][k] == '/';
  }

  /** The paths the handlers create and delete, as a map from existing paths
      to their bytes, with a log of the temporary files created through it.
      Files other code writes (the model constructor's downloads) are not
      part of it. */
  class FileSystem {
    var files: map<string, Bytes>
    ghost var created: seq<string>

    constructor (initial: map<string, Bytes>)
      ensures files == initial && created == []
    {
      files := initial;
      created := [];
    }

    /** `NamedTemporaryFile(delete=False, suffix=suffix)`, writing `content`
        and closing it; `name` is the name the module picks. It raises when
        that name cannot be created. */
    method CreateTemp(suffix: string, name: string, content: Bytes) returns (r: Result<string>)
      modifies this
      ensures r.Success? <==> TempNameOk(old(files), suffix, name)
      ensures r.Success? ==> && r.value == name
                             && files == old(files)[name := content]
                             && created == old(created) + [name]
      ensures r.Failure? ==> r.error == TEMP_FILE_ERROR && files == old(files) && created == old(created)
    {
      if TempNameOk(files, suffix, name) {
        files := files[name := content];
        created := created + [name];
        r := Success(name);
      } else {
        r := Failure(TEMP_FILE_ERROR);
      }
    }

    /** `os.unlink(path)`: removes the path; raises when it does not exist. */
    method Unlink(path: string) returns (r: Result<()>)
      modifies this
      ensures r.Success? <==> path in old(files)
      ensures files == old(files) - {path}
      ensures created == old(created)
    {
      if path in files {
        files := files - {path};
        r := Success(());
      } else {
        r := Failure("No such file or directory: " + path);
      }
    }
  }

  /** The `try` block from `get_model` on, as a method over the live cache. */
  method Recognise<E>(fs: FileSystem, cache: Cache.ModelCache<E>, model: Option<string>,
                      path: string, language: Option<string>, task: string,
                      env: Env<E>, withRows: bool) returns (r: Response)
    requires cache.Valid() && path in fs.files
    modifies cache
    ensures cache.Valid()
    ensures (r, cache.State())
            == Recognition(old(cache.State()), cache.config, model,
                           InferRequest(path, fs.files[path], language, task,
                                        true, VAD_MIN_SILENCE_MS, VAD_SPEECH_PAD_MS),
                           env, withRows)
  {
    var got := cache.GetOrLoad(model, env.probe, env.load);
    if got.Failure? {
      return HttpError(500, got.error);
    }
    var req := InferRequest(path, fs.files[path], language, task,
                            true, VAD_MIN_SILENCE_MS, VAD_SPEECH_PAD_MS);
    var inferred := env.infer(got.value, req);
    if inferred.Failure? {
      return HttpError(500, inferred.error);
    }
    r := Transcribed(ResultBody(inferred.value, withRows));
  }

  /** The multipart fields of `POST /transcribe`; FastAPI has already put in
      the defaults for `model` (the configured default) and `task`. */
  datatype Upload = Upload(filename: Option<string>, content: Bytes, model: string,
                           language: Option<string>, task: string)

  /** `transcribe(...)`. The temporary files end as they started on every
      path:
      the temporary file, once its path is recorded, is unlinked in the
      `finally` block. A request without a filename is refused with 400
      before any file exists or the cache is touched; every later failure is
      a 500; exactly one temporary file is created per request past that
      check whose file could be created. */
  method Transcribe<E>(fs: FileSystem, cache: Cache.ModelCache<E>, upload: Upload, env: Env<E>)
    returns (r: Response)
    requires cache.Valid()
    modifies fs, cache
    ensures cache.Valid()
    ensures fs.files == old(fs.files)
    ensures !Payload.HasFilename(upload.filename) ==>
              && r == HttpError(400, NO_AUDIO_FILE)
              && cache.State() == old(cache.State()) && fs.created == old(fs.created)
    ensures Payload.HasFilename(upload.filename) ==>
              var suffix := Payload.UploadSuffix(upload.filename.value);
              if !TempNameOk(old(fs.files), suffix, env.tempName) then
                && r == HttpError(500, TEMP_FILE_ERROR)
                && cache.State() == old(cache.State()) && fs.created == old(fs.created)
              else
                && fs.created == old(fs.created) + [env.tempName]
                && (r, cache.State())
                   == Recognition(old(cache.State()), cache.config, Some(upload.model),
                                  InferRequest(env.tempName, upload.content, upload.language, upload.task,
                                               true, VAD_MIN_SILENCE_MS, VAD_SPEECH_PAD_MS),
                                  env, true)
  {
    if !Payload.HasFilename(upload.filename) {
      return HttpError(400, NO_AUDIO_FILE);
    }
    var suffix := Payload.UploadSuffix(upload.filename.value);
    var tmpPath: Option<string> := None;
    // try
    var created := fs.CreateTemp(suffix, env.tempName, upload.content);
    if created.Failure? {
      r := HttpError(500, created.error);
    } else {
      tmpPath := Some(created.value);
      assert fs.files[created.value] == upload.content;
      r := Recognise(fs, cache, Some(upload.model), created.value, upload.language, upload.task, env, true);
      CreateThenUnlink(old(fs.files), created.value, upload.content);
    }
    // finally
    if tmpPath.Some? && tmpPath.value != "" {
      var _ := fs.Unlink(tmpPath.value);
    }
  }

  /** The JSON body of `POST /transcribe-base64`. */
  datatype JsonRequest = JsonRequest(audio: Payload.JsonField, model: Payload.JsonField,
                                     language: Payload.JsonField, format: Payload.JsonField)

  /** `transcribe_base64(request)`. The temporary files end as they started
      on every path. Absent or empty audio is refused with 400 before any file
      exists or the cache is touched. Otherwise the decoder gets the text
      between the first and the second comma (all of it when there is no
      comma); a decoding failure is a 500 before any
      file exists; then the decoded bytes are written to a file suffixed
      with "." and the format, and recognition runs on it with the fixed
      task "transcribe" and no per-segment rows in the answer. */
  method TranscribeBase64<E>(fs: FileSystem, cache: Cache.ModelCache<E>, request: JsonRequest, env: Env<E>)
    returns (r: Response)
    requires cache.Valid()
    modifies fs, cache
    ensures cache.Valid()
    ensures fs.files == old(fs.files)
    ensures !Payload.AudioProvided(request.audio) ==>
              && r == HttpError(400, NO_AUDIO_DATA)
              && cache.State() == old(cache.State()) && fs.created == old(fs.created)
    ensures Payload.AudioProvided(request.audio) ==>
              var decoded := env.decode(Payload.Base64Body(request.audio.s));
              var suffix := Payload.FormatSuffix(request.format);
              if decoded.Failure? then
                && r == HttpError(500, decoded.error)
                && cache.State() == old(cache.State()) && fs.created == old(fs.created)
              else if !TempNameOk(old(fs.files), suffix, env.tempName) then
                && r == HttpError(500, TEMP_FILE_ERROR)
                && cache.State() == old(cache.State()) && fs.created == old(fs.created)
              else
                && fs.created == old(fs.created) + [env.tempName]
                && (r, cache.State())
                   == Recognition(old(cache.State()), cache.config,
                                  Payload.ModelArg(request.model, cache.config.defaultModel),
                                  InferRequest(env.tempName, decoded.value, Payload.LanguageArg(request.language),
                                               TRANSCRIBE, true, VAD_MIN_SILENCE_MS, VAD_SPEECH_PAD_MS),
                                  env, false)
  {
    var audioData := request.audio;
    var modelName := Payload.ModelArg(request.model, cache.config.defaultModel);
    var language := Payload.LanguageArg(request.language);
    var suffix := Payload.FormatSuffix(request.format);
    if !Payload.AudioProvided(audioData) {
      return HttpError(400, NO_AUDIO_DATA);
    }
    var tmpPath: Option<string> := None;
    // try
    var text := audioData.s;
    if ',' in text {
      text := Split(text, ',')[1];
    }
    var decoded := env.decode(text);
    if decoded.Failure? {
      r := HttpError(500, decoded.error);
    } else {
      var created := fs.CreateTemp(suffix, env.tempName, decoded.value);
      if created.Failure? {
        r := HttpError(500, created.error);
      } else {
        tmpPath := Some(created.value);
        assert fs.files[created.value] == decoded.value;
        r := Recognise(fs, cache, modelName, created.value, language, TRANSCRIBE, env, false);
        CreateThenUnlink(old(fs.files), created.value, decoded.value);
      }
    }
    // finally
    if tmpPath.Some? && tmpPath.value != "" {
      var _ := fs.Unlink(tmpPath.value);
    }
  }
}
