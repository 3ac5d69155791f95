# Faster-Whisper STT server: model cache and transcription pipeline

This project models the deterministic core of `scripts/whisper-server.py`. That file is a
small HTTP server for speech-to-text transcription, run as a child process of a manager
backend. The model covers:

- **The model cache (`get_model`).** A requested model name is normalised against the
  fixed list of supported names, falling back to the configured default. The name is
  looked up in the process-wide `model_cache` dictionary. On a miss, the device and
  precision are resolved and a `WhisperModel` is constructed and inserted, and
  `current_model_name` is set. The dictionary and the current name are the fields of the
  class `Cache.ModelCache`. The pure function `Cache.GetModel` specifies one call.
- **Device and precision resolution.** `Device.ResolveDevice` and
  `Device.ResolvePrecision` compute these from the configured `WHISPER_DEVICE` /
  `WHISPER_COMPUTE_TYPE` values and the outcome of the CUDA probe through `torch`.
- **Request payloads.** For the multipart endpoint: the filename check, and the
  temporary-file suffix taken from `Path(filename).suffix` with `.webm` as fallback. For
  the JSON endpoint: the audio check, the `split(",")[1]` preamble handling, the
  `"." + format` suffix, and the `model` and `language` fields.
- **Aggregation.** `full_text` is the single-space join of the stripped segment texts, in
  order. The per-segment rows carry the stripped texts.
- **The two handlers** `transcribe` and `transcribe_base64`. Each is written as an
  imperative method over a file system object (`Server.FileSystem`: a map from the
  existing paths the handlers create and delete to their bytes, plus a log of the
  temporary files created) and the cache object. Each
  follows the source's `try`/`except`/`finally` shape. The temporary file is unlinked
  once its path is recorded, so the set of temporary files ends as it started on every
  path. A
  missing input is a 400 before any file exists. Every failure inside the `try` is a 500
  carrying the exception text.

Foreign calls are parameters, bundled in a `Server.Env` value:
- the name the temporary-file module picks;
- the CUDA probe (available / unavailable / `torch` missing);
- the `WhisperModel` constructor (a function from its arguments to an engine or an error);
- the engine's `transcribe`, together with consuming its lazy segment stream (a function
  from engine and arguments to the list of segments and the summary, or an error);
- `base64.b64decode` (a partial function from text to bytes).

The environment settings `WHISPER_MODELS_DIR`, `WHISPER_DEFAULT_MODEL`, `WHISPER_DEVICE`
and `WHISPER_COMPUTE_TYPE` are fields of `Cache.Config`.

Behaviour of the code worth noting:
- `get_model` has no lock, but it cannot interleave with itself. It is an ordinary
  function with no `await` between the cache lookup and the insertion, and both
  handlers call it without awaiting (lines 139 and 210). `uvicorn.run` (line 250)
  starts a single worker process. Within that process, calls on the cache therefore run
  one after another, which is what the sequential model describes: `Cache.LoadsFresh`
  shows that each name is loaded successfully at most once.
- The JSON endpoint keeps only the text between the first and the second comma
  (`split(",")[1]`), not everything after the first comma.
- A base64 decoding failure happens inside the `try`, so it is answered with 500.
- Errors from `os.unlink` are swallowed without logging.

## Model

| member | source | states |
|---|---|---|
| `Text.IsSpace` | scripts/whisper-server.py:154 | the characters `str.isspace()` accepts, which `str.strip()` removes; all of them lie between the tab and U+3000 |
| `Text.AsciiSpace` | scripts/whisper-server.py:154 | within ASCII, whitespace is exactly space, tab, line feed, vertical tab, form feed, carriage return and U+001C to U+001F; no letter or digit is whitespace |
| `Text.TrimStart` | scripts/whisper-server.py:154 | `lstrip` never lengthens the text, and what it leaves does not start with whitespace |
| `Text.TrimEnd` | scripts/whisper-server.py:154 | `rstrip` never lengthens the text, and what it leaves does not end with whitespace |
| `Text.Strip` | scripts/whisper-server.py:154 | `str.strip()` never lengthens the text; `StripSlice` and `StripEnds` state what it keeps |
| `Text.TrimStartSpec` | scripts/whisper-server.py:154 | `lstrip` keeps the longest suffix of the input that does not start with whitespace; everything dropped is whitespace |
| `Text.TrimEndSpec` | scripts/whisper-server.py:154 | `rstrip` keeps the longest prefix of the input that does not end with whitespace; everything dropped is whitespace |
| `Text.StripSlice` | scripts/whisper-server.py:154 | `str.strip()` returns a slice of the input with only whitespace before and after it |
| `Text.StripEnds` | scripts/whisper-server.py:154 | `str.strip()` returns a text with no whitespace at either end; with `StripSlice` this determines the result |
| `Text.StripUnchanged` | scripts/whisper-server.py:165 | a text with no whitespace at either end is its own strip |
| `Text.StripIdempotent` | scripts/whisper-server.py:165 | stripping an already stripped text changes nothing |
| `Text.StripBlank` | scripts/whisper-server.py:165 | a text strips to "" exactly when it is all whitespace |
| `Text.Join` | scripts/whisper-server.py:154 | `sep.join` of no parts is "", and of one part is that part with no separator |
| `Text.JoinLength` | scripts/whisper-server.py:154 | a join is as long as its parts plus one separator between each pair of neighbours |
| `Text.JoinPieceAt` | scripts/whisper-server.py:154 | the i-th part appears intact at its offset in the join |
| `Text.JoinSeparatorAfter` | scripts/whisper-server.py:154 | every part but the last is followed by exactly one separator in the join |
| `Text.JoinEnds` | scripts/whisper-server.py:154 | a join begins with the first part's first character and ends with the last part's last character |
| `Text.JoinSnoc` | scripts/whisper-server.py:154 | appending a part to a non-empty list appends one separator and that part to the join |
| `Text.Split` | scripts/whisper-server.py:202 | `str.split(sep)`: at least one piece, no piece holds the separator, and there are two or more pieces exactly when the text holds the separator |
| `Text.SplitRoundTrip` | scripts/whisper-server.py:202 | joining the pieces of a split with the separator gives the text back |
| `Text.SplitJoin` | scripts/whisper-server.py:202 | splitting a join of separator-free parts gives the parts back (the other half of the round trip) |
| `Text.SplitHead` | scripts/whisper-server.py:201-202 | a text holding the separator is its first piece, the separator and the rest; that separator is the first one |
| `Text.SplitLastPiece` | scripts/whisper-server.py:130 | a text, a separator and a separator-free piece split into the text's pieces followed by that piece |
| `Text.Find` | scripts/whisper-server.py:201-202 | the index of the first occurrence of a character, or -1 when there is none |
| `Text.RFind` | scripts/whisper-server.py:130 | the index of the last occurrence of a character, or -1 when there is none |
| `Device.ResolveDevice` | scripts/whisper-server.py:63-69 | an explicit device passes through unchanged; "auto" becomes "cuda" if and only if the probe found CUDA, and otherwise "cpu" (probe negative or `torch` missing) |
| `Device.ResolvePrecision` | scripts/whisper-server.py:71-73 | an explicit precision passes through unchanged; "auto" becomes "float16" if and only if the device is "cuda", and otherwise "int8" |
| `Device.Resolve` | scripts/whisper-server.py:63-73 | the profile's device is the resolved device, and its precision is resolved against that device, not against the setting |
| `Device.AutoProfile` | scripts/whisper-server.py:63-73 | with both settings "auto" the profile is (cuda, float16) or (cpu, int8), and neither value stays "auto" |
| `Device.ExplicitDeviceIgnoresProbe` | scripts/whisper-server.py:63-69 | with an explicit device the probe outcome has no influence on the profile |
| `Cache.CacheKey` | scripts/whisper-server.py:55-56 | a supported name is used unchanged; any other name, or no string at all, becomes the configured default |
| `Cache.CacheKeyKnown` | scripts/whisper-server.py:55-56 | the key is always a supported name or the default, and normalising twice is normalising once |
| `Cache.LoadFor` | scripts/whisper-server.py:75-80 | the constructor is asked for the normalised key with the resolved device and precision and the models directory as download root |
| `Cache.GetModel` | scripts/whisper-server.py:52-86 | a hit returns the stored engine and changes nothing; a miss returns what the constructor gives for the key, the resolved device and precision and the models directory; a successful miss adds exactly that key and makes it current; a failed load changes nothing |
| `Cache.GetModelKeepsInv` | scripts/whisper-server.py:55-83 | every call keeps the cache keys within the supported names plus the default, keeps the current name a key, and keeps "a current name exists whenever something is cached" |
| `Cache.GetModelOnlyGrows` | scripts/whisper-server.py:82 | a cached engine is never removed or replaced |
| `Cache.RetryAfterFailure` | scripts/whisper-server.py:75-83 | after a failed load the name is still absent, and the next request for it loads it afresh and caches it if that load succeeds |
| `Cache.SecondRequestHits` | scripts/whisper-server.py:58-59 | after a successful call, the same request returns the same engine and changes nothing, whatever the probe and constructor would do |
| `Cache.LoadsFresh` | scripts/whisper-server.py:58-82 | over any sequence of calls, each name is loaded successfully at most once, and never while it is cached |
| `Cache.ReplayKeys` | scripts/whisper-server.py:58-82 | over any sequence of calls, the cache gains exactly the names that were loaded |
| `Cache.ReplayCurrent` | scripts/whisper-server.py:58-83 | over any sequence of calls, the current name is the one loaded last, not the one requested last; it is unchanged when nothing was loaded |
| `Cache.ModelCache.constructor` | scripts/whisper-server.py:48-49 | the cache starts empty with no current model |
| `Cache.ModelCache.ModelLoaded` | scripts/whisper-server.py:105 | `model_loaded` holds exactly when some model is cached |
| `Cache.ModelCache.GetOrLoad` | scripts/whisper-server.py:52-86 | the imperative `get_model` moves the cache fields and returns exactly as `GetModel` specifies, and keeps the cache invariant |
| `Payload.HasFilename` | scripts/whisper-server.py:127 | an upload passes only with a non-empty filename; a missing or empty filename is rejected |
| `Payload.KeptParts` | scripts/whisper-server.py:130 | keeps every component that is neither empty nor ".", and nothing else |
| `Payload.KeptPartsAppend` | scripts/whisper-server.py:130 | filtering keeps the components in their order: the filter of a concatenation is the concatenation of the filters |
| `Payload.KeptPartsLast` | scripts/whisper-server.py:130 | the filter is empty exactly when no component is kept; otherwise its last element is the last kept component, and every component after it is dropped |
| `Payload.PathName` | scripts/whisper-server.py:130 | the name has no slash and is never "."; it is "" exactly when no component is kept, and otherwise it is the last kept slash-separated component |
| `Payload.Suffix` | scripts/whisper-server.py:130 | a non-empty suffix runs from the name's last dot to its end, and that dot is neither first nor last; an empty suffix means no such dot exists |
| `Payload.UploadSuffix` | scripts/whisper-server.py:130 | the upload's temp suffix is the `PurePath.suffix` of the filename's last kept component (`Suffix` of `PathName`), or ".webm" when that is empty; it is always one extension: a dot and at least one more character, with no further dot and no slash |
| `Payload.PlainFilenameSuffix` | scripts/whisper-server.py:130 | for a filename without a slash, the suffix is the part from the last inner dot on, or ".webm" when there is no inner dot |
| `Payload.PlainFilename` | scripts/whisper-server.py:130 | a filename without a slash (other than "" and ".") is its own final component |
| `Payload.UploadSuffixExtension` | scripts/whisper-server.py:130 | a slash-free filename made of a non-empty stem, a dot and a non-empty dot-free extension gives that extension ("clip.mp3" gives ".mp3") |
| `Payload.NameInDirectory` | scripts/whisper-server.py:130 | a filename below a directory has its last component as name, so its suffix is that component's suffix ("dir.x/clip.mp3" gives ".mp3") |
| `Payload.AudioProvided` | scripts/whisper-server.py:195 | a JSON request passes only with a non-empty `audio` string; a missing, null or empty `audio` is rejected |
| `Payload.Base64Body` | scripts/whisper-server.py:201-202 | the decoder's input never holds a comma, and a text without a comma is passed on whole |
| `Payload.Base64BodyBetweenCommas` | scripts/whisper-server.py:201-202 | with a comma present, the decoder gets exactly the text between the first comma and the next comma (or the end) |
| `Payload.DataUrlPreambleDropped` | scripts/whisper-server.py:201-202 | a comma-free preamble, a comma and a comma-free body hand exactly the body to the decoder |
| `Payload.DataUrlExample` | scripts/whisper-server.py:201-202 | "data:audio/webm;base64,AAAA" hands "AAAA" to the decoder |
| `Payload.FormatSuffix` | scripts/whisper-server.py:193-206 | the JSON temp suffix is "." followed by the format; a missing format gives ".webm", and an explicit null gives ".None" |
| `Payload.ModelArg` | scripts/whisper-server.py:191 | a missing `model` field gives the default name, a null one gives no name, and a string is passed on as it is |
| `Payload.LanguageArg` | scripts/whisper-server.py:192 | a language hint is passed exactly when the `language` field is a string, and it is that string |
| `Transcript.StrippedTexts` | scripts/whisper-server.py:154 | the generator `segment.text.strip() for segment in segments_list`: one stripped text per segment, in segment order |
| `Transcript.FullText` | scripts/whisper-server.py:154 | no segments give ""; otherwise `full_text` is as long as the stripped texts together plus one space between each pair of neighbours |
| `Transcript.Rows` | scripts/whisper-server.py:161-169 | one row per segment, in order, with the segment's times, its stripped text and its average log-probability as confidence |
| `Transcript.FullTextSmall` | scripts/whisper-server.py:154 | no segments give "", and one segment gives its stripped text |
| `Transcript.FullTextMatchesRows` | scripts/whisper-server.py:154-169 | `full_text` is the rows' texts joined by single spaces in row order |
| `Transcript.FullTextPiece` | scripts/whisper-server.py:154 | each segment's stripped text stands intact at its offset in `full_text`, followed by one space unless it is last |
| `Transcript.FullTextEnds` | scripts/whisper-server.py:154 | `full_text` has no whitespace at either end when the first and last stripped texts are non-empty |
| `Server.ResultBody` | scripts/whisper-server.py:156-170 | the response body carries `full_text`, the language, its probability and the duration from the summary, and the per-segment rows exactly for the upload endpoint |
| `Server.Recognition` | scripts/whisper-server.py:139-176 | after the temp file exists, the cache moves exactly as `get_model` moves it; a load or inference failure is a 500 with the exception's text; a success returns the aggregated body; no other error status can arise |
| `Server.UnknownModelActsAsDefault` | scripts/whisper-server.py:55-56 | an unrecognised name never causes an error of its own: the request behaves exactly like a request for the default |
| `Server.JsonModelField` | scripts/whisper-server.py:191 | a missing or null `model` field is served by the default model |
| `Server.CachedModelNeedsNoLoad` | scripts/whisper-server.py:58-59 | when the model is cached, the response does not depend on the probe or the constructor, and the cache is unchanged |
| `Server.FileSystem.CreateTemp` | scripts/whisper-server.py:134-137 | creation succeeds exactly for a free, non-empty name ending in the suffix, when the suffix holds neither '/' nor NUL; on success that one path is added with the content and logged; on failure nothing changes |
| `Server.FormatWithSlashRefused` | scripts/whisper-server.py:193-206 | a JSON `format` holding '/' makes the temporary file's creation fail, whatever name is picked |
| `Server.FileSystem.Unlink` | scripts/whisper-server.py:179-183 | the path is gone afterwards; the call reports an error exactly when the path did not exist |
| `Server.Recognise` | scripts/whisper-server.py:139-172 | the imperative remainder of the `try` returns and moves the cache as `Recognition` specifies; inference sees the bytes stored at the path and the fixed VAD arguments (500 ms, 400 ms) |
| `Server.Transcribe` | scripts/whisper-server.py:120-183 | the temporary files end as they started on every path (the temp file is unlinked); a missing or empty filename gives 400 with no file created and no cache change; a temp-file failure gives 500; otherwise exactly one temp file is created and the answer and cache follow `Recognition` with per-segment rows |
| `Server.TranscribeBase64` | scripts/whisper-server.py:186-242 | the temporary files end as they started on every path (the temp file is unlinked); absent or empty audio gives 400 with no file created and no cache change; the decoder gets the text between the first and the second comma (all of it when there is no comma), and its failure is a 500 before any file exists; otherwise exactly one temp file with the format's suffix is created, task "transcribe" is used, and the answer (without rows) and cache follow `Recognition` |

## Left out

- HTTP transport, routing and FastAPI's own validation are not modelled. That includes
  the 422 FastAPI returns when the `audio` part is missing, and the JSON body parsing.
- The `/health` and `/models` response shapes are not modelled, apart from
  `model_loaded` (`Cache.ModelCache.ModelLoaded`).
- The startup pre-load and the `__main__` block (lines 89-98, 245-250) are not modelled.
  The pre-load is an ordinary `get_model` call whose failure is ignored.
- The runtime `pip install` fallbacks (lines 16-34) are process bootstrap.
- Logging is not modelled.
- Reading the environment variables is not modelled. The four settings are fields of
  `Cache.Config`.
- The `WhisperModel` constructor, the engine's `transcribe`, `base64.b64decode` and the
  `torch` probe are foreign code. They are parameters of `Server.Env`. Python's
  non-validating base64 rules are not modelled.
- The float fields (`start`, `end`, `avg_logprob`, `language_probability`, `duration`)
  are carried as opaque `real` values. No bounds are claimed for them.
- Several worker processes, each with its own cache, are not modelled. The server starts
  one (line 250), and within it calls on the cache run one after another.
- `Server.Recognition`: the response is rendered by `JSONResponse` inside the `try`
  (lines 172 and 226), and that renderer refuses non-finite floats. A NaN or infinite
  `start`, `end`, `avg_logprob`, `language_probability` or `duration` therefore gives a
  500 in the server. The model carries these values as `real`, which has neither, so
  this error path is not modelled and a successful inference always returns the body.
- `Server.FileSystem.CreateTemp` treats creating, writing and closing the temporary
  file as one step. The window in which the file exists before `tmp_path` is assigned
  (a failing write) is not modelled.
- Unlink failures other than a missing path (for example permissions) are not modelled.
  In this file system an existing path can always be removed.
- `Server.Transcribe`, `Server.TranscribeBase64`: the `WhisperModel` constructor
  downloads a model's weights into `WHISPER_MODELS_DIR` on its first load (lines
  75-80). Those writes are not modelled: the file system of the model holds only the
  paths the handlers create and delete, so "ends as it started" is about the temporary
  file alone.
- `Server.FileSystem.CreateTemp`: `tempfile` picks a fresh name and, when that name is
  taken, retries with another one; that retry is not modelled. `Env.tempName` stands for
  the name finally chosen, and a taken name stands for a creation the operating system
  refuses for reasons other than the suffix (a full or unwritable temporary directory,
  or a name longer than the file system allows, for example an over-long `format`). A
  suffix holding '/' or NUL always fails, as it does in the server.
- `Server.FileSystem.CreateTemp`: the exception text of a failed `NamedTemporaryFile`
  is one fixed message, not the operating system's.
- JSON fields that are neither missing, `null` nor strings are not modelled (a number
  as `audio`, say).
- `Text.Strip`: its own contract states only that the result is no longer than the
  input. What it keeps is stated by the lemmas `Text.StripSlice` and `Text.StripEnds`,
  which together determine the result.
- `Payload.PathName` follows `PurePosixPath`. Windows path rules are not modelled.
- `Payload.Suffix` follows the rule of Python up to 3.13: a trailing dot gives no
  suffix. Python 3.14's change is not modelled.
- `Text.IsSpace` fixes the set of characters `str.isspace()` accepts in current
  Python 3. It does not follow future Unicode versions.
