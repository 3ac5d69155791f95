/** What each handler derives from its request before touching the disk:
    validation of the audio field, the suffix of the temporary file, the
    base64 text handed to the decoder, and the arguments taken from the
    JSON body. */
module Payload {
  import opened Wrappers
  import opened Text

  // ---- multipart upload (`POST /transcribe`) ----

  /** `if not audio.filename`: the upload is rejected when the filename is
      missing or empty, the two values Python treats as false. */
  function HasFilename(filename: Option<string>): (ok: bool)
    ensures ok ==> filename.Some? && |filename.value| >= 1
    ensures filename == None || filename == Some("") ==> !ok
  {
    filename.Some? && filename.value != ""
  }

  /** A path component that POSIX path parsing keeps. */
  predicate Kept(part: string) {
    part != "" && part != "."
  }

  /** The components a POSIX path keeps, in order: empty components
      (repeated, leading or trailing '/') and "." are dropped. */
  function KeptParts(parts: seq<string>): (r: seq<string>)
    ensures forall i :: 0 <= i < |r| ==> Kept(r[i]) && r[i] in parts
    ensures forall i :: 0 <= i < |parts| && Kept(parts[i]) ==> parts[i] in r
  {
    if parts == [] then []
    else if Kept(parts[0]) then [parts[0]] + KeptParts(parts[1..])
    else KeptParts(parts[1..])
  }

  /** Filtering a concatenation filters each half and keeps their order. */
  lemma {:induction false} KeptPartsAppend(a: seq<string>, b: seq<string>)
    ensures KeptParts(a + b) == KeptParts(a) + KeptParts(b)
  {
    if a == [] {
      assert a + b == b;
    } else {
      var t := a[1..] + b;
      assert (a + b)[0] == a[0] && (a + b)[1..] == t;
      assert KeptParts(t) == KeptParts(a[1..]) + KeptParts(b) by {
        KeptPartsAppend(a[1..], b);
      }
      if Kept(a[0]) {
        assert KeptParts(a + b) == [a[0]] + KeptParts(t);
        assert [a[0]] + (KeptParts(a[1..]) + KeptParts(b))
            == ([a[0]] + KeptParts(a[1..])) + KeptParts(b);
      } else {
        assert KeptParts(a + b) == KeptParts(t);
      }
    }
  }

  /** The filter is empty exactly when no part is kept, and otherwise its
      last element is the last kept part: every part after it is dropped. */
  lemma {:induction false} KeptPartsLast(parts: seq<string>)
    ensures var r := KeptParts(parts);
            r == [] <==> forall i :: 0 <= i < |parts| ==> !Kept(parts[i])
    ensures var r := KeptParts(parts);
            r != [] ==> exists i :: 0 <= i < |parts| && parts[i] == r[|r| - 1]
                                    && forall j :: i < j < |parts| ==> !Kept(parts[j])
  {
    if parts != [] {
      var n := |parts| - 1;
      var init, x := parts[..n], parts[n];
      assert parts == init + [x];
      KeptPartsAppend(init, [x]);
      KeptPartsLast(init);
      assert forall j :: 0 <= j < n ==> parts[j] == init[j];
      if !Kept(x) {
        assert KeptParts([x]) == [];
        assert KeptParts(parts) == KeptParts(init);
      } else {
        assert KeptParts([x]) == [x];
        assert KeptParts(parts)[|KeptParts(parts)| - 1] == parts[n];
      }
    }
  }

  /** `PurePosixPath(path).name`: the last kept component, or "" when there
      is none (for "", "/" or "."). */
  function PathName(path: string): (name: string)
    ensures '/' !in name && name != "."
    ensures var parts := Split(path, '/');
            name == "" <==> forall i :: 0 <= i < |parts| ==> !Kept(parts[i])
    ensures var parts := Split(path, '/');
            name != "" ==> exists i :: 0 <= i < |parts| && parts[i] == name
                                       && forall j :: i < j < |parts| ==> !Kept(parts[j])
  {
    var kept := KeptParts(Split(path, '/'));
    KeptPartsLast(Split(path, '/'));
    if kept == [] then ""
    else
      assert Kept(kept[|kept| - 1]) && kept[|kept| - 1] in Split(path, '/');
      assert !forall i :: 0 <= i < |Split(path, '/')| ==> !Kept(Split(path, '/')[i]);
      kept[|kept| - 1]
  }

  /** Position `i` of `name` holds its last dot. */
  predicate IsLastDot(name: string, i: int) {
    0 <= i < |name| && name[i] == '.' && forall k :: i < k < |name| ==> name[k] != '.'
  }

  /** `PurePath.suffix` of a name: from the last dot on, provided that dot is
      neither the first nor the last character; otherwise "". */
  function Suffix(name: string): (r: string)
    ensures r != "" ==> && 0 < |name| - |r| < |name| - 1
                        && IsLastDot(name, |name| - |r|)
                        && r == name[|name| - |r|..]
    ensures r == "" ==> forall i :: 0 < i < |name| - 1 ==> !IsLastDot(name, i)
  {
    var i := RFind(name, '.');
    if 0 < i < |name| - 1 then name[i..] else ""
  }

  /** The fallback extension of both handlers. */
  const DEFAULT_EXTENSION := "webm"

  /** `Path(audio.filename).suffix or ".webm"`: the suffix of the temporary
      file an upload is written to. It is always one extension: a dot, then
      at least one character, none of them a dot or a slash. */
  function UploadSuffix(filename: string): (suffix: string)
    ensures |suffix| >= 2 && suffix[0] == '.'
    ensures '.' !in suffix[1..] && '/' !in suffix
    ensures var s := Suffix(PathName(filename));
            suffix == (if s == "" then "." + DEFAULT_EXTENSION else s)
  {
    var name := PathName(filename);
    var s := Suffix(name);
    if s == "" then "." + DEFAULT_EXTENSION
    else
      assert '.' !in s[1..] && '/' !in s by {
        assert forall k :: 0 <= k < |s| ==> s[k] == name[|name| - |s| + k];
      }
      s
  }

  /** A filename without a slash is its own last component (unless it is
      "." or empty), so its suffix is taken from the whole filename. */
  lemma PlainFilename(filename: string)
    requires '/' !in filename && filename != "" && filename != "."
    ensures PathName(filename) == filename
  {
    SplitNoSeparator(filename, '/');
    assert KeptParts([filename]) == [filename];
  }

  /** A filename below a directory has the name of its last component, so
      its suffix is that of the last component alone: "dir.x/clip.mp3" is
      treated as "clip.mp3". */
  lemma NameInDirectory(dir: string, base: string)
    requires '/' !in base && Kept(base)
    ensures PathName(dir + "/" + base) == base
    ensures UploadSuffix(dir + "/" + base) == UploadSuffix(base)
  {
    var parts := Split(dir, '/');
    SplitLastPiece(dir, '/', base);
    KeptPartsAppend(parts, [base]);
    assert KeptParts([base]) == [base];
    PlainFilename(base);
  }

  /** The suffix starts at a dot that is neither first nor last when no dot
      follows it. */
  lemma SuffixAt(name: string, i: nat)
    requires 0 < i < |name| - 1 && IsLastDot(name, i)
    ensures Suffix(name) == name[i..]
  {
  }

  /** A name whose only dot is its first character has no suffix. */
  lemma NoSuffixUnlessDotInside(name: string)
    requires forall i :: 0 < i < |name| ==> name[i] != '.'
    ensures Suffix(name) == ""
  {
  }

  /** A filename made of a non-empty stem, a dot and a non-empty extension
      without dots, and with no slash anywhere, gives that extension: for
      instance "clip.mp3" gives ".mp3". */
  lemma UploadSuffixExtension(stem: string, ext: string)
    requires stem != "" && ext != "" && '.' !in ext
    requires '/' !in stem && '/' !in ext
    ensures UploadSuffix(stem + "." + ext) == "." + ext
  {
    var f := stem + "." + ext;
    var i := |stem|;
    assert '/' !in f && f != "." by {
      assert forall k :: 0 <= k < |f| ==> f[k] == (if k < i then stem[k] else if k == i then '.' else ext[k - i - 1]);
    }
    assert PathName(f) == f by {
      PlainFilename(f);
    }
    assert IsLastDot(f, i) by {
      assert forall k :: i < k < |f| ==> f[k] == ext[k - i - 1];
    }
    SuffixAt(f, i);
    assert f[i..] == "." + ext;
  }

  /** For a filename without a slash, the suffix is everything from its last
      dot on when that dot is neither its first nor its last character
      ("take.tar.ogg" gives ".ogg"), and ".webm" otherwise ("recording",
      ".hidden", "voice."). */
  lemma PlainFilenameSuffix(filename: string)
    requires '/' !in filename && filename != "" && filename != "."
    ensures forall i :: 0 < i < |filename| - 1 && IsLastDot(filename, i) ==>
              UploadSuffix(filename) == filename[i..]
    ensures (forall i :: 0 < i < |filename| - 1 ==> !IsLastDot(filename, i)) ==>
              UploadSuffix(filename) == "." + DEFAULT_EXTENSION
  {
    PlainFilename(filename);
    forall i | 0 < i < |filename| - 1 && IsLastDot(filename, i)
      ensures UploadSuffix(filename) == filename[i..]
    {
      SuffixAt(filename, i);
    }
  }

  // ---- JSON body (`POST /transcribe-base64`) ----

  /** A field of the JSON request body: missing, `null`, or a string. */
  datatype JsonField = Absent | Null | Str(s: string)

  /** `if not audio_data`: the request is rejected unless `audio` is a
      non-empty string. */
  function AudioProvided(audio: JsonField): (ok: bool)
    ensures ok ==> audio.Str? && |audio.s| >= 1
    ensures audio.Absent? || audio.Null? || audio == Str("") ==> !ok
  {
    audio.Str? && audio.s != ""
  }

  /** `audio_data.split(",")[1]` when the text holds a comma, the text itself
      otherwise: what is handed to the base64 decoder. */
  function Base64Body(audio: string): (body: string)
    ensures ',' !in body
    ensures ',' !in audio ==> body == audio
  {
    if ',' in audio then Split(audio, ',')[1] else audio
  }

  /** With a comma present, the decoder gets exactly the text between the
      first comma and the next one (or the end): not everything after the
      first comma. */
  lemma Base64BodyBetweenCommas(audio: string)
    requires ',' in audio
    ensures var i := Find(audio, ',');
            var body := Base64Body(audio);
            && 0 <= i && i + 1 + |body| <= |audio|
            && audio[i + 1..i + 1 + |body|] == body
            && ',' !in body
            && (i + 1 + |body| == |audio| || audio[i + 1 + |body|] == ',')
  {
    var parts := Split(audio, ',');
    var head := parts[0] + [','];
    var tail := Join(parts[1..], ',');
    var body := parts[1];
    SplitHead(audio, ',');
    JoinFirstPiece(parts[1..], ',');
    SliceAfter(head, tail, 0, |body|);
    assert tail[0..|body|] == body;
    if |parts| > 2 {
      assert audio[|head| + |body|] == tail[|body|];
    }
  }

  /** A data-URL preamble is dropped: a preamble ending at the first comma,
      followed by a body without commas, hands exactly the body to the
      decoder. */
  lemma DataUrlPreambleDropped(preamble: string, body: string)
    requires ',' !in preamble && ',' !in body
    ensures Base64Body(preamble + "," + body) == body
  {
    SplitAfterFirst(preamble, ',', body);
    SplitNoSeparator(body, ',');
    assert (preamble + "," + body)[|preamble|] == ',';
  }

  /** For example, "data:audio/webm;base64,AAAA" decodes "AAAA". */
  lemma DataUrlExample()
    ensures Base64Body("data:audio/webm;base64,AAAA") == "AAAA"
  {
    var preamble := "data:audio/webm;base64";
    assert "data:audio/webm;base64,AAAA" == preamble + "," + "AAAA";
    DataUrlPreambleDropped(preamble, "AAAA");
  }

  /** `"." + request.get("format", "webm")`: the temporary file's suffix. A
      missing field gives ".webm"; an explicit `null` gives ".None", because
      the f-string renders Python's `None`; a string is used as it is. */
  function FormatSuffix(format: JsonField): (suffix: string)
    ensures |suffix| >= 1 && suffix[0] == '.'
    ensures format.Absent? ==> suffix == "." + DEFAULT_EXTENSION
    ensures format.Null? ==> suffix == ".None"
    ensures format.Str? ==> suffix[1..] == format.s
  {
    "." + match format
          case Absent => DEFAULT_EXTENSION
          case Null => "None"
          case Str(s) => s
  }

  /** `request.get("model", DEFAULT_MODEL)`: the name passed to `get_model`;
      `None` (an explicit `null`) is not a string. */
  function ModelArg(model: JsonField, defaultModel: string): (arg: Option<string>)
    ensures model.Absent? ==> arg == Some(defaultModel)
    ensures model.Null? ==> arg == None
    ensures model.Str? ==> arg == Some(model.s)
  {
    match model
    case Absent => Some(defaultModel)
    case Null => None
    case Str(s) => Some(s)
  }

  /** `request.get("language")`: a language hint, or none. */
  function LanguageArg(language: JsonField): (hint: Option<string>)
    ensures hint.Some? <==> language.Str?
    ensures hint.Some? ==> hint.value == language.s
  {
    if language.Str? then Some(language.s) else None
  }
}
