/** The speech-recognition route of backend/routes/asr.py: the suffix of the
    temporary file the upload is written to, and the fixed shape of the
    response. The Whisper pipeline is replaced by its outcome, passed in. */
module Asr {
  import opened Common
  import Images
  import AiService

  /** The suffixes the route keeps; anything else becomes ".m4a". */
  const KeptSuffixes: set<string> := {".wav", ".m4a", ".mp3", ".flac"}
  const DefaultSuffix := ".m4a"

  /** The temporary file's suffix: ".m4a" without a file name; otherwise the
      os.path.splitext extension, lowercased, if it is one of the kept ones,
      and ".m4a" if not. */
  function TempExtension(filename: Option<string>): (ext: string)
    ensures ext in KeptSuffixes
    ensures filename.None? || filename.value == [] ==> ext == DefaultSuffix
    ensures filename.Some? && filename.value != [] && Lower(Images.SplitExt(filename.value)) in KeptSuffixes ==>
              ext == Lower(Images.SplitExt(filename.value))
    ensures filename.Some? && filename.value != [] && Lower(Images.SplitExt(filename.value)) !in KeptSuffixes ==>
              ext == DefaultSuffix
  {
    if filename.Some? && filename.value != [] then
      var ext := Lower(Images.SplitExt(filename.value));
      if ext in KeptSuffixes then ext else DefaultSuffix
    else DefaultSuffix
  }

  /** A name that is only a dot and an extension has no extension for
      splitext, so ".wav" is written as ".m4a", while the AI service's
      allowed_file, which splits with rsplit, accepts the same name as wav. */
  lemma LeadingDotNameBecomesM4a()
    ensures TempExtension(Some(".wav")) == ".m4a"
    ensures AiService.AllowedFile(".wav")
  {
    Images.DotFileHasNoExtension();
    AiService.LeadingDotNameAllowed();
  }

  /** A plain stem followed by a dot and an extension: splitext finds the
      extension. */
  lemma SplitExtOfStem(stem: string, ext: string)
    requires stem != [] && '.' !in stem && '/' !in stem
    requires '.' !in ext && '/' !in ext
    ensures Images.SplitExt(stem + "." + ext) == "." + ext
  {
    var name := stem + "." + ext;
    var n := |stem|;
    assert name[n] == '.';
    assert forall k :: n < k < |name| ==> name[k] == ext[k - n - 1];
    LastIndexAt(name, '.', n);
    assert '/' !in name by {
      assert forall k :: 0 <= k < |name| ==> name[k] in stem || name[k] == '.' || name[k] in ext;
    }
    assert Images.HasNonDot(name, 0, n) by {
      assert name[0] == stem[0];
    }
    assert name[n..] == "." + ext;
  }

  lemma LowerWav()
    ensures Lower(".WAV") == ".wav"
    ensures ".wav" in KeptSuffixes
  {
  }

  /** An upper-case supported extension is kept, lowercased. */
  lemma UpperCaseSuffixKept(stem: string)
    requires stem != [] && '.' !in stem && '/' !in stem
    ensures TempExtension(Some(stem + ".WAV")) == ".wav"
  {
    var name := stem + ".WAV";
    assert name == stem + "." + "WAV";
    SplitExtOfStem(stem, "WAV");
    LowerWav();
  }

  /** The body of a successful recognition. */
  datatype AsrResponse = AsrResponse(success: bool, text: string, language: string,
                                     duration: real, segments: seq<string>, timestamp: string)

  /** asr_recognize: an unloaded model is a 500 before the upload is looked
      at; a failed recognition is a 500; otherwise the text comes back in a
      response whose other fields are fixed, whatever language was asked
      for. */
  function Recognize(modelLoaded: bool, requestedLanguage: string, transcript: Option<string>): (r: Result<AsrResponse>)
    ensures !modelLoaded ==> r == Err(HttpError(500, ModelNotLoaded))
    ensures r.Ok? <==> modelLoaded && transcript.Some?
    ensures r.Err? ==> r.error.status == 500
    ensures r.Ok? ==> r.value.success && r.value.text == transcript.value && r.value.language == "ko" &&
                      r.value.duration == 0.0 && r.value.segments == [] && r.value.timestamp == []
  {
    if !modelLoaded then Err(HttpError(500, ModelNotLoaded))
    else if transcript.None? then Err(HttpError(500, TranscriptionFailed))
    else Ok(AsrResponse(true, transcript.value, "ko", 0.0, [], ""))
  }
}
