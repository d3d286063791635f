/**
 * Speech to text (src/processing/speech_to_text.py): which engine is
 * loaded, and how a transcription result is assembled from the segments
 * the engine reports. Loading an engine and running it are oracles.
 */
module SpeechToText {
  import opened Wrappers
  import opened Strings

  datatype EngineKind = WhisperCpp | FasterWhisper

  datatype Segment = Segment(start: real, end: real, text: string)

  /**
   * What the engine's `transcribe` gave: its segments and, on the
   * faster-whisper path, `info.language_probability` if it has one; or an
   * exception.
   */
  datatype Transcription = Segments(segments: seq<Segment>, languageProbability: Option<real>) | TranscribeRaised

  datatype SttResult = SttResult(text: string, confidence: real, timestamps: seq<Segment>)

  const EmptyResult: SttResult := SttResult("", 0.0, [])

  /**
   * `_init_engine`: the engine loaded and the configured engine name after
   * it, given whether each library loads the model.
   */
  function EngineChoice(configured: string, whisperOk: bool, fasterOk: bool): (Option<EngineKind>, string)
  {
    if configured == "whispercpp" && whisperOk then (Some(WhisperCpp), configured)
    else if fasterOk then (Some(FasterWhisper), "faster-whisper")
    else (None, configured)
  }

  /**
   * After initialisation the configured name always designates the engine
   * that was loaded, so `transcribe_file` takes the branch of that engine:
   * whispercpp only when configured for it and it loads, faster-whisper as
   * the fallback whenever it loads, otherwise no engine and the name left as
   * configured.
   */
  lemma EngineNameMatches(configured: string, whisperOk: bool, fasterOk: bool)
    ensures var (engine, name) := EngineChoice(configured, whisperOk, fasterOk);
      && (engine == Some(WhisperCpp) <==> configured == "whispercpp" && whisperOk)
      && (engine == Some(WhisperCpp) ==> name == "whispercpp")
      && (engine == Some(FasterWhisper) ==> name == "faster-whisper")
      && (engine.None? <==> !fasterOk && !(configured == "whispercpp" && whisperOk))
      && (engine.None? ==> name == configured)
  {
  }

  function SegmentTexts(segments: seq<Segment>): (r: seq<string>)
    ensures |r| == |segments| && forall k :: 0 <= k < |segments| ==> r[k] == segments[k].text
  {
    seq(|segments|, k requires 0 <= k < |segments| => segments[k].text)
  }

  class SpeechToText {
    var engineName: string            // `config.engine`
    var engine: Option<EngineKind>    // `_engine`

    constructor (engineName: string, whisperOk: bool, fasterOk: bool)
      ensures (engine, this.engineName) == EngineChoice(engineName, whisperOk, fasterOk)
    {
      this.engineName := engineName;
      engine := None;
      new;
      InitEngine(whisperOk, fasterOk);
    }

    /** `_init_engine` */
    method InitEngine(whisperOk: bool, fasterOk: bool)
      modifies this
      ensures (engine, engineName) == EngineChoice(old(engineName), whisperOk, fasterOk)
    {
      engine := None;
      if engineName == "whispercpp" && whisperOk {
        engine := Some(WhisperCpp);
      }
      if engine.None? && fasterOk {
        engine := Some(FasterWhisper);
        engineName := "faster-whisper";
      }
    }

    /**
     * `transcribe_file`: the segment texts joined by single spaces and
     * stripped, the segments as timestamps, and a confidence of 0.8 on the
     * whispercpp path or the language probability (default 0.8) otherwise.
     */
    function TranscribeFile(t: Transcription): SttResult
      reads this
    {
      if engine.None? then EmptyResult
      else
        match t
        case TranscribeRaised => EmptyResult
        case Segments(segments, p) =>
          var text := Strip(Join(" ", SegmentTexts(segments)));
          if engineName == "whispercpp" then SttResult(text, 0.8, segments)
          else SttResult(text, if p.Some? then p.value else 0.8, segments)
    }
  }

  lemma {:induction false} JoinEnds(sep: string, parts: seq<string>)
    requires parts != [] && parts[0] != [] && parts[|parts| - 1] != []
    ensures var j := Join(sep, parts); j != [] && j[0] == parts[0][0] && j[|j| - 1] == parts[|parts| - 1][|parts[|parts| - 1]| - 1]
  {
    if |parts| > 1 {
      JoinLast(sep, parts[1..]);
    }
  }

  lemma {:induction false} JoinLast(sep: string, parts: seq<string>)
    requires parts != [] && parts[|parts| - 1] != []
    ensures var j := Join(sep, parts); j != [] && j[|j| - 1] == parts[|parts| - 1][|parts[|parts| - 1]| - 1]
  {
    if |parts| > 1 {
      JoinLast(sep, parts[1..]);
    }
  }

  lemma StripUntrimmed(s: string)
    requires s != [] && s[0] !in Whitespace && s[|s| - 1] !in Whitespace
    ensures Strip(s) == s
  {
  }

  /**
   * The assembled transcript: with no engine, or when transcribing raises,
   * the empty result; otherwise the timestamps are the segments in order,
   * the text has no surrounding whitespace, and when the outer segments
   * have none either it is the segment texts joined by single spaces; the
   * confidence is 0.8 for whispercpp, and for faster-whisper the language
   * probability the engine reports, or 0.8 when it reports none.
   */
  lemma TranscriptAssembly(stt: SpeechToText, t: Transcription)
    ensures stt.engine.None? || t.TranscribeRaised? ==> stt.TranscribeFile(t) == EmptyResult
    ensures stt.engine.Some? && t.Segments? ==>
      var r := stt.TranscribeFile(t);
      && r.timestamps == t.segments
      && (r.text != [] ==> r.text[0] !in Whitespace && r.text[|r.text| - 1] !in Whitespace)
      && (t.segments == [] ==> r.text == "")
      && (stt.engineName == "whispercpp" ==> r.confidence == 0.8)
      && (stt.engineName != "whispercpp" && t.languageProbability.Some? ==> r.confidence == t.languageProbability.value)
      && (stt.engineName != "whispercpp" && t.languageProbability.None? ==> r.confidence == 0.8)
    ensures stt.engine.Some? && t.Segments? && t.segments != [] ==>
      var texts := SegmentTexts(t.segments);
      var first := texts[0];
      var last := texts[|texts| - 1];
      first != [] && first[0] !in Whitespace && last != [] && last[|last| - 1] !in Whitespace ==>
        stt.TranscribeFile(t).text == Join(" ", texts)
  {
    if stt.engine.Some? && t.Segments? {
      var texts := SegmentTexts(t.segments);
      StripTrimmed(Join(" ", texts), Whitespace);
      if t.segments != [] {
        var first := texts[0];
        var last := texts[|texts| - 1];
        if first != [] && first[0] !in Whitespace && last != [] && last[|last| - 1] !in Whitespace {
          JoinEnds(" ", texts);
          StripUntrimmed(Join(" ", texts));
        }
      }
    }
  }
}
