/**
 * The processing pipeline of src/processing/pipeline.py: the periodic
 * analysis timer, the slots that turn a finished audio or video segment into
 * a capture row and delete the file, and the periodic analysis that sends
 * recent captures to the language model and stores repetitive workflows.
 *
 * The Qt timer is a `Timer` value; the database session is the `Database`
 * object (a failing commit is `commitOk == false`, after which the session
 * rolls back); the capture directories are the `FileSystem` object. Decoding
 * a video, running the speech engine, the OCR engine and the language model
 * are oracles passed in by the caller, as is the clock.
 */
module Pipeline {
  import opened Wrappers
  import opened Json
  import opened Strings
  import opened Storage
  import OcrEngine
  import LlmInterface
  import SpeechToText

  // ------------------------------------------------------------ the analysis timer

  /** A `QTimer`: whether it is active and the interval it was started with. */
  datatype Timer = Timer(active: bool, intervalMs: int)

  /**
   * `settings.get("processing", {}).get("analysis_interval_sec", 60) * 1000`,
   * or None when that raises or gives something `QTimer.start` refuses (a
   * `processing` entry that is not a dictionary, a non-integer interval).
   * A boolean is an integer in Python.
   */
  function AnalysisIntervalMs(settings: Dict): Option<int>
  {
    var processing := Get(settings, "processing", JObj(map[]));
    if !processing.JObj? then None
    else
      match Get(processing.fields, "analysis_interval_sec", JInt(60))
      case JInt(sec) => Some(sec * 1000)
      case JBool(b) => Some(if b then 1000 else 0)
      case _ => None
  }

  /** `start`: an active timer is left alone; otherwise it starts when the interval is known. */
  function StartTimer(t: Timer, interval: Option<int>): Timer
  {
    if t.active then t
    else if interval.None? then t
    else Timer(true, interval.value)
  }

  /** `stop`: an inactive timer is left alone; otherwise it stops. */
  function StopTimer(t: Timer): Timer
  {
    if !t.active then t else t.(active := false)
  }

  /**
   * Starting twice is starting once, a second start never changes the
   * interval, and stopping after a start leaves the timer inactive; stopping
   * an inactive timer or starting an active one changes nothing.
   */
  lemma TimerLifecycle(t: Timer, interval: Option<int>)
    ensures StartTimer(StartTimer(t, interval), interval) == StartTimer(t, interval)
    ensures !t.active && interval.Some? ==> StartTimer(t, interval) == Timer(true, interval.value)
    ensures t.active ==> StartTimer(t, interval) == t
    ensures !StopTimer(StartTimer(t, interval)).active
    ensures !t.active ==> StopTimer(t) == t
    ensures StopTimer(StopTimer(t)) == StopTimer(t)
  {
  }

  /** With no settings the analysis runs every minute. */
  lemma DefaultInterval()
    ensures AnalysisIntervalMs(map[]) == Some(60000)
    ensures AnalysisIntervalMs(map["processing" := JObj(map[])]) == Some(60000)
  {
  }

  // ------------------------------------------------------------ capture rows

  /** The row `process_audio` adds: the transcript text under "transcription". */
  function AudioRow(id: int, now: int, path: string, size: nat, text: string): Capture
  {
    Row(id, now, false, CaptureBody(Audio, path, size, Some(map["transcription" := JStr(text)])))
  }

  /** The row `process_video` adds: the OCR items of the first frame under "ocr_data". */
  function ScreenRow(id: int, now: int, path: string, size: nat, items: seq<OcrEngine.Item>): Capture
  {
    Row(id, now, false, CaptureBody(Screen, path, size,
      Some(map["ocr_data" := JObj(map["items" := OcrEngine.ResultDict(items)["items"]])])))
  }

  /** What reading the video gave: it could not be opened, it had no frame, or its first frame. */
  datatype VideoRead = Unopenable | NoFrame | FirstFrame(shape: seq<nat>, ocr: OcrEngine.TesseractRun)

  /** The ids of the rows are below the next id to hand out. */
  predicate IdsBelow<B>(rows: seq<Row<B>>, nextId: int)
  {
    forall k :: 0 <= k < |rows| ==> rows[k].id < nextId
  }

  /** The ids of the rows are pairwise different. */
  predicate DistinctIds<B>(rows: seq<Row<B>>)
  {
    forall a, b :: 0 <= a < b < |rows| ==> rows[a].id != rows[b].id
  }

  /** Appending a row with the next id and then moving past it keeps the ids distinct and below the next id. */
  lemma AppendFreshId<B>(rows: seq<Row<B>>, nextId: int, r: Row<B>)
    requires IdsBelow(rows, nextId) && DistinctIds(rows) && r.id == nextId
    ensures IdsBelow(rows + [r], nextId + 1) && DistinctIds(rows + [r])
  {
  }

  // ------------------------------------------------------------ the analysis

  /** At most this many recent captures are analysed. */
  const RecentLimit: nat := 10

  /** The summaries that mark a reply as not worth storing. */
  const NotJsonSummary: string := "LLM response was not valid JSON."

  /** The last ten (or fewer) indices of a list, last first. */
  function Window(asc: seq<nat>): (r: seq<nat>)
    ensures |r| == if |asc| < RecentLimit then |asc| else RecentLimit
    ensures forall k :: 0 <= k < |r| ==> r[k] == asc[|asc| - 1 - k]
  {
    var m := if |asc| < RecentLimit then |asc| else RecentLimit;
    seq(m, k requires 0 <= k < m => asc[|asc| - 1 - k])
  }

  /**
   * The captures the analysis query returns: live rows, newest first, at
   * most ten. Rows with equal timestamps come in the reverse of their table
   * order.
   */
  function Recent(captures: seq<Capture>): (r: seq<nat>)
    ensures ValidIndices(captures, r)
  {
    Window(SortByTime(captures, LiveIndices(captures)))
  }

  /** The window of a list sorted by time is newest first, and nothing before it is newer. */
  lemma WindowNewest(captures: seq<Capture>, asc: seq<nat>)
    requires ValidIndices(captures, asc) && ByTime(captures, asc)
    ensures var r := Window(asc);
      && (forall a, b :: 0 <= a < b < |r| ==> captures[r[a]].timestamp >= captures[r[b]].timestamp)
      && (forall p, k :: 0 <= p < |asc| - |r| && 0 <= k < |r| ==> captures[asc[p]].timestamp <= captures[r[k]].timestamp)
  {
  }

  lemma SameLength(xs: seq<nat>, ys: seq<nat>)
    requires multiset(xs) == multiset(ys)
    ensures |xs| == |ys|
  {
    assert |multiset(xs)| == |multiset(ys)|;
  }

  /** Two lists with the same elements: an element of one is an element of the other. */
  lemma SameElements(xs: seq<nat>, ys: seq<nat>, i: nat)
    requires multiset(xs) == multiset(ys) && i < |xs|
    ensures xs[i] in ys
  {
    assert xs[i] in multiset(xs);
  }

  /** The window of a list takes its elements from the list. */
  lemma WindowWithin(asc: seq<nat>, live: seq<nat>)
    requires multiset(asc) == multiset(live)
    ensures forall k :: 0 <= k < |Window(asc)| ==> Window(asc)[k] in live
  {
    forall k | 0 <= k < |Window(asc)|
      ensures Window(asc)[k] in live
    {
      SameElements(asc, live, |asc| - 1 - k);
    }
  }

  /** The window holds the last ten elements of the list. */
  lemma InWindow(asc: seq<nat>, p: nat)
    requires p < |asc|
    ensures p >= |asc| - |Window(asc)| ==> asc[p] in Window(asc)
  {
    var r := Window(asc);
    if p >= |asc| - |r| {
      assert r[|asc| - 1 - p] == asc[p];
    }
  }

  function LiveIndexOf(captures: seq<Capture>, live: seq<nat>, x: nat): (p: nat)
    requires live == LiveIndices(captures) && x < |captures| && !captures[x].deleted
    ensures p < |live| && live[p] == x
  {
    var p :| 0 <= p < |live| && live[p] == x; p
  }

  /** The window holds live captures only, as many as there are up to ten. */
  lemma RecentLive(captures: seq<Capture>)
    ensures var r := Recent(captures);
      && |r| == (if |LiveIndices(captures)| < RecentLimit then |LiveIndices(captures)| else RecentLimit)
      && (forall k :: 0 <= k < |r| ==> r[k] < |captures| && !captures[r[k]].deleted)
  {
    var live := LiveIndices(captures);
    var asc := SortByTime(captures, live);
    var r := Window(asc);
    SameLength(asc, live);
    WindowWithin(asc, live);
  }

  /**
   * The analysis window holds min(10, live rows) live captures, newest
   * first, and no live capture left out is newer than one taken in.
   */
  lemma RecentNewestLive(captures: seq<Capture>)
    ensures var r := Recent(captures);
      && |r| == (if |LiveIndices(captures)| < RecentLimit then |LiveIndices(captures)| else RecentLimit)
      && (forall k :: 0 <= k < |r| ==> r[k] < |captures| && !captures[r[k]].deleted)
      && (forall a, b :: 0 <= a < b < |r| ==> captures[r[a]].timestamp >= captures[r[b]].timestamp)
      && (forall x, k :: 0 <= x < |captures| && !captures[x].deleted && x !in r && 0 <= k < |r| ==>
            captures[x].timestamp <= captures[r[k]].timestamp)
  {
    var live := LiveIndices(captures);
    var asc := SortByTime(captures, live);
    var r := Window(asc);
    RecentLive(captures);
    WindowNewest(captures, asc);
    forall x, k | 0 <= x < |captures| && !captures[x].deleted && x !in r && 0 <= k < |r|
      ensures captures[x].timestamp <= captures[r[k]].timestamp
    {
      SameElements(live, asc, LiveIndexOf(captures, live, x));
      var p :| 0 <= p < |asc| && asc[p] == x;
      InWindow(asc, p);
    }
  }

  /** A capture's metadata is truthy: present and not empty. */
  predicate HasMetadata(c: Capture)
  {
    c.body.metadata.Some? && c.body.metadata.value != map[]
  }

  /** `[c.metadata_json.get(key, default) for c in recent if c.type == kind and c.metadata_json]` */
  function Collect(captures: seq<Capture>, idx: seq<nat>, kind: CaptureKind, key: string, default: Json): (r: seq<Json>)
    requires ValidIndices(captures, idx)
    ensures |r| <= |idx|
  {
    if idx == [] then []
    else
      var c := captures[idx[|idx| - 1]];
      Collect(captures, idx[..|idx| - 1], kind, key, default)
      + (if c.body.kind == kind && HasMetadata(c) then [Get(c.body.metadata.value, key, default)] else [])
  }

  /** Each capture of the kind with metadata contributes exactly one value, in window order. */
  lemma {:induction false} CollectPicks(captures: seq<Capture>, idx: seq<nat>, kind: CaptureKind, key: string, default: Json, k: nat)
    requires ValidIndices(captures, idx) && k < |idx|
    requires var c := captures[idx[k]]; c.body.kind == kind && HasMetadata(c)
    ensures Get(captures[idx[k]].body.metadata.value, key, default) in Collect(captures, idx, kind, key, default)
  {
    if k < |idx| - 1 {
      CollectPicks(captures, idx[..|idx| - 1], kind, key, default, k);
    }
  }

  /** Captures without metadata, or of the other kind, contribute nothing. */
  lemma {:induction false} CollectNothing(captures: seq<Capture>, idx: seq<nat>, kind: CaptureKind, key: string, default: Json)
    requires ValidIndices(captures, idx)
    requires forall k :: 0 <= k < |idx| ==> captures[idx[k]].body.kind != kind || !HasMetadata(captures[idx[k]])
    ensures Collect(captures, idx, kind, key, default) == []
  {
    if idx != [] {
      CollectNothing(captures, idx[..|idx| - 1], kind, key, default);
    }
  }

  /** A transcript stored by `process_audio` is read back by the analysis when its row is in the window. */
  lemma AudioRowAnalysed(captures: seq<Capture>, idx: seq<nat>, k: nat, id: int, now: int, path: string, size: nat, text: string)
    requires ValidIndices(captures, idx) && k < |idx|
    requires captures[idx[k]] == AudioRow(id, now, path, size, text)
    ensures JStr(text) in Collect(captures, idx, Audio, "transcription", JStr(""))
    ensures Collect(captures, idx, Screen, "ocr_data", JObj(map[])) == Collect(captures, idx[..k] + idx[k + 1..], Screen, "ocr_data", JObj(map[]))
  {
    assert "transcription" in captures[idx[k]].body.metadata.value;
    CollectPicks(captures, idx, Audio, "transcription", JStr(""), k);
    CollectSkips(captures, idx, Screen, "ocr_data", JObj(map[]), k);
  }

  /** The OCR items stored by `process_video` are read back by the analysis when its row is in the window. */
  lemma ScreenRowAnalysed(captures: seq<Capture>, idx: seq<nat>, k: nat, id: int, now: int, path: string, size: nat,
                          items: seq<OcrEngine.Item>)
    requires ValidIndices(captures, idx) && k < |idx|
    requires captures[idx[k]] == ScreenRow(id, now, path, size, items)
    ensures JObj(OcrEngine.ResultDict(items)) in Collect(captures, idx, Screen, "ocr_data", JObj(map[]))
    ensures Collect(captures, idx, Audio, "transcription", JStr("")) == Collect(captures, idx[..k] + idx[k + 1..], Audio, "transcription", JStr(""))
  {
    assert map["items" := OcrEngine.ResultDict(items)["items"]] == OcrEngine.ResultDict(items);
    assert "ocr_data" in captures[idx[k]].body.metadata.value;
    CollectPicks(captures, idx, Screen, "ocr_data", JObj(map[]), k);
    CollectSkips(captures, idx, Audio, "transcription", JStr(""), k);
  }

  /** A capture of the other kind contributes nothing: leaving it out of the window changes nothing. */
  lemma {:induction false} CollectSkips(captures: seq<Capture>, idx: seq<nat>, kind: CaptureKind, key: string, default: Json, k: nat)
    requires ValidIndices(captures, idx) && k < |idx| && captures[idx[k]].body.kind != kind
    ensures Collect(captures, idx, kind, key, default) == Collect(captures, idx[..k] + idx[k + 1..], kind, key, default)
  {
    var rest := idx[..k] + idx[k + 1..];
    if k == |idx| - 1 {
      assert rest == idx[..|idx| - 1];
    } else {
      var init := idx[..|idx| - 1];
      CollectSkips(captures, init, kind, key, default, k);
      assert rest[..|rest| - 1] == init[..k] + init[k + 1..];
      assert rest[|rest| - 1] == idx[|idx| - 1];
    }
  }

  /** The strings of a list, or None when one of them is not a string (`"\n".join` raises). */
  function AllStrings(js: seq<Json>): (r: Option<seq<string>>)
    ensures r.Some? <==> forall k :: 0 <= k < |js| ==> js[k].JStr?
    ensures r.Some? ==> |r.value| == |js| && forall k :: 0 <= k < |js| ==> js[k] == JStr(r.value[k])
  {
    if js == [] then Some([])
    else
      match AllStrings(js[1..])
      case None => None
      case Some(rest) => if js[0].JStr? then Some([js[0].s] + rest) else None
  }

  /**
   * The language model: whether it loaded, the decoded output it generates
   * for a prompt (None when generation raises), and `json.loads`.
   */
  datatype Llm = Llm(loaded: bool, generate: string -> Option<string>, parse: LlmInterface.JsonParser)

  /** What the analysis got from the model. */
  datatype Analysis =
    | NoData              // no screen or transcript in the window: the model is not called
    | Raised              // building the prompt raised
    | Analysed(workflow: Json)

  /**
   * Steps 1 and 2 of `run_analysis`: the window, the screens and transcripts
   * in it, and the model's answer. `render` is Python's `str()`; the event
   * list is always empty.
   */
  function Analyse(captures: seq<Capture>, llm: Llm, render: Json -> string): Analysis
  {
    var idx := Recent(captures);
    var screens := Collect(captures, idx, Screen, "ocr_data", JObj(map[]));
    var transcripts := Collect(captures, idx, Audio, "transcription", JStr(""));
    if screens == [] && transcripts == [] then NoData
    else if !llm.loaded then Analysed(JObj(LlmInterface.DefaultResult))
    else
      match AllStrings(transcripts)
      case None => Raised
      case Some(ts) =>
        var prompt := LlmInterface.BuildPrompt(render(JList(screens)), ts, "[]");
        Analysed(LlmInterface.AnalyzeWorkflow(true, prompt, llm.generate(prompt), llm.parse))
  }

  /**
   * The test before storing: a non-empty dictionary, marked repetitive, whose
   * summary is neither empty nor the not-JSON marker (a missing summary
   * passes). A reply that is not a dictionary makes `.get` raise.
   */
  predicate Worth(w: Json)
  {
    && w.JObj? && w.fields != map[]
    && Truthy(Get(w.fields, "is_repetitive", JNull))
    && Get(w.fields, "workflow_summary", JNull) != JStr("")
    && Get(w.fields, "workflow_summary", JNull) != JStr(NotJsonSummary)
  }

  /** The row `run_analysis` adds for a workflow worth storing. */
  function WorkflowRow(id: int, now: int, w: Dict): WorkflowRecord
  {
    WorkflowRecord(id, Get(w, "workflow_summary", JStr("Unnamed Workflow")), Get(w, "workflow_summary", JStr("")),
                   JObj(w), now, Some(now), 0.0)
  }

  /** The workflow names in the table. */
  function Names(workflows: seq<WorkflowRecord>): set<Json>
  {
    set k | 0 <= k < |workflows| :: workflows[k].name
  }

  /** No two workflows share a name: the table's unique constraint. */
  predicate UniqueNames(workflows: seq<WorkflowRecord>)
  {
    forall a, b :: 0 <= a < b < |workflows| ==> workflows[a].name != workflows[b].name
  }

  /**
   * Step 3 of `run_analysis`: the row that is stored, if any. The insert
   * fails on a null name (the column is not nullable), on a name already in
   * the table (the unique constraint) or when the commit fails; in each case
   * the session rolls back.
   */
  function Stored(a: Analysis, workflows: seq<WorkflowRecord>, commitOk: bool, id: int, now: int): Option<WorkflowRecord>
  {
    if !a.Analysed? || !Worth(a.workflow) then None
    else
      var row := WorkflowRow(id, now, a.workflow.fields);
      if commitOk && row.name != JNull && row.name !in Names(workflows) then Some(row) else None
  }

  /**
   * A row is stored exactly when the model's reply is worth storing, its name
   * is not null and new, and the commit succeeds; the row keeps the whole reply, and its
   * name is the summary, or "Unnamed Workflow" when there is none.
   */
  lemma StoredExactly(a: Analysis, workflows: seq<WorkflowRecord>, commitOk: bool, id: int, now: int)
    ensures var s := Stored(a, workflows, commitOk, id, now);
      && (s.Some? <==> a.Analysed? && Worth(a.workflow) && commitOk
                       && Get(a.workflow.fields, "workflow_summary", JStr("Unnamed Workflow")) != JNull
                       && Get(a.workflow.fields, "workflow_summary", JStr("Unnamed Workflow")) !in Names(workflows))
      && (s.Some? ==> s.value.pattern == a.workflow && s.value.id == id && s.value.lastUsed == Some(now)
                      && ("workflow_summary" !in a.workflow.fields ==>
                            s.value.name == JStr("Unnamed Workflow") && s.value.description == JStr("")))
  {
  }

  /**
   * The language model's own default and fallback results are never stored:
   * they are not marked repetitive. So nothing is stored when the model did
   * not load, when generation raised, or when the reply did not parse.
   */
  lemma FallbacksNeverStored(summary: string, workflows: seq<WorkflowRecord>, commitOk: bool, id: int, now: int)
    ensures Stored(Analysed(JObj(LlmInterface.DefaultResult)), workflows, commitOk, id, now).None?
    ensures Stored(Analysed(JObj(LlmInterface.Fallback(summary))), workflows, commitOk, id, now).None?
  {
    assert Get(LlmInterface.Fallback(summary), "is_repetitive", JNull) == JBool(false);
  }

  /**
   * `run_analysis` as written stores nothing: `analyze_workflow` returns its
   * default result whenever the model is called, and the default is never
   * stored.
   */
  lemma AnalysisNeverStores(captures: seq<Capture>, llm: Llm, render: Json -> string,
                            workflows: seq<WorkflowRecord>, commitOk: bool, id: int, now: int)
    ensures Stored(Analyse(captures, llm, render), workflows, commitOk, id, now).None?
  {
    FallbacksNeverStored("", workflows, commitOk, id, now);
  }

  /** Storing keeps the names unique. */
  lemma StoredKeepsNamesUnique(a: Analysis, workflows: seq<WorkflowRecord>, commitOk: bool, id: int, now: int)
    requires UniqueNames(workflows)
    ensures var s := Stored(a, workflows, commitOk, id, now);
      UniqueNames(workflows + (if s.Some? then [s.value] else []))
  {
    var s := Stored(a, workflows, commitOk, id, now);
    if s.Some? {
      var t := workflows + [s.value];
      forall p, q | 0 <= p < q < |t|
        ensures t[p].name != t[q].name
      {
        if q == |workflows| {
          assert t[p].name in Names(workflows);
        }
      }
    }
  }

  /** A window without screens or transcripts never reaches the model. */
  lemma NoDataNoCall(captures: seq<Capture>, llm: Llm, render: Json -> string)
    requires forall k :: 0 <= k < |captures| ==> !HasMetadata(captures[k])
    ensures Analyse(captures, llm, render) == NoData
  {
    var idx := Recent(captures);
    CollectNothing(captures, idx, Screen, "ocr_data", JObj(map[]));
    CollectNothing(captures, idx, Audio, "transcription", JStr(""));
  }

  // ------------------------------------------------------------ the pipeline object

  class ProcessingPipeline {
    var settings: Dict
    var timer: Timer
    /** The dictionaries emitted on `workflow_detected`, in order. */
    var emitted: seq<Json>
    const db: Database
    const fs: FileSystem
    const stt: SpeechToText.SpeechToText

    constructor (settings: Dict, db: Database, fs: FileSystem, stt: SpeechToText.SpeechToText)
      ensures this.settings == settings && this.db == db && this.fs == fs && this.stt == stt
      ensures !timer.active && emitted == []
    {
      this.settings := settings;
      this.db := db;
      this.fs := fs;
      this.stt := stt;
      timer := Timer(false, 0);
      emitted := [];
    }

    /** `start` */
    method Start()
      modifies this
      ensures timer == StartTimer(old(timer), AnalysisIntervalMs(old(settings)))
      ensures settings == old(settings) && emitted == old(emitted)
    {
      if timer.active {
        return;
      }
      var interval := AnalysisIntervalMs(settings);
      if interval.Some? {
        timer := Timer(true, interval.value);
      }
    }

    /** `stop` */
    method Stop()
      modifies this
      ensures timer == StopTimer(old(timer))
      ensures settings == old(settings) && emitted == old(emitted)
    {
      if !timer.active {
        return;
      }
      timer := timer.(active := false);
    }

    /**
     * `process_audio`: a file that still exists is transcribed, its row is
     * added when the commit succeeds, and it is then unlinked unless the
     * unlink raises; whatever the database did, the file goes.
     */
    method ProcessAudio(path: string, t: SpeechToText.Transcription, commitOk: bool, now: int)
      modifies db, fs
      ensures path !in old(fs.files) ==>
        db.captures == old(db.captures) && db.nextId == old(db.nextId) && fs.files == old(fs.files)
      ensures path in old(fs.files) ==>
        && db.captures == old(db.captures)
             + (if commitOk then [AudioRow(old(db.nextId), now, path, old(fs.files)[path].size, stt.TranscribeFile(t).text)]
                else [])
        && db.nextId == old(db.nextId) + (if commitOk then 1 else 0)
        && fs.files == if path in fs.locked then old(fs.files) else old(fs.files) - {path}
      ensures db.events == old(db.events) && db.workflows == old(db.workflows) && fs.locked == old(fs.locked)
    {
      if path !in fs.files {
        return;
      }
      var text := stt.TranscribeFile(t).text;
      if commitOk {
        db.captures := db.captures + [AudioRow(db.nextId, now, path, fs.files[path].size, text)];
        db.nextId := db.nextId + 1;
      }
      if path !in fs.locked {
        fs.files := fs.files - {path};
      }
    }

    /**
     * `process_video`: a video that cannot be opened is left on disk; any
     * other existing video is unlinked (unless the unlink raises) after its
     * first frame, if it has one, has been read, run through OCR and stored.
     */
    method ProcessVideo(path: string, read: VideoRead, commitOk: bool, now: int)
      modifies db, fs
      ensures path !in old(fs.files) || read.Unopenable? ==>
        db.captures == old(db.captures) && db.nextId == old(db.nextId) && fs.files == old(fs.files)
      ensures path in old(fs.files) && read.NoFrame? ==>
        db.captures == old(db.captures) && db.nextId == old(db.nextId)
      ensures path in old(fs.files) && read.FirstFrame? ==>
        && db.captures == old(db.captures)
             + (if commitOk
                then [ScreenRow(old(db.nextId), now, path, old(fs.files)[path].size,
                                OcrEngine.Extract(OcrEngine.ArrayImage(read.shape), read.ocr))]
                else [])
        && db.nextId == old(db.nextId) + (if commitOk then 1 else 0)
      ensures path in old(fs.files) && !read.Unopenable? ==>
        fs.files == if path in fs.locked then old(fs.files) else old(fs.files) - {path}
      ensures db.events == old(db.events) && db.workflows == old(db.workflows) && fs.locked == old(fs.locked)
    {
      if path !in fs.files {
        return;
      }
      if read.Unopenable? {
        return;
      }
      if read.FirstFrame? {
        var items := OcrEngine.Extract(OcrEngine.ArrayImage(read.shape), read.ocr);
        if commitOk {
          db.captures := db.captures + [ScreenRow(db.nextId, now, path, fs.files[path].size, items)];
          db.nextId := db.nextId + 1;
        }
      }
      if path !in fs.locked {
        fs.files := fs.files - {path};
      }
    }

    /**
     * Step 3 of `run_analysis`: the stored row, if any, is added to the
     * workflows table and the model's reply is emitted after the commit;
     * nothing else changes.
     */
    method StoreWorkflow(a: Analysis, commitOk: bool, now: int)
      modifies db, this
      ensures var s := Stored(a, old(db.workflows), commitOk, old(db.nextId), now);
        && db.workflows == old(db.workflows) + (if s.Some? then [s.value] else [])
        && db.nextId == old(db.nextId) + (if s.Some? then 1 else 0)
        && emitted == old(emitted) + (if s.Some? then [s.value.pattern] else [])
      ensures db.captures == old(db.captures) && db.events == old(db.events)
      ensures timer == old(timer) && settings == old(settings)
    {
      var s := Stored(a, db.workflows, commitOk, db.nextId, now);
      if s.Some? {
        db.workflows := db.workflows + [s.value];
        db.nextId := db.nextId + 1;
        emitted := emitted + [s.value.pattern];
      }
    }

    /** `run_analysis`: analyse the recent captures, then store what is worth storing. */
    method RunAnalysis(llm: Llm, render: Json -> string, commitOk: bool, now: int)
      modifies db, this
      ensures var s := Stored(Analyse(old(db.captures), llm, render), old(db.workflows), commitOk, old(db.nextId), now);
        && db.workflows == old(db.workflows) + (if s.Some? then [s.value] else [])
        && db.nextId == old(db.nextId) + (if s.Some? then 1 else 0)
        && emitted == old(emitted) + (if s.Some? then [s.value.pattern] else [])
      ensures db.captures == old(db.captures) && db.events == old(db.events)
      ensures timer == old(timer) && settings == old(settings)
      ensures db.workflows == old(db.workflows) && db.nextId == old(db.nextId) && emitted == old(emitted)
    {
      AnalysisNeverStores(db.captures, llm, render, db.workflows, commitOk, db.nextId, now);
      StoreWorkflow(Analyse(db.captures, llm, render), commitOk, now);
    }
  }
}
