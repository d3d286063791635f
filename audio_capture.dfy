/**
 * The audio segmenter of src/capture/audio_capture.py.
 *
 * The queue the stream callback fills is a given sequence of items. `stop()`
 * runs on another thread; here it runs between two dequeues, before the item
 * with index `stopAt` is taken. The wave files written are the segments the
 * loop cuts; writing may fail, which each chunk item says for the segment it
 * would complete. File names come from the clock and are not modelled.
 */
module AudioCapture {
  import opened Wrappers

  /** One row of the stream's sample array: a sample per channel (int16 values). */
  type Frame = f: seq<int> | |f| >= 1 witness [0]

  datatype AudioCaptureConfig = AudioCaptureConfig(sampleRate: int, channels: int, segmentSeconds: int, useVad: bool, device: Option<int>)

  const DefaultConfig: AudioCaptureConfig := AudioCaptureConfig(16000, 1, 30, true, None)

  /** What `_q.get(timeout=0.5)` yields: a chunk, the `None` sentinel, or `queue.Empty`. */
  datatype QueueItem =
    | Chunk(frames: seq<Frame>, writeOk: bool)   // `writeOk`: whether sf.write succeeds if this chunk completes a segment
    | Sentinel
    | Timeout

  /** A segment the loop cut from its buffer, and whether it reached disk (and was announced). */
  datatype Cut = Cut(samples: seq<Frame>, written: bool)

  datatype LoopState = LoopState(cuts: seq<Cut>, buffer: seq<Frame>, consumed: nat)

  /** `segment_seconds * sample_rate`: the sample count at which a segment is cut. */
  function SamplesPerSegment(config: AudioCaptureConfig): int
  {
    config.segmentSeconds * config.sampleRate
  }

  // --------------------------------------------------------- voice detection

  /** WebRTC's `is_speech` on one frame of mono samples. */
  type Vad = seq<int> -> bool

  /** `int(x / 1000)`: division truncating toward zero. */
  function TruncDiv1000(x: int): int
  {
    if x >= 0 then x / 1000 else -((-x) / 1000)
  }

  /** Samples in one 30 ms VAD frame: `int(sample_rate * 30 / 1000)`. */
  function SamplesPerVadFrame(sampleRate: int): int
  {
    TruncDiv1000(sampleRate * 30)
  }

  /** The first channel of every row: `chunk[:, 0]`. */
  function Mono(chunk: seq<Frame>): (r: seq<int>)
    ensures |r| == |chunk|
  {
    seq(|chunk|, k requires 0 <= k < |chunk| => chunk[k][0])
  }

  predicate SpeechAt(mono: seq<int>, spf: nat, s: int, vad: Vad)
  {
    0 <= s && s + spf <= |mono| && vad(mono[s..s + spf])
  }

  /**
   * `for i in range(start, stop, spf): if vad.is_speech(mono[i:i+spf]): return True`,
   * for a positive step and a range whose frames lie within `mono`.
   */
  function AnySpeech(mono: seq<int>, spf: nat, start: nat, stop: int, vad: Vad): bool
    requires spf > 0 && stop <= |mono| - spf + 1
    decreases stop - start
  {
    if start >= stop then false
    else vad(mono[start..start + spf]) || AnySpeech(mono, spf, start + spf, stop, vad)
  }

  /**
   * `_contains_voice` as written: True without a VAD; otherwise whether a frame
   * starting in `range(0, len(mono) - spf, spf)` is speech. None when `range`
   * raises because the frame length is 0.
   */
  function ContainsVoiceAsWritten(chunk: seq<Frame>, sampleRate: int, vad: Option<Vad>): Option<bool>
  {
    if vad.None? then Some(true)
    else
      var spf := SamplesPerVadFrame(sampleRate);
      var mono := Mono(chunk);
      if spf == 0 then None
      else if spf < 0 then Some(false)    // a negative step over an ascending range yields nothing
      else Some(AnySpeech(mono, spf, 0, |mono| - spf, vad.value))
  }

  /** `_contains_voice` as evidently intended: every full frame is examined, the last one included. */
  function ContainsVoice(chunk: seq<Frame>, sampleRate: int, vad: Option<Vad>): Option<bool>
  {
    if vad.None? then Some(true)
    else
      var spf := SamplesPerVadFrame(sampleRate);
      var mono := Mono(chunk);
      if spf == 0 then None
      else if spf < 0 then Some(false)
      else Some(AnySpeech(mono, spf, 0, |mono| - spf + 1, vad.value))
  }

  /** Without a VAD every chunk counts as voice. */
  lemma NoVadMeansVoice(chunk: seq<Frame>, sampleRate: int)
    ensures ContainsVoice(chunk, sampleRate, None) == Some(true)
    ensures ContainsVoiceAsWritten(chunk, sampleRate, None) == Some(true)
  {
  }

  /**
   * As written, a chunk holding exactly one VAD frame of speech is never
   * voice: the range stops one frame short.
   */
  lemma ContainsVoiceMissesLastFrame()
    ensures var chunk := seq(480, _ => [0]);
      var speech := (frame: seq<int>) => true;
      ContainsVoiceAsWritten(chunk, 16000, Some(speech)) == Some(false)
      && ContainsVoice(chunk, 16000, Some(speech)) == Some(true)
  {
    var chunk: seq<Frame> := seq(480, _ => [0]);
    assert SamplesPerVadFrame(16000) == 480;
    assert |Mono(chunk)| == 480;
  }

  lemma {:induction false} AnySpeechFinds(mono: seq<int>, spf: nat, start: nat, stop: int, vad: Vad, j: nat)
    requires spf > 0 && stop <= |mono| - spf + 1
    requires start + j * spf < stop && vad(mono[start + j * spf..start + j * spf + spf])
    ensures AnySpeech(mono, spf, start, stop, vad)
    decreases j
  {
    if j > 0 {
      assert start + j * spf == (start + spf) + (j - 1) * spf;
      AnySpeechFinds(mono, spf, start + spf, stop, vad, j - 1);
    }
  }

  lemma {:induction false} AnySpeechWitness(mono: seq<int>, spf: nat, start: nat, stop: int, vad: Vad)
    requires spf > 0 && stop <= |mono| - spf + 1
    requires AnySpeech(mono, spf, start, stop, vad)
    ensures exists s :: start <= s && SpeechAt(mono, spf, s, vad)
    decreases stop - start
  {
    if !vad(mono[start..start + spf]) {
      AnySpeechWitness(mono, spf, start + spf, stop, vad);
    } else {
      assert SpeechAt(mono, spf, start, vad);
    }
  }

  /**
   * The corrected check finds speech in any full frame of the chunk, and
   * reports voice only when some full frame is speech.
   */
  lemma ContainsVoiceExamined(chunk: seq<Frame>, sampleRate: int, vad: Vad)
    requires SamplesPerVadFrame(sampleRate) > 0
    ensures var spf := SamplesPerVadFrame(sampleRate);
      forall m: nat :: (m + 1) * spf <= |chunk| && vad(Mono(chunk)[m * spf..m * spf + spf]) ==>
        ContainsVoice(chunk, sampleRate, Some(vad)) == Some(true)
    ensures ContainsVoice(chunk, sampleRate, Some(vad)) == Some(true) ==>
      exists s :: SpeechAt(Mono(chunk), SamplesPerVadFrame(sampleRate), s, vad)
  {
    var spf := SamplesPerVadFrame(sampleRate);
    var mono := Mono(chunk);
    forall m: nat | (m + 1) * spf <= |chunk| && vad(mono[m * spf..m * spf + spf])
      ensures ContainsVoice(chunk, sampleRate, Some(vad)) == Some(true)
    {
      assert 0 + m * spf == m * spf;
      AnySpeechFinds(mono, spf, 0, |mono| - spf + 1, vad, m);
    }
    if ContainsVoice(chunk, sampleRate, Some(vad)) == Some(true) {
      AnySpeechWitness(mono, spf, 0, |mono| - spf + 1, vad);
    }
  }

  // --------------------------------------------------------------- the loop

  /**
   * The capture loop from queue item `k` on, with the flag cleared before item
   * `stopAt`. A chunk is appended to the segment; unless the VAD scan as
   * written (`ContainsVoiceAsWritten`) rejects it, a segment of at least
   * `SamplesPerSegment` samples is cut and the segment restarts, whether or
   * not the write succeeded.
   */
  function SegmentLoop(items: seq<QueueItem>, k: nat, stopAt: nat, config: AudioCaptureConfig, vad: Option<Vad>, s: LoopState): (r: LoopState)
    requires k <= |items| && k <= stopAt && s.consumed == k
    ensures k <= r.consumed
    ensures r.consumed <= stopAt ==> r.consumed <= |items|
    ensures r.consumed > stopAt ==> r.consumed == stopAt + 1 && stopAt <= |items|
    decreases |items| - k
  {
    if k >= stopAt then s.(consumed := k + 1)     // flag clear: the next item, whatever it is, ends the loop
    else if k == |items| then s                   // nothing more arrives
    else match items[k]
      case Timeout => SegmentLoop(items, k + 1, stopAt, config, vad, s.(consumed := k + 1))
      case Sentinel => s.(consumed := k + 1)
      case Chunk(frames, writeOk) =>
        var buf := s.buffer + frames;
        match ContainsVoiceAsWritten(frames, config.sampleRate, vad)
        case None => s.(buffer := buf, consumed := k + 1)      // the exception ends the loop
        case Some(voiced) =>
          if voiced && |buf| >= SamplesPerSegment(config) then
            SegmentLoop(items, k + 1, stopAt, config, vad, LoopState(s.cuts + [Cut(buf, writeOk)], [], k + 1))
          else
            SegmentLoop(items, k + 1, stopAt, config, vad, LoopState(s.cuts, buf, k + 1))
  }

  /** One chunk taken while running: what the loop does with it, and that it goes on from the next item. */
  lemma SegmentLoopChunkStep(items: seq<QueueItem>, k: nat, stopAt: nat, config: AudioCaptureConfig, vad: Option<Vad>,
                             cuts: seq<Cut>, segment: seq<Frame>)
    requires k < |items| && k < stopAt && items[k].Chunk?
    ensures var buf := segment + items[k].frames;
      var voiced := ContainsVoiceAsWritten(items[k].frames, config.sampleRate, vad);
      SegmentLoop(items, k, stopAt, config, vad, LoopState(cuts, segment, k)) ==
        if voiced.None? then LoopState(cuts, buf, k + 1)
        else if voiced.value && |buf| >= SamplesPerSegment(config) then
          SegmentLoop(items, k + 1, stopAt, config, vad, LoopState(cuts + [Cut(buf, items[k].writeOk)], [], k + 1))
        else SegmentLoop(items, k + 1, stopAt, config, vad, LoopState(cuts, buf, k + 1))
  {
  }

  /** Announcing after what was announced so far: concatenation regroups. */
  lemma AnnouncedGrows(start: seq<seq<Frame>>, written: seq<seq<Frame>>, added: seq<seq<Frame>>)
    ensures start + written + added == start + (written + added)
  {
  }

  /** All samples of the given cuts, in order. */
  function CutSamples(cuts: seq<Cut>): seq<Frame>
  {
    if cuts == [] then [] else CutSamples(cuts[..|cuts| - 1]) + cuts[|cuts| - 1].samples
  }

  /** The segments that reached disk, in order: what `audio_file_ready` announces. */
  function Written(cuts: seq<Cut>): seq<seq<Frame>>
  {
    if cuts == [] then []
    else Written(cuts[..|cuts| - 1]) + (if cuts[|cuts| - 1].written then [cuts[|cuts| - 1].samples] else [])
  }

  /** A cut adds its samples to what reached disk exactly when its file was written. */
  lemma WrittenAppend(cuts: seq<Cut>, c: Cut)
    ensures Written(cuts + [c]) == Written(cuts) + (if c.written then [c.samples] else [])
  {
    assert (cuts + [c])[..|cuts|] == cuts;
  }

  /** The samples of the chunks in `items[from..to]`, in order. */
  function ChunkSamples(items: seq<QueueItem>, from: nat, to: nat): seq<Frame>
    requires from <= to <= |items|
    decreases |items| - from
  {
    if from == to then []
    else (if items[from].Chunk? then items[from].frames else []) + ChunkSamples(items, from + 1, to)
  }

  function Min(a: int, b: int): int
  {
    if a <= b then a else b
  }

  /**
   * Nothing is lost or invented: the segments cut, then the partial segment
   * left when the loop ends, are exactly the samples of the chunks taken
   * before the loop ended (a chunk dequeued after `stop` is dropped).
   */
  lemma {:induction false} SegmentLoopConserves(items: seq<QueueItem>, k: nat, stopAt: nat, config: AudioCaptureConfig, vad: Option<Vad>, s: LoopState)
    requires k <= |items| && k <= stopAt && s.consumed == k
    ensures var r := SegmentLoop(items, k, stopAt, config, vad, s);
      k <= Min(r.consumed, stopAt) <= |items|
      && CutSamples(r.cuts) + r.buffer == CutSamples(s.cuts) + s.buffer + ChunkSamples(items, k, Min(r.consumed, stopAt))
    decreases |items| - k, 3
  {
    var r := SegmentLoop(items, k, stopAt, config, vad, s);
    if k >= stopAt || k == |items| {
      assert ChunkSamples(items, k, k) == [];
    } else if items[k].Timeout? {
      var next := s.(consumed := k + 1);
      SegmentLoopConserves(items, k + 1, stopAt, config, vad, next);
      ChunkSamplesStep(items, k, Min(r.consumed, stopAt));
    } else if items[k].Sentinel? {
      ChunkSamplesStep(items, k, k + 1);
      assert ChunkSamples(items, k + 1, k + 1) == [];
    } else {
      ChunkConserves(items, k, stopAt, config, vad, s);
    }
  }

  /** The conservation step for a chunk taken while running. */
  lemma {:induction false} ChunkConserves(items: seq<QueueItem>, k: nat, stopAt: nat, config: AudioCaptureConfig, vad: Option<Vad>, s: LoopState)
    requires k < |items| && k < stopAt && s.consumed == k && items[k].Chunk?
    ensures var r := SegmentLoop(items, k, stopAt, config, vad, s);
      k <= Min(r.consumed, stopAt) <= |items|
      && CutSamples(r.cuts) + r.buffer == CutSamples(s.cuts) + s.buffer + ChunkSamples(items, k, Min(r.consumed, stopAt))
    decreases |items| - k, 2
  {
    if ContainsVoiceAsWritten(items[k].frames, config.sampleRate, vad).None? {
      ChunkSamplesStep(items, k, k + 1);
      assert ChunkSamples(items, k + 1, k + 1) == [];
    } else {
      ChunkVoicedConserves(items, k, stopAt, config, vad, s);
    }
  }

  /** The conservation step for a chunk whose voice check succeeded: it is cut or buffered. */
  lemma {:induction false} ChunkVoicedConserves(items: seq<QueueItem>, k: nat, stopAt: nat, config: AudioCaptureConfig, vad: Option<Vad>, s: LoopState)
    requires k < |items| && k < stopAt && s.consumed == k && items[k].Chunk?
    requires ContainsVoiceAsWritten(items[k].frames, config.sampleRate, vad).Some?
    ensures var r := SegmentLoop(items, k, stopAt, config, vad, s);
      k <= Min(r.consumed, stopAt) <= |items|
      && CutSamples(r.cuts) + r.buffer == CutSamples(s.cuts) + s.buffer + ChunkSamples(items, k, Min(r.consumed, stopAt))
    decreases |items| - k, 1
  {
    var frames, writeOk := items[k].frames, items[k].writeOk;
    var buf := s.buffer + frames;
    var cut := ContainsVoiceAsWritten(frames, config.sampleRate, vad).value && |buf| >= SamplesPerSegment(config);
    var next := if cut then LoopState(s.cuts + [Cut(buf, writeOk)], [], k + 1) else LoopState(s.cuts, buf, k + 1);
    assert SegmentLoop(items, k, stopAt, config, vad, s) == SegmentLoop(items, k + 1, stopAt, config, vad, next);
    if cut {
      assert (s.cuts + [Cut(buf, writeOk)])[..|s.cuts|] == s.cuts;
    }
    NextConserves(items, k, stopAt, config, vad, s, next);
  }

  /** Once a chunk's samples are accounted for in the next state, the rest of the loop keeps them. */
  lemma {:induction false} NextConserves(items: seq<QueueItem>, k: nat, stopAt: nat, config: AudioCaptureConfig, vad: Option<Vad>, s: LoopState, next: LoopState)
    requires k < |items| && k < stopAt && next.consumed == k + 1 && items[k].Chunk?
    requires CutSamples(next.cuts) + next.buffer == CutSamples(s.cuts) + s.buffer + items[k].frames
    ensures var r := SegmentLoop(items, k + 1, stopAt, config, vad, next);
      k <= Min(r.consumed, stopAt) <= |items|
      && CutSamples(r.cuts) + r.buffer == CutSamples(s.cuts) + s.buffer + ChunkSamples(items, k, Min(r.consumed, stopAt))
    decreases |items| - k, 0
  {
    var r := SegmentLoop(items, k + 1, stopAt, config, vad, next);
    SegmentLoopConserves(items, k + 1, stopAt, config, vad, next);
    ChunkSamplesStep(items, k, Min(r.consumed, stopAt));
  }

  lemma ChunkSamplesStep(items: seq<QueueItem>, from: nat, to: nat)
    requires from < to <= |items|
    ensures ChunkSamples(items, from, to) == (if items[from].Chunk? then items[from].frames else []) + ChunkSamples(items, from + 1, to)
  {
  }

  /** Every segment cut (and so every file written) holds at least `segment_seconds * sample_rate` samples. */
  lemma {:induction false} SegmentLoopCutsFull(items: seq<QueueItem>, k: nat, stopAt: nat, config: AudioCaptureConfig, vad: Option<Vad>, s: LoopState)
    requires k <= |items| && k <= stopAt && s.consumed == k
    requires forall c :: c in s.cuts ==> |c.samples| >= SamplesPerSegment(config)
    ensures forall c :: c in SegmentLoop(items, k, stopAt, config, vad, s).cuts ==> |c.samples| >= SamplesPerSegment(config)
    decreases |items| - k
  {
    if k < stopAt && k < |items| {
      match items[k]
      case Timeout =>
        SegmentLoopCutsFull(items, k + 1, stopAt, config, vad, s.(consumed := k + 1));
      case Sentinel =>
      case Chunk(frames, writeOk) =>
        var buf := s.buffer + frames;
        match ContainsVoiceAsWritten(frames, config.sampleRate, vad)
        case None =>
        case Some(voiced) =>
          if voiced && |buf| >= SamplesPerSegment(config) {
            SegmentLoopCutsFull(items, k + 1, stopAt, config, vad, LoopState(s.cuts + [Cut(buf, writeOk)], [], k + 1));
          } else {
            SegmentLoopCutsFull(items, k + 1, stopAt, config, vad, LoopState(s.cuts, buf, k + 1));
          }
    }
  }

  lemma {:induction false} WrittenAreCuts(cuts: seq<Cut>)
    ensures forall w :: w in Written(cuts) ==> Cut(w, true) in cuts
  {
    if cuts != [] {
      WrittenAreCuts(cuts[..|cuts| - 1]);
    }
  }

  /**
   * Every segment a run writes and announces holds at least
   * `segment_seconds * sample_rate` samples.
   */
  lemma AnnouncedSegmentsFull(items: seq<QueueItem>, stopAt: nat, config: AudioCaptureConfig, vad: Option<Vad>)
    ensures forall w :: w in Written(SegmentLoop(items, 0, stopAt, config, vad, LoopState([], [], 0)).cuts) ==>
      |w| >= SamplesPerSegment(config)
  {
    var r := SegmentLoop(items, 0, stopAt, config, vad, LoopState([], [], 0));
    SegmentLoopCutsFull(items, 0, stopAt, config, vad, LoopState([], [], 0));
    WrittenAreCuts(r.cuts);
  }

  /**
   * Without a VAD, the partial segment left when the loop ends is shorter
   * than a full segment (or empty): a full one would have been cut.
   */
  lemma {:induction false} SegmentLoopLeftoverShort(items: seq<QueueItem>, k: nat, stopAt: nat, config: AudioCaptureConfig, s: LoopState)
    requires k <= |items| && k <= stopAt && s.consumed == k
    requires s.buffer == [] || |s.buffer| < SamplesPerSegment(config)
    ensures var r := SegmentLoop(items, k, stopAt, config, None, s);
      r.buffer == [] || |r.buffer| < SamplesPerSegment(config)
    decreases |items| - k
  {
    if k < stopAt && k < |items| {
      match items[k]
      case Timeout =>
        SegmentLoopLeftoverShort(items, k + 1, stopAt, config, s.(consumed := k + 1));
      case Sentinel =>
      case Chunk(frames, writeOk) =>
        var buf := s.buffer + frames;
        if |buf| >= SamplesPerSegment(config) {
          SegmentLoopLeftoverShort(items, k + 1, stopAt, config, LoopState(s.cuts + [Cut(buf, writeOk)], [], k + 1));
        } else {
          SegmentLoopLeftoverShort(items, k + 1, stopAt, config, LoopState(s.cuts, buf, k + 1));
        }
    }
  }

  /**
   * The loop ends at the first sentinel taken while running, and at the
   * latest on the first item taken after `stop`.
   */
  lemma {:induction false} SegmentLoopEnds(items: seq<QueueItem>, k: nat, stopAt: nat, config: AudioCaptureConfig, vad: Option<Vad>, s: LoopState, j: nat)
    requires k <= j < |items| && j < stopAt && items[j] == Sentinel && s.consumed == k
    ensures SegmentLoop(items, k, stopAt, config, vad, s).consumed <= j + 1
    decreases |items| - k
  {
    if k < j {
      match items[k]
      case Timeout =>
        SegmentLoopEnds(items, k + 1, stopAt, config, vad, s.(consumed := k + 1), j);
      case Sentinel =>
      case Chunk(frames, writeOk) =>
        var buf := s.buffer + frames;
        match ContainsVoiceAsWritten(frames, config.sampleRate, vad)
        case None =>
        case Some(voiced) =>
          if voiced && |buf| >= SamplesPerSegment(config) {
            SegmentLoopEnds(items, k + 1, stopAt, config, vad, LoopState(s.cuts + [Cut(buf, writeOk)], [], k + 1), j);
          } else {
            SegmentLoopEnds(items, k + 1, stopAt, config, vad, LoopState(s.cuts, buf, k + 1), j);
          }
    }
  }

  class AudioCapture {
    const config: AudioCaptureConfig
    var queue: seq<QueueItem>          // items waiting in `_q`
    var streamOpen: bool               // `_stream` is set and active
    var running: bool
    var vad: Option<Vad>               // `_vad`: the source never assigns a detector
    var announced: seq<seq<Frame>>     // segments written and emitted through `audio_file_ready`

    constructor (config: AudioCaptureConfig)
      ensures this.config == config && queue == [] && !streamOpen && !running && vad == None && announced == []
    {
      this.config := config;
      queue := [];
      streamOpen := false;
      running := false;
      vad := None;
      announced := [];
    }

    /** `stop`: clear the flag and wake the loop with a sentinel. */
    method Stop()
      modifies this`running, this`queue
      ensures !running && queue == old(queue) + [Sentinel]
      ensures streamOpen == old(streamOpen) && vad == old(vad) && announced == old(announced)
    {
      running := false;
      queue := queue + [Sentinel];
    }

    /** A segment whose file was written is emitted through `audio_file_ready`. */
    method Announce(segment: seq<Frame>, writeOk: bool)
      modifies this`announced
      ensures announced == old(announced) + (if writeOk then [segment] else [])
    {
      if writeOk {
        announced := announced + [segment];
      }
    }

    /**
     * `start`: open the stream (`streamOk` says whether that succeeds), then
     * take queue items until the loop ends, cutting and writing segments; the
     * stream is closed on the way out. `stop()` runs just before the item with
     * index `stopAt` is taken.
     */
    method Start(streamOk: bool, stopAt: nat)
      modifies this
      ensures !streamOk ==> !running && queue == old(queue) && announced == old(announced) && streamOpen == old(streamOpen)
      ensures streamOk ==>
        var r := SegmentLoop(old(queue), 0, stopAt, config, old(vad), LoopState([], [], 0));
        && announced == old(announced) + Written(r.cuts)
        && running == (r.consumed <= stopAt)
        && queue == (if r.consumed > stopAt then old(queue) + [Sentinel] else old(queue))[r.consumed..]
        && !streamOpen
      ensures vad == old(vad)
    {
      running := true;
      if !streamOk {
        running := false;
        return;
      }
      streamOpen := true;
      ghost var items := queue;
      ghost var final := SegmentLoop(items, 0, stopAt, config, vad, LoopState([], [], 0));
      var segment: seq<Frame> := [];
      ghost var cuts: seq<Cut> := [];
      var k := 0;
      while true
        invariant k <= |items| && k <= stopAt && running
        invariant queue == items[k..]
        invariant SegmentLoop(items, k, stopAt, config, vad, LoopState(cuts, segment, k)) == final
        invariant announced == old(announced) + Written(cuts)
        invariant streamOpen && vad == old(vad)
        decreases |items| - k
      {
        if k == stopAt {
          // the other thread's `stop()` lands between two dequeues
          Stop();
          assert queue == (items + [Sentinel])[k..];
          queue := queue[1..];
          k := k + 1;
          break;
        }
        if queue == [] {
          break;    // nothing more arrives
        }
        var item := queue[0];
        queue := queue[1..];
        assert item == items[k];
        match item {
          case Timeout =>
            assert SegmentLoop(items, k + 1, stopAt, config, vad, LoopState(cuts, segment, k + 1)) == final;
          case Sentinel =>
            k := k + 1;
            break;
          case Chunk(frames, writeOk) =>
            SegmentLoopChunkStep(items, k, stopAt, config, vad, cuts, segment);
            segment := segment + frames;
            var voiced := ContainsVoiceAsWritten(frames, config.sampleRate, vad);
            if voiced.None? {
              k := k + 1;
              break;    // the exception leaves the loop
            }
            if voiced.value && |segment| >= SamplesPerSegment(config) {
              WrittenAppend(cuts, Cut(segment, writeOk));
              Announce(segment, writeOk);
              AnnouncedGrows(old(announced), Written(cuts), if writeOk then [segment] else []);
              cuts := cuts + [Cut(segment, writeOk)];
              segment := [];
            }
            assert SegmentLoop(items, k + 1, stopAt, config, vad, LoopState(cuts, segment, k + 1)) == final;
        }
        k := k + 1;
      }
      streamOpen := false;
    }
  }
}
