/**
 * The local language model front end (src/intelligence/llm_interface.py):
 * the prompt it builds, the result it falls back to, and how the generated
 * text becomes a workflow description.
 *
 * Loading the model and generating text are oracles, and so is `json.loads`
 * (a `JsonParser`: the decoded value, or None when it raises). Python's
 * `str()` of the screen and event lists is taken as given text.
 */
module LlmInterface {
  import opened Wrappers
  import opened Json
  import opened Strings

  type JsonParser = string -> Option<Json>

  /** The result with the given summary, no steps, not repetitive, low potential. */
  function Fallback(summary: string): Dict
  {
    map["workflow_summary" := JStr(summary), "steps" := JList([]),
        "is_repetitive" := JBool(false), "automation_potential" := JStr("low")]
  }

  /** What `analyze_workflow` returns with no model, or when generation raises. */
  const DefaultResult: Dict := Fallback("")

  const FenceChars: set<char> := {'`', ' '}

  /**
   * `_safe_json` as written: fences are stripped only from a text starting
   * with the four characters "```)", so a fenced reply is handed to the
   * parser fences and all.
   */
  function SafeJsonAsWritten(text: string, parse: JsonParser): Json
  {
    var t := Strip(text);
    var u := if StartsWith(t, "```)") then StripChars(t, FenceChars) else t;
    match parse(u)
    case Some(j) => j
    case None => JObj(Fallback(Take(u, 200)))
  }

  /** `_safe_json` with the fence test on "```", as evidently intended. */
  function SafeJson(text: string, parse: JsonParser): Json
  {
    var t := Strip(text);
    var u := if StartsWith(t, "```") then StripChars(t, FenceChars) else t;
    match parse(u)
    case Some(j) => j
    case None => JObj(Fallback(Take(u, 200)))
  }

  /**
   * `_safe_json` as written: a stripped text without the "```)" marker that
   * parses gives the parsed value; one that does not gives the fallback whose
   * summary is at most the first 200 characters of the text.
   */
  lemma SafeJsonOutcome(text: string, parse: JsonParser)
    requires !StartsWith(Strip(text), "```)")
    ensures parse(Strip(text)).Some? ==> SafeJsonAsWritten(text, parse) == parse(Strip(text)).value
    ensures parse(Strip(text)).None? ==>
      var summary := Take(Strip(text), 200);
      && SafeJsonAsWritten(text, parse) == JObj(Fallback(summary))
      && |summary| <= 200 && StartsWith(Strip(text), summary)
      && (|Strip(text)| <= 200 ==> summary == Strip(text))
  {
  }

  /** What the parser or the fallback makes of an already unfenced text. */
  function SafeJsonWith(u: string, parse: JsonParser): Json
  {
    match parse(u)
    case Some(j) => j
    case None => JObj(Fallback(Take(u, 200)))
  }

  /** A fenced text is left alone by stripping whitespace, since it starts and ends with a backtick. */
  lemma FencedIsStripped(body: string)
    ensures Strip("```" + body + "```") == "```" + body + "```"
  {
    var t := "```" + body + "```";
    assert t[0] == '`' && t[|t| - 1] == '`';
    assert '`' !in Whitespace;
  }

  /** Stripping backticks and spaces from a fenced text leaves its body when the body has none at its ends. */
  lemma UnfenceBody(body: string)
    requires body != [] && body[0] !in FenceChars && body[|body| - 1] !in FenceChars
    ensures StripChars("```" + body + "```", FenceChars) == body
  {
    var t := "```" + body + "```";
    var u := body + "```";
    assert t[1..][1..][1..] == u;
    assert StripLeft(t, FenceChars) == StripLeft(t[1..], FenceChars) == StripLeft(t[1..][1..], FenceChars) == StripLeft(u, FenceChars);
    assert StripLeft(u, FenceChars) == u;
    var u1 := u[..|u| - 1];
    var u2 := u1[..|u1| - 1];
    assert u2[..|u2| - 1] == body;
    assert StripRight(u, FenceChars) == StripRight(u1, FenceChars) == StripRight(u2, FenceChars) == StripRight(body, FenceChars);
  }

  /** With the intended test, a fenced reply is parsed without its fences. */
  lemma SafeJsonUnfences(body: string, parse: JsonParser)
    requires body != [] && body[0] !in FenceChars && body[|body| - 1] !in FenceChars
    ensures SafeJson("```" + body + "```", parse) == SafeJsonWith(body, parse)
  {
    FencedIsStripped(body);
    UnfenceBody(body);
    assert StartsWith("```" + body + "```", "```");
  }

  /** As written, a fenced reply whose body does not start with ')' goes to the parser fences and all. */
  lemma SafeJsonAsWrittenKeepsFences(body: string, parse: JsonParser)
    requires body == [] || body[0] != ')'
    ensures SafeJsonAsWritten("```" + body + "```", parse) == SafeJsonWith("```" + body + "```", parse)
  {
    FencedIsStripped(body);
    var t := "```" + body + "```";
    assert !StartsWith(t, "```)") by {
      if body == [] {
        assert t[3] == '`';
      } else {
        assert t[3] == body[0];
      }
    }
  }

  /**
   * The fenced reply "```\n{}\n```" is never unfenced as written: a parser
   * that rejects it (as `json.loads` does) makes the result the fallback,
   * where the intended test hands the parser the bare "\n{}\n".
   */
  lemma FenceCheckMissesFence(parse: JsonParser)
    requires parse("```\n{}\n```").None?
    requires parse("\n{}\n") == Some(JObj(map[]))
    ensures SafeJsonAsWritten("```\n{}\n```", parse) == JObj(Fallback("```\n{}\n```"))
    ensures SafeJson("```\n{}\n```", parse) == JObj(map[])
  {
    var body := "\n{}\n";
    assert "```" + body + "```" == "```\n{}\n```";
    SafeJsonAsWrittenKeepsFences(body, parse);
    SafeJsonUnfences(body, parse);
  }

  /**
   * `analyze_workflow` as written. `torch` is imported inside `_init` only, so
   * with a loaded model the `with torch.no_grad()` line raises NameError
   * before anything is generated, and the handler returns the default; the
   * prompt, the generated text and the parser never reach the result.
   */
  function AnalyzeWorkflow(loaded: bool, prompt: string, generated: Option<string>, parse: JsonParser): Json
  {
    if !loaded then JObj(DefaultResult)
    else JObj(DefaultResult)  // NameError on `torch`, caught
  }

  /**
   * `analyze_workflow` with `torch` bound at module level, as evidently
   * intended: `generated` is the decoded output of the model (None when
   * generation raises); the reply is what follows the prompt's length and
   * goes through `_safe_json` as written.
   */
  function AnalyzeWorkflowIntended(loaded: bool, prompt: string, generated: Option<string>, parse: JsonParser): Json
  {
    if !loaded then JObj(DefaultResult)
    else
      match generated
      case None => JObj(DefaultResult)
      case Some(decoded) => SafeJsonAsWritten(Strip(Drop(decoded, |prompt|)), parse)
  }

  /**
   * As written, every call gives the default result, which is never marked
   * repetitive: summary "", no steps, potential "low".
   */
  lemma AnalyzeWorkflowDefaults(loaded: bool, prompt: string, generated: Option<string>, parse: JsonParser)
    ensures AnalyzeWorkflow(loaded, prompt, generated, parse) == JObj(DefaultResult)
    ensures DefaultResult["workflow_summary"] == JStr("") && DefaultResult["steps"] == JList([])
      && DefaultResult["is_repetitive"] == JBool(false) && DefaultResult["automation_potential"] == JStr("low")
  {
  }

  /**
   * With `torch` bound, a loaded model's reply, the text after the prompt,
   * is what the parser makes of it, unless it starts with the "```)" marker;
   * without a model, or when generation raises, the result is the default.
   */
  lemma {:induction false} AnalyzeWorkflowIntendedReply(loaded: bool, prompt: string, reply: string, parse: JsonParser)
    requires !StartsWith(Strip(reply), "```)")
    ensures loaded && parse(Strip(reply)).Some? ==>
      AnalyzeWorkflowIntended(loaded, prompt, Some(prompt + reply), parse) == parse(Strip(reply)).value
    ensures loaded && parse(Strip(reply)).None? ==>
      AnalyzeWorkflowIntended(loaded, prompt, Some(prompt + reply), parse) == JObj(Fallback(Take(Strip(reply), 200)))
    ensures !loaded ==> AnalyzeWorkflowIntended(loaded, prompt, Some(prompt + reply), parse) == JObj(DefaultResult)
    ensures AnalyzeWorkflowIntended(loaded, prompt, None, parse) == JObj(DefaultResult)
  {
    assert Drop(prompt + reply, |prompt|) == reply;
    StripIdempotent(reply);
  }

  /**
   * A loaded model whose reply parses to a workflow other than the default
   * (one marked repetitive, say) has that workflow returned once `torch` is
   * bound, but as written the caller gets the default.
   */
  lemma TorchNameErrorDiscardsReply(prompt: string, reply: string, parse: JsonParser, w: Dict)
    requires !StartsWith(Strip(reply), "```)")
    requires parse(Strip(reply)) == Some(JObj(w)) && w != DefaultResult
    ensures AnalyzeWorkflowIntended(true, prompt, Some(prompt + reply), parse) == JObj(w)
    ensures AnalyzeWorkflow(true, prompt, Some(prompt + reply), parse) == JObj(DefaultResult) != JObj(w)
  {
    AnalyzeWorkflowIntendedReply(true, prompt, reply, parse);
  }

  const Intro: string := "You are analyzing user computer activity to understand their workflow.\n\n"

  /** A titled section of the prompt: the title, the body in a code fence, a blank line. */
  function Section(title: string, fence: string, body: string): string
  {
    title + fence + body + "\n```\n\n"
  }

  const TaskText: string := "Task: Describe what the user did in clear steps. Identify if this is a repetitive pattern.\n"
  /** The keys the reply is asked for, in the order the prompt names them. */
  const ReplyKeys: seq<string> := ["workflow_summary", "steps", "is_repetitive", "automation_potential"]

  const FormatText: string := "Format your response as JSON with keys " + Join(", ", ReplyKeys) + "."

  /** `_build_prompt`; `screenList` and `eventList` are the `str()` of the two lists. */
  function BuildPrompt(screenList: string, transcripts: seq<string>, eventList: string): string
  {
    Intro
    + Section("Screen States:", "\n```json\n", screenList)
    + Section("Audio Commands:", "\n```\n", Join("\n", transcripts))
    + Section("Event Log:", "\n```json\n", eventList)
    + TaskText + FormatText
  }

  /** A section carries its title and its body. */
  lemma SectionHas(title: string, fence: string, body: string)
    ensures Contains(Section(title, fence, body), title) && Contains(Section(title, fence, body), body)
  {
    var sec := Section(title, fence, body);
    assert sec[..|title|] == title;
    assert OccursAt(sec, title, 0);
    assert sec[|title + fence|..|title + fence| + |body|] == body;
    assert OccursAt(sec, body, |title + fence|);
  }

  /** Whatever the screen section holds, the prompt holds. */
  lemma InScreens(screenList: string, transcripts: seq<string>, eventList: string, x: string)
    requires Contains(Section("Screen States:", "\n```json\n", screenList), x)
    ensures Contains(BuildPrompt(screenList, transcripts, eventList), x)
  {
    var s := Section("Screen States:", "\n```json\n", screenList);
    var post := Section("Audio Commands:", "\n```\n", Join("\n", transcripts))
      + Section("Event Log:", "\n```json\n", eventList) + TaskText + FormatText;
    ContainsWithin(Intro, s, post, x);
    assert Intro + s + post == BuildPrompt(screenList, transcripts, eventList);
  }

  /** Whatever the audio section holds, the prompt holds. */
  lemma InAudio(screenList: string, transcripts: seq<string>, eventList: string, x: string)
    requires Contains(Section("Audio Commands:", "\n```\n", Join("\n", transcripts)), x)
    ensures Contains(BuildPrompt(screenList, transcripts, eventList), x)
  {
    var s := Section("Audio Commands:", "\n```\n", Join("\n", transcripts));
    var pre := Intro + Section("Screen States:", "\n```json\n", screenList);
    var post := Section("Event Log:", "\n```json\n", eventList) + TaskText + FormatText;
    ContainsWithin(pre, s, post, x);
    assert pre + s + post == BuildPrompt(screenList, transcripts, eventList);
  }

  /** Whatever the event section holds, the prompt holds. */
  lemma InEvents(screenList: string, transcripts: seq<string>, eventList: string, x: string)
    requires Contains(Section("Event Log:", "\n```json\n", eventList), x)
    ensures Contains(BuildPrompt(screenList, transcripts, eventList), x)
  {
    var s := Section("Event Log:", "\n```json\n", eventList);
    var pre := Intro + Section("Screen States:", "\n```json\n", screenList)
      + Section("Audio Commands:", "\n```\n", Join("\n", transcripts));
    ContainsWithin(pre, s, TaskText + FormatText, x);
    assert pre + s + (TaskText + FormatText) == BuildPrompt(screenList, transcripts, eventList);
  }

  /** The prompt has the three section headings. */
  lemma PromptHeadings(screenList: string, transcripts: seq<string>, eventList: string)
    ensures var p := BuildPrompt(screenList, transcripts, eventList);
      Contains(p, "Screen States:") && Contains(p, "Audio Commands:") && Contains(p, "Event Log:")
  {
    SectionHas("Screen States:", "\n```json\n", screenList);
    InScreens(screenList, transcripts, eventList, "Screen States:");
    SectionHas("Audio Commands:", "\n```\n", Join("\n", transcripts));
    InAudio(screenList, transcripts, eventList, "Audio Commands:");
    SectionHas("Event Log:", "\n```json\n", eventList);
    InEvents(screenList, transcripts, eventList, "Event Log:");
  }

  /** The prompt carries the screens, the transcripts one per line, and the events. */
  lemma PromptData(screenList: string, transcripts: seq<string>, eventList: string)
    ensures var p := BuildPrompt(screenList, transcripts, eventList);
      && Contains(p, screenList) && Contains(p, Join("\n", transcripts)) && Contains(p, eventList)
      && forall i :: 0 <= i < |transcripts| ==> Contains(p, transcripts[i])
  {
    var joined := Join("\n", transcripts);
    SectionHas("Screen States:", "\n```json\n", screenList);
    InScreens(screenList, transcripts, eventList, screenList);
    SectionHas("Audio Commands:", "\n```\n", joined);
    InAudio(screenList, transcripts, eventList, joined);
    SectionHas("Event Log:", "\n```json\n", eventList);
    InEvents(screenList, transcripts, eventList, eventList);
    forall i | 0 <= i < |transcripts|
      ensures Contains(BuildPrompt(screenList, transcripts, eventList), transcripts[i])
    {
      JoinContainsPart("\n", transcripts, i);
      ContainsWithin("Audio Commands:" + "\n```\n", joined, "\n```\n\n", transcripts[i]);
      assert "Audio Commands:" + "\n```\n" + joined + "\n```\n\n" == Section("Audio Commands:", "\n```\n", joined);
      InAudio(screenList, transcripts, eventList, transcripts[i]);
    }
  }

  /** Whatever the closing instruction holds, the prompt holds. */
  lemma InFormat(screenList: string, transcripts: seq<string>, eventList: string, x: string)
    requires Contains(FormatText, x)
    ensures Contains(BuildPrompt(screenList, transcripts, eventList), x)
  {
    var pre := Intro + Section("Screen States:", "\n```json\n", screenList)
      + Section("Audio Commands:", "\n```\n", Join("\n", transcripts))
      + Section("Event Log:", "\n```json\n", eventList) + TaskText;
    ContainsWithin(pre, FormatText, "", x);
    assert pre + FormatText + "" == BuildPrompt(screenList, transcripts, eventList);
  }

  /** The closing instruction names each key. */
  lemma FormatKeys(i: nat)
    requires i < |ReplyKeys|
    ensures Contains(FormatText, ReplyKeys[i])
  {
    JoinContainsPart(", ", ReplyKeys, i);
    ContainsWithin("Format your response as JSON with keys ", Join(", ", ReplyKeys), ".", ReplyKeys[i]);
  }

  /** The prompt names the four keys the reply is asked for. */
  lemma PromptKeys(screenList: string, transcripts: seq<string>, eventList: string)
    ensures var p := BuildPrompt(screenList, transcripts, eventList);
      && Contains(p, "workflow_summary") && Contains(p, "steps")
      && Contains(p, "is_repetitive") && Contains(p, "automation_potential")
  {
    forall i | 0 <= i < |ReplyKeys|
      ensures Contains(BuildPrompt(screenList, transcripts, eventList), ReplyKeys[i])
    {
      FormatKeys(i);
      InFormat(screenList, transcripts, eventList, ReplyKeys[i]);
    }
    assert ReplyKeys[0] == "workflow_summary" && ReplyKeys[1] == "steps";
    assert ReplyKeys[2] == "is_repetitive" && ReplyKeys[3] == "automation_potential";
  }
}
