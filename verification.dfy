/**
 * The action checks of src/automation/verification.py: which check a
 * verification name selects and with which arguments, and when each check
 * passes.
 *
 * The screenshot and its OCR, the foreground window titles and the
 * on-screen image search are observations given to the checks; the
 * polling loops that gather them until a timeout are not modelled, only
 * what was observed before the timeout.
 */
module Verification {
  import opened Wrappers
  import opened Json
  import opened Strings

  /** `any(needle in text.lower() for text in texts)`, in the order the generator visits them. */
  function AnyContains(needle: string, texts: seq<string>): bool
  {
    if texts == [] then false else Contains(Lower(texts[0]), needle) || AnyContains(needle, texts[1..])
  }

  lemma {:induction false} AnyContainsIff(needle: string, texts: seq<string>)
    ensures AnyContains(needle, texts) <==> exists k :: 0 <= k < |texts| && Contains(Lower(texts[k]), needle)
  {
    if texts != [] {
      AnyContainsIff(needle, texts[1..]);
      if AnyContains(needle, texts[1..]) {
        var k :| 0 <= k < |texts[1..]| && Contains(Lower(texts[1..][k]), needle);
        assert texts[k + 1] == texts[1..][k];
      }
      if exists k :: 0 <= k < |texts| && Contains(Lower(texts[k]), needle) {
        var k :| 0 <= k < |texts| && Contains(Lower(texts[k]), needle);
        if k > 0 {
          assert texts[1..][k - 1] == texts[k];
        }
      }
    }
  }

  /**
   * `verify_click_success` and `verify_text_input`: `shot` is the texts of the
   * OCR items found on the screenshot, None when taking or saving it raised.
   * A non-string expected text raises as soon as it is lowered.
   */
  function TextOnScreen(expected: Json, shot: Option<seq<string>>): bool
  {
    shot.Some? && expected.JStr? && AnyContains(Lower(expected.s), shot.value)
  }

  /**
   * A text check passes exactly when the lower-cased expected text occurs in
   * the lower-cased text of some item on the screenshot: never when no text
   * was read or the screenshot failed.
   */
  lemma TextOnScreenIff(expected: string, shot: Option<seq<string>>)
    ensures TextOnScreen(JStr(expected), shot) <==>
      shot.Some? && exists k :: 0 <= k < |shot.value| && Contains(Lower(shot.value[k]), Lower(expected))
    ensures shot == Some([]) || shot.None? ==> !TextOnScreen(JStr(expected), shot)
  {
    if shot.Some? {
      AnyContainsIff(Lower(expected), shot.value);
    }
  }

  /** Letter case does not matter on either side, and an empty expected text is found on any screen with text. */
  lemma TextOnScreenCase(expected: string, texts: seq<string>)
    ensures TextOnScreen(JStr(Lower(expected)), Some(texts)) == TextOnScreen(JStr(expected), Some(texts))
    ensures TextOnScreen(JStr(""), Some(texts)) <==> texts != []
  {
    LowerIdempotent(expected);
    if texts != [] {
      assert OccursAt(Lower(texts[0]), "", 0);
    }
  }

  /** What the window check saw: no win32 API, the titles it read, or a call that raised. */
  datatype WindowProbe = NoWin32 | Titles(titles: seq<string>) | WindowRaised

  /** `time.time() - start < timeout` compares with a number; anything else raises. */
  function TimeoutSeconds(timeout: Json): Option<real>
  {
    match timeout
    case JInt(i) => Some(i as real)
    case JReal(r) => Some(r)
    case JBool(b) => Some(if b then 1.0 else 0.0)
    case _ => None
  }

  /**
   * `verify_window_change`: with time left, the first poll either finds no
   * win32 API (pass) or reads titles until one contains the expected title.
   */
  function WindowChanged(expected: Json, timeout: Json, probe: WindowProbe): bool
  {
    match TimeoutSeconds(timeout)
    case None => false
    case Some(t) =>
      t > 0.0 &&
      match probe
      case NoWin32 => true
      case WindowRaised => false
      case Titles(ts) => ts != [] && expected.JStr? && AnyContains(Lower(expected.s), ts)
  }

  /** Without the win32 API the window check passes whenever it gets to poll. */
  lemma WindowCheckWithoutWin32(expected: Json, timeout: Json)
    ensures WindowChanged(expected, timeout, NoWin32) <==> TimeoutSeconds(timeout).Some? && TimeoutSeconds(timeout).value > 0.0
  {
  }

  /**
   * `verify_element_appeared`: `found` is, per poll before the timeout, whether
   * the image was located; None when the search raised.
   */
  function ElementAppeared(timeout: Json, found: Option<seq<bool>>): bool
  {
    match TimeoutSeconds(timeout)
    case None => false
    case Some(t) => t > 0.0 && found.Some? && true in found.value
  }

  /** A check as `get_verification_result` selects it, with its arguments. */
  datatype Check =
    | ClickSuccess(expectedText: Json, region: Json)
    | WindowChange(expectedTitle: Json, timeout: Json)
    | TextInput(expectedText: Json, fieldRegion: Json)
    | ElementShown(imagePath: Json, timeout: Json)
    | UnknownCheck

  /** The dispatch of `get_verification_result`, by exact name, with its keyword defaults. */
  function Route(kind: string, kwargs: Dict): Check
  {
    if kind == "click_success" then ClickSuccess(Get(kwargs, "expected_text", JStr("")), Get(kwargs, "region", JNull))
    else if kind == "window_change" then WindowChange(Get(kwargs, "expected_title", JStr("")), Get(kwargs, "timeout", JInt(5)))
    else if kind == "text_input" then TextInput(Get(kwargs, "expected_text", JStr("")), Get(kwargs, "field_region", JNull))
    else if kind == "element_appeared" then ElementShown(Get(kwargs, "image_path", JStr("")), Get(kwargs, "timeout", JInt(5)))
    else UnknownCheck
  }

  /** What the checks observe: the OCR of the screenshot, the window probe, the image search. */
  datatype Observations = Observations(shot: Option<seq<string>>, window: WindowProbe, found: Option<seq<bool>>)

  /** `get_verification_result` */
  function VerificationResult(kind: string, kwargs: Dict, obs: Observations): bool
  {
    match Route(kind, kwargs)
    case ClickSuccess(e, _) => TextOnScreen(e, obs.shot)
    case WindowChange(t, timeout) => WindowChanged(t, timeout, obs.window)
    case TextInput(e, _) => TextOnScreen(e, obs.shot)
    case ElementShown(_, timeout) => ElementAppeared(timeout, obs.found)
    case UnknownCheck => true
  }

  /**
   * Only the four exact names select a check, whatever their case; any other
   * name passes without looking at the screen. Missing texts default to ""
   * and missing timeouts to 5 seconds.
   */
  lemma RouteByExactName(kind: string, kwargs: Dict, obs: Observations)
    ensures kind !in {"click_success", "window_change", "text_input", "element_appeared"} ==>
      Route(kind, kwargs) == UnknownCheck && VerificationResult(kind, kwargs, obs)
    ensures "expected_text" !in kwargs ==>
      Route("click_success", kwargs).expectedText == JStr("") && Route("text_input", kwargs).expectedText == JStr("")
    ensures "timeout" !in kwargs ==>
      Route("window_change", kwargs).timeout == JInt(5) && Route("element_appeared", kwargs).timeout == JInt(5)
    ensures "expected_title" !in kwargs ==> Route("window_change", kwargs).expectedTitle == JStr("")
    ensures "image_path" !in kwargs ==> Route("element_appeared", kwargs).imagePath == JStr("")
  {
  }

  /** A screenshot, window read or image search that raised fails the check that needed it. */
  lemma FailuresFail(kind: string, kwargs: Dict, obs: Observations)
    ensures (kind == "click_success" || kind == "text_input") && obs.shot.None? ==> !VerificationResult(kind, kwargs, obs)
    ensures kind == "window_change" && obs.window == WindowRaised ==> !VerificationResult(kind, kwargs, obs)
    ensures kind == "element_appeared" && obs.found.None? ==> !VerificationResult(kind, kwargs, obs)
  {
  }
}
