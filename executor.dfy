/**
 * The workflow executor of src/automation/executor.py: loading steps from a
 * decoded workflow file, dispatching a step to the action it performs,
 * retrying a step, and running a workflow single-flight.
 *
 * The desktop (pyautogui behind `ComputerUse`) is a `Device` parameter that
 * says whether a given attempt of a given step succeeded. The clock and the
 * sleeps between steps and retries are not modelled.
 */
module Executor {
  import opened Wrappers
  import opened Json
  import opened Strings

  /**
   * A workflow step. The dataclass checks no types, so every field holds
   * whatever the workflow file held; the defaults are those `load_workflow`
   * fills in.
   */
  datatype WorkflowStep = WorkflowStep(actionType: Json, target: Json, verification: Json, retryCount: Json, timeout: Json)

  /** The outcome of a run; the elapsed time is not modelled. */
  datatype ExecutionResult = ExecutionResult(success: bool, errorMessage: Option<string>, stepsCompleted: nat)

  const BusyMessage: string := "Another workflow is already running"

  // ------------------------------------------------------------ loading

  /** One step dictionary as a `WorkflowStep`, missing fields taking their defaults. */
  function StepFromDict(d: Dict): WorkflowStep
  {
    WorkflowStep(Get(d, "action_type", JStr("noop")), Get(d, "target", JStr("")), Get(d, "verification", JStr("")),
                 Get(d, "retry_count", JInt(3)), Get(d, "timeout", JInt(5)))
  }

  function StepsFromDicts(ds: seq<Dict>): seq<WorkflowStep>
  {
    seq(|ds|, k requires 0 <= k < |ds| => StepFromDict(ds[k]))
  }

  /**
   * `load_workflow`: `content` is the decoded file, None when the file cannot
   * be opened or parsed. Any failure on the way gives no steps.
   */
  function LoadWorkflow(content: Option<Json>): seq<WorkflowStep>
  {
    if content.None? || !content.value.JObj? then []
    else
      match DictItems(Get(content.value.fields, "steps", JList([])))
      case None => []
      case Some(ds) => StepsFromDicts(ds)
  }

  /** The step a dictionary holding none of the fields loads as. */
  lemma LoadWorkflowDefaults(n: nat)
    ensures var content := Some(JObj(map["steps" := JList(seq(n, _ => JObj(map[])))]));
      LoadWorkflow(content) == seq(n, _ => WorkflowStep(JStr("noop"), JStr(""), JStr(""), JInt(3), JInt(5)))
  {
    var xs := seq(n, _ => JObj(map[]));
    assert AllDicts(xs);
    var ds := Fields(xs);
    assert forall k :: 0 <= k < n ==> ds[k] == map[];
  }

  /**
   * An unreadable file, a document that is not an object, a missing `steps`,
   * or a `steps` value whose iteration raises (a list holding something other
   * than a dictionary, a non-empty string or dictionary, a scalar): no steps.
   */
  lemma LoadWorkflowErrors(content: Option<Json>)
    ensures content.None? ==> LoadWorkflow(content) == []
    ensures content.Some? && !content.value.JObj? ==> LoadWorkflow(content) == []
    ensures content.Some? && content.value.JObj? && "steps" in content.value.fields ==>
      var steps := content.value.fields["steps"];
      || (steps.JList? && !AllDicts(steps.items))
      || (steps.JStr? && steps.s != "") || (steps.JObj? && steps.fields != map[])
      || steps.JNull? || steps.JInt? || steps.JReal? || steps.JBool?
      ==> LoadWorkflow(content) == []
    ensures content.Some? && content.value.JObj? && "steps" !in content.value.fields ==> LoadWorkflow(content) == []
  {
  }

  /**
   * A list of step dictionaries loads one step per dictionary, in order, each
   * field taken as it is or, when missing, as "noop", "", "", 3 and 5.
   */
  lemma LoadWorkflowSteps(xs: seq<Json>)
    requires AllDicts(xs)
    ensures var loaded := LoadWorkflow(Some(JObj(map["steps" := JList(xs)])));
      && |loaded| == |xs|
      && forall k :: 0 <= k < |xs| ==>
        var d := xs[k].fields;
        && loaded[k].actionType == (if "action_type" in d then d["action_type"] else JStr("noop"))
        && loaded[k].target == (if "target" in d then d["target"] else JStr(""))
        && loaded[k].verification == (if "verification" in d then d["verification"] else JStr(""))
        && loaded[k].retryCount == (if "retry_count" in d then d["retry_count"] else JInt(3))
        && loaded[k].timeout == (if "timeout" in d then d["timeout"] else JInt(5))
  {
  }

  // ------------------------------------------------------------ dispatch

  /** What `_execute_action` does for a step, decided by its lowered action type and its target. */
  datatype Action =
    | Click(x: Json, y: Json)
    | TypeText(text: Json)
    | PressKey(key: Json)
    | PressCombination(keys: seq<Json>)
    | Scroll(clicks: Json)
    | Wait(seconds: Json)
    | Noop
    | Refused          // the action type is known but the target has the wrong shape
    | Unknown(kind: string)
    | NotText          // the action type is not a string: `.lower()` raises

  function Dispatch(step: WorkflowStep): Action
  {
    if !step.actionType.JStr? then NotText
    else
      var kind := Lower(step.actionType.s);
      var t := step.target;
      if kind == "click" then
        if t.JObj? && "x" in t.fields && "y" in t.fields then Click(t.fields["x"], t.fields["y"]) else Refused
      else if kind == "type" then TypeText(t)
      else if kind == "key" then PressKey(t)
      else if kind == "key_combination" then
        if t.JList? then PressCombination(t.items) else Refused
      else if kind == "scroll" then
        if t.JInt? || t.JStr? || t.JBool? then Scroll(t) else Scroll(JInt(3))
      else if kind == "wait" then
        if t.JInt? || t.JReal? || t.JStr? || t.JBool? then Wait(t) else Wait(JReal(1.0))
      else if kind == "noop" then Noop
      else Unknown(kind)
  }

  /**
   * Whether attempt `attempt` of step `index` succeeds when performing
   * `action`. The desktop answers for every pyautogui call and for parsing a
   * string into a number; a raised exception counts as a failed attempt, which
   * is how `execute_step` treats it.
   */
  type Device = (nat, nat, Action) -> bool

  function Attempt(step: WorkflowStep, device: Device, index: nat, attempt: nat): bool
  {
    var action := Dispatch(step);
    match action
    case Noop => true
    case Refused => false
    case Unknown(_) => false
    case NotText => false
    case Wait(s) =>
      (match s
       case JInt(i) => i >= 0      // time.sleep rejects a negative length
       case JReal(r) => r >= 0.0
       case JBool(_) => true
       case _ => device(index, attempt, action))
    case _ => device(index, attempt, action)
  }

  /** The action type matches case-insensitively. */
  lemma DispatchIgnoresCase(step: WorkflowStep)
    requires step.actionType.JStr?
    ensures Dispatch(step) == Dispatch(step.(actionType := JStr(Lower(step.actionType.s))))
  {
    LowerIdempotent(step.actionType.s);
  }

  /**
   * The outcomes `_execute_action` decides without the desktop: `noop` and the
   * default wait succeed; a click without both coordinates, a key combination
   * that is not a list, an unknown kind and an action type that is not a
   * string fail.
   */
  lemma AttemptFixedOutcomes(step: WorkflowStep, device: Device, index: nat, attempt: nat)
    ensures !step.actionType.JStr? ==> !Attempt(step, device, index, attempt)
    ensures step.actionType.JStr? ==>
      var kind := Lower(step.actionType.s);
      && (kind == "noop" ==> Attempt(step, device, index, attempt))
      && (kind == "wait" && (step.target.JNull? || step.target.JList? || step.target.JObj?)
          ==> Attempt(step, device, index, attempt))
      && (kind == "click" && !(step.target.JObj? && "x" in step.target.fields && "y" in step.target.fields)
          ==> !Attempt(step, device, index, attempt))
      && (kind == "key_combination" && !step.target.JList? ==> !Attempt(step, device, index, attempt))
      && (kind !in {"click", "type", "key", "key_combination", "scroll", "wait", "noop"}
          ==> !Attempt(step, device, index, attempt))
  {
  }

  // ------------------------------------------------------------ retrying

  /**
   * `range(step.retry_count)`: how many attempts, or None when `range`
   * rejects the value (it raises TypeError). A bool is an int in Python.
   */
  function AttemptLimit(retryCount: Json): Option<int>
  {
    match retryCount
    case JInt(i) => Some(i)
    case JBool(b) => Some(if b then 1 else 0)
    case _ => None
  }

  /** The number of attempts the retry loop makes at most. */
  function Limit(step: WorkflowStep): nat
  {
    match AttemptLimit(step.retryCount)
    case Some(n) => if n > 0 then n else 0
    case None => 0
  }

  /** Some attempt below `n` succeeds. */
  function AnyAttempt(step: WorkflowStep, device: Device, index: nat, n: nat): bool
  {
    n > 0 && (AnyAttempt(step, device, index, n - 1) || Attempt(step, device, index, n - 1))
  }

  /** What `execute_step` does: return True, return False, or raise out of `range`. */
  datatype StepOutcome = Passed | Failed | RangeRaised

  function Outcome(step: WorkflowStep, device: Device, index: nat): StepOutcome
  {
    if AttemptLimit(step.retryCount).None? then RangeRaised
    else if AnyAttempt(step, device, index, Limit(step)) then Passed
    else Failed
  }

  lemma {:induction false} AnyAttemptWitness(step: WorkflowStep, device: Device, index: nat, n: nat)
    ensures AnyAttempt(step, device, index, n) <==> exists a :: 0 <= a < n && Attempt(step, device, index, a)
  {
    if n > 0 {
      AnyAttemptWitness(step, device, index, n - 1);
    }
  }

  /**
   * A step passes iff one of its first `retry_count` attempts succeeds; a
   * count of zero or less fails without an attempt, and a count that is not
   * an integer raises.
   */
  lemma StepOutcomeIff(step: WorkflowStep, device: Device, index: nat)
    ensures Outcome(step, device, index) == RangeRaised <==>
      !(step.retryCount.JInt? || step.retryCount.JBool?)
    ensures Outcome(step, device, index) == Passed <==>
      (step.retryCount.JInt? || step.retryCount.JBool?) && exists a :: 0 <= a < Limit(step) && Attempt(step, device, index, a)
    ensures step.retryCount.JInt? && step.retryCount.i <= 0 ==> Outcome(step, device, index) == Failed
  {
    AnyAttemptWitness(step, device, index, Limit(step));
  }

  /**
   * `execute_step`: attempt the step up to `retry_count` times, returning on
   * the first success. `attempts` is the number of attempts made.
   */
  method ExecuteStep(step: WorkflowStep, device: Device, index: nat) returns (outcome: StepOutcome, attempts: nat)
    ensures outcome == Outcome(step, device, index)
    ensures attempts <= Limit(step)
    ensures forall a :: 0 <= a < attempts - 1 ==> !Attempt(step, device, index, a)
    ensures outcome == Passed ==> attempts >= 1 && Attempt(step, device, index, attempts - 1)
    ensures outcome == Failed ==> attempts == Limit(step)
    ensures outcome == RangeRaised ==> attempts == 0
  {
    var limit := AttemptLimit(step.retryCount);
    if limit.None? {
      return RangeRaised, 0;
    }
    attempts := 0;
    while attempts < limit.value
      invariant attempts <= Limit(step)
      invariant forall a :: 0 <= a < attempts ==> !Attempt(step, device, index, a)
      invariant !AnyAttempt(step, device, index, attempts)
    {
      if Attempt(step, device, index, attempts) {
        AnyAttemptMonotone(step, device, index, attempts + 1, Limit(step));
        return Passed, attempts + 1;
      }
      attempts := attempts + 1;
    }
    return Failed, attempts;
  }

  lemma {:induction false} AnyAttemptMonotone(step: WorkflowStep, device: Device, index: nat, m: nat, n: nat)
    requires m <= n && AnyAttempt(step, device, index, m)
    ensures AnyAttempt(step, device, index, n)
  {
    if m < n {
      AnyAttemptMonotone(step, device, index, m, n - 1);
    }
  }

  // ------------------------------------------------------------ running

  /** How an f-string shows a value: a string as itself, anything else through `str()`. */
  function Show(j: Json, render: Json -> string): string
  {
    if j.JStr? then j.s else render(j)
  }

  function FailureMessage(index: nat, actionType: Json, render: Json -> string): string
  {
    "Step " + NatToString(index + 1) + " failed: " + Show(actionType, render)
  }

  /** Python's name for the type of a decoded value. */
  function TypeName(j: Json): string
  {
    match j
    case JNull => "NoneType"
    case JBool(_) => "bool"
    case JInt(_) => "int"
    case JReal(_) => "float"
    case JStr(_) => "str"
    case JList(_) => "list"
    case JObj(_) => "dict"
  }

  /** `str(e)` of the TypeError `range` raises for a value that is not an integer. */
  function RangeMessage(retryCount: Json): string
  {
    "'" + TypeName(retryCount) + "' object cannot be interpreted as an integer"
  }

  /** The result of running `steps[from..]` having completed the ones before. */
  function RunFrom(steps: seq<WorkflowStep>, device: Device, render: Json -> string, from: nat): ExecutionResult
    requires from <= |steps|
    decreases |steps| - from
  {
    if from == |steps| then ExecutionResult(true, None, |steps|)
    else
      match Outcome(steps[from], device, from)
      case RangeRaised => ExecutionResult(false, Some(RangeMessage(steps[from].retryCount)), from)
      case Failed => ExecutionResult(false, Some(FailureMessage(from, steps[from].actionType, render)), from)
      case Passed => RunFrom(steps, device, render, from + 1)
  }

  /**
   * A run succeeds iff every step passes, and then completes all of them;
   * otherwise it stops at the first step that does not pass, counts the
   * steps before it, and reports it by number and action type, or with the
   * TypeError's text when its retry count is not an integer.
   */
  lemma {:induction false} RunFromOutcome(steps: seq<WorkflowStep>, device: Device, render: Json -> string, from: nat)
    requires from <= |steps|
    requires forall j :: 0 <= j < from ==> Outcome(steps[j], device, j) == Passed
    ensures var r := RunFrom(steps, device, render, from);
      && (r.success <==> forall j :: 0 <= j < |steps| ==> Outcome(steps[j], device, j) == Passed)
      && (r.success ==> r.errorMessage == None && r.stepsCompleted == |steps|)
      && (!r.success ==>
            var c := r.stepsCompleted;
            && c < |steps|
            && (forall j :: 0 <= j < c ==> Outcome(steps[j], device, j) == Passed)
            && (Outcome(steps[c], device, c) == Failed ==>
                  r.errorMessage == Some(FailureMessage(c, steps[c].actionType, render)))
            && (Outcome(steps[c], device, c) == RangeRaised ==>
                  r.errorMessage == Some(RangeMessage(steps[c].retryCount)))
            && Outcome(steps[c], device, c) != Passed)
    decreases |steps| - from
  {
    if from < |steps| && Outcome(steps[from], device, from) == Passed {
      RunFromOutcome(steps, device, render, from + 1);
    }
  }

  /** The error message names the failing step by its 1-based number. */
  lemma FailureMessageNumber(index: nat, actionType: Json, render: Json -> string)
    ensures var m := FailureMessage(index, actionType, render);
      StartsWith(m, "Step ") && AllDigits(m[5..5 + |NatToString(index + 1)|])
      && DigitsValue(m[5..5 + |NatToString(index + 1)|]) == index + 1
  {
    var m := FailureMessage(index, actionType, render);
    assert m[5..5 + |NatToString(index + 1)|] == NatToString(index + 1);
    NatToStringValue(index + 1);
  }

  class WorkflowExecutor {
    var running: bool

    constructor ()
      ensures !running
    {
      running := false;
    }

    /**
     * `execute_workflow`: refused while another run holds the flag; otherwise
     * run the steps in order, stop at the first failure, and clear the flag.
     * `render` is Python's `str()`.
     */
    method ExecuteWorkflow(workflowId: string, steps: seq<WorkflowStep>, device: Device, render: Json -> string)
      returns (r: ExecutionResult)
      modifies this
      ensures old(running) ==> r == ExecutionResult(false, Some(BusyMessage), 0) && running
      ensures !old(running) ==> r == RunFrom(steps, device, render, 0) && !running
    {
      if running {
        return ExecutionResult(false, Some(BusyMessage), 0);
      }
      running := true;
      var completed: nat := 0;
      while completed < |steps|
        invariant completed <= |steps|
        invariant RunFrom(steps, device, render, completed) == RunFrom(steps, device, render, 0)
      {
        var outcome, _ := ExecuteStep(steps[completed], device, completed);
        if outcome == RangeRaised {
          r := ExecutionResult(false, Some(RangeMessage(steps[completed].retryCount)), completed);
          running := false;
          return;
        }
        if outcome == Failed {
          r := ExecutionResult(false, Some(FailureMessage(completed, steps[completed].actionType, render)), completed);
          running := false;
          return;
        }
        completed := completed + 1;
      }
      r := ExecutionResult(true, None, completed);
      running := false;
    }

    /** `stop_execution` */
    method StopExecution()
      modifies this
      ensures !running
    {
      running := false;
    }

    /** `is_running` */
    function IsRunning(): (r: bool)
      reads this
      ensures r <==> running
    {
      running
    }
  }
}
