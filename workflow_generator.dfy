/**
 * `generate_automation_plan` of src/intelligence/workflow_generator.py: one
 * executor step dictionary per step of an analysed workflow.
 */
module WorkflowGenerator {
  import opened Wrappers
  import opened Json
  import Executor

  const DefaultRetries: int := 2
  const DefaultTimeout: int := 5

  /** The plan entry for one workflow step. */
  function PlanStep(step: Dict): Dict
  {
    var action := Get(step, "action", JStr(""));
    map["action_type" := if Truthy(action) then action else JStr("noop"),
        "target" := Get(step, "target", JStr("")),
        "verification" := JStr(""),
        "retry_count" := JInt(DefaultRetries),
        "timeout" := JInt(DefaultTimeout)]
  }

  /**
   * `generate_automation_plan`: None when the loop over `steps` raises (a
   * step that is not a dictionary, or a `steps` value that is not iterable).
   */
  function GenerateAutomationPlan(description: Dict): Option<seq<Dict>>
  {
    match DictItems(Get(description, "steps", JList([])))
    case None => None
    case Some(ds) => Some(seq(|ds|, k requires 0 <= k < |ds| => PlanStep(ds[k])))
  }

  /** The plan as the list of JSON objects a workflow file holds. */
  function PlanJson(plan: seq<Dict>): (r: seq<Json>)
    ensures |r| == |plan| && AllDicts(r)
    ensures forall k :: 0 <= k < |plan| ==> r[k] == JObj(plan[k])
  {
    seq(|plan|, k requires 0 <= k < |plan| => JObj(plan[k]))
  }

  /**
   * A list of step dictionaries gives one entry per step, in order: the
   * step's action (or "noop" when it is missing or empty), its target (or
   * ""), no verification, two retries and a five-second timeout.
   */
  lemma PlanEntries(description: Dict, xs: seq<Json>)
    requires Get(description, "steps", JList([])) == JList(xs) && AllDicts(xs)
    ensures var r := GenerateAutomationPlan(description);
      && r.Some? && |r.value| == |xs|
      && forall k :: 0 <= k < |xs| ==>
        var step := xs[k].fields;
        var action := Get(step, "action", JStr(""));
        && r.value[k].Keys == {"action_type", "target", "verification", "retry_count", "timeout"}
        && (Truthy(action) ==> r.value[k]["action_type"] == action)
        && (!Truthy(action) ==> r.value[k]["action_type"] == JStr("noop"))
        && r.value[k]["target"] == Get(step, "target", JStr(""))
        && r.value[k]["verification"] == JStr("")
        && r.value[k]["retry_count"] == JInt(2) && r.value[k]["timeout"] == JInt(5)
  {
    var ds := Fields(xs);
    assert DictItems(JList(xs)) == Some(ds);
  }

  /** No `steps` key, or an empty list of steps, gives an empty plan. */
  lemma PlanWithoutSteps(description: Dict)
    requires "steps" !in description || description["steps"] == JList([])
    ensures GenerateAutomationPlan(description) == Some([])
  {
    assert Get(description, "steps", JList([])) == JList([]);
    assert DictItems(JList([])) == Some([]);
    var ds: seq<Dict> := [];
    assert seq(|ds|, k requires 0 <= k < |ds| => PlanStep(ds[k])) == [];
  }

  /** A step that is not a dictionary makes the generator raise. */
  lemma PlanRejectsNonDictStep(description: Dict, xs: seq<Json>, k: nat)
    requires Get(description, "steps", JList([])) == JList(xs)
    requires k < |xs| && !xs[k].JObj?
    ensures GenerateAutomationPlan(description).None?
  {
  }

  /** The executor step a workflow step is meant to become. */
  function IntendedStep(step: Dict): Executor.WorkflowStep
  {
    var action := Get(step, "action", JStr(""));
    Executor.WorkflowStep(if Truthy(action) then action else JStr("noop"), Get(step, "target", JStr("")), JStr(""),
      JInt(DefaultRetries), JInt(DefaultTimeout))
  }

  /** Reading back the objects of a written plan gives the plan. */
  lemma PlanJsonFields(plan: seq<Dict>)
    ensures Fields(PlanJson(plan)) == plan
  {
    var js := PlanJson(plan);
    assert forall k :: 0 <= k < |js| ==> Fields(js)[k] == plan[k];
  }

  /** The executor reads a plan entry as the intended step. */
  lemma PlanStepLoads(step: Dict)
    ensures Executor.StepFromDict(PlanStep(step)) == IntendedStep(step)
  {
  }

  /**
   * A plan written out as a workflow file and read back by the executor's
   * `load_workflow` gives exactly the steps the plan describes: the two
   * modules agree on the field names and defaults.
   */
  lemma PlanLoads(description: Dict, xs: seq<Json>)
    requires Get(description, "steps", JList([])) == JList(xs) && AllDicts(xs)
    ensures var plan := GenerateAutomationPlan(description).value;
      var loaded := Executor.LoadWorkflow(Some(JObj(map["steps" := JList(PlanJson(plan))])));
      |loaded| == |xs| && forall k :: 0 <= k < |xs| ==> loaded[k] == IntendedStep(xs[k].fields)
  {
    var ds := Fields(xs);
    assert DictItems(JList(xs)) == Some(ds);
    var plan := GenerateAutomationPlan(description).value;
    var js := PlanJson(plan);
    PlanJsonFields(plan);
    Executor.LoadWorkflowSteps(js);
    forall k | 0 <= k < |xs|
      ensures Executor.StepFromDict(Fields(js)[k]) == IntendedStep(xs[k].fields)
    {
      PlanStepLoads(ds[k]);
    }
  }

  /**
   * Every planned step is attempted at most twice, and a truthy action that
   * is not a string (a number, a list) passes into the plan unchanged and
   * then fails every attempt, whatever the desktop does.
   */
  lemma PlannedStepRuns(step: Dict, device: Executor.Device, index: nat)
    ensures Executor.Limit(IntendedStep(step)) == DefaultRetries
    ensures var action := Get(step, "action", JStr(""));
      Truthy(action) && !action.JStr? ==> Executor.Outcome(IntendedStep(step), device, index) == Executor.Failed
  {
    var s := IntendedStep(step);
    if !s.actionType.JStr? {
      Executor.AttemptFixedOutcomes(s, device, index, 0);
      Executor.AttemptFixedOutcomes(s, device, index, 1);
      Executor.StepOutcomeIff(s, device, index);
    }
  }
}
