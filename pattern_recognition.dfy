/**
 * src/processing/pattern_recognition.py: the text signature of an analysed
 * workflow, and the greedy grouping of similar workflows into repetitive
 * patterns.
 *
 * `calculate_similarity` (TF-IDF vectors and their cosine) is a parameter
 * `sim`; the grouping only ever compares `sim(anchor, candidate)` with the
 * threshold.
 */
module PatternRecognition {
  import opened Wrappers
  import opened Json
  import opened Strings

  // ------------------------------------------------------------ signature

  /** How an f-string shows a value: a string as itself, anything else through `str()`. */
  function Show(j: Json, render: Json -> string): string
  {
    if j.JStr? then j.s else render(j)
  }

  /** The step actions, or None when one of them is not a string (`" ".join` raises). */
  function Actions(ds: seq<Dict>): (r: Option<seq<string>>)
    ensures r.Some? ==> |r.value| == |ds|
    ensures r.Some? <==> forall k :: 0 <= k < |ds| ==> Get(ds[k], "action", JStr("")).JStr?
    ensures r.Some? ==> forall k :: 0 <= k < |ds| ==> r.value[k] == Get(ds[k], "action", JStr("")).s
  {
    if ds == [] then Some([])
    else
      var a := Get(ds[0], "action", JStr(""));
      match Actions(ds[1..])
      case None => None
      case Some(rest) => if a.JStr? then Some([a.s] + rest) else None
  }

  /** The f-string "{app} | {actions} | {text}" with the actions joined by spaces. */
  function SignatureText(app: string, actions: seq<string>, summary: string): string
  {
    app + " | " + Join(" ", actions) + " | " + summary
  }

  /**
   * `extract_workflow_signature`: "app | actions | summary", or None when
   * building it raises (steps that are not dictionaries, a non-string action).
   */
  function Signature(w: Dict, render: Json -> string): Option<string>
  {
    match DictItems(Get(w, "steps", JList([])))
    case None => None
    case Some(ds) =>
      match Actions(ds)
      case None => None
      case Some(actions) =>
        Some(SignatureText(Show(Get(w, "application", JStr("")), render), actions,
                           Show(Get(w, "workflow_summary", JStr("")), render)))
  }

  /** The signature text mentions the application, each action and the summary. */
  lemma SignatureTextMentions(app: string, actions: seq<string>, summary: string)
    ensures var sig := SignatureText(app, actions, summary);
      && Contains(sig, app) && Contains(sig, summary)
      && forall k :: 0 <= k < |actions| ==> Contains(sig, actions[k])
  {
    var joined := Join(" ", actions);
    var sig := SignatureText(app, actions, summary);
    ContainsWhole("", app, " | " + joined + " | " + summary);
    assert "" + app + (" | " + joined + " | " + summary) == sig;
    ContainsWhole(app + " | " + joined + " | ", summary, "");
    assert app + " | " + joined + " | " + summary + "" == sig;
    forall k | 0 <= k < |actions|
      ensures Contains(sig, actions[k])
    {
      JoinContainsPart(" ", actions, k);
      ContainsWithin(app + " | ", joined, " | " + summary, actions[k]);
      assert app + " | " + joined + (" | " + summary) == sig;
    }
  }

  /**
   * The signature of a workflow mentions its application, each of its
   * actions and its summary.
   */
  lemma SignatureMentions(w: Dict, render: Json -> string, k: nat)
    requires Signature(w, render).Some?
    ensures var sig := Signature(w, render).value;
      && Contains(sig, Show(Get(w, "application", JStr("")), render))
      && Contains(sig, Show(Get(w, "workflow_summary", JStr("")), render))
    ensures var ds := DictItems(Get(w, "steps", JList([]))).value;
      k < |ds| ==> Contains(Signature(w, render).value, Get(ds[k], "action", JStr("")).s)
  {
    var ds := DictItems(Get(w, "steps", JList([]))).value;
    var actions := Actions(ds).value;
    SignatureTextMentions(Show(Get(w, "application", JStr("")), render), actions,
                          Show(Get(w, "workflow_summary", JStr("")), render));
  }

  /** A string is found inside anything that surrounds it. */
  lemma ContainsWhole(pre: string, s: string, post: string)
    ensures Contains(pre + s + post, s)
  {
    var t := pre + s + post;
    assert t[|pre|..|pre| + |s|] == s;
    assert OccursAt(t, s, |pre|);
  }

  /** A workflow with none of the three keys has the signature " |  | ". */
  lemma SignatureOfEmpty(render: Json -> string)
    ensures Signature(map[], render) == Some(" |  | ")
  {
    assert DictItems(JList([])) == Some([]);
    assert Actions([]) == Some([]);
    assert Join(" ", []) == "";
    assert Show(JStr(""), render) == "";
    assert SignatureText("", [], "") == " |  | ";
  }

  /** A step whose action is not a string makes the signature raise. */
  lemma SignatureRejectsNonStringAction(w: Dict, render: Json -> string, k: nat)
    requires DictItems(Get(w, "steps", JList([]))).Some?
    requires var ds := DictItems(Get(w, "steps", JList([]))).value;
      k < |ds| && !Get(ds[k], "action", JStr("")).JStr?
    ensures Signature(w, render).None?
  {
  }

  // ------------------------------------------------------------ grouping

  /** A reported pattern. */
  datatype Pattern = Pattern(patternId: string, occurrences: nat, template: Dict, confidence: real, suggestion: string)

  const Suggestion: string := "Auto-execute common steps"

  function MakePattern(ws: seq<Dict>, anchor: nat, size: nat): Pattern
    requires anchor < |ws|
  {
    Pattern("pattern_" + NatToString(anchor), size, ws[anchor], 0.9, Suggestion)
  }

  predicate Increasing(s: seq<nat>)
  {
    forall a, b :: 0 <= a < b < |s| ==> s[a] < s[b]
  }

  function Elems(s: seq<nat>): set<nat>
  {
    set x | x in s
  }

  /**
   * The indices in (anchor, j) that the inner loop adds to the anchor's
   * group: those not used by an earlier group and similar to the anchor.
   */
  function Later(ws: seq<Dict>, sim: (Dict, Dict) -> real, threshold: real, anchor: nat, j: nat, used: set<nat>): seq<nat>
    requires anchor < |ws| && j <= |ws|
  {
    if j <= anchor + 1 then []
    else
      Later(ws, sim, threshold, anchor, j - 1, used)
      + (if j - 1 !in used && sim(ws[anchor], ws[j - 1]) >= threshold then [j - 1] else [])
  }

  /** The later members lie strictly between the anchor and j, in increasing order. */
  lemma {:induction false} LaterBounds(ws: seq<Dict>, sim: (Dict, Dict) -> real, threshold: real, anchor: nat, j: nat, used: set<nat>)
    requires anchor < |ws| && j <= |ws|
    ensures var r := Later(ws, sim, threshold, anchor, j, used);
      (forall m :: 0 <= m < |r| ==> anchor < r[m] < j) && Increasing(r)
  {
    if j > anchor + 1 {
      LaterBounds(ws, sim, threshold, anchor, j - 1, used);
    }
  }

  /** The inner loop keeps exactly the unused indices in (anchor, j) similar to the anchor. */
  lemma {:induction false} LaterExact(ws: seq<Dict>, sim: (Dict, Dict) -> real, threshold: real, anchor: nat, j: nat, used: set<nat>, x: nat)
    requires anchor < |ws| && j <= |ws|
    ensures x in Later(ws, sim, threshold, anchor, j, used) <==>
      anchor < x < j && x !in used && sim(ws[anchor], ws[x]) >= threshold
  {
    if j > anchor + 1 {
      LaterExact(ws, sim, threshold, anchor, j - 1, used, x);
    }
  }

  /** The group anchored at `anchor`: the anchor, then the later members in index order. */
  function Group(ws: seq<Dict>, sim: (Dict, Dict) -> real, threshold: real, anchor: nat, used: set<nat>): seq<nat>
    requires anchor < |ws|
  {
    [anchor] + Later(ws, sim, threshold, anchor, |ws|, used)
  }

  /**
   * What `detect_repetitive_patterns` has after its outer loop has looked
   * at the indices below n: the patterns, the `used` set, and the index
   * groups behind the patterns.
   */
  datatype Scan = Scan(patterns: seq<Pattern>, used: set<nat>, groups: seq<seq<nat>>)

  function Run(ws: seq<Dict>, sim: (Dict, Dict) -> real, threshold: real, n: nat): Scan
    requires n <= |ws|
  {
    if n == 0 then Scan([], {}, [])
    else
      var s := Run(ws, sim, threshold, n - 1);
      var i := n - 1;
      if i in s.used then s
      else
        var g := Group(ws, sim, threshold, i, s.used);
        if |g| >= 3 then Scan(s.patterns + [MakePattern(ws, i, |g|)], s.used + Elems(g), s.groups + [g])
        else Scan(s.patterns, s.used + Elems(g), s.groups)
  }

  /** Appending an index to a group adds it to the group's set of indices. */
  lemma ElemsAppend(s: seq<nat>, x: nat)
    ensures Elems(s + [x]) == Elems(s) + {x}
  {
    assert forall y :: y in s + [x] <==> y in s || y == x;
  }

  /** One step of the inner loop: index j is added when it is unused and similar to the anchor. */
  lemma LaterNext(ws: seq<Dict>, sim: (Dict, Dict) -> real, threshold: real, anchor: nat, j: nat, used: set<nat>)
    requires anchor < j < |ws|
    ensures j !in Elems(Later(ws, sim, threshold, anchor, j, used))
    ensures var l := Later(ws, sim, threshold, anchor, j, used);
      Later(ws, sim, threshold, anchor, j + 1, used)
        == if j !in used && sim(ws[anchor], ws[j]) >= threshold then l + [j] else l
  {
    LaterBounds(ws, sim, threshold, anchor, j, used);
    assert Later(ws, sim, threshold, anchor, j + 1, used)
      == Later(ws, sim, threshold, anchor, j, used)
         + (if j !in used && sim(ws[anchor], ws[j]) >= threshold then [j] else []);
  }

  /** The workflows at the given indices. */
  function Pick(ws: seq<Dict>, idx: seq<nat>): (r: seq<Dict>)
    requires forall k :: 0 <= k < |idx| ==> idx[k] < |ws|
    ensures |r| == |idx| && forall k :: 0 <= k < |idx| ==> r[k] == ws[idx[k]]
  {
    seq(|idx|, k requires 0 <= k < |idx| => ws[idx[k]])
  }

  /** The state of the inner loop for anchor i once it has looked at the indices below j. */
  predicate Collected(ws: seq<Dict>, sim: (Dict, Dict) -> real, threshold: real, i: nat, j: nat, before: set<nat>,
                      group: seq<Dict>, used: set<nat>)
    requires i < |ws| && j <= |ws|
  {
    var g := [i] + Later(ws, sim, threshold, i, j, before);
    && (forall k :: 0 <= k < |g| ==> g[k] < |ws|) && group == Pick(ws, g)
    && used == before + Elems(g)
  }

  /** One step of the inner loop keeps its state in step with `Later`. */
  lemma CollectStep(ws: seq<Dict>, sim: (Dict, Dict) -> real, threshold: real, i: nat, j: nat, before: set<nat>,
                    group: seq<Dict>, used: set<nat>)
    requires i < j < |ws| && i !in before && Collected(ws, sim, threshold, i, j, before, group, used)
    ensures j in used <==> j in before
    ensures j !in used && sim(ws[i], ws[j]) >= threshold ==>
      Collected(ws, sim, threshold, i, j + 1, before, group + [ws[j]], used + {j})
    ensures !(j !in used && sim(ws[i], ws[j]) >= threshold) ==>
      Collected(ws, sim, threshold, i, j + 1, before, group, used)
  {
    var l := Later(ws, sim, threshold, i, j, before);
    LaterNext(ws, sim, threshold, i, j, before);
    assert j !in Elems([i] + l) by {
      assert Elems([i] + l) == Elems([i]) + Elems(l) by {
        assert forall y :: y in [i] + l <==> y in [i] || y in l;
      }
    }
    if j !in used && sim(ws[i], ws[j]) >= threshold {
      assert [i] + (l + [j]) == ([i] + l) + [j];
      assert Pick(ws, ([i] + l) + [j]) == Pick(ws, [i] + l) + [ws[j]];
      ElemsAppend([i] + l, j);
    }
  }

  /** Before the inner loop, the group holds the anchor alone. */
  lemma CollectStart(ws: seq<Dict>, sim: (Dict, Dict) -> real, threshold: real, i: nat, before: set<nat>)
    requires i < |ws|
    ensures Collected(ws, sim, threshold, i, i + 1, before, [ws[i]], before + {i})
  {
    assert Later(ws, sim, threshold, i, i + 1, before) == [];
    assert Elems([i]) == {i};
  }

  /**
   * The inner loop of `detect_repetitive_patterns` for the unused anchor i:
   * the group of workflows it collects and the `used` set it leaves.
   */
  method CollectGroup(ws: seq<Dict>, sim: (Dict, Dict) -> real, threshold: real, i: nat, before: set<nat>)
    returns (group: seq<Dict>, used: set<nat>)
    requires i < |ws| && i !in before
    ensures var g := Group(ws, sim, threshold, i, before);
      (forall k :: 0 <= k < |g| ==> g[k] < |ws|) && group == Pick(ws, g)
    ensures used == before + Elems(Group(ws, sim, threshold, i, before))
  {
    group := [ws[i]];
    used := before + {i};
    var j := i + 1;
    CollectStart(ws, sim, threshold, i, before);
    while j < |ws|
      invariant i + 1 <= j <= |ws|
      invariant Collected(ws, sim, threshold, i, j, before, group, used)
    {
      CollectStep(ws, sim, threshold, i, j, before, group, used);
      if j in used {
        j := j + 1;
        continue;
      }
      if sim(ws[i], ws[j]) >= threshold {
        group := group + [ws[j]];
        used := used + {j};
      }
      j := j + 1;
    }
  }

  lemma GroupElems(ws: seq<Dict>, sim: (Dict, Dict) -> real, threshold: real, i: nat, used: set<nat>)
    requires i < |ws|
    ensures Elems(Group(ws, sim, threshold, i, used)) == {i} + Elems(Later(ws, sim, threshold, i, |ws|, used))
  {
    var l := Later(ws, sim, threshold, i, |ws|, used);
    assert forall y :: y in [i] + l <==> y == i || y in l;
  }

  /** `detect_repetitive_patterns`, with `sim` standing for `calculate_similarity`. */
  method DetectRepetitivePatterns(ws: seq<Dict>, sim: (Dict, Dict) -> real, threshold: real) returns (patterns: seq<Pattern>)
    ensures patterns == Run(ws, sim, threshold, |ws|).patterns
  {
    patterns := [];
    var used: set<nat> := {};
    var i := 0;
    while i < |ws|
      invariant 0 <= i <= |ws|
      invariant patterns == Run(ws, sim, threshold, i).patterns && used == Run(ws, sim, threshold, i).used
    {
      if i in used {
        assert Run(ws, sim, threshold, i + 1) == Run(ws, sim, threshold, i);
        i := i + 1;
        continue;
      }
      var group;
      group, used := CollectGroup(ws, sim, threshold, i, used);
      if |group| >= 3 {
        patterns := patterns + [Pattern("pattern_" + NatToString(i), |group|, group[0], 0.9, Suggestion)];
      }
      i := i + 1;
    }
  }

  // ------------------------------------------------------------ what the grouping promises

  /** A reported group: at least three indices, increasing, each later one similar to the first. */
  predicate GroupOk(ws: seq<Dict>, sim: (Dict, Dict) -> real, threshold: real, g: seq<nat>)
  {
    && |g| >= 3 && Increasing(g)
    && (forall m :: 0 <= m < |g| ==> g[m] < |ws|)
    && (forall m :: 1 <= m < |g| ==> sim(ws[g[0]], ws[g[m]]) >= threshold)
  }

  function TotalOccurrences(ps: seq<Pattern>): nat
  {
    if ps == [] then 0 else TotalOccurrences(ps[..|ps| - 1]) + ps[|ps| - 1].occurrences
  }

  /** Each pattern is made from its group, with the group's first index as anchor. */
  predicate Reported(ws: seq<Dict>, sim: (Dict, Dict) -> real, threshold: real, s: Scan)
  {
    && |s.groups| == |s.patterns|
    && forall k :: 0 <= k < |s.groups| ==>
         GroupOk(ws, sim, threshold, s.groups[k]) && s.patterns[k] == MakePattern(ws, s.groups[k][0], |s.groups[k]|)
  }

  /** The anchors of the reported groups increase. */
  predicate AnchorsIncrease(groups: seq<seq<nat>>)
  {
    forall k1, k2 :: 0 <= k1 < k2 < |groups| && |groups[k1]| > 0 && |groups[k2]| > 0 ==> groups[k1][0] < groups[k2][0]
  }

  /** No index belongs to two reported groups. */
  predicate Disjoint(groups: seq<seq<nat>>)
  {
    forall k1, k2, m :: 0 <= k1 < k2 < |groups| && 0 <= m < |groups[k2]| ==> groups[k2][m] !in groups[k1]
  }

  /** Every index of a reported group has been marked used. */
  predicate Covered(groups: seq<seq<nat>>, used: set<nat>)
  {
    forall k, m :: 0 <= k < |groups| && 0 <= m < |groups[k]| ==> groups[k][m] in used
  }

  /** What holds of the scan after the outer loop has looked at the indices below n. */
  predicate Sound(ws: seq<Dict>, sim: (Dict, Dict) -> real, threshold: real, n: nat, s: Scan)
  {
    && (forall x :: x in s.used ==> x < |ws|)
    && Reported(ws, sim, threshold, s)
    && (forall k :: 0 <= k < |s.groups| ==> |s.groups[k]| > 0 && s.groups[k][0] < n)
    && AnchorsIncrease(s.groups) && Disjoint(s.groups) && Covered(s.groups, s.used)
    && TotalOccurrences(s.patterns) <= |s.used|
  }

  lemma {:induction false} IncreasingElems(g: seq<nat>)
    requires Increasing(g)
    ensures |Elems(g)| == |g|
  {
    if g != [] {
      var p := g[..|g| - 1];
      IncreasingElems(p);
      assert Elems(g) == Elems(p) + {g[|g| - 1]} by {
        assert g == p + [g[|g| - 1]];
        ElemsAppend(p, g[|g| - 1]);
      }
      assert g[|g| - 1] !in Elems(p);
    }
  }

  /** The group formed at an unused anchor is increasing, in range, similar to the anchor and unused. */
  lemma GroupFacts(ws: seq<Dict>, sim: (Dict, Dict) -> real, threshold: real, i: nat, used: set<nat>)
    requires i < |ws| && i !in used
    ensures var g := Group(ws, sim, threshold, i, used);
      && |g| > 0 && g[0] == i && Increasing(g)
      && (forall m :: 0 <= m < |g| ==> g[m] < |ws| && g[m] !in used)
      && (forall m :: 1 <= m < |g| ==> sim(ws[i], ws[g[m]]) >= threshold)
  {
    var l := Later(ws, sim, threshold, i, |ws|, used);
    LaterBounds(ws, sim, threshold, i, |ws|, used);
    var g := [i] + l;
    forall m | 1 <= m < |g|
      ensures g[m] !in used && sim(ws[i], ws[g[m]]) >= threshold
    {
      assert g[m] == l[m - 1];
      LaterExact(ws, sim, threshold, i, |ws|, used, g[m]);
    }
  }

  /** The scan after an unused anchor: its group is reported when it has three or more indices. */
  function Next(ws: seq<Dict>, sim: (Dict, Dict) -> real, threshold: real, i: nat, s: Scan): Scan
    requires i < |ws|
  {
    var g := Group(ws, sim, threshold, i, s.used);
    if |g| >= 3 then Scan(s.patterns + [MakePattern(ws, i, |g|)], s.used + Elems(g), s.groups + [g])
    else Scan(s.patterns, s.used + Elems(g), s.groups)
  }

  /** A new group shares no index with the reported ones, which are all used. */
  lemma StepDisjoint(groups: seq<seq<nat>>, used: set<nat>, g: seq<nat>)
    requires Disjoint(groups) && Covered(groups, used)
    requires forall m :: 0 <= m < |g| ==> g[m] !in used
    ensures Disjoint(groups + [g])
  {
    var t := groups + [g];
    forall k1, k2, m | 0 <= k1 < k2 < |t| && 0 <= m < |t[k2]|
      ensures t[k2][m] !in t[k1]
    {
      if k2 == |groups| && t[k2][m] in t[k1] {
      }
    }
  }

  /** Adding an unused group keeps the occurrence count within the used indices. */
  lemma StepTotal(ws: seq<Dict>, sim: (Dict, Dict) -> real, threshold: real, i: nat, s: Scan)
    requires i < |ws| && i !in s.used && TotalOccurrences(s.patterns) <= |s.used|
    ensures var t := Next(ws, sim, threshold, i, s); TotalOccurrences(t.patterns) <= |t.used|
  {
    var g := Group(ws, sim, threshold, i, s.used);
    GroupFacts(ws, sim, threshold, i, s.used);
    IncreasingElems(g);
    assert s.used !! Elems(g);
    var t := Next(ws, sim, threshold, i, s);
    assert |t.used| == |s.used| + |g|;
    if |g| >= 3 {
      assert t.patterns[..|t.patterns| - 1] == s.patterns;
    }
  }

  /** The reported groups after an unused anchor: the earlier ones and, if large enough, the new one. */
  lemma StepReported(ws: seq<Dict>, sim: (Dict, Dict) -> real, threshold: real, i: nat, s: Scan)
    requires i < |ws| && i !in s.used && Reported(ws, sim, threshold, s)
    requires forall k :: 0 <= k < |s.groups| ==> |s.groups[k]| > 0 && s.groups[k][0] < i
    requires AnchorsIncrease(s.groups)
    ensures var t := Next(ws, sim, threshold, i, s);
      && Reported(ws, sim, threshold, t)
      && (forall k :: 0 <= k < |t.groups| ==> |t.groups[k]| > 0 && t.groups[k][0] < i + 1)
      && AnchorsIncrease(t.groups)
  {
    GroupFacts(ws, sim, threshold, i, s.used);
  }

  /** The indices used after an unused anchor stay in range and cover the reported groups. */
  lemma StepCovered(ws: seq<Dict>, sim: (Dict, Dict) -> real, threshold: real, i: nat, s: Scan)
    requires i < |ws| && i !in s.used && Covered(s.groups, s.used)
    requires forall x :: x in s.used ==> x < |ws|
    ensures var t := Next(ws, sim, threshold, i, s);
      Covered(t.groups, t.used) && forall x :: x in t.used ==> x < |ws|
  {
    var g := Group(ws, sim, threshold, i, s.used);
    GroupFacts(ws, sim, threshold, i, s.used);
    assert forall m :: 0 <= m < |g| ==> g[m] in Elems(g);
  }

  /** An unused anchor keeps the invariant of the scan. */
  lemma SoundStep(ws: seq<Dict>, sim: (Dict, Dict) -> real, threshold: real, i: nat, s: Scan)
    requires i < |ws| && i !in s.used && Sound(ws, sim, threshold, i, s)
    ensures Sound(ws, sim, threshold, i + 1, Next(ws, sim, threshold, i, s))
  {
    var g := Group(ws, sim, threshold, i, s.used);
    StepReported(ws, sim, threshold, i, s);
    StepCovered(ws, sim, threshold, i, s);
    StepTotal(ws, sim, threshold, i, s);
    if |g| >= 3 {
      GroupFacts(ws, sim, threshold, i, s.used);
      StepDisjoint(s.groups, s.used, g);
    }
  }

  /** The scan keeps its invariant over the whole outer loop. */
  lemma {:induction false} RunSound(ws: seq<Dict>, sim: (Dict, Dict) -> real, threshold: real, n: nat)
    requires n <= |ws|
    ensures Sound(ws, sim, threshold, n, Run(ws, sim, threshold, n))
  {
    if n > 0 {
      RunSound(ws, sim, threshold, n - 1);
      RunUnfold(ws, sim, threshold, n);
      SoundAdvance(ws, sim, threshold, n - 1, Run(ws, sim, threshold, n - 1));
    }
  }

  /** One turn of the outer loop: a used index is skipped, an unused one is an anchor. */
  lemma RunUnfold(ws: seq<Dict>, sim: (Dict, Dict) -> real, threshold: real, n: nat)
    requires 0 < n <= |ws|
    ensures var s := Run(ws, sim, threshold, n - 1);
      Run(ws, sim, threshold, n) == if n - 1 in s.used then s else Next(ws, sim, threshold, n - 1, s)
  {
  }

  /** A turn of the outer loop keeps the invariant. */
  lemma SoundAdvance(ws: seq<Dict>, sim: (Dict, Dict) -> real, threshold: real, i: nat, s: Scan)
    requires i < |ws| && Sound(ws, sim, threshold, i, s)
    ensures Sound(ws, sim, threshold, i + 1, if i in s.used then s else Next(ws, sim, threshold, i, s))
  {
    if i !in s.used {
      SoundStep(ws, sim, threshold, i, s);
    }
  }

  lemma {:induction false} SubsetOfRange(xs: set<nat>, n: nat)
    requires forall x :: x in xs ==> x < n
    ensures |xs| <= n
  {
    if n > 0 {
      SubsetOfRange(xs - {n - 1}, n - 1);
    }
  }

  /**
   * `detect_repetitive_patterns` reports, in increasing anchor order, groups
   * of at least three workflows whose members after the anchor are each
   * similar to the anchor; no workflow is in two groups, so the occurrences
   * add up to at most the number of workflows. Each pattern is named after
   * its anchor and carries the anchor workflow as its template.
   */
  lemma DetectPromises(ws: seq<Dict>, sim: (Dict, Dict) -> real, threshold: real)
    ensures var s := Run(ws, sim, threshold, |ws|);
      && |s.groups| == |s.patterns|
      && (forall k :: 0 <= k < |s.groups| ==>
            && GroupOk(ws, sim, threshold, s.groups[k])
            && s.patterns[k] == Pattern("pattern_" + NatToString(s.groups[k][0]), |s.groups[k]|,
                                        ws[s.groups[k][0]], 0.9, Suggestion))
      && AnchorsIncrease(s.groups) && Disjoint(s.groups)
      && TotalOccurrences(s.patterns) <= |ws|
  {
    var s := Run(ws, sim, threshold, |ws|);
    RunSound(ws, sim, threshold, |ws|);
    SubsetOfRange(s.used, |ws|);
  }

  /**
   * Three workflows similar to the first and a fourth that is not give one
   * pattern of three occurrences, anchored at the first.
   */
  lemma DetectThreeOfFour(ws: seq<Dict>, sim: (Dict, Dict) -> real, threshold: real)
    requires |ws| == 4
    requires sim(ws[0], ws[1]) >= threshold && sim(ws[0], ws[2]) >= threshold && sim(ws[0], ws[3]) < threshold
    ensures Run(ws, sim, threshold, 4).patterns == [Pattern("pattern_0", 3, ws[0], 0.9, Suggestion)]
  {
    assert Later(ws, sim, threshold, 0, 1, {}) == [];
    assert Later(ws, sim, threshold, 0, 2, {}) == [1];
    assert Later(ws, sim, threshold, 0, 3, {}) == [1, 2];
    assert Later(ws, sim, threshold, 0, 4, {}) == [1, 2];
    assert Group(ws, sim, threshold, 0, {}) == [0, 1, 2];
    assert Elems([0, 1, 2]) == {0, 1, 2};
    assert NatToString(0) == "0";
    assert MakePattern(ws, 0, 3) == Pattern("pattern_0", 3, ws[0], 0.9, Suggestion) by {
      assert "pattern_" + "0" == "pattern_0";
    }
    var s1 := Run(ws, sim, threshold, 1);
    assert Run(ws, sim, threshold, 0) == Scan([], {}, []);
    assert s1 == Next(ws, sim, threshold, 0, Run(ws, sim, threshold, 0));
    assert s1.patterns == [Pattern("pattern_0", 3, ws[0], 0.9, Suggestion)] && s1.used == {0, 1, 2};
    assert Run(ws, sim, threshold, 3) == s1;
    assert Later(ws, sim, threshold, 3, 4, s1.used) == [];
  }
}
