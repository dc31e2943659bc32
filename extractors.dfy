/**
 * The keyword heuristics the handlers run over the model's analysis text
 * (hls/src/hsl_handler/handlers.py): suggested issue labels, the close
 * recommendation, and pull-request size and type labels.
 */
module Extractors {
  import opened Wrappers
  import opened Text

  // ---------------------------------------------------------------- issue labels

  /** A label and the alternatives of the regular expression that suggests it. */
  datatype LabelRule = LabelRule(alternatives: seq<Pattern>, name: string)

  /** The word `w` between `\b`s. */
  function Word(w: string): Pattern { Regex(w, true) }

  /** The label table of `extract_labels_from_analysis`, in its declaration order. */
  const LabelRules: seq<LabelRule> := [
    LabelRule([Word("bug")], "bug"),
    LabelRule([Word("enhancement")], "enhancement"),
    LabelRule([Word("question")], "question"),
    LabelRule([Word("documentation")], "documentation"),
    LabelRule([Word("maintenance")], "maintenance"),
    LabelRule([Word("high.priority"), Word("priority.high")], "priority-high"),
    LabelRule([Word("medium.priority"), Word("priority.medium")], "priority-medium"),
    LabelRule([Word("low.priority"), Word("priority.low")], "priority-low"),
    LabelRule([Word("easy"), Word("difficulty.easy")], "difficulty-easy"),
    LabelRule([Word("moderate"), Word("difficulty.moderate")], "difficulty-moderate"),
    LabelRule([Word("complex"), Word("difficulty.complex")], "difficulty-complex"),
    LabelRule([Word("frontend"), Word("component.frontend")], "component-frontend"),
    LabelRule([Word("backend"), Word("component.backend")], "component-backend"),
    LabelRule([Word("database"), Word("component.database")], "component-database")
  ]

  predicate NoDuplicates<T(==)>(xs: seq<T>) {
    forall i, j :: 0 <= i < j < |xs| ==> xs[i] != xs[j]
  }

  /** Rule `k`'s expression finds a match in `s`. */
  predicate RuleFires(rules: seq<LabelRule>, k: int, s: string)
    requires 0 <= k < |rules|
  {
    SearchAny(rules[k].alternatives, s)
  }

  /** The labels of the rules that fire on `s`, in table order. */
  function LabelsFrom(rules: seq<LabelRule>, s: string): seq<string> {
    if rules == [] then []
    else
      var last := |rules| - 1;
      LabelsFrom(rules[..last], s) + (if RuleFires(rules, last, s) then [rules[last].name] else [])
  }

  /** A label is produced exactly when some rule carrying it fires. */
  lemma {:induction false} LabelsFromMembership(rules: seq<LabelRule>, s: string, l: string)
    ensures l in LabelsFrom(rules, s) <==> exists k :: 0 <= k < |rules| && rules[k].name == l && RuleFires(rules, k, s)
  {
    if rules != [] {
      var last := |rules| - 1;
      var front := rules[..last];
      LabelsFromMembership(front, s, l);
      assert forall k :: 0 <= k < last ==> front[k] == rules[k];
      if l in LabelsFrom(front, s) {
        var k :| 0 <= k < |front| && front[k].name == l && RuleFires(front, k, s);
        assert rules[k].name == l && RuleFires(rules, k, s);
      }
      if k :| 0 <= k < |rules| && rules[k].name == l && RuleFires(rules, k, s) {
        if k < last {
          assert front[k].name == l && RuleFires(front, k, s);
        }
      }
    }
  }

  /** With distinct labels in the table, no label is produced twice. */
  lemma {:induction false} LabelsFromDistinct(rules: seq<LabelRule>, s: string)
    requires NoDuplicates(seq(|rules|, k requires 0 <= k < |rules| => rules[k].name))
    ensures NoDuplicates(LabelsFrom(rules, s))
  {
    if rules != [] {
      var last := |rules| - 1;
      var front := rules[..last];
      assert seq(|front|, k requires 0 <= k < |front| => front[k].name)
          == seq(|rules|, k requires 0 <= k < |rules| => rules[k].name)[..last];
      LabelsFromDistinct(front, s);
      if RuleFires(rules, last, s) {
        var names := seq(|rules|, k requires 0 <= k < |rules| => rules[k].name);
        forall k | 0 <= k < |front| ensures front[k].name != rules[last].name {
          assert names[k] == front[k].name && names[last] == rules[last].name;
        }
        LabelsFromMembership(front, s, rules[last].name);
      }
    }
  }

  lemma LabelRulesDistinct()
    ensures NoDuplicates(seq(|LabelRules|, k requires 0 <= k < |LabelRules| => LabelRules[k].name))
  {
  }

  /** The labels suggested for an analysis, in table order. */
  function SuggestedLabels(analysis: string): seq<string> {
    LabelsFrom(LabelRules, Lower(analysis))
  }

  /** A label is suggested exactly when one of its expressions finds a match in the lower-cased analysis. */
  lemma SuggestedLabelsMembership(analysis: string, l: string)
    ensures l in SuggestedLabels(analysis) <==>
      exists k :: 0 <= k < |LabelRules| && LabelRules[k].name == l && RuleFires(LabelRules, k, Lower(analysis))
  {
    LabelsFromMembership(LabelRules, Lower(analysis), l);
  }

  /** No label is suggested twice, and every suggestion is one of the fourteen table labels. */
  lemma SuggestedLabelsDistinct(analysis: string)
    ensures NoDuplicates(SuggestedLabels(analysis))
    ensures |SuggestedLabels(analysis)| <= |LabelRules|
    ensures forall l :: l in SuggestedLabels(analysis) ==> exists k :: 0 <= k < |LabelRules| && LabelRules[k].name == l
  {
    LabelRulesDistinct();
    LabelsFromDistinct(LabelRules, Lower(analysis));
    LabelsFromLength(LabelRules, Lower(analysis));
    forall l | l in SuggestedLabels(analysis) ensures exists k :: 0 <= k < |LabelRules| && LabelRules[k].name == l {
      SuggestedLabelsMembership(analysis, l);
    }
  }

  lemma {:induction false} LabelsFromLength(rules: seq<LabelRule>, s: string)
    ensures |LabelsFrom(rules, s)| <= |rules|
  {
    if rules != [] {
      LabelsFromLength(rules[..|rules| - 1], s);
    }
  }

  /**
   * `extract_labels_from_analysis`: scans the table in order, collecting the
   * label of every rule that fires on the lower-cased analysis.
   */
  method ExtractLabelsFromAnalysis(analysis: string) returns (labels: seq<string>)
    ensures labels == SuggestedLabels(analysis)
  {
    var lower := Lower(analysis);
    labels := [];
    var k := 0;
    while k < |LabelRules|
      invariant 0 <= k <= |LabelRules|
      invariant labels == LabelsFrom(LabelRules[..k], lower)
    {
      assert LabelRules[..k + 1][..k] == LabelRules[..k];
      if SearchAny(LabelRules[k].alternatives, lower) {
        labels := labels + [LabelRules[k].name];
      }
      k := k + 1;
    }
    assert LabelRules[..k] == LabelRules;
  }

  // ---------------------------------------------------------------- closing

  const CloseMarker := "RECOMMENDATION: CLOSE ISSUE"

  /** `should_close_issue`: the marker occurs verbatim (case matters). */
  function ShouldCloseIssue(analysis: string): (close: bool)
    ensures close <==> exists i: nat :: SliceIs(analysis, i, CloseMarker)
  {
    Contains(analysis, CloseMarker)
  }

  // ---------------------------------------------------------------- pull-request labels

  /** The size label for a pull request with this many added plus deleted lines. */
  function SizeLabel(totalChanges: int): (l: string)
    ensures l == "size/small" <==> totalChanges < 50
    ensures l == "size/medium" <==> 50 <= totalChanges < 200
    ensures l == "size/large" <==> 200 <= totalChanges
  {
    if totalChanges < 50 then "size/small"
    else if totalChanges < 200 then "size/medium"
    else "size/large"
  }

  /** The type label for a lower-cased analysis: the first keyword group, in precedence order, that occurs. */
  function TypeLabel(lower: string): (l: Option<string>)
    ensures var bugFix := Contains(lower, "bug") || Contains(lower, "fix");
      var feature := Contains(lower, "feature") || Contains(lower, "enhancement");
      var refactor := Contains(lower, "refactor");
      var docs := Contains(lower, "documentation") || Contains(lower, "docs");
      && (l == Some("type/bug-fix") <==> bugFix)
      && (l == Some("type/feature") <==> !bugFix && feature)
      && (l == Some("type/refactor") <==> !bugFix && !feature && refactor)
      && (l == Some("type/docs") <==> !bugFix && !feature && !refactor && docs)
      && (l.None? <==> !bugFix && !feature && !refactor && !docs)
  {
    if Contains(lower, "bug") || Contains(lower, "fix") then Some("type/bug-fix")
    else if Contains(lower, "feature") || Contains(lower, "enhancement") then Some("type/feature")
    else if Contains(lower, "refactor") then Some("type/refactor")
    else if Contains(lower, "documentation") || Contains(lower, "docs") then Some("type/docs")
    else None
  }

  /**
   * `PullRequestHandler._extract_pr_labels`: one size label, always first,
   * then at most one type label.
   */
  method ExtractPrLabels(analysis: string, additions: int, deletions: int) returns (labels: seq<string>)
    ensures 1 <= |labels| <= 2
    ensures labels[0] == SizeLabel(additions + deletions)
    ensures |labels| == 2 <==> TypeLabel(Lower(analysis)).Some?
    ensures |labels| == 2 ==> labels[1] == TypeLabel(Lower(analysis)).value
    ensures forall i :: 0 < i < |labels| ==> !StartsWith(labels[i], "size/")
  {
    labels := [];
    var totalChanges := additions + deletions;
    if totalChanges < 50 {
      labels := labels + ["size/small"];
    } else if totalChanges < 200 {
      labels := labels + ["size/medium"];
    } else {
      labels := labels + ["size/large"];
    }
    var lower := Lower(analysis);
    if Contains(lower, "bug") || Contains(lower, "fix") {
      labels := labels + ["type/bug-fix"];
    } else if Contains(lower, "feature") || Contains(lower, "enhancement") {
      labels := labels + ["type/feature"];
    } else if Contains(lower, "refactor") {
      labels := labels + ["type/refactor"];
    } else if Contains(lower, "documentation") || Contains(lower, "docs") {
      labels := labels + ["type/docs"];
    }
    assert forall i :: 0 < i < |labels| ==> labels[i][0] == 't';
  }
}
