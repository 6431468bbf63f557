/**
 Accessibility audit results as the test bodies see them: violation
 records, the report keyed by rule id, the per-rule gate and the shared
 configuration object on which audit results are parked between tests.
 */
module Audit {
  import opened Pytest

  /** One violation record of the audit engine; only `id` and `help` are
      read by the suite, the rest is carried along for the external report. */
  datatype Violation = Violation(
    id: string,
    help: string,
    helpUrl: string,
    impact: string,
    description: string,
    tags: seq<string>)

  /** Rule id to violation record. */
  type ViolationMap = map<string, Violation>

  /** `dict((k['id'], k) for k in violations)`: the records are entered in
      list order, so a later record with the same id replaces an earlier
      one. */
  function KeyById(vs: seq<Violation>): (m: ViolationMap)
    ensures m.Keys == set i | 0 <= i < |vs| :: vs[i].id
    ensures forall k :: k in m ==> m[k].id == k
    decreases |vs|
  {
    if vs == [] then map[]
    else
      var init := vs[..|vs| - 1];
      var m0 := KeyById(init);
      assert forall i :: 0 <= i < |vs| - 1 ==> init[i] == vs[i];
      m0[vs[|vs| - 1].id := vs[|vs| - 1]]
  }

  /** The record kept under an id is the last one in the list with that id. */
  lemma {:induction false} KeyByIdLastWins(vs: seq<Violation>, i: nat)
    requires i < |vs|
    requires forall j :: i < j < |vs| ==> vs[j].id != vs[i].id
    ensures vs[i].id in KeyById(vs) && KeyById(vs)[vs[i].id] == vs[i]
    decreases |vs|
  {
    if i < |vs| - 1 {
      var init := vs[..|vs| - 1];
      KeyByIdLastWins(init, i);
    }
  }

  /** `assert rule not in violations, report(violations[rule])`: the rule
      passes exactly when it has no entry; `report` is applied, and the entry
      looked up, only on the failing path. */
  function Gate<M>(violations: ViolationMap, rule: string, report: Violation -> M): (v: Verdict<M>)
    ensures v.Pass? <==> rule !in violations
    ensures !v.Raised?
    ensures v.Fail? ==> rule in violations && v.message == Some(report(violations[rule]))
  {
    if rule in violations then Fail(Some(report(violations[rule]))) else Pass
  }

  /** The docstring after `if rule in violations: __doc__ = violations[rule]['help']`. */
  function DocAfter(violations: ViolationMap, rule: string, doc: Option<string>): (d: Option<string>)
    ensures rule in violations ==> d == Some(violations[rule].help)
    ensures rule !in violations ==> d == doc
  {
    if rule in violations then Some(violations[rule].help) else doc
  }

  /** Every rule of a rule list passes exactly when the report has no key in
      common with the list. */
  lemma AllRulesPass<M>(violations: ViolationMap, rules: seq<string>, report: Violation -> M)
    ensures (forall i :: 0 <= i < |rules| ==> Gate(violations, rules[i], report).Pass?) <==>
            violations.Keys * (set i | 0 <= i < |rules| :: rules[i]) == {}
  {
    var ruleSet := set i | 0 <= i < |rules| :: rules[i];
    if violations.Keys * ruleSet != {} {
      var k :| k in violations.Keys * ruleSet;
      var i :| 0 <= i < |rules| && rules[i] == k;
      assert !Gate(violations, rules[i], report).Pass?;
    } else {
      forall i | 0 <= i < |rules|
        ensures Gate(violations, rules[i], report).Pass?
      {
        assert rules[i] in ruleSet;
        assert rules[i] !in violations.Keys * ruleSet;
      }
    }
  }

  /** The docstring after checking the rules one after the other on the same
      test function object, as a parametrized test does. */
  function DocAfterRules(violations: ViolationMap, rules: seq<string>, doc: Option<string>): (d: Option<string>)
    ensures d == doc || exists i :: 0 <= i < |rules| && rules[i] in violations && d == Some(violations[rules[i]].help)
    decreases |rules|
  {
    if rules == [] then doc
    else DocAfter(violations, rules[|rules| - 1], DocAfterRules(violations, rules[..|rules| - 1], doc))
  }

  /** The shared docstring ends up as the help text of the LAST violated
      rule, or unchanged when no rule was violated; a passing rule checked
      later keeps a help text that belongs to another rule. */
  lemma {:induction false} DocAfterRulesIsLastViolated(violations: ViolationMap, rules: seq<string>, doc: Option<string>)
    ensures (forall i :: 0 <= i < |rules| ==> rules[i] !in violations) ==>
            DocAfterRules(violations, rules, doc) == doc
    ensures forall i :: 0 <= i < |rules| ==>
              (rules[i] in violations && (forall j :: i < j < |rules| ==> rules[j] !in violations)) ==>
              DocAfterRules(violations, rules, doc) == Some(violations[rules[i]].help)
    decreases |rules|
  {
    if rules != [] {
      var init, r := rules[..|rules| - 1], rules[|rules| - 1];
      DocAfterRulesIsLastViolated(violations, init, doc);
      var prev := DocAfterRules(violations, init, doc);
      assert DocAfterRules(violations, rules, doc) == DocAfter(violations, r, prev);
      assert forall i :: 0 <= i < |init| ==> init[i] == rules[i];
      forall i | 0 <= i < |rules| && rules[i] in violations && (forall j :: i < j < |rules| ==> rules[j] !in violations)
        ensures DocAfterRules(violations, rules, doc) == Some(violations[rules[i]].help)
      {
        if i < |init| {
          assert r !in violations;
          assert forall j :: i < j < |init| ==> init[j] !in violations;
        }
      }
    }
  }

  /** The `pytestconfig` object: test code parks audit results on it as
      attributes, one per scenario. */
  class PytestConfig {
    /** `pytestconfig.data`: the violation list of `axe.execute()` (about page test). */
    var data: Slot<seq<Violation>>
    /** `pytestconfig.home_page`, `.home_page_logged_in`, `.about_page`: `axe.run()` results. */
    var homePage: Slot<ViolationMap>
    var homePageLoggedIn: Slot<ViolationMap>
    var aboutPage: Slot<ViolationMap>

    constructor ()
      ensures data == Unset && homePage == Unset
      ensures homePageLoggedIn == Unset && aboutPage == Unset
    {
      data, homePage, homePageLoggedIn, aboutPage := Unset, Unset, Unset, Unset;
    }
  }

  /** Reading an audit result back from a slot and gating one rule on it:
      an attribute never assigned raises `AttributeError`, a stored `None`
      raises `TypeError` at `rule in None`. */
  function SlotVerdict<M>(slot: Slot<ViolationMap>, rule: string, report: Violation -> M): (v: Verdict<M>)
    ensures v.Pass? <==> slot.Stored? && slot.content.Some? && rule !in slot.content.value
    ensures v.Raised? <==> !(slot.Stored? && slot.content.Some?)
    ensures slot == Unset ==> v == Raised(AttributeError)
    ensures slot == Stored(None) ==> v == Raised(TypeError)
    ensures slot.Stored? && slot.content.Some? ==> v == Gate(slot.content.value, rule, report)
  {
    match slot
    case Unset => Raised(AttributeError)
    case Stored(None) => Raised(TypeError)
    case Stored(Some(m)) => Gate(m, rule, report)
  }

  /** The docstring after a check on a slot: reassigned only when the slot
      holds a report in which the rule is present. */
  function SlotDoc(slot: Slot<ViolationMap>, rule: string, doc: Option<string>): (d: Option<string>)
    ensures d != doc ==> slot.Stored? && slot.content.Some? && rule in slot.content.value
    ensures slot.Stored? && slot.content.Some? && rule in slot.content.value ==>
            d == Some(slot.content.value[rule].help)
  {
    match slot
    case Stored(Some(m)) => DocAfter(m, rule, doc)
    case _ => doc
  }
}
