/**
 The about-page tests: one test parks the audit output on the shared
 configuration, a parametrized test gates each known rule on it after
 keying the violation list by rule id, and a link test collects the result of
 every link check that is not `True`.
 */
module AboutPage {
  import opened Pytest
  import opened PyText
  import opened Audit

  /** `test_about_page`: the audit output is stored first, then the two page
      sections are asserted present (page objects are parameters here). */
  method TestAboutPage(config: PytestConfig, executed: Option<seq<Violation>>,
                       privacySectionPresent: bool, getInvolvedSectionPresent: bool)
    returns (v: Verdict<string>)
    modifies config`data
    ensures config.data == Stored(executed)
    ensures v == if privacySectionPresent && getInvolvedSectionPresent then Pass else Fail(None)
  {
    config.data := Stored(executed);
    if !privacySectionPresent {
      return Fail(None);
    }
    if !getInvolvedSectionPresent {
      return Fail(None);
    }
    return Pass;
  }

  /** The verdict of `test_accessibility_rules` for one rule: the stored
      violation list is keyed by id and the rule gated on the result. A rule passes
      exactly when no record in the list carries its id; on failure the
      report is made from the LAST record with that id. */
  function RulesVerdict<M>(data: Slot<seq<Violation>>, rule: string, report: Violation -> M): (v: Verdict<M>)
    ensures data == Unset ==> v == Raised(AttributeError)
    ensures data == Stored(None) ==> v == Raised(TypeError)
    ensures data.Stored? && data.content.Some? ==>
      var vs := data.content.value;
      && (v.Pass? <==> forall i :: 0 <= i < |vs| ==> vs[i].id != rule)
      && (forall i :: 0 <= i < |vs| && vs[i].id == rule &&
                      (forall j :: i < j < |vs| ==> vs[j].id != rule) ==>
                      v == Fail(Some(report(vs[i]))))
  {
    match data
    case Unset => Raised(AttributeError)
    case Stored(None) => Raised(TypeError)
    case Stored(Some(vs)) =>
      var m := KeyById(vs);
      assert rule in m <==> exists i :: 0 <= i < |vs| && vs[i].id == rule;
      forall i | 0 <= i < |vs| && vs[i].id == rule && (forall j :: i < j < |vs| ==> vs[j].id != rule)
        ensures m[rule] == vs[i]
      {
        KeyByIdLastWins(vs, i);
      }
      Gate(m, rule, report)
  }

  /** The docstring after `test_accessibility_rules` for one rule. */
  function RulesDoc(data: Slot<seq<Violation>>, rule: string, doc: Option<string>): (d: Option<string>)
    ensures d != doc ==> data.Stored? && data.content.Some?
    ensures data.Stored? && data.content.Some? ==> d == DocAfter(KeyById(data.content.value), rule, doc)
  {
    match data
    case Stored(Some(vs)) => DocAfter(KeyById(vs), rule, doc)
    case _ => doc
  }

  /** `test_accessibility_rules`; `fn` is the test function whose `__doc__`
      is reassigned. */
  method TestAccessibilityRules<M>(config: PytestConfig, fn: TestFunction, rule: string, report: Violation -> M)
    returns (v: Verdict<M>)
    modifies fn
    ensures v == RulesVerdict(config.data, rule, report)
    ensures fn.doc == RulesDoc(config.data, rule, old(fn.doc))
  {
    if config.data == Unset {
      return Raised(AttributeError);
    }
    if config.data.content == None {
      return Raised(TypeError);
    }
    var violations := KeyById(config.data.content.value);
    if rule in violations {
      fn.doc := Some(violations[rule].help);
    }
    v := Gate(violations, rule, report);
  }

  // ---------------------------------------------------------------------
  // test_that_links_in_the_about_page_return_200_code
  // ---------------------------------------------------------------------

  /** What the crawler's status check returns for one link: `True`, or some
      other value, which the test collects as text. */
  datatype LinkCheck = IsTrue | NotTrue(text: string)

  /** The collected non-`True` results, in link order: at most one per link. */
  function BadUrls(urls: seq<string>, verify: string -> LinkCheck): (r: seq<string>)
    ensures |r| <= |urls|
    decreases |urls|
  {
    if urls == [] then []
    else
      var last := verify(urls[|urls| - 1]);
      BadUrls(urls[..|urls| - 1], verify) + (if last.NotTrue? then [last.text] else [])
  }

  /** Nothing is collected exactly when every check returned `True`. */
  lemma {:induction false} BadUrlsEmptyIff(urls: seq<string>, verify: string -> LinkCheck)
    ensures BadUrls(urls, verify) == [] <==> forall i :: 0 <= i < |urls| ==> verify(urls[i]).IsTrue?
    decreases |urls|
  {
    if urls != [] {
      var init := urls[..|urls| - 1];
      BadUrlsEmptyIff(init, verify);
      assert forall i :: 0 <= i < |init| ==> init[i] == urls[i];
    }
  }

  /** The results for a concatenation are the results of the parts, in order. */
  lemma {:induction false} BadUrlsAppend(a: seq<string>, b: seq<string>, verify: string -> LinkCheck)
    ensures BadUrls(a + b, verify) == BadUrls(a, verify) + BadUrls(b, verify)
    decreases |b|
  {
    if b == [] {
      assert a + b == a;
    } else {
      var b0 := b[..|b| - 1];
      BadUrlsAppend(a, b0, verify);
      assert (a + b)[..|a + b| - 1] == a + b0;
      assert (a + b)[|a + b| - 1] == b[|b| - 1];
    }
  }

  /** Every collected value is the non-`True` result of some link. */
  lemma {:induction false} BadUrlsSound(urls: seq<string>, verify: string -> LinkCheck)
    ensures forall k :: 0 <= k < |BadUrls(urls, verify)| ==>
              exists i :: 0 <= i < |urls| && verify(urls[i]) == NotTrue(BadUrls(urls, verify)[k])
    decreases |urls|
  {
    if urls == [] {
      assert BadUrls(urls, verify) == [];
    } else {
      var init := urls[..|urls| - 1];
      BadUrlsSound(init, verify);
      var b := BadUrls(urls, verify);
      var b0 := BadUrls(init, verify);
      var last := verify(urls[|urls| - 1]);
      var tail := if last.NotTrue? then [last.text] else [];
      assert b == b0 + tail;
      forall k | 0 <= k < |b|
        ensures exists i :: 0 <= i < |urls| && verify(urls[i]) == NotTrue(b[k])
      {
        if k < |b0| {
          var i :| 0 <= i < |init| && verify(init[i]) == NotTrue(b0[k]);
          assert urls[i] == init[i] && b[k] == b0[k];
        } else {
          assert b[k] == tail[0];
          assert verify(urls[|urls| - 1]) == NotTrue(b[k]);
        }
      }
    }
  }

  /** Every link whose check did not return `True` has its result collected. */
  lemma BadUrlsComplete(urls: seq<string>, verify: string -> LinkCheck, i: nat)
    requires i < |urls| && verify(urls[i]).NotTrue?
    ensures verify(urls[i]).text in BadUrls(urls, verify)
  {
    var before, here, after := urls[..i], [urls[i]], urls[i + 1..];
    assert urls == before + here + after;
    BadUrlsAppend(before + here, after, verify);
    BadUrlsAppend(before, here, verify);
    assert here[..0] == [];
  }

  /** `u'%s bad links found. ' % len(bad_urls) + ', '.join(bad_urls)`: the
      count and the fixed words, then the joined links and nothing else. */
  function BadLinksMessage(bad: seq<string>): (r: string)
    ensures IntToString(|bad|) + " bad links found. " <= r
    ensures r[|IntToString(|bad|) + " bad links found. "|..] == Join(bad, ", ")
  {
    var head := IntToString(|bad|) + " bad links found. ";
    assert (head + Join(bad, ", "))[|head|..] == Join(bad, ", ");
    head + Join(bad, ", ")
  }

  /** The message opens with the number of bad links, which can be read back. */
  lemma BadLinksMessageCount(bad: seq<string>)
    ensures IntToString(|bad|) <= BadLinksMessage(bad)
    ensures ParseInt(BadLinksMessage(bad)[..|IntToString(|bad|)|]) == |bad|
  {
    var n := IntToString(|bad|);
    assert BadLinksMessage(bad) == n + (" bad links found. " + Join(bad, ", "));
    assert BadLinksMessage(bad)[..|n|] == n;
    ParseIntToString(|bad|);
  }

  /** `test_that_links_in_the_about_page_return_200_code`: `urls` is what the
      crawler collected from the page, `verify` its status check. */
  method TestLinksReturn200(urls: seq<string>, verify: string -> LinkCheck) returns (v: Verdict<string>)
    ensures !v.Raised?
    ensures |urls| == 0 ==> v == Fail(None)
    ensures |urls| > 0 ==> (v.Pass? <==> forall i :: 0 <= i < |urls| ==> verify(urls[i]).IsTrue?)
    ensures |urls| > 0 && !v.Pass? ==> v == Fail(Some(BadLinksMessage(BadUrls(urls, verify))))
  {
    if |urls| == 0 {
      return Fail(None);
    }
    var badUrls: seq<string> := [];
    for i := 0 to |urls|
      invariant badUrls == BadUrls(urls[..i], verify)
    {
      var checkResult := verify(urls[i]);
      if checkResult.NotTrue? {
        badUrls := badUrls + [checkResult.text];
      }
      assert urls[..i + 1][..i] == urls[..i];
    }
    assert urls[..|urls|] == urls;
    BadUrlsEmptyIff(urls, verify);
    if |badUrls| == 0 {
      v := Pass;
    } else {
      v := Fail(Some(BadLinksMessage(badUrls)));
    }
  }
}
