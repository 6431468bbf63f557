/**
 The accessibility tests: three scenarios (home page, home page after
 login, about page), each a "run" test that stores the audit result on its
 own attribute of the shared configuration and a parametrized "check" test
 that reads that attribute back and gates one rule on it. The audit result
 is a parameter; `report` stands for the external report formatter.
 */
module Accessibility {
  import opened Pytest
  import opened Audit

  /** `test_home_page_run_axe`: store, then assert the result is not `None`. */
  method HomePageRunAxe(config: PytestConfig, result: Option<ViolationMap>) returns (v: Verdict<string>)
    modifies config`homePage
    ensures config.homePage == Stored(result)
    ensures v == if result.Some? then Pass else Fail(None)
  {
    config.homePage := Stored(result);
    if config.homePage.content == None {
      return Fail(None);
    }
    return Pass;
  }

  /** `test_home_page_accessibility`. */
  method HomePageAccessibility<M>(config: PytestConfig, fn: TestFunction, rule: string, report: Violation -> M)
    returns (v: Verdict<M>)
    modifies fn
    ensures v == SlotVerdict(config.homePage, rule, report)
    ensures fn.doc == SlotDoc(config.homePage, rule, old(fn.doc))
  {
    v := CheckSlot(config.homePage, fn, rule, report);
  }

  /** `test_home_page_when_logged_in_run_axe` (the login itself is a page
      action left out): store, then assert the result is not `None`. */
  method HomePageWhenLoggedInRunAxe(config: PytestConfig, result: Option<ViolationMap>) returns (v: Verdict<string>)
    modifies config`homePageLoggedIn
    ensures config.homePageLoggedIn == Stored(result)
    ensures v == if result.Some? then Pass else Fail(None)
  {
    config.homePageLoggedIn := Stored(result);
    if config.homePageLoggedIn.content == None {
      return Fail(None);
    }
    return Pass;
  }

  /** `test_home_page_when_logged_in_accessibility`. */
  method HomePageWhenLoggedInAccessibility<M>(config: PytestConfig, fn: TestFunction, rule: string,
                                             report: Violation -> M)
    returns (v: Verdict<M>)
    modifies fn
    ensures v == SlotVerdict(config.homePageLoggedIn, rule, report)
    ensures fn.doc == SlotDoc(config.homePageLoggedIn, rule, old(fn.doc))
  {
    v := CheckSlot(config.homePageLoggedIn, fn, rule, report);
  }

  /** `test_about_page_run_axe`: stores the result and asserts nothing, so a
      `None` result passes here and surfaces only in the checks. */
  method AboutPageRunAxe(config: PytestConfig, result: Option<ViolationMap>) returns (v: Verdict<string>)
    modifies config`aboutPage
    ensures config.aboutPage == Stored(result)
    ensures v == Pass
  {
    config.aboutPage := Stored(result);
    return Pass;
  }

  /** `test_about_page_accessibility`. */
  method AboutPageAccessibility<M>(config: PytestConfig, fn: TestFunction, rule: string, report: Violation -> M)
    returns (v: Verdict<M>)
    modifies fn
    ensures v == SlotVerdict(config.aboutPage, rule, report)
    ensures fn.doc == SlotDoc(config.aboutPage, rule, old(fn.doc))
  {
    v := CheckSlot(config.aboutPage, fn, rule, report);
  }

  /** The body the three check tests share: read the attribute, reassign the
      docstring when the rule is present, then assert its absence. */
  method CheckSlot<M>(slot: Slot<ViolationMap>, fn: TestFunction, rule: string, report: Violation -> M)
    returns (v: Verdict<M>)
    modifies fn
    ensures v == SlotVerdict(slot, rule, report)
    ensures fn.doc == SlotDoc(slot, rule, old(fn.doc))
  {
    if slot == Unset {
      return Raised(AttributeError);
    }
    var violations := slot.content;
    if violations == None {
      return Raised(TypeError);
    }
    if rule in violations.value {
      fn.doc := Some(violations.value[rule].help);
    }
    return Gate(violations.value, rule, report);
  }

  /** A session that runs the home-page audit and then the about-page audit:
      the home-page check reads only its own attribute, so it passes exactly
      when its own result lacks the rule, whatever the about page stored,
      and the about-page check on a `None` result raises `TypeError`. */
  method TwoScenarioSession<M>(home: ViolationMap, about: Option<ViolationMap>, rule: string,
                               report: Violation -> M)
    returns (homeRun: Verdict<string>, homeCheck: Verdict<M>, aboutRun: Verdict<string>, aboutCheck: Verdict<M>)
    ensures homeRun == Pass && aboutRun == Pass
    ensures homeCheck.Pass? <==> rule !in home
    ensures homeCheck.Fail? ==> homeCheck.message == Some(report(home[rule]))
    ensures about == None ==> aboutCheck == Raised(TypeError)
    ensures about.Some? ==> (aboutCheck.Pass? <==> rule !in about.value)
  {
    var config := new PytestConfig();
    homeRun := HomePageRunAxe(config, Some(home));
    aboutRun := AboutPageRunAxe(config, about);
    var homeTest := new TestFunction(None);
    var aboutTest := new TestFunction(None);
    homeCheck := HomePageAccessibility(config, homeTest, rule, report);
    aboutCheck := AboutPageAccessibility(config, aboutTest, rule, report);
  }
}
