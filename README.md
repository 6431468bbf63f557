# Mozillians end-to-end tests: the data handling inside the test bodies

The Mozillians test suite drives the live directory site through a browser. Around
those browser calls, its test files hold a few small data transformations of their own:

- the shared fixtures adjust the browser capability dictionaries;
- a fixture picks the passwordless login link out of the first mail message;
- two hooks add a Time and a Description column to the HTML report table, and a third
  fills the report's description from the test's docstring;
- the redirect tests build absolute URLs from fixed path tables and collect one error
  line per URL whose first HTTP status is not the expected one;
- the accessibility tests park audit results on the shared `pytestconfig` object, one
  attribute per scenario. Parametrized tests then read each result back and pass a rule
  exactly when it has no entry. `test_accessibility_rules` first keys the stored
  violation list by rule id; the three checks in test_accessibility.py use the rule-id
  map of `axe.run()` as it is. When the rule is present, each check reassigns the test
  function's docstring before its assert;
- the about-page link test collects the result of every link check that is not `True`
  (the check's result, not the URL).

The suite is Python 2 code: it uses `u''` literals and reaches the test function through
`Class.method.__func__`. In Python 2, `Class.method` is an unbound method, which has
`__func__`; in Python 3 it is a plain function, which does not. The model follows Python 2
semantics. Under Python 3 each failing rule would instead raise `AttributeError` at the
`__func__` access, before its assert.

This project models those transformations in Dafny and proves what the tests rely on.
Everything outside the suite becomes a parameter:

- the HTTP status of a URL is `status: string -> int`;
- the mailbox is a sequence of message texts;
- an audit result is a `ViolationMap` (or a violation list);
- the external report formatter is `report: Violation -> M`;
- the crawler's links and its status check are `urls` and `verify`;
- page-object observations are booleans.

Modules:

- `PyText` (text.dfy): the Python string built-ins the code uses, with their laws.
  These are `str.replace` (one left-to-right pass without overlaps), `split`, `join`,
  ASCII `lower`, and `str(int)`.
- `Pytest` (pytest.dfy): `Option`, `Result`, the exceptions a test can raise, and
  `Verdict`. A `Verdict` is pass, a failed `assert` with its optional message, or an
  escaped exception. The module also holds `Slot` (an attribute that may never have
  been assigned) and the `TestFunction` object whose `__doc__` test code reassigns.
- `Audit` (audit.dfy): violation records, keying a list by id, the per-rule gate, the
  docstring update, and the `PytestConfig` class with its four result attributes.
- `Conftest` (conftest.dfy): capability tweaks (class `CapabilitySet`), `login_link`,
  the report table hooks (class `CellList`) and the description of `makereport`.
- `Redirects` (redirects.dfy), `AboutPage` (about_page.dfy), `Accessibility`
  (accessibility.dfy): the test files of the same names.

The code mutates state in five places: a capability dictionary, a cell list, the
report object, the config object, and the `__doc__` of a test function (class
`Pytest.TestFunction`, reassigned at test_about_page.py:35 and test_accessibility.py:33,
52 and 67). Each becomes a class field that the methods
reassign, and the `modifies` frames show that nothing else changes. The loops of
`login_link`, `make_absolute_paths`, `verify_http_response_codes` and the link test are
`while`/`for` loops. Each is proved against a specification function:
`FirstWithPrefix`, `AbsoluteUrls`, `Mismatches` and `BadUrls`. Lemmas state what the
search and the two collected lists hold; `AbsoluteUrls` is covered by its own pointwise
contract.

## Model

| member | source | states |
|---|---|---|
| `Conftest.TaggedForSauceLabs` | tests/conftest.py:14-15 | With the Sauce Labs driver, `tags` gets exactly one `mozillians` appended at its end, starting from `[]` when the key is absent. No other key changes. A non-list `tags` raises `AttributeError`. Any other driver leaves the map as it is. |
| `Conftest.CapabilitySet.SessionCapabilities` | tests/conftest.py:12-16 | The fixture body (`setdefault` then `append`, in place) leaves the dictionary equal to `TaggedForSauceLabs` of the old one. On the error path the dictionary is unchanged. |
| `Conftest.WithMarionette` | tests/conftest.py:21-23 | The browser name is `browserName`, or else the driver option. `marionette` is set to `True` exactly when that name spells `firefox` in any mix of letter cases. Otherwise the map is unchanged. A name that is not a string (a `None` driver included) raises `AttributeError`. |
| `Conftest.WithMarionetteOnlyTouchesMarionette` | tests/conftest.py:22-23 | No key other than `marionette` is added, removed or changed. |
| `PyText.Lower` | tests/conftest.py:22 | `lower()` keeps the length, leaves no ASCII upper-case letter, keeps every other character, and maps each upper-case letter to its lower-case one. |
| `Conftest.CapabilitySet.Capabilities` | tests/conftest.py:19-24 | The fixture body leaves the dictionary equal to `WithMarionette` of the old one, and unchanged on the error path. |
| `PyText.LowerEqualsWord` | tests/conftest.py:22 | `s.lower() == word` (for a lower-case ASCII word) holds exactly when `s` has the word's length and each character is the letter in either case. |
| `Conftest.LoginLink` | tests/conftest.py:64-70 | With no message, the result is `IndexError`. Otherwise it is the first token, in order, of the normalised text of message 0 that starts with the `verify_redirect` prefix, or `None`. Later messages are never read. A returned link starts with the prefix and holds no space and no newline. |
| `Conftest.NormalizedMail` | tests/conftest.py:67 | After `replace('\n', ' ')` and `replace('amp;', '')`, the text holds no newline. |
| `Conftest.MailTokens` | tests/conftest.py:67 | `split(" ")` yields at least one token, and joining the tokens with a space gives back the normalised text. |
| `Conftest.FirstWithPrefix` | tests/conftest.py:68-70 | A token it returns starts with the prefix and is one of the tokens. |
| `Conftest.FirstWithPrefixIsFirst` | tests/conftest.py:68-70 | The search returns `None` exactly when no token starts with the prefix. Otherwise it returns a token that starts with the prefix and that no earlier token matches. |
| `Conftest.MailTokensAreClean` | tests/conftest.py:67 | No token of the normalised text holds a space or a newline. |
| `PyText.ReplaceCharPointwise` | tests/conftest.py:67 | `replace('\n', ' ')` keeps the length and maps each newline to a space, leaving every other character in place. |
| `PyText.ReplaceKeepsAbsent` | tests/conftest.py:67 | A character in neither the text nor the replacement is not in the result, so deleting `amp;` adds no newline. |
| `PyText.ReplaceWithoutOccurrence` | tests/conftest.py:67 | A text that does not contain the pattern is returned unchanged. |
| `PyText.DeletionCanLeaveOccurrence` | tests/conftest.py:67 | One pass of `replace('amp;', '')` over `amamp;p;` leaves `amp;`, so the normalised text can still contain `amp;`. |
| `PyText.Replace` | tests/conftest.py:67 | Replacing a pattern by itself gives back the text, and a replacement as long as the pattern keeps the length. |
| `PyText.Split` | tests/conftest.py:67 | `split(' ')` yields at least one piece, and no piece contains the separator. |
| `PyText.SplitKeepsAbsent` | tests/conftest.py:67 | A character absent from the text is absent from every piece. |
| `PyText.JoinSplit` | tests/conftest.py:67 | Joining the pieces of `split(c)` with `c` gives back the text. |
| `PyText.SplitJoin` | tests/conftest.py:67 | Splitting the `c`-join of a non-empty list of `c`-free pieces gives back the list. |
| `PyText.Join` | tests/test_about_page.py:52 | `sep.join` of no pieces is empty. Otherwise the text opens with the first piece. |
| `Conftest.Insert` | tests/conftest.py:74-75 | `list.insert(i, x)` adds one element. `x` sits at `i`, or at the end when `i` is past it. The elements before it are kept and the rest shift up by one. |
| `Conftest.InsertMultiset` | tests/conftest.py:74-75 | `list.insert` loses no element and adds only the inserted one. |
| `Conftest.HeaderLayout` | tests/conftest.py:74-75 | The header has two cells more. `Time` is first, and `Description` is fourth, or last when there are fewer than two original cells. |
| `Conftest.RowLayout` | tests/conftest.py:80-81 | The row has two cells more. The time is second, and the description is fourth, third after a single cell, or first on an empty row. |
| `Conftest.LayoutsKeepCells` | tests/conftest.py:72-81 | Header and row each hold the original cells plus exactly their two new cells, as a multiset. |
| `Conftest.HeaderLayoutShape` | tests/conftest.py:74-75 | The header grows by 2 and `Time` is at index 0. From `[c0, c1, …]` it becomes `[Time, c0, c1, Description, …]`. Shorter lists become `[Time, Description]` and `[Time, c0, Description]`. |
| `Conftest.RowLayoutShape` | tests/conftest.py:80-81 | The row grows by 2 and the time is at index 1. From `[c0, c1, …]` it becomes `[c0, time, c1, description, …]`. Shorter lists become `[description, time]` and `[c0, time, description]`. |
| `Conftest.ResultsTableHeader` | tests/conftest.py:73-75 | The two in-place inserts leave the cell list equal to `HeaderLayout` of the old list. |
| `Conftest.ResultsTableRow` | tests/conftest.py:79-81 | The two in-place inserts leave the cell list equal to `RowLayout` of the old list. |
| `Conftest.HeaderAndRowMisaligned` | tests/conftest.py:72-81 | For any table with at least one column, the header puts `Time` first while the row keeps its first original cell there. |
| `Conftest.HeaderLayoutCorrectedAligned` | tests/conftest.py:72-81 | With the header's Time inserted at 1, header and row have one layout: `[c0, Time, c1, Description, …]`. |
| `Conftest.HeaderLayoutCorrected` | tests/conftest.py:75 | With `Time` inserted at 1, the header has the row's layout for any cell list. |
| `Conftest.MakeReport` | tests/conftest.py:83-88 | The report's description becomes the docstring, or the text `None` when there is none. |
| `Conftest.DocText` | tests/conftest.py:88 | `str(__doc__)` is the docstring itself, and it is `None` for exactly two inputs: no docstring, and the docstring `"None"`. |
| `Conftest.DocTextConflatesNone` | tests/conftest.py:88 | A missing docstring and the docstring `"None"` give the same description. |
| `Conftest.Columns` | tests/conftest.py:72-81 | The original columns are `0 … n-1`, in order. This is the labelling with which the two hook layouts are compared. |
| `Redirects.PathTables` | tests/test_redirects.py:15-34 | The 302 table has 13 paths and the 200 table has 2. Every path begins with `/`. |
| `Redirects.AbsoluteUrls` | tests/test_redirects.py:39-43 | There are as many URLs as paths, and URL `i` is exactly the base URL followed by path `i`, with no separator handling. |
| `Redirects.MakeAbsolutePaths` | tests/test_redirects.py:39-43 | The loop's list equals `AbsoluteUrls` of the base URL and the paths. |
| `Redirects.VerifyHttpResponseCodes` | tests/test_redirects.py:45-54 | The loop's error list equals `Mismatches`: one line per URL whose status differs, in URL order. |
| `Redirects.ErrorMessageShape` | tests/test_redirects.py:52-53 | The error line opens with `Expected <expected> but got ` and ends with the URL. |
| `Redirects.Mismatches` | tests/test_redirects.py:47-53 | The error lines, in URL order, one per mismatching URL, so there are never more lines than URLs. |
| `Redirects.MismatchesEmptyIff` | tests/test_redirects.py:47-54 | The error list is empty exactly when every URL's status equals the expected one. |
| `Redirects.MismatchesAppend` | tests/test_redirects.py:47-53 | The lines for `a + b` are the lines for `a` followed by the lines for `b`, so URL order is kept. |
| `Redirects.MismatchesSound` | tests/test_redirects.py:47-53 | Each line is `Expected <e> but got <a>. <url>` for a URL whose status `a` is not `e`. |
| `Redirects.MismatchesComplete` | tests/test_redirects.py:47-53 | Every URL whose status differs has its line in the list. |
| `Redirects.ErrorMessageDeterminesStatus` | tests/test_redirects.py:52-53 | For a given URL and expected status, the error line determines the status that was seen. |
| `PyText.ParseIntToString` | tests/test_redirects.py:52-53 | Reading back the decimal text of `str(n)`, which `%s` prints, gives `n`, negative numbers included. |
| `PyText.IntToStringInjective` | tests/test_redirects.py:52-53 | Different integers print differently. |
| `PyText.NatToString` | tests/test_redirects.py:52-53 | `str(n)` of a natural number is a non-empty run of decimal digits. |
| `PyText.IntToStringShape` | tests/test_redirects.py:52-53 | `str(i)` is non-empty, starts with `-` exactly for a negative `i`, and is otherwise made of decimal digits. |
| `Redirects.CheckStatuses` | tests/test_redirects.py:28-30 | The test passes exactly when every base URL + path answers with the expected status. Otherwise it fails, and its message is the whole error list `Mismatches` of the absolute URLs: one line per mismatching URL, in order, never empty. |
| `Redirects.Test302RedirectForAnonymousUsers` | tests/test_redirects.py:14-30 | The test passes exactly when all 13 paths answer 302. On failure the message is the error list of the 13 URLs. |
| `Redirects.Test200ForAnonymousUsers` | tests/test_redirects.py:33-37 | The test passes exactly when `/pl/opensearch.xml` and `/nl/u/Mozillians.User/` both answer 200. On failure the message is the error list of the 2 URLs. |
| `Audit.KeyById` | tests/test_about_page.py:33 | The keys are exactly the `id`s in the list, and every record is filed under its own `id`. |
| `Audit.KeyByIdLastWins` | tests/test_about_page.py:33 | When ids repeat, the record kept is the last one in the list. |
| `Audit.Gate` | tests/test_about_page.py:36 | The rule passes exactly when it is not a key. The check never raises. On failure the message is `report` of the rule's record, so the lookup happens only on the failing path. |
| `Audit.DocAfter` | tests/test_about_page.py:34-35 | The docstring becomes the rule's `help` exactly when the rule is a key. Otherwise it is left unchanged. |
| `Audit.AllRulesPass` | tests/test_about_page.py:30-36 | Every rule in the list passes exactly when the report shares no key with the list. |
| `Audit.DocAfterRulesIsLastViolated` | tests/test_accessibility.py:24-34 | All parametrized cases share one function object. After them, its docstring is the `help` of the last violated rule, or unchanged when none was violated. |
| `Audit.DocAfterRules` | tests/test_about_page.py:30-35 | After the parametrized cases run on one function object, its docstring is either unchanged or the `help` of some rule of the list that is in the report. |
| `Audit.PytestConfig.constructor` | tests/test_accessibility.py:21 | A fresh configuration has none of the four result attributes assigned. |
| `Audit.SlotVerdict` | tests/test_accessibility.py:29-34 | Reading an attribute never assigned raises `AttributeError`, and a stored `None` raises `TypeError`. A stored report is gated as by `Gate`, so the check passes exactly when the rule is absent. |
| `Audit.SlotDoc` | tests/test_accessibility.py:31-33 | The docstring changes only when a stored report contains the rule, and then it becomes that rule's `help`. |
| `AboutPage.TestAboutPage` | tests/test_about_page.py:19-28 | The `execute` result is stored on `data` before anything is asserted, and nothing else on the configuration changes. The test passes exactly when both page sections are present. |
| `AboutPage.RulesVerdict` | tests/test_about_page.py:32-36 | A rule passes exactly when no record in the stored list has its id. On failure, the report comes from the last record with that id. An unassigned `data` raises `AttributeError`, and `None` raises `TypeError`. |
| `AboutPage.RulesDoc` | tests/test_about_page.py:33-35 | The docstring changes only through `DocAfter` on the keyed list. |
| `AboutPage.TestAccessibilityRules` | tests/test_about_page.py:30-36 | The test body yields `RulesVerdict` and leaves the test function's docstring at `RulesDoc`. |
| `AboutPage.BadUrlsEmptyIff` | tests/test_about_page.py:47-50 | Nothing is collected exactly when every check returned `True`. |
| `AboutPage.BadUrlsAppend` | tests/test_about_page.py:47-50 | The results are collected in link order: those for `a + b` are those for `a` followed by those for `b`. |
| `AboutPage.BadUrls` | tests/test_about_page.py:47-50 | At most one result is collected per link. |
| `AboutPage.BadUrlsSound` | tests/test_about_page.py:49-50 | Every collected value is the non-`True` result of some link's check. |
| `AboutPage.BadUrlsComplete` | tests/test_about_page.py:49-50 | Every link whose check did not return `True` has its result among the collected values. |
| `AboutPage.BadLinksMessage` | tests/test_about_page.py:52 | The message is the count and ` bad links found. `, followed by the `', '`-join of the bad links and nothing else. |
| `AboutPage.BadLinksMessageCount` | tests/test_about_page.py:52 | The failure message begins with the decimal count of bad links, and that count reads back as the number of bad links. |
| `AboutPage.TestLinksReturn200` | tests/test_about_page.py:40-52 | With no links collected, the test fails without a message. Otherwise it passes exactly when every check returned `True`. On failure the message is the count followed by the non-`True` results, joined with `', '` in link order. |
| `Accessibility.HomePageRunAxe` | tests/test_accessibility.py:18-22 | Only `home_page` is written, and it holds the result even when that is `None`. The test then fails exactly when the result is `None`. |
| `Accessibility.HomePageAccessibility` | tests/test_accessibility.py:27-34 | The check reads only `home_page`. Its verdict and the new docstring are `SlotVerdict` and `SlotDoc` of that attribute. |
| `Accessibility.HomePageWhenLoggedInRunAxe` | tests/test_accessibility.py:38-43 | Only `home_page_logged_in` is written. The test fails exactly when the result is `None`. |
| `Accessibility.HomePageWhenLoggedInAccessibility` | tests/test_accessibility.py:48-53 | The check reads only `home_page_logged_in`, with the same verdict and docstring as above. |
| `Accessibility.AboutPageRunAxe` | tests/test_accessibility.py:56-59 | Only `about_page` is written, and the step always passes: it makes no `None` assertion. |
| `Accessibility.AboutPageAccessibility` | tests/test_accessibility.py:63-69 | The check reads only `about_page`, with the same verdict and docstring as above. |
| `Accessibility.CheckSlot` | tests/test_accessibility.py:29-34 | The docstring is reassigned before the assert, and only when the rule is present. The verdict is `SlotVerdict`. |
| `Accessibility.TwoScenarioSession` | tests/test_accessibility.py:18-69 | After the home-page and about-page run steps, the home-page check passes exactly when its own result lacks the rule, whatever the about page stored. The about-page check on a `None` result raises `TypeError`. |

## Findings

| source | as written | input that shows it | evidently intended | confidence | as-written member | corrected member |
|---|---|---|---|---|---|---|
| tests/conftest.py:75 | The header hook inserts the Time heading at index 0, but the row hook (line 81) inserts the time value at index 1. | Any table with at least one column. Header `[Result, Test, Duration, Links]` becomes `[Time, Result, Test, Description, Duration, Links]`. Row `[r, t, d, l]` becomes `[r, time, t, desc, d, l]`. The Time heading stands over the result cell and the Result heading over the time. | Insert the Time heading at index 1, as the row hook does, so each heading labels the cell below it. | not executed; high | `Conftest.HeaderAndRowMisaligned` | `Conftest.HeaderLayoutCorrectedAligned` |

`Conftest.ResultsTableHeader` models the hook as written. `Conftest.HeaderLayoutCorrected` is the layout that the header hook evidently intended.

## Left out

- tests/test_search.py and tests/test_register.py are wholly left out. They are sequences of page-object and browser actions that assert on live page content. tests/test_search.py picks a random search result with `randrange`; tests/test_register.py creates a new account through the `new_user` fixture and audits it with axe. The page objects are not part of this model.
- The `selenium` fixture is left out. Its implicit wait and window sizing are browser calls.
- `new_email`, `new_user`, `stored_users`, `vouched_user`, `private_user` and `unvouched_user` are left out. They are a `uuid1` call and plain lookups into an external variables file, with no logic of their own.
- `restmail.get_mail` (network) is left out: a mailbox is a sequence of message texts. A message without a `text` key (a `KeyError`) is not modelled.
- `requests.get` is left out. The status of a URL is a total function `status`, and redirects, timeouts and connection errors are not modelled.
- `Axe.run`, `Axe.execute` and the `axe` fixture are left out. Their results are parameters.
- The accessibility engine is left out.
- The `report` formatter and the `rules` list are imported from `axe_selenium_python` and are not part of this model. `report` is an opaque function, no report text format is modelled, and `rules` is a given sequence.
- A `data` value without a `violations` key, and records without `id` or `help`, are not modelled. Each would raise `KeyError`.
- `LinkCrawler` is not part of this model. The collected links and `verify_status_code_is_ok` are parameters.
- `LinkCrawler` results that are neither `True` nor text are not modelled. Joining them would raise `TypeError`.
- `py.xml.html` cells and `datetime.utcnow()` are opaque values of a type parameter.
- pytest machinery is left out: fixture resolution, markers, `xfail` (the link test's verdict is computed as if it were not marked), the hookwrapper `yield`, and the `repr` of the error list in the redirect assertion's message (the list itself is the message). `Audit.DocAfterRulesIsLastViolated` assumes that parametrized cases run in list order on one function object.
- `Conftest.WithMarionette`: does not model Python's full Unicode `lower()`. The model lower-cases the ASCII letters only, and case mappings of non-ASCII characters are not modelled.
- `Conftest.CapabilitySet.SessionCapabilities`: does not model aliasing. Python appends to the list object stored under `tags`, which other references may share. The model replaces the map entry with a new list value.
- `Conftest.DocText`: does not model Python 2's `UnicodeEncodeError`. On Python 2, `str(item.function.__doc__)` (tests/conftest.py:88) raises it for a unicode docstring with non-ASCII characters; the model has no byte encoding and always yields the text.
- `PyText.Replace` requires a non-empty pattern. The suite only replaces `'\n'` and `'amp;'`, and Python's special case for an empty pattern is not modelled.
