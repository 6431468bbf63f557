/**
 The shared fixtures and report hooks of the suite: browser capability
 tweaks, extraction of the passwordless login link from a mail, the two
 extra columns of the HTML report and the report description.
 */
module Conftest {
  import opened Pytest
  import opened PyText

  // ---------------------------------------------------------------------
  // Capability dictionaries
  // ---------------------------------------------------------------------

  /** The Python values a capability dictionary (or the `driver` option) may hold. */
  datatype PyValue =
    | PyNone
    | PyBool(b: bool)
    | PyInt(i: int)
    | PyStr(s: string)
    | PyList(items: seq<PyValue>)

  type CapabilityMap = map<string, PyValue>

  const SauceLabs: PyValue := PyStr("SauceLabs")
  const SuiteTag: PyValue := PyStr("mozillians")

  /** The `tags` list before the session tweak (`setdefault` supplies `[]`). */
  function TagsBefore(caps: CapabilityMap): seq<PyValue> {
    if "tags" in caps && caps["tags"].PyList? then caps["tags"].items else []
  }

  /** `session_capabilities`: on Sauce Labs, `setdefault('tags', []).append('mozillians')`.
      A `tags` entry that is not a list has no `append`. */
  function TaggedForSauceLabs(caps: CapabilityMap, driver: PyValue): (r: Result<CapabilityMap>)
    ensures driver != SauceLabs ==> r == Ok(caps)
    ensures driver == SauceLabs ==> (r.Ok? <==> "tags" !in caps || caps["tags"].PyList?)
    ensures r.Err? ==> r.error == AttributeError
    ensures driver == SauceLabs && r.Ok? ==>
      && r.value.Keys == caps.Keys + {"tags"}
      && (forall k :: k in caps && k != "tags" ==> r.value[k] == caps[k])
      && r.value["tags"] == PyList(TagsBefore(caps) + [SuiteTag])
  {
    if driver != SauceLabs then Ok(caps)
    else if "tags" !in caps then
      assert TagsBefore(caps) + [SuiteTag] == [SuiteTag];
      Ok(caps["tags" := PyList([SuiteTag])])
    else match caps["tags"]
      case PyList(xs) => Ok(caps["tags" := PyList(xs + [SuiteTag])])
      case _ => Err(AttributeError)
  }

  /** `capabilities.get('browserName', driver)`. */
  function BrowserName(caps: CapabilityMap, driver: PyValue): PyValue {
    if "browserName" in caps then caps["browserName"] else driver
  }

  /** `name` spells `firefox` with every letter in either case. */
  predicate IsFirefox(name: string) {
    var word := "firefox";
    |name| == |word| &&
    forall i :: 0 <= i < |name| ==> name[i] == word[i] || name[i] as int == word[i] as int - 32
  }

  /** `capabilities`: set `marionette` to `True` when the browser name,
      lower-cased, is `firefox`; a browser name that is not a string (the
      `None` driver option included) has no `lower`. */
  function WithMarionette(caps: CapabilityMap, driver: PyValue): (r: Result<CapabilityMap>)
    ensures r.Err? <==> !BrowserName(caps, driver).PyStr?
    ensures r.Err? ==> r.error == AttributeError
    ensures r.Ok? && IsFirefox(BrowserName(caps, driver).s) ==>
      r.value == caps["marionette" := PyBool(true)]
    ensures r.Ok? && !IsFirefox(BrowserName(caps, driver).s) ==> r.value == caps
  {
    match BrowserName(caps, driver)
    case PyStr(name) =>
      LowerEqualsWord(name, "firefox");
      if Lower(name) == "firefox" then Ok(caps["marionette" := PyBool(true)]) else Ok(caps)
    case _ => Err(AttributeError)
  }

  /** The `marionette` tweak touches no other key. */
  lemma WithMarionetteOnlyTouchesMarionette(caps: CapabilityMap, driver: PyValue, k: string)
    requires WithMarionette(caps, driver).Ok?
    requires k != "marionette"
    ensures k in WithMarionette(caps, driver).value <==> k in caps
    ensures k in caps ==> WithMarionette(caps, driver).value[k] == caps[k]
  {
  }

  /** The capability dictionary a fixture receives and updates in place. */
  class CapabilitySet {
    var entries: CapabilityMap

    constructor (entries: CapabilityMap)
      ensures this.entries == entries
    {
      this.entries := entries;
    }

    /** The `session_capabilities` fixture body; `err` is the exception it raises, if any. */
    method SessionCapabilities(driver: PyValue) returns (err: Option<PyError>)
      modifies this
      ensures TaggedForSauceLabs(old(entries), driver).Ok? ==>
        err == None && entries == TaggedForSauceLabs(old(entries), driver).value
      ensures TaggedForSauceLabs(old(entries), driver).Err? ==>
        err == Some(AttributeError) && entries == old(entries)
    {
      if driver == SauceLabs {
        if "tags" !in entries {
          entries := entries["tags" := PyList([])];
        }
        var tags := entries["tags"];
        if !tags.PyList? {
          return Some(AttributeError);
        }
        entries := entries["tags" := PyList(tags.items + [SuiteTag])];
      }
      return None;
    }

    /** The `capabilities` fixture body. */
    method Capabilities(driver: PyValue) returns (err: Option<PyError>)
      modifies this
      ensures WithMarionette(old(entries), driver).Ok? ==>
        err == None && entries == WithMarionette(old(entries), driver).value
      ensures WithMarionette(old(entries), driver).Err? ==>
        err == Some(AttributeError) && entries == old(entries)
    {
      var name := if "browserName" in entries then entries["browserName"] else driver;
      if !name.PyStr? {
        return Some(AttributeError);
      }
      if Lower(name.s) == "firefox" {
        entries := entries["marionette" := PyBool(true)];
      }
      return None;
    }
  }

  // ---------------------------------------------------------------------
  // login_link
  // ---------------------------------------------------------------------

  const VerifyRedirectPrefix: string := "https://auth.mozilla.auth0.com/passwordless/verify_redirect"

  /** The mail text with newlines turned into spaces and `amp;` deleted in
      one pass each: no newline is left. */
  function NormalizedMail(text: string): (r: string)
    ensures '\n' !in r
  {
    var spaced := Replace(text, "\n", " ");
    ReplaceCharPointwise(text, '\n', ' ');
    assert '\n' !in spaced;
    ReplaceKeepsAbsent(spaced, "amp;", "", '\n');
    Replace(spaced, "amp;", "")
  }

  /** The space-separated tokens of the normalised mail text: at least one,
      and joined with spaces they give back that text. */
  function MailTokens(text: string): (r: seq<string>)
    ensures |r| > 0
    ensures Join(r, " ") == NormalizedMail(text)
  {
    JoinSplit(NormalizedMail(text), ' ');
    Split(NormalizedMail(text), ' ')
  }

  /** The first token, in order, that starts with `prefix`. */
  function FirstWithPrefix(tokens: seq<string>, prefix: string): (r: Option<string>)
    ensures r.Some? ==> prefix <= r.value && r.value in tokens
    decreases |tokens|
  {
    if tokens == [] then None
    else if prefix <= tokens[0] then Some(tokens[0])
    else FirstWithPrefix(tokens[1..], prefix)
  }

  /** `FirstWithPrefix` finds a token exactly when one starts with the
      prefix, and what it finds is the earliest such token. */
  lemma {:induction false} FirstWithPrefixIsFirst(tokens: seq<string>, prefix: string)
    ensures FirstWithPrefix(tokens, prefix) == None <==>
            forall i :: 0 <= i < |tokens| ==> !(prefix <= tokens[i])
    ensures FirstWithPrefix(tokens, prefix).Some? ==>
            exists i :: 0 <= i < |tokens| && tokens[i] == FirstWithPrefix(tokens, prefix).value &&
                        prefix <= tokens[i] &&
                        forall j :: 0 <= j < i ==> !(prefix <= tokens[j])
    decreases |tokens|
  {
    if tokens != [] && !(prefix <= tokens[0]) {
      FirstWithPrefixIsFirst(tokens[1..], prefix);
      assert forall i :: 0 <= i < |tokens| - 1 ==> tokens[1..][i] == tokens[i + 1];
      if FirstWithPrefix(tokens, prefix).Some? {
        var i :| 0 <= i < |tokens[1..]| && tokens[1..][i] == FirstWithPrefix(tokens, prefix).value &&
                 prefix <= tokens[1..][i] &&
                 forall j :: 0 <= j < i ==> !(prefix <= tokens[1..][j]);
        assert tokens[i + 1] == FirstWithPrefix(tokens, prefix).value;
      }
    } else if tokens != [] {
      assert tokens[0] == FirstWithPrefix(tokens, prefix).value;
    }
  }

  /** No token of the normalised mail holds a space or a newline. */
  lemma MailTokensAreClean(text: string)
    ensures forall i :: 0 <= i < |MailTokens(text)| ==>
      ' ' !in MailTokens(text)[i] && '\n' !in MailTokens(text)[i]
  {
    SplitKeepsAbsent(NormalizedMail(text), ' ', '\n');
  }

  /** The `login_link` fixture: the first verification link in the FIRST
      message (later messages are never read); `None` when the loop falls
      through; `IndexError` when there is no message. */
  method LoginLink(mail: seq<string>) returns (r: Result<Option<string>>)
    ensures mail == [] ==> r == Err(IndexError)
    ensures mail != [] ==> r == Ok(FirstWithPrefix(MailTokens(mail[0]), VerifyRedirectPrefix))
    ensures r.Ok? && r.value.Some? ==>
      VerifyRedirectPrefix <= r.value.value && ' ' !in r.value.value && '\n' !in r.value.value
  {
    if mail == [] {
      return Err(IndexError);
    }
    var tokens := MailTokens(mail[0]);
    MailTokensAreClean(mail[0]);
    var i := 0;
    while i < |tokens|
      invariant 0 <= i <= |tokens|
      invariant FirstWithPrefix(tokens[i..], VerifyRedirectPrefix) == FirstWithPrefix(tokens, VerifyRedirectPrefix)
    {
      if VerifyRedirectPrefix <= tokens[i] {
        return Ok(Some(tokens[i]));
      }
      assert tokens[i..][1..] == tokens[i + 1..];
      i := i + 1;
    }
    return Ok(None);
  }

  // ---------------------------------------------------------------------
  // HTML report table hooks
  // ---------------------------------------------------------------------

  /** `list.insert(i, x)` for a non-negative index: an index past the end
      appends. */
  function Insert<C>(s: seq<C>, i: nat, x: C): (r: seq<C>)
    ensures |r| == |s| + 1
    ensures var at := if i < |s| then i else |s|;
      r[at] == x && r[..at] == s[..at] && r[at + 1..] == s[at..]
  {
    if i < |s| then s[..i] + [x] + s[i..] else s + [x]
  }

  /** An insert loses no element and adds just the one inserted. */
  lemma InsertMultiset<C>(s: seq<C>, i: nat, x: C)
    ensures multiset(Insert(s, i, x)) == multiset(s) + multiset{x}
  {
    if i < |s| {
      assert s == s[..i] + s[i..];
    }
  }

  /** The header cells after `pytest_html_results_table_header`: two cells
      more, `Time` first and `Description` fourth (or last on a shorter list). */
  function HeaderLayout<C>(cells: seq<C>, description: C, time: C): (r: seq<C>)
    ensures |r| == |cells| + 2 && r[0] == time
    ensures r[if |cells| >= 2 then 3 else |cells| + 1] == description
  {
    Insert(Insert(cells, 2, description), 0, time)
  }

  /** The row cells after `pytest_html_results_table_row`: two cells more,
      the time second and the description fourth (or first on an empty list). */
  function RowLayout<C>(cells: seq<C>, description: C, time: C): (r: seq<C>)
    ensures |r| == |cells| + 2 && r[1] == time
    ensures r[if |cells| >= 2 then 3 else if |cells| == 1 then 2 else 0] == description
  {
    Insert(Insert(cells, 2, description), 1, time)
  }

  /** The header gains two cells: `Time` first, `Description` after the
      first two original cells (or at the end of a shorter list). */
  lemma {:induction false} HeaderLayoutShape<C>(cells: seq<C>, description: C, time: C)
    ensures |HeaderLayout(cells, description, time)| == |cells| + 2
    ensures HeaderLayout(cells, description, time)[0] == time
    ensures |cells| >= 2 ==>
      HeaderLayout(cells, description, time) == [time, cells[0], cells[1], description] + cells[2..]
    ensures cells == [] ==> HeaderLayout(cells, description, time) == [time, description]
    ensures |cells| == 1 ==> HeaderLayout(cells, description, time) == [time, cells[0], description]
  {
    var mid := Insert(cells, 2, description);
    assert HeaderLayout(cells, description, time) == [time] + mid;
    if |cells| >= 2 {
      assert mid == cells[..2] + [description] + cells[2..];
      assert [time] + mid == [time, cells[0], cells[1], description] + cells[2..];
    } else {
      assert mid == cells + [description];
    }
  }

  /** The row gains two cells: the time SECOND, the description after the
      first two original cells (or at the end of a shorter list). */
  lemma {:induction false} RowLayoutShape<C>(cells: seq<C>, description: C, time: C)
    ensures |RowLayout(cells, description, time)| == |cells| + 2
    ensures RowLayout(cells, description, time)[1] == time
    ensures |cells| >= 2 ==>
      RowLayout(cells, description, time) == [cells[0], time, cells[1], description] + cells[2..]
    ensures cells == [] ==> RowLayout(cells, description, time) == [description, time]
    ensures |cells| == 1 ==> RowLayout(cells, description, time) == [cells[0], time, description]
  {
    var mid := Insert(cells, 2, description);
    if |cells| >= 2 {
      assert mid == cells[..2] + [description] + cells[2..];
      assert mid[..1] + [time] + mid[1..] == [cells[0], time, cells[1], description] + cells[2..];
    } else {
      assert mid == cells + [description];
    }
  }

  /** Both hooks keep every original cell and add exactly their two new
      ones. */
  lemma LayoutsKeepCells<C>(cells: seq<C>, description: C, time: C)
    ensures multiset(HeaderLayout(cells, description, time)) == multiset(cells) + multiset{description, time}
    ensures multiset(RowLayout(cells, description, time)) == multiset(cells) + multiset{description, time}
  {
    var mid := Insert(cells, 2, description);
    InsertMultiset(cells, 2, description);
    InsertMultiset(mid, 0, time);
    InsertMultiset(mid, 1, time);
  }

  /** Which column of the original table a cell stands for. */
  datatype Column = Original(index: nat) | DescriptionColumn | TimeColumn

  /** The original columns `0 .. n-1`, in order. */
  function Columns(n: nat): (cs: seq<Column>)
    ensures |cs| == n && forall j :: 0 <= j < n ==> cs[j] == Original(j)
  {
    seq(n, j requires 0 <= j => Original(j))
  }

  /** As written, the hooks do not lay out header and row alike: on a table
      with at least one column the header puts `Time` first while the row
      keeps its first original cell there and puts the time second. */
  lemma HeaderAndRowMisaligned(n: nat)
    requires n >= 1
    ensures HeaderLayout(Columns(n), DescriptionColumn, TimeColumn)[0] == TimeColumn
    ensures RowLayout(Columns(n), DescriptionColumn, TimeColumn)[0] == Original(0)
    ensures HeaderLayout(Columns(n), DescriptionColumn, TimeColumn) !=
            RowLayout(Columns(n), DescriptionColumn, TimeColumn)
  {
    HeaderLayoutShape(Columns(n), DescriptionColumn, TimeColumn);
    var mid := Insert(Columns(n), 2, DescriptionColumn);
    assert mid[0] == Original(0);
  }

  /** The header layout that matches the row hook: `Time` inserted at 1, so
      for every table the header has the row's layout. */
  function HeaderLayoutCorrected<C>(cells: seq<C>, description: C, time: C): (r: seq<C>)
    ensures r == RowLayout(cells, description, time)
    ensures |r| == |cells| + 2 && r[1] == time
  {
    Insert(Insert(cells, 2, description), 1, time)
  }

  /** With the correction every header cell labels the row cell below it:
      both put the time second and the description fourth. */
  lemma HeaderLayoutCorrectedAligned(n: nat)
    ensures HeaderLayoutCorrected(Columns(n), DescriptionColumn, TimeColumn) ==
            RowLayout(Columns(n), DescriptionColumn, TimeColumn)
    ensures n >= 2 ==>
      HeaderLayoutCorrected(Columns(n), DescriptionColumn, TimeColumn) ==
      [Original(0), TimeColumn, Original(1), DescriptionColumn] + Columns(n)[2..]
  {
    RowLayoutShape(Columns(n), DescriptionColumn, TimeColumn);
  }

  /** A list of report table cells a hook updates in place. */
  class CellList<C> {
    var items: seq<C>

    constructor (items: seq<C>)
      ensures this.items == items
    {
      this.items := items;
    }
  }

  /** `pytest_html_results_table_header`. */
  method ResultsTableHeader<C>(cells: CellList<C>, description: C, time: C)
    modifies cells
    ensures cells.items == HeaderLayout(old(cells.items), description, time)
  {
    cells.items := Insert(cells.items, 2, description);
    cells.items := Insert(cells.items, 0, time);
  }

  /** `pytest_html_results_table_row`. */
  method ResultsTableRow<C>(cells: CellList<C>, description: C, time: C)
    modifies cells
    ensures cells.items == RowLayout(old(cells.items), description, time)
  {
    cells.items := Insert(cells.items, 2, description);
    cells.items := Insert(cells.items, 1, time);
  }

  // ---------------------------------------------------------------------
  // pytest_runtest_makereport
  // ---------------------------------------------------------------------

  /** The test report object the hook annotates. */
  class TestReport {
    var description: string

    constructor ()
      ensures description == ""
    {
      description := "";
    }
  }

  /** `str(__doc__)`: the docstring, or the text `None` when there is none;
      the text is `None` for exactly two docstrings. */
  function DocText(doc: Option<string>): (r: string)
    ensures doc.Some? ==> r == doc.value
    ensures r == "None" <==> doc == None || doc == Some("None")
  {
    match doc
    case Some(d) => d
    case None => "None"
  }

  /** A missing docstring and the docstring `None` give the same description. */
  lemma DocTextConflatesNone()
    ensures DocText(None) == DocText(Some("None"))
  {
  }

  /** `pytest_runtest_makereport`: the report description is the test
      function's docstring as text, read when the report is made. */
  method MakeReport(report: TestReport, item: TestFunction)
    modifies report
    ensures report.description == DocText(item.doc)
  {
    report.description := DocText(item.doc);
  }
}
