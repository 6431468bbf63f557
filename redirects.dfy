/**
 The redirect tests: absolute URLs are built from a base URL and a fixed
 table of locale-prefixed paths, and every URL whose first HTTP status
 differs from the expected one contributes one error line. The HTTP request
 is a parameter `status` from URL to status code.
 */
module Redirects {
  import opened Pytest
  import opened PyText

  /** Paths that must answer 302 to an anonymous visitor. */
  const RedirectPaths: seq<string> := [
    "/es/country/us/",
    "/sq/country/doesnotexist/",
    "/hu/country/us/region/California/",
    "/pl/country/in/city/Gulbarga/",
    "/zh-TW/group/webqa/",
    "/zh-CN/group/258/join/",
    "/sl/group/doesnotexit/",
    "/pt-BR/u/moz.mozillians.unvouched/",
    "/ca/u/UserDoesNotExist/",
    "/nl/logout/",
    "/lt/user/edit/",
    "/en-US/invite/",
    "/fr/register/"]

  /** Paths that must answer 200 to an anonymous visitor. */
  const OkPaths: seq<string> := ["/pl/opensearch.xml", "/nl/u/Mozillians.User/"]

  lemma PathTables()
    ensures |RedirectPaths| == 13 && |OkPaths| == 2
    ensures forall i :: 0 <= i < |RedirectPaths| ==> |RedirectPaths[i]| > 0 && RedirectPaths[i][0] == '/'
    ensures forall i :: 0 <= i < |OkPaths| ==> |OkPaths[i]| > 0 && OkPaths[i][0] == '/'
  {
  }

  /** Each path glued to the base URL as it is, no separator handling,
      order kept. */
  function AbsoluteUrls(url: string, paths: seq<string>): (urls: seq<string>)
    ensures |urls| == |paths|
    ensures forall i :: 0 <= i < |paths| ==> urls[i] == url + paths[i]
  {
    seq(|paths|, i requires 0 <= i < |paths| => url + paths[i])
  }

  /** `make_absolute_paths`. */
  method MakeAbsolutePaths(url: string, paths: seq<string>) returns (urls: seq<string>)
    ensures urls == AbsoluteUrls(url, paths)
  {
    urls := [];
    for i := 0 to |paths|
      invariant |urls| == i
      invariant forall j :: 0 <= j < i ==> urls[j] == url + paths[j]
    {
      urls := urls + [url + paths[i]];
    }
  }

  /** `'Expected %s but got %s. %s' % (expected, actual, url)`. */
  function ErrorMessage(expected: int, actual: int, url: string): string {
    "Expected " + IntToString(expected) + " but got " + IntToString(actual) + ". " + url
  }

  /** The error line opens with the expected status and closes with the URL. */
  lemma ErrorMessageShape(expected: int, actual: int, url: string)
    ensures "Expected " + IntToString(expected) + " but got " <= ErrorMessage(expected, actual, url)
    ensures var m := ErrorMessage(expected, actual, url); |url| <= |m| && m[|m| - |url|..] == url
  {
    var pre := "Expected " + IntToString(expected) + " but got ";
    var mid := IntToString(actual) + ". ";
    assert ErrorMessage(expected, actual, url) == pre + (mid + url);
  }

  /** The error line names the URL and determines the status that was seen. */
  lemma ErrorMessageDeterminesStatus(expected: int, a1: int, a2: int, url: string)
    requires ErrorMessage(expected, a1, url) == ErrorMessage(expected, a2, url)
    ensures a1 == a2
  {
    var pre, suf := "Expected " + IntToString(expected) + " but got ", ". " + url;
    var x1, x2 := IntToString(a1), IntToString(a2);
    assert pre + x1 + ". " + url == pre + x1 + suf;
    assert pre + x2 + ". " + url == pre + x2 + suf;
    CancelAffixes(pre, x1, x2, suf);
    IntToStringInjective(a1, a2);
  }

  /** A common prefix and suffix can be cancelled. */
  lemma CancelAffixes(pre: string, x: string, y: string, suf: string)
    requires pre + x + suf == pre + y + suf
    ensures x == y
  {
    var whole := pre + x + suf;
    assert |x| == |y|;
    assert whole[|pre|..|pre| + |x|] == x;
    assert (pre + y + suf)[|pre|..|pre| + |y|] == y;
  }

  /** The error lines for `urls`, one per URL whose status is not `expected`,
      in URL order. */
  function Mismatches(urls: seq<string>, expected: int, status: string -> int): (r: seq<string>)
    ensures |r| <= |urls|
    decreases |urls|
  {
    if urls == [] then []
    else
      var last := urls[|urls| - 1];
      Mismatches(urls[..|urls| - 1], expected, status) +
      (if status(last) != expected then [ErrorMessage(expected, status(last), last)] else [])
  }

  /** The lines for a concatenation are the lines of the parts, in order. */
  lemma {:induction false} MismatchesAppend(a: seq<string>, b: seq<string>, expected: int, status: string -> int)
    ensures Mismatches(a + b, expected, status) == Mismatches(a, expected, status) + Mismatches(b, expected, status)
    decreases |b|
  {
    if b == [] {
      assert a + b == a;
    } else {
      var b0 := b[..|b| - 1];
      MismatchesAppend(a, b0, expected, status);
      assert (a + b)[..|a + b| - 1] == a + b0;
      assert (a + b)[|a + b| - 1] == b[|b| - 1];
    }
  }

  /** No error line means every URL answered with the expected status, and
      back. */
  lemma {:induction false} MismatchesEmptyIff(urls: seq<string>, expected: int, status: string -> int)
    ensures Mismatches(urls, expected, status) == [] <==>
            forall i :: 0 <= i < |urls| ==> status(urls[i]) == expected
    decreases |urls|
  {
    if urls != [] {
      var init := urls[..|urls| - 1];
      MismatchesEmptyIff(init, expected, status);
      assert forall i :: 0 <= i < |init| ==> init[i] == urls[i];
    }
  }

  /** Every line is the message for some URL that answered with another
      status. */
  lemma {:induction false} MismatchesSound(urls: seq<string>, expected: int, status: string -> int)
    ensures forall k :: 0 <= k < |Mismatches(urls, expected, status)| ==>
              exists i :: 0 <= i < |urls| && status(urls[i]) != expected &&
                          Mismatches(urls, expected, status)[k] == ErrorMessage(expected, status(urls[i]), urls[i])
    decreases |urls|
  {
    if urls == [] {
      assert Mismatches(urls, expected, status) == [];
    } else {
      var init := urls[..|urls| - 1];
      MismatchesSound(init, expected, status);
      var m := Mismatches(urls, expected, status);
      var m0 := Mismatches(init, expected, status);
      var last := |urls| - 1;
      var tail := if status(urls[last]) != expected then [ErrorMessage(expected, status(urls[last]), urls[last])] else [];
      assert m == m0 + tail;
      forall k | 0 <= k < |m|
        ensures exists i :: 0 <= i < |urls| && status(urls[i]) != expected &&
                            m[k] == ErrorMessage(expected, status(urls[i]), urls[i])
      {
        if k < |m0| {
          var i :| 0 <= i < |init| && status(init[i]) != expected &&
                   m0[k] == ErrorMessage(expected, status(init[i]), init[i]);
          assert urls[i] == init[i] && m[k] == m0[k];
        } else {
          assert m[k] == tail[0];
        }
      }
    }
  }

  /** Every URL that answered with another status has its line. */
  lemma MismatchesComplete(urls: seq<string>, expected: int, status: string -> int, i: nat)
    requires i < |urls| && status(urls[i]) != expected
    ensures ErrorMessage(expected, status(urls[i]), urls[i]) in Mismatches(urls, expected, status)
  {
    var before, here, after := urls[..i], [urls[i]], urls[i + 1..];
    assert urls == before + here + after;
    MismatchesAppend(before + here, after, expected, status);
    MismatchesAppend(before, here, expected, status);
    assert here[..0] == [];
  }

  /** `verify_http_response_codes`: `status` stands for the first HTTP
      status of a GET that does not follow redirects. */
  method VerifyHttpResponseCodes(urls: seq<string>, expected: int, status: string -> int)
    returns (errors: seq<string>)
    ensures errors == Mismatches(urls, expected, status)
  {
    errors := [];
    for i := 0 to |urls|
      invariant errors == Mismatches(urls[..i], expected, status)
    {
      var httpStatus := status(urls[i]);
      if httpStatus != expected {
        errors := errors + [ErrorMessage(expected, httpStatus, urls[i])];
      }
      assert urls[..i + 1][..i] == urls[..i];
    }
    assert urls[..|urls|] == urls;
  }

  /** The shared body of the two tests: `assert 0 == len(error_list), error_list`.
      On failure the message is the whole error list, one line per URL that
      answered with another status. */
  method CheckStatuses(baseUrl: string, paths: seq<string>, expected: int, status: string -> int)
    returns (v: Verdict<seq<string>>)
    ensures v.Pass? <==> forall i :: 0 <= i < |paths| ==> status(baseUrl + paths[i]) == expected
    ensures !v.Raised?
    ensures v.Fail? ==> v.message.Some? && |v.message.value| > 0
    ensures !v.Pass? ==> v == Fail(Some(Mismatches(AbsoluteUrls(baseUrl, paths), expected, status)))
  {
    var urls := MakeAbsolutePaths(baseUrl, paths);
    var errors := VerifyHttpResponseCodes(urls, expected, status);
    MismatchesEmptyIff(urls, expected, status);
    if |errors| == 0 {
      v := Pass;
    } else {
      v := Fail(Some(errors));
    }
  }

  /** `test_302_redirect_for_anonymous_users`. */
  method Test302RedirectForAnonymousUsers(baseUrl: string, status: string -> int)
    returns (v: Verdict<seq<string>>)
    ensures v.Pass? <==> forall i :: 0 <= i < |RedirectPaths| ==> status(baseUrl + RedirectPaths[i]) == 302
    ensures !v.Raised?
    ensures !v.Pass? ==> v == Fail(Some(Mismatches(AbsoluteUrls(baseUrl, RedirectPaths), 302, status)))
  {
    v := CheckStatuses(baseUrl, RedirectPaths, 302, status);
  }

  /** `test_200_for_anonymous_users`. */
  method Test200ForAnonymousUsers(baseUrl: string, status: string -> int)
    returns (v: Verdict<seq<string>>)
    ensures v.Pass? <==> status(baseUrl + "/pl/opensearch.xml") == 200 &&
                         status(baseUrl + "/nl/u/Mozillians.User/") == 200
    ensures !v.Raised?
    ensures !v.Pass? ==> v == Fail(Some(Mismatches(AbsoluteUrls(baseUrl, OkPaths), 200, status)))
  {
    v := CheckStatuses(baseUrl, OkPaths, 200, status);
    assert OkPaths[0] == "/pl/opensearch.xml" && OkPaths[1] == "/nl/u/Mozillians.User/";
  }
}
