/**
 The few Python string built-ins the test suite relies on, stated on
 `string` (= seq<char>): `str.replace`, `str.split(sep)`, `sep.join`,
 `str.lower` (ASCII letters only), `str.startswith` (Dafny's prefix
 relation `<=`) and `str(n)` for integers.
 */
module PyText {

  // ---------------------------------------------------------------------
  // str.replace
  // ---------------------------------------------------------------------

  /** `s.replace(pat, rep)`: scan left to right, replace each occurrence of
      `pat` and resume after it, so occurrences never overlap and text made
      by a replacement is never looked at again. */
  function Replace(s: string, pat: string, rep: string): (r: string)
    requires |pat| > 0
    ensures rep == pat ==> r == s
    ensures |rep| == |pat| ==> |r| == |s|
    decreases |s|
  {
    if pat <= s then rep + Replace(s[|pat|..], pat, rep)
    else if s == [] then []
    else [s[0]] + Replace(s[1..], pat, rep)
  }

  /** `pat` occurs somewhere in `s`. */
  ghost predicate Occurs(pat: string, s: string) {
    exists i :: 0 <= i <= |s| - |pat| && pat <= s[i..]
  }

  /** Replacing one character by another is a pointwise map. */
  lemma {:induction false} ReplaceCharPointwise(s: string, p: char, q: char)
    ensures |Replace(s, [p], [q])| == |s|
    ensures forall i :: 0 <= i < |s| ==>
      Replace(s, [p], [q])[i] == (if s[i] == p then q else s[i])
    decreases |s|
  {
    if s != [] {
      ReplaceCharPointwise(s[1..], p, q);
      assert [p] <= s <==> s[0] == p;
    }
  }

  /** A character found neither in `s` nor in the replacement text is not in
      the result either. */
  lemma {:induction false} ReplaceKeepsAbsent(s: string, pat: string, rep: string, c: char)
    requires |pat| > 0
    requires c !in s && c !in rep
    ensures c !in Replace(s, pat, rep)
    decreases |s|
  {
    if pat <= s {
      assert forall k :: 0 <= k < |s| - |pat| ==> s[|pat|..][k] == s[|pat| + k];
      ReplaceKeepsAbsent(s[|pat|..], pat, rep, c);
    } else if s != [] {
      assert forall k :: 0 <= k < |s| - 1 ==> s[1..][k] == s[1 + k];
      ReplaceKeepsAbsent(s[1..], pat, rep, c);
    }
  }

  /** Text without an occurrence of the pattern is returned as it is. */
  lemma {:induction false} ReplaceWithoutOccurrence(s: string, pat: string, rep: string)
    requires |pat| > 0
    requires !Occurs(pat, s)
    ensures Replace(s, pat, rep) == s
    decreases |s|
  {
    assert !(pat <= s) by { assert s[0..] == s; }
    if s != [] {
      forall i | 0 <= i <= |s[1..]| - |pat|
        ensures !(pat <= s[1..][i..])
      {
        assert s[1..][i..] == s[i + 1..];
      }
      ReplaceWithoutOccurrence(s[1..], pat, rep);
    }
  }

  /** One left-to-right pass is not a fixpoint: deleting `amp;` from
      `amamp;p;` leaves `amp;`. */
  lemma DeletionCanLeaveOccurrence()
    ensures Occurs("amp;", "amamp;p;")
    ensures Replace("amamp;p;", "amp;", "") == "amp;"
    ensures Occurs("amp;", Replace("amamp;p;", "amp;", ""))
  {
    var s := "amamp;p;";
    assert "amp;" <= s[2..];
    assert s[2] != "amp;"[2];
    assert !("amp;" <= s);
    assert s[1..][0] != "amp;"[0];
    assert !("amp;" <= s[1..]);
    assert "amp;" <= s[2..];
    assert s[2..][4..] == "p;";
    assert !("amp;" <= "p;") && !("amp;" <= ";");
    assert Replace(";", "amp;", "") == [';'] + Replace([], "amp;", "");
    assert Replace("p;", "amp;", "") == "p;";
    assert Replace(s[2..], "amp;", "") == "p;";
    assert Replace(s[1..], "amp;", "") == "mp;";
    assert Replace(s, "amp;", "") == "amp;";
    assert "amp;" <= "amp;"[0..];
  }

  // ---------------------------------------------------------------------
  // str.split(sep) and sep.join
  // ---------------------------------------------------------------------

  /** `s.split(c)` with an explicit one-character separator: every separator
      ends a piece, so `n` separators give `n + 1` pieces, empty ones
      included. */
  function Split(s: string, c: char): (r: seq<string>)
    ensures |r| > 0
    ensures forall i :: 0 <= i < |r| ==> c !in r[i]
    decreases |s|
  {
    if s == [] then [""]
    else
      var rest := Split(s[1..], c);
      if s[0] == c then [""] + rest
      else [[s[0]] + rest[0]] + rest[1..]
  }

  /** `sep.join(xs)`: the text opens with the first piece. */
  function Join(xs: seq<string>, sep: string): (r: string)
    ensures |xs| == 0 ==> r == ""
    ensures |xs| > 0 ==> xs[0] <= r
    decreases |xs|
  {
    if |xs| == 0 then ""
    else if |xs| == 1 then xs[0]
    else xs[0] + sep + Join(xs[1..], sep)
  }

  /** A character absent from `s` is absent from every piece of it. */
  lemma {:induction false} SplitKeepsAbsent(s: string, c: char, d: char)
    requires d !in s
    ensures forall i :: 0 <= i < |Split(s, c)| ==> d !in Split(s, c)[i]
    decreases |s|
  {
    if s != [] {
      assert forall k :: 0 <= k < |s| - 1 ==> s[1..][k] == s[1 + k];
      SplitKeepsAbsent(s[1..], c, d);
    }
  }

  /** Text without the separator splits into exactly itself, and a prefix
      without the separator is glued onto the first piece of what follows. */
  lemma {:induction false} SplitPrefix(a: string, b: string, c: char)
    requires c !in a
    ensures Split(a + b, c) == [a + Split(b, c)[0]] + Split(b, c)[1..]
    decreases |a|
  {
    if a != [] {
      assert (a + b)[1..] == a[1..] + b;
      assert forall k :: 0 <= k < |a| - 1 ==> a[1..][k] == a[1 + k];
      SplitPrefix(a[1..], b, c);
      assert [a[0]] + (a[1..] + Split(b, c)[0]) == a + Split(b, c)[0];
    } else {
      assert a + b == b;
      assert a + Split(b, c)[0] == Split(b, c)[0];
      assert Split(b, c) == [Split(b, c)[0]] + Split(b, c)[1..];
    }
  }

  /** Joining the pieces with the separator gives back the text. */
  lemma {:induction false} JoinSplit(s: string, c: char)
    ensures Join(Split(s, c), [c]) == s
    decreases |s|
  {
    if s != [] {
      var rest := Split(s[1..], c);
      JoinSplit(s[1..], c);
      if s[0] == c {
        assert ([""] + rest)[1..] == rest;
      } else {
        JoinGlue([s[0]], rest, [c]);
      }
    }
  }

  /** Joining after gluing `a` onto the first piece is gluing `a` onto the
      join. */
  lemma JoinGlue(a: string, xs: seq<string>, sep: string)
    requires |xs| > 0
    ensures Join([a + xs[0]] + xs[1..], sep) == a + Join(xs, sep)
  {
    var ys := [a + xs[0]] + xs[1..];
    assert ys[1..] == xs[1..];
  }

  /** Splitting the join of separator-free pieces gives back the pieces. */
  lemma {:induction false} SplitJoin(xs: seq<string>, c: char)
    requires |xs| > 0
    requires forall i :: 0 <= i < |xs| ==> c !in xs[i]
    ensures Split(Join(xs, [c]), c) == xs
    decreases |xs|
  {
    if |xs| == 1 {
      SplitPrefix(xs[0], "", c);
      assert xs[0] + "" == xs[0];
    } else {
      var tail := Join(xs[1..], [c]);
      SplitJoin(xs[1..], c);
      assert Join(xs, [c]) == xs[0] + ([c] + tail);
      SplitPrefix(xs[0], [c] + tail, c);
      assert ([c] + tail)[1..] == tail;
      assert Split([c] + tail, c) == [""] + xs[1..];
      assert xs[0] + "" == xs[0];
    }
  }

  // ---------------------------------------------------------------------
  // str.lower
  // ---------------------------------------------------------------------

  function LowerChar(ch: char): char {
    if 'A' <= ch <= 'Z' then (ch as int - 'A' as int + 'a' as int) as char else ch
  }

  /** `s.lower()`, restricted to the ASCII letters: no upper-case letter is
      left, and every other character stays where it was. */
  function Lower(s: string): (r: string)
    ensures |r| == |s|
    ensures forall i :: 0 <= i < |r| ==> !('A' <= r[i] <= 'Z')
    ensures forall i :: 0 <= i < |s| && !('A' <= s[i] <= 'Z') ==> r[i] == s[i]
    ensures forall i :: 0 <= i < |s| && 'A' <= s[i] <= 'Z' ==> r[i] as int == s[i] as int + 32
  {
    seq(|s|, i requires 0 <= i < |s| => LowerChar(s[i]))
  }

  /** A string lower-cases to an all-lower-case ASCII word exactly when it
      spells that word with each letter in either case. */
  lemma LowerEqualsWord(s: string, word: string)
    requires forall i :: 0 <= i < |word| ==> 'a' <= word[i] <= 'z'
    ensures Lower(s) == word <==>
      |s| == |word| &&
      forall i :: 0 <= i < |s| ==> s[i] == word[i] || s[i] as int == word[i] as int - 32
  {
    if |s| == |word| {
      if Lower(s) == word {
        forall i | 0 <= i < |s|
          ensures s[i] == word[i] || s[i] as int == word[i] as int - 32
        {
          assert Lower(s)[i] == LowerChar(s[i]);
        }
      }
      if forall i :: 0 <= i < |s| ==> s[i] == word[i] || s[i] as int == word[i] as int - 32 {
        forall i | 0 <= i < |s|
          ensures Lower(s)[i] == word[i]
        {
        }
      }
    }
  }

  // ---------------------------------------------------------------------
  // str(n) for integers
  // ---------------------------------------------------------------------

  function DigitChar(d: nat): char
    requires d < 10
  {
    (d + '0' as int) as char
  }

  function DigitValue(ch: char): nat {
    if '0' <= ch <= '9' then ch as int - '0' as int else 0
  }

  /** Decimal digits of `n`, most significant first, no leading zero. */
  function NatToString(n: nat): (r: string)
    ensures |r| > 0
    ensures forall i :: 0 <= i < |r| ==> '0' <= r[i] <= '9'
    decreases n
  {
    if n < 10 then [DigitChar(n)] else NatToString(n / 10) + [DigitChar(n % 10)]
  }

  /** `str(i)`, with a leading `-` for negative numbers. */
  function IntToString(i: int): string {
    if i < 0 then "-" + NatToString(-i) else NatToString(i)
  }

  /** `str(i)` has a sign exactly for the negative numbers, then a
      non-empty run of digits. */
  lemma IntToStringShape(i: int)
    ensures var r := IntToString(i);
      && |r| > 0
      && (r[0] == '-' <==> i < 0)
      && (i < 0 ==> |r| > 1)
      && forall k :: (if i < 0 then 1 else 0) <= k < |r| ==> '0' <= r[k] <= '9'
  {
    if i < 0 {
      assert forall k :: 1 <= k < |IntToString(i)| ==> IntToString(i)[k] == NatToString(-i)[k - 1];
    }
  }

  function ParseNat(s: string): nat
    decreases |s|
  {
    if s == [] then 0 else ParseNat(s[..|s| - 1]) * 10 + DigitValue(s[|s| - 1])
  }

  /** The decimal reading of a string produced by `str`. */
  function ParseInt(s: string): int {
    if |s| > 0 && s[0] == '-' then -(ParseNat(s[1..]) as int) else ParseNat(s)
  }

  lemma {:induction false} ParseNatToString(n: nat)
    ensures ParseNat(NatToString(n)) == n
    decreases n
  {
    if n >= 10 {
      var r := NatToString(n);
      ParseNatToString(n / 10);
      assert r[..|r| - 1] == NatToString(n / 10);
    }
  }

  /** `str` on integers is undone by reading the digits back. */
  lemma ParseIntToString(i: int)
    ensures ParseInt(IntToString(i)) == i
  {
    if i < 0 {
      ParseNatToString(-i);
      assert IntToString(i)[1..] == NatToString(-i);
    } else {
      ParseNatToString(i);
    }
  }

  /** Different integers print differently. */
  lemma IntToStringInjective(a: int, b: int)
    requires IntToString(a) == IntToString(b)
    ensures a == b
  {
    ParseIntToString(a);
    ParseIntToString(b);
  }
}
