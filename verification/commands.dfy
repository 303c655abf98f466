/**
 * Dispatch of a plain text message: trimmed, lower-cased "register" and
 * "check" match exactly, "history" is a prefix with an optional count, a
 * YouTube link is refused, and any other non-empty text starts the title flow.
 * Characters are treated as ASCII: Python's Unicode whitespace, case mapping
 * and digit classes beyond ASCII are not modelled.
 */
module TextCommands {
  import opened Decimal

  datatype Command = Register | Check | History(count: nat) | UrlRefused | Title(text: string) | Ignored

  /** The default number of history rows. */
  const DefaultHistory: nat := 10

  /** ASCII characters `str.isspace()` accepts. */
  predicate IsSpace(c: char) {
    c == ' ' || '\U{9}' <= c <= '\U{D}' || '\U{1C}' <= c <= '\U{1F}'
  }

  predicate NoSpace(s: string) {
    forall k :: 0 <= k < |s| ==> !IsSpace(s[k])
  }

  /** The first position at or after `i` that is not whitespace, or `|s|`. */
  function SkipSpaces(s: string, i: nat): (j: nat)
    requires i <= |s|
    ensures i <= j <= |s| && (j < |s| ==> !IsSpace(s[j]))
    ensures forall k :: i <= k < j ==> IsSpace(s[k])
    decreases |s| - i
  {
    if i < |s| && IsSpace(s[i]) then SkipSpaces(s, i + 1) else i
  }

  /** The position after the last non-whitespace character before `j`, or 0. */
  function BackSpaces(s: string, j: nat): (i: nat)
    requires j <= |s|
    ensures i <= j && (i > 0 ==> !IsSpace(s[i - 1]))
    ensures forall k :: i <= k < j ==> IsSpace(s[k])
    decreases j
  {
    if j > 0 && IsSpace(s[j - 1]) then BackSpaces(s, j - 1) else j
  }

  /** `str.lstrip()`: the suffix left after dropping leading whitespace. */
  function TrimStart(s: string): (r: string)
    ensures |r| <= |s| && r == s[|s| - |r|..]
    ensures |r| > 0 ==> !IsSpace(r[0])
    ensures forall k :: 0 <= k < |s| - |r| ==> IsSpace(s[k])
  {
    s[SkipSpaces(s, 0)..]
  }

  /** `str.rstrip()`: the prefix left after dropping trailing whitespace. */
  function TrimEnd(s: string): (r: string)
    ensures |r| <= |s| && r == s[..|r|]
    ensures |r| > 0 ==> !IsSpace(r[|r| - 1])
    ensures forall k :: |r| <= k < |s| ==> IsSpace(s[k])
  {
    s[..BackSpaces(s, |s|)]
  }

  /**
   * `str.strip()`: the infix between the leading and the trailing whitespace,
   * starting and ending with neither.
   */
  function Strip(s: string): (r: string)
    ensures var i := |s| - |TrimStart(s)|;
      && i + |r| <= |s| && r == s[i..i + |r|]
      && (forall k :: 0 <= k < i ==> IsSpace(s[k]))
      && (forall k :: i + |r| <= k < |s| ==> IsSpace(s[k]))
      && (|r| > 0 ==> !IsSpace(r[0]) && !IsSpace(r[|r| - 1]))
  {
    var t := TrimStart(s);
    var r := TrimEnd(t);
    InfixOfSuffix(s, t, r);
    r
  }

  /**
   * A prefix `r` of a suffix `t` of `s`, where whitespace alone was cut
   * from both ends, sits in `s` at `|s| - |t|` between whitespace runs.
   */
  lemma InfixOfSuffix(s: string, t: string, r: string)
    requires |t| <= |s| && t == s[|s| - |t|..]
    requires forall k :: 0 <= k < |s| - |t| ==> IsSpace(s[k])
    requires |t| > 0 ==> !IsSpace(t[0])
    requires |r| <= |t| && r == t[..|r|]
    requires forall k :: |r| <= k < |t| ==> IsSpace(t[k])
    requires |r| > 0 ==> !IsSpace(r[|r| - 1])
    ensures var i := |s| - |t|;
      && i + |r| <= |s| && r == s[i..i + |r|]
      && (forall k :: 0 <= k < i ==> IsSpace(s[k]))
      && (forall k :: i + |r| <= k < |s| ==> IsSpace(s[k]))
      && (|r| > 0 ==> !IsSpace(r[0]) && !IsSpace(r[|r| - 1]))
  {
    var i := |s| - |t|;
    forall k | i + |r| <= k < |s|
      ensures IsSpace(s[k])
    {
      assert s[k] == t[k - i];
    }
    if |r| > 0 {
      assert r[0] == t[0];
    }
  }

  function LowerChar(c: char): char {
    if 'A' <= c <= 'Z' then (c as int - 'A' as int + 'a' as int) as char else c
  }

  /** `str.lower()` on ASCII letters. */
  function Lower(s: string): (r: string)
    ensures |r| == |s|
    // no capital remains; each capital becomes its small letter, 32 code points on
    ensures forall k :: 0 <= k < |s| ==> !('A' <= r[k] <= 'Z')
    ensures forall k :: 0 <= k < |s| && 'A' <= s[k] <= 'Z' ==> r[k] as int == s[k] as int + 32
    // every other character is kept
    ensures forall k :: 0 <= k < |s| && !('A' <= s[k] <= 'Z') ==> r[k] == s[k]
  {
    seq(|s|, k requires 0 <= k < |s| => LowerChar(s[k]))
  }

  predicate StartsWith(s: string, prefix: string) {
    |prefix| <= |s| && s[..|prefix|] == prefix
  }

  /** A copy of `sub` starts at position `i` of `s`. */
  predicate OccursAt(s: string, sub: string, i: int) {
    0 <= i && i + |sub| <= |s| && s[i..i + |sub|] == sub
  }

  /** `sub in s`: some position of `s` starts a copy of `sub`. */
  predicate Contains(s: string, sub: string)
    ensures Contains(s, sub) <==> exists i :: OccursAt(s, sub, i)
    decreases |s|
  {
    if StartsWith(s, sub) then
      assert OccursAt(s, sub, 0);
      true
    else if |s| == 0 then false
    else
      assert !OccursAt(s, sub, 0);
      forall i | 1 <= i {
        OccursShift(s, sub, i);
      }
      forall j | 0 <= j
        ensures OccursAt(s[1..], sub, j) ==> OccursAt(s, sub, j + 1)
      {
        OccursShift(s, sub, j + 1);
      }
      Contains(s[1..], sub)
  }

  /** An occurrence past the first position is an occurrence in the tail, one place earlier. */
  lemma OccursShift(s: string, sub: string, i: int)
    requires |s| > 0 && 1 <= i
    ensures OccursAt(s, sub, i) <==> OccursAt(s[1..], sub, i - 1)
  {
    if i + |sub| <= |s| {
      assert s[i..i + |sub|] == s[1..][i - 1..i - 1 + |sub|];
    }
  }

  /** The first whitespace position at or after `i`, or `|s|`. */
  function WordEnd(s: string, i: nat): (j: nat)
    requires i <= |s|
    ensures i <= j <= |s| && (j < |s| ==> IsSpace(s[j]))
    ensures forall k :: i <= k < j ==> !IsSpace(s[k])
    decreases |s| - i
  {
    if i < |s| && !IsSpace(s[i]) then WordEnd(s, i + 1) else i
  }

  /** The length of the word at the front of `s`. */
  function WordLength(s: string): (n: nat)
    requires |s| > 0 && !IsSpace(s[0])
    ensures 1 <= n <= |s| && forall k :: 0 <= k < n ==> !IsSpace(s[k])
    ensures n < |s| ==> IsSpace(s[n])
  {
    WordEnd(s, 1)
  }

  /** `str.split()`: the maximal runs of non-whitespace, in order. */
  function Tokens(s: string): (ts: seq<string>)
    ensures forall k :: 0 <= k < |ts| ==> |ts[k]| > 0 && NoSpace(ts[k])
    // no token at all exactly when the text is all whitespace
    ensures |ts| == 0 <==> forall k :: 0 <= k < |s| ==> IsSpace(s[k])
    decreases |s|
  {
    if |s| == 0 then []
    else if IsSpace(s[0]) then
      assert forall k :: 1 <= k < |s| ==> s[k] == s[1..][k - 1];
      Tokens(s[1..])
    else
      var n := WordLength(s);
      [s[..n]] + Tokens(s[n..])
  }

  /** Leading whitespace yields no token. */
  lemma TokensSkipSpace(c: char, rest: string)
    requires IsSpace(c)
    ensures Tokens([c] + rest) == Tokens(rest)
  {
    assert ([c] + rest)[1..] == rest;
  }

  /** A run of whitespace, however long, yields no token. */
  lemma {:induction false} TokensSkipSpaces(sp: string, rest: string)
    requires forall k :: 0 <= k < |sp| ==> IsSpace(sp[k])
    ensures Tokens(sp + rest) == Tokens(rest)
    decreases |sp|
  {
    if |sp| > 0 {
      var more := sp[1..] + rest;
      assert sp + rest == [sp[0]] + more;
      TokensSkipSpace(sp[0], more);
      assert forall k :: 0 <= k < |sp[1..]| ==> sp[1..][k] == sp[k + 1];
      TokensSkipSpaces(sp[1..], rest);
    } else {
      assert sp + rest == rest;
    }
  }

  /** What follows the first character of a whitespace run is still one. */
  lemma SpaceRun(sp: string)
    requires |sp| > 0 && forall k :: 0 <= k < |sp| ==> IsSpace(sp[k])
    ensures forall k :: 0 <= k < |sp[1..]| ==> IsSpace(sp[1..][k])
  {
    assert forall k :: 0 <= k < |sp[1..]| ==> sp[1..][k] == sp[k + 1];
  }

  /** A word ended by whitespace is the first token, and splitting resumes after it. */
  lemma TokensSplit(w: string, c: char, rest: string)
    requires |w| > 0 && NoSpace(w) && IsSpace(c)
    ensures Tokens(w + [c] + rest) == [w] + Tokens(rest)
  {
    var s := w + [c] + rest;
    assert s[..|w|] == w;
    WordLengthAt(s, |w|);
    assert s[|w|..] == [c] + rest;
    TokensSkipSpace(c, rest);
  }

  /** The row count of "history n": the second token when it is all digits, else the default. */
  function HistoryCount(text: string): nat {
    var parts := Tokens(text);
    if |parts| >= 2 && IsDigits(parts[1]) then Value(parts[1]) else DefaultHistory
  }

  /** `handle_start_text` followed by `start_search_flow`. */
  function Classify(raw: string): (cmd: Command)
    ensures var text, low := Strip(raw), Lower(Strip(raw));
      && (cmd == Register <==> low == "register")
      && (cmd == Check <==> low == "check")
      && (cmd.History? <==> low != "check" && low != "register" && StartsWith(low, "history"))
      && (cmd.History? ==> cmd.count == HistoryCount(text))
      && (cmd == UrlRefused <==>
            !StartsWith(low, "history") && low != "check" && low != "register"
            && (Contains(text, "youtube.com") || Contains(text, "youtu.be")))
      && (cmd.Title? ==> cmd.text == text && |text| > 0)
      && (cmd == Ignored ==> text == "")
  {
    var text := Strip(raw);
    var low := Lower(text);
    if low == "register" then Register
    else if low == "check" then Check
    else if StartsWith(low, "history") then History(HistoryCount(text))
    else if Contains(text, "youtube.com") || Contains(text, "youtu.be") then UrlRefused
    else if |text| == 0 then Ignored
    else Title(text)
  }

  lemma TokensOfWord(w: string)
    requires |w| > 0 && NoSpace(w)
    ensures Tokens(w) == [w]
  {
    WholeWord(w);
    assert w[..|w|] == w;
    assert w[|w|..] == [];
  }

  /** A word without whitespace is one word to its end. */
  lemma WholeWord(w: string)
    requires |w| > 0 && NoSpace(w)
    ensures WordLength(w) == |w|
  {
  }

  /** "history n" asks for exactly n rows: the count round-trips through its decimal rendering. */
  lemma HistoryCountRoundTrip(n: nat)
    ensures Classify("history " + NatToString(n)) == History(n)
  {
    var d := NatToString(n);
    StripHistory(d);
    LowerHistory(d);
    assert "history " + d == "history" + " " + d + "";
    HistoryCountSecondWord("history", " ", d, "");
    ValueOfNatToString(n);
  }

  /** The second word sets the count when it is all digits; any other second word leaves the default. */
  lemma HistoryCountSecondWord(w: string, sp: string, x: string, rest: string)
    requires |w| > 0 && NoSpace(w) && |x| > 0 && NoSpace(x)
    requires |sp| > 0 && forall k :: 0 <= k < |sp| ==> IsSpace(sp[k])
    requires |rest| == 0 || IsSpace(rest[0])
    ensures HistoryCount(w + sp + x + rest) == if IsDigits(x) then Value(x) else DefaultHistory
  {
    TokensSecond(w, sp, x + rest);
    TokensFront(x, rest);
    assert w + sp + x + rest == w + sp + (x + rest);
  }

  /** Regrouping `w + sp + tail` around the first character of `sp`. */
  lemma SplitFirst(w: string, sp: string, tail: string)
    requires |sp| > 0
    ensures w + sp + tail == w + [sp[0]] + (sp[1..] + tail)
  {
    assert sp == [sp[0]] + sp[1..];
  }

  /** A word, a run of whitespace, then more text: the first token is the word, the rest split on. */
  lemma TokensSecond(w: string, sp: string, tail: string)
    requires |w| > 0 && NoSpace(w)
    requires |sp| > 0 && forall k :: 0 <= k < |sp| ==> IsSpace(sp[k])
    ensures Tokens(w + sp + tail) == [w] + Tokens(tail)
  {
    var more := sp[1..] + tail;
    SplitFirst(w, sp, tail);
    TokensSplit(w, sp[0], more);
    SpaceRun(sp);
    TokensSkipSpaces(sp[1..], tail);
  }

  /** A word followed by nothing or by whitespace is the first token. */
  lemma TokensFront(x: string, rest: string)
    requires |x| > 0 && NoSpace(x)
    requires |rest| == 0 || IsSpace(rest[0])
    ensures |Tokens(x + rest)| > 0 && Tokens(x + rest)[0] == x
  {
    if |rest| == 0 {
      assert x + rest == x;
      TokensOfWord(x);
    } else {
      var c, more := rest[0], rest[1..];
      assert x + rest == x + [c] + more;
      TokensSplit(x, c, more);
    }
  }

  /** A lone word, however much whitespace follows it, asks for the default. */
  lemma HistoryCountOneWord(w: string, spaces: string)
    requires |w| > 0 && NoSpace(w)
    requires forall k :: 0 <= k < |spaces| ==> IsSpace(spaces[k])
    ensures HistoryCount(w + spaces) == DefaultHistory
  {
    if |spaces| == 0 {
      assert w + spaces == w;
      TokensOfWord(w);
    } else {
      assert w + spaces == w + [spaces[0]] + spaces[1..];
      TokensSplit(w, spaces[0], spaces[1..]);
      assert Tokens(spaces[1..]) == [] by {
        assert forall k :: 0 <= k < |spaces[1..]| ==> spaces[1..][k] == spaces[k + 1];
      }
    }
  }

  lemma LowerHistory(d: string)
    ensures StartsWith(Lower("history " + d), "history")
    ensures Lower("history " + d) != "check" && Lower("history " + d) != "register"
  {
    var low := Lower("history " + d);
    assert low[0] == 'h' && low[1] == 'i' && low[2] == 's' && low[3] == 't';
    assert low[4] == 'o' && low[5] == 'r' && low[6] == 'y';
    assert low[..7] == "history";
  }

  lemma StripHistory(d: string)
    requires IsDigits(d)
    ensures Strip("history " + d) == "history " + d
  {
    var text := "history " + d;
    assert !IsSpace(text[0]);
    assert SkipSpaces(text, 0) == 0;
    assert text[|text| - 1] == d[|d| - 1];
    assert BackSpaces(text, |text|) == |text|;
    assert TrimStart(text) == text[0..] == text;
    assert TrimEnd(text) == text[..|text|] == text;
  }

  /** The word length is the position of the first whitespace. */
  lemma WordLengthAt(s: string, n: nat)
    requires 0 < n < |s| && NoSpace(s[..n]) && IsSpace(s[n])
    ensures WordLength(s) == n
  {
  }

  /** Case and surrounding whitespace do not matter to the exact commands. */
  lemma DispatchExample()
    ensures Classify(" REGISTER ") == Register
  {
    var raw := " REGISTER ";
    assert SkipSpaces(raw, 0) == 1 by {
      assert IsSpace(raw[0]) && !IsSpace(raw[1]);
    }
    var t := raw[1..];
    assert t == "REGISTER ";
    assert BackSpaces(t, 9) == 8 by {
      assert IsSpace(t[8]) && !IsSpace(t[7]);
    }
    assert t[..8] == "REGISTER";
    assert Lower("REGISTER") == "register";
  }
}
