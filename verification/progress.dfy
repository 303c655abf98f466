/**
 * What the status message shows while a conversion runs: the five-cell
 * progress bar, the `m:ss` duration, and the loop that pushes an edit only
 * when the rendered text changed.
 */
module Progress {
  import opened Wrappers
  import opened Decimal

  const FullCell: char := '\U{25A0}'
  const EmptyCell: char := '\U{25A1}'

  /** `int(percent // 20)`: floor division, so negative percentages fill nothing. */
  function FilledCells(percent: int): int {
    percent / 20
  }

  /** The first `n` cells of a bar with `filled` full cells. */
  function Row(filled: int, n: nat): (r: seq<char>)
    ensures |r| == n
    ensures forall i :: 0 <= i < n ==> r[i] == (if i < filled then FullCell else EmptyCell)
    decreases n
  {
    if n == 0 then [] else Row(filled, n - 1) + [if n - 1 < filled then FullCell else EmptyCell]
  }

  /** Cell i of `cells` at position 2i of `r`, a single space between neighbours. */
  predicate Spaced(cells: seq<char>, r: string) {
    && |r| == 2 * |cells| - 1
    && (forall i :: 0 <= i < |cells| ==> r[2 * i] == cells[i])
    && (forall i :: 0 <= i < |cells| - 1 ==> r[2 * i + 1] == ' ')
  }

  /** `" ".join(cells)`. */
  function Join(cells: seq<char>): (r: string)
    ensures |cells| > 0 ==> Spaced(cells, r)
    decreases |cells|
  {
    if |cells| <= 1 then cells
    else
      var rest := Join(cells[1..]);
      SpacedCons(cells[0], cells[1..], rest);
      assert [cells[0]] + cells[1..] == cells;
      [cells[0], ' '] + rest
  }

  /** Putting a cell and a space in front of a spaced row spaces the longer row. */
  lemma SpacedCons(c: char, cells: seq<char>, rest: string)
    requires |cells| > 0 && Spaced(cells, rest)
    ensures Spaced([c] + cells, [c, ' '] + rest)
  {
    var all, r := [c] + cells, [c, ' '] + rest;
    forall i | 1 <= i < |all|
      ensures r[2 * i] == all[i]
    {
      assert r[2 * i] == rest[2 * (i - 1)];
    }
    forall i | 1 <= i < |all| - 1
      ensures r[2 * i + 1] == ' '
    {
      assert r[2 * i + 1] == rest[2 * (i - 1) + 1];
    }
  }

  /** `progress_bar(percent)`: five cells joined by single spaces, the first ⌊percent/20⌋ full. */
  function ProgressBar(percent: int): (bar: string)
    ensures |bar| == 9
    ensures forall i :: 0 <= i < 5 ==> bar[2 * i] == (if i < percent / 20 then FullCell else EmptyCell)
    ensures forall i :: 0 <= i < 4 ==> bar[2 * i + 1] == ' '
  {
    var bar := Join(Row(FilledCells(percent), 5));
    assert Spaced(Row(FilledCells(percent), 5), bar);
    bar
  }

  function Count(s: string, c: char): nat
    decreases |s|
  {
    if |s| == 0 then 0 else Count(s[..|s| - 1], c) + (if s[|s| - 1] == c then 1 else 0)
  }

  function Clamp(x: int, lo: int, hi: int): int
    requires lo <= hi
  {
    if x < lo then lo else if x > hi then hi else x
  }

  /** A row has exactly the clamped number of full cells, and no spaces. */
  lemma {:induction false} RowCount(filled: int, n: nat)
    ensures Count(Row(filled, n), FullCell) == Clamp(filled, 0, n)
    ensures Count(Row(filled, n), ' ') == 0
    decreases n
  {
    if n > 0 {
      RowCount(filled, n - 1);
      assert Row(filled, n)[..n - 1] == Row(filled, n - 1);
    }
  }

  lemma {:induction false} CountConcat(a: string, b: string, c: char)
    ensures Count(a + b, c) == Count(a, c) + Count(b, c)
    decreases |b|
  {
    if |b| == 0 {
      assert a + b == a;
    } else {
      assert (a + b)[..|a + b| - 1] == a + b[..|b| - 1];
      CountConcat(a, b[..|b| - 1], c);
    }
  }

  lemma {:induction false} CountSmall(s: string, c: char)
    requires |s| <= 1
    ensures Count(s, c) == (if |s| == 1 && s[0] == c then 1 else 0)
  {
    if |s| == 1 {
      assert s[..0] == [];
    }
  }

  /** Joining with spaces adds no full cells. */
  lemma {:induction false} JoinCount(cells: seq<char>)
    ensures Count(Join(cells), FullCell) == Count(cells, FullCell)
    decreases |cells|
  {
    if |cells| > 1 {
      assert FullCell != ' ';
      JoinCount(cells[1..]);
      CountConcat([cells[0], ' '], Join(cells[1..]), FullCell);
      CountConcat([cells[0]], cells[1..], FullCell);
      assert [cells[0]] + cells[1..] == cells;
      CountConcat([cells[0]], [' '], FullCell);
      assert [cells[0]] + [' '] == [cells[0], ' '];
      CountSmall([cells[0]], FullCell);
      CountSmall([' '], FullCell);
    }
  }

  /**
   * The bar shows exactly ⌊percent/20⌋ full cells, clamped to the five it
   * has: none below 20%, all from 100% up.
   */
  lemma BarCount(percent: int)
    ensures Count(ProgressBar(percent), FullCell) == Clamp(percent / 20, 0, 5)
    ensures percent < 20 ==> Count(ProgressBar(percent), FullCell) == 0
    ensures percent >= 100 ==> Count(ProgressBar(percent), FullCell) == 5
  {
    RowCount(FilledCells(percent), 5);
    JoinCount(Row(FilledCells(percent), 5));
  }

  /** The placeholder shown when the duration is unknown or zero. */
  const NoDuration: string := "\U{2014}:\U{2014}"

  /** `f"{m}:{s:02d}"` with `m, s = divmod(seconds, 60)`, or the placeholder for a falsy duration. */
  function FormatDuration(duration: Option<int>): (t: string)
    // the placeholder exactly for an absent or zero duration: a rendering starts with '-' or a digit
    ensures t == NoDuration <==> duration == None || duration == Some(0)
  {
    match duration
    case None => NoDuration
    case Some(seconds) =>
      if seconds == 0 then NoDuration
      else IntToString(seconds / 60) + ":" + TwoDigits(seconds % 60)
  }

  /** The position of the first `c` in `s`, or `|s|`. */
  function IndexOf(s: string, c: char): (i: nat)
    ensures i <= |s|
    ensures i < |s| ==> s[i] == c
    ensures forall k :: 0 <= k < i ==> s[k] != c
    decreases |s|
  {
    if |s| == 0 then 0 else if s[0] == c then 0 else 1 + IndexOf(s[1..], c)
  }

  /** Reads an `m:ss` rendering back into seconds; anything else is None. */
  function ParseDuration(t: string): Option<int> {
    var i := IndexOf(t, ':');
    if i == |t| then None
    else match ParseInt(t[..i])
      case None => None
      case Some(m) =>
        var rest := t[i + 1..];
        if |rest| == 2 && IsDigits(rest) && Value(rest) < 60 then Some(m * 60 + Value(rest)) else None
  }

  /**
   * The duration round-trips: reading back the rendering yields the seconds,
   * except that zero and an absent duration both render as the placeholder,
   * which reads back as absent.
   */
  lemma DurationRoundTrip(duration: Option<int>)
    ensures ParseDuration(FormatDuration(duration)) == if duration == Some(0) then None else duration
  {
    match duration
    case None =>
      assert IndexOf(NoDuration, ':') == 1;
      assert NoDuration[..1] == "\U{2014}";
    case Some(seconds) =>
      if seconds == 0 {
        assert IndexOf(NoDuration, ':') == 1;
        assert NoDuration[..1] == "\U{2014}";
      } else {
        var m, s := seconds / 60, seconds % 60;
        var head := IntToString(m);
        var t := head + ":" + TwoDigits(s);
        assert IndexOf(t, ':') == |head| by {
          assert t[|head|] == ':';
          assert forall k :: 0 <= k < |head| ==> t[k] == head[k];
        }
        assert t[..|head|] == head;
        assert t[|head| + 1..] == TwoDigits(s);
      }
  }

  /** Consecutive pushed texts are never equal. */
  predicate NoAdjacentRepeats(texts: seq<string>) {
    forall i :: 0 <= i < |texts| - 1 ==> texts[i] != texts[i + 1]
  }

  /** The reference de-duplication: each run of equal consecutive texts once. */
  function Collapse(polls: seq<string>): seq<string>
    decreases |polls|
  {
    if |polls| == 0 then []
    else if |polls| == 1 then polls
    else if polls[0] == polls[1] then Collapse(polls[1..])
    else [polls[0]] + Collapse(polls[1..])
  }

  lemma {:induction false} CollapseFacts(polls: seq<string>)
    ensures |polls| > 0 ==> |Collapse(polls)| > 0 && Collapse(polls)[|Collapse(polls)| - 1] == polls[|polls| - 1]
    ensures |polls| > 0 ==> Collapse(polls)[0] == polls[0]
    ensures NoAdjacentRepeats(Collapse(polls))
    ensures forall t :: t in polls <==> t in Collapse(polls)
    decreases |polls|
  {
    if |polls| > 1 {
      CollapseFacts(polls[1..]);
      assert polls == [polls[0]] + polls[1..];
    }
  }

  /** Collapsing one more poll: pushed only when it differs from the last pushed text. */
  lemma {:induction false} CollapseSnoc(polls: seq<string>, t: string)
    ensures |polls| > 0 ==> |Collapse(polls)| > 0
    ensures Collapse(polls + [t]) ==
      if |polls| > 0 && Collapse(polls)[|Collapse(polls)| - 1] == t then Collapse(polls) else Collapse(polls) + [t]
    decreases |polls|
  {
    CollapseFacts(polls);
    var ext := polls + [t];
    if |polls| == 0 {
      assert ext == [t];
    } else if |polls| == 1 {
      assert ext[1..] == [t];
      assert Collapse(polls) == polls;
      if polls[0] == t {
        assert Collapse(ext) == Collapse([t]) == [t];
      } else {
        assert Collapse(ext) == [polls[0]] + Collapse([t]);
      }
    } else {
      var tail := polls[1..];
      assert ext[0] == polls[0] && ext[1] == polls[1];
      assert ext[1..] == tail + [t];
      CollapseSnoc(tail, t);
      CollapseFacts(tail);
      var ct := Collapse(tail);
      if polls[0] == polls[1] {
        assert Collapse(ext) == Collapse(tail + [t]);
        assert Collapse(polls) == ct;
      } else {
        assert Collapse(ext) == [polls[0]] + Collapse(tail + [t]);
        assert Collapse(polls) == [polls[0]] + ct;
        assert Collapse(polls)[|Collapse(polls)| - 1] == ct[|ct| - 1];
      }
    }
  }

  /**
   * The polling loop of `async_finalize_and_update`: each poll renders a text,
   * and an edit is pushed only when it differs from the last text. The last
   * text is updated even when the edit fails, so the pushes depend on the
   * rendered texts alone.
   */
  method PushEdits(polls: seq<string>) returns (pushed: seq<string>)
    ensures NoAdjacentRepeats(pushed)
    ensures forall t :: t in polls <==> t in pushed
    ensures |pushed| <= |polls|
    ensures pushed == Collapse(polls)
  {
    pushed := [];
    var last: Option<string> := None;
    var i := 0;
    while i < |polls|
      invariant 0 <= i <= |polls|
      invariant pushed == Collapse(polls[..i])
      invariant i == 0 <==> last == None
      invariant i > 0 ==> last == Some(polls[i - 1])
      invariant |pushed| <= i
    {
      var text := polls[i];
      CollapseFacts(polls[..i]);
      CollapseSnoc(polls[..i], text);
      assert polls[..i + 1] == polls[..i] + [text];
      if last != Some(text) {
        pushed := pushed + [text];
      }
      last := Some(text);
      i := i + 1;
    }
    assert polls[..i] == polls;
    CollapseFacts(polls);
  }
}
