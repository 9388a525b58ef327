/** Breaking an operator's details into lines narrow enough for its box. Text is ASCII:
    one character is one byte and one column. */
module LineWrap {
  import opened Scalars
  import opened Sequences

  const NODE_RENDER_WIDTH := 29
  const MAX_EXTRA_LINES := 30

  // Words are letters, digits and underscores; a line may end before anything else.
  predicate CanSplitOn(c: char) {
    !('0' <= c <= '9') && !('A' <= c <= 'Z') && !('a' <= c <= 'z') && c != '_'
  }

  function Concat(lines: seq<string>): string {
    if lines == [] then "" else Concat(lines[..|lines| - 1]) + lines[|lines| - 1]
  }

  lemma ConcatPush(lines: seq<string>, line: string)
    ensures Concat(lines + [line]) == Concat(lines) + line
  {
    assert (lines + [line])[..|lines|] == lines;
  }

  // The characters of words, by their ASCII codes.
  predicate InWord(c: char) {
    48 <= c as int < 58 || 65 <= c as int < 91 || c as int == 95 || 97 <= c as int < 123
  }

  // A line may run from `start` to `end`: it is neither too long nor too short, and it
  // cuts a word only when no other break is left after its first eight characters.
  predicate GoodBreak(source: string, start: nat, end: nat) {
    && start + 8 <= end <= start + (NODE_RENDER_WIDTH - 2) && end < |source|
    && (InWord(source[end]) ==> forall k :: start + 8 <= k < end ==> InWord(source[k]))
  }

  // Every line of `lines` but the last ends at a good break of `source`.
  ghost predicate GoodBreaks(source: string, lines: seq<string>) {
    forall i :: 0 <= i < |lines| - 1 ==> GoodBreak(source, |Concat(lines[..i])|, |Concat(lines[..i + 1])|)
  }

  // Lines that lose nothing of `source`, fit the box and, but for the last, are not short.
  ghost predicate Wrapped(source: string, lines: seq<string>) {
    && Concat(lines) == source && GoodBreaks(source, lines)
    && (forall i :: 0 <= i < |lines| ==> 0 < |lines[i]| <= NODE_RENDER_WIDTH - 2)
    && forall i :: 0 <= i < |lines| - 1 ==> |lines[i]| >= 8
  }

  // Lines that stop at `start`, all of them good.
  ghost predicate Broken(source: string, lines: seq<string>, start: nat) {
    && start <= |source| && Concat(lines) == source[..start]
    && (forall line :: line in lines ==> 8 <= |line| <= NODE_RENDER_WIDTH - 2)
    && forall i :: 0 <= i < |lines| ==> GoodBreak(source, |Concat(lines[..i])|, |Concat(lines[..i + 1])|)
  }

  lemma OneMoreLine(source: string, lines: seq<string>, start: nat, end: nat)
    requires Broken(source, lines, start) && GoodBreak(source, start, end)
    ensures Broken(source, lines + [source[start..end]], end)
  {
    var line := source[start..end];
    ConcatPush(lines, line);
    assert source[..start] + line == source[..end];
    forall i | 0 <= i < |lines| + 1
      ensures GoodBreak(source, |Concat((lines + [line])[..i])|, |Concat((lines + [line])[..i + 1])|)
    {
      assert (lines + [line])[..i] == lines[..i];
      if i < |lines| {
        assert (lines + [line])[..i + 1] == lines[..i + 1];
      } else {
        assert lines[..i] == lines;
        assert (lines + [line])[..i + 1] == lines + [line];
      }
    }
  }

  lemma LastLine(source: string, lines: seq<string>, start: nat)
    requires Broken(source, lines, start) && start < |source| <= start + (NODE_RENDER_WIDTH - 2)
    ensures Wrapped(source, lines + [source[start..]])
  {
    var all := lines + [source[start..]];
    ConcatPush(lines, source[start..]);
    assert source[..start] + source[start..] == source;
    forall i | 0 <= i < |all| - 1 ensures GoodBreak(source, |Concat(all[..i])|, |Concat(all[..i + 1])|) {
      assert all[..i] == lines[..i] && all[..i + 1] == lines[..i + 1];
    }
  }

  /** Wraps one line. The cursor moves back to the break after each pushed line, yet the
      loop ends, and nothing is lost: the pushed lines concatenate to the source. None is
      wider than the box, and all but the last have at least eight characters. */
  method SplitStringBuffer(source: string, before: seq<string>) returns (result: seq<string>)
    ensures before <= result && Wrapped(source, result[|before|..])
  {
    result := before;
    ghost var lines: seq<string> := [];
    var pos, start, renderWidth, lastSplit := 0, 0, 0, 0;
    while pos < |source|
      invariant start <= lastSplit <= pos <= |source|
      invariant start < |source| || source == ""
      invariant pos - start <= renderWidth <= NODE_RENDER_WIDTH - 2
      invariant renderWidth - (pos - start) <= NODE_RENDER_WIDTH - 10
      invariant lastSplit > start ==> lastSplit < |source| && CanSplitOn(source[lastSplit])
      invariant forall k :: lastSplit < k < pos ==> !CanSplitOn(source[k])
      invariant result == before + lines && Broken(source, lines, start)
      decreases |source| - start, |source| - pos
    {
      if renderWidth + 1 > NODE_RENDER_WIDTH - 2 {
        if start + 8 > lastSplit {
          lastSplit := pos;
        }
        OneMoreLine(source, lines, start, lastSplit);
        result := result + [source[start..lastSplit]];
        lines := lines + [source[start..lastSplit]];
        renderWidth := pos - lastSplit;
        start := lastSplit;
        pos := lastSplit;
      }
      if CanSplitOn(source[pos]) {
        lastSplit := pos;
      }
      pos := pos + 1;
      renderWidth := renderWidth + 1;
    }
    if |source| > start {
      LastLine(source, lines, start);
      result := result + [source[start..]];
      lines := lines + [source[start..]];
    }
    assert result[|before|..] == lines;
  }

  // ---------------------------------------------------------------- an operator's details

  predicate IsSpace(c: char) {
    c == ' ' || '\t' <= c <= '\r'
  }

  function Trim(s: string): (r: string)
    ensures |r| <= |s|
  {
    if s == "" then s
    else if IsSpace(s[0]) then Trim(s[1..])
    else if IsSpace(s[|s| - 1]) then Trim(s[..|s| - 1])
    else s
  }

  function Repeat(c: char, n: nat): (s: string)
    ensures |s| == n && forall k :: 0 <= k < n ==> s[k] == c
  {
    if n == 0 then "" else Repeat(c, n - 1) + [c]
  }

  function Separator(): (s: string)
    ensures |s| == 20 && forall k :: 0 <= k < 20 ==> s[k] == '-'
  {
    Repeat('-', NODE_RENDER_WIDTH - 9)
  }

  // The pieces between newlines.
  function SplitLines(s: string): (lines: seq<string>)
    ensures lines != [] && forall line :: line in lines ==> '\n' !in line
    decreases s
  {
    if s == "" then [""]
    else
      var front := SplitLines(s[..|s| - 1]);
      if s[|s| - 1] == '\n' then front + [""]
      else front[|front| - 1 := front[|front| - 1] + [s[|s| - 1]]]
  }

  // Lines put together again with newlines.
  function JoinLines(lines: seq<string>): string {
    if lines == [] then ""
    else if |lines| == 1 then lines[0]
    else JoinLines(lines[..|lines| - 1]) + "\n" + lines[|lines| - 1]
  }

  function Newlines(s: string): nat {
    if s == "" then 0 else Newlines(s[..|s| - 1]) + if s[|s| - 1] == '\n' then 1 else 0
  }

  // The text on one line.
  function Unbroken(s: string): string {
    if s == "" then "" else Unbroken(s[..|s| - 1]) + if s[|s| - 1] == '\n' then "" else [s[|s| - 1]]
  }

  lemma JoinPush(lines: seq<string>, line: string)
    requires lines != []
    ensures JoinLines(lines + [line]) == JoinLines(lines) + "\n" + line
  {
    assert (lines + [line])[..|lines|] == lines;
  }

  lemma LastExtended(lines: seq<string>, c: char)
    requires lines != []
    ensures var last := |lines| - 1;
            && JoinLines(lines[last := lines[last] + [c]]) == JoinLines(lines) + [c]
            && Concat(lines[last := lines[last] + [c]]) == Concat(lines) + [c]
  {
    var last := |lines| - 1;
    var more := lines[last := lines[last] + [c]];
    assert more[..last] == lines[..last];
    if last > 0 {
      assert JoinLines(more) == JoinLines(lines[..last]) + "\n" + (lines[last] + [c]);
      assert JoinLines(lines) == JoinLines(lines[..last]) + "\n" + lines[last];
    }
  }

  /** Splitting loses nothing: there is one line more than there are newlines, and joining
      the lines with newlines gives the text back. */
  lemma {:induction false} SplitLinesJoin(s: string)
    ensures JoinLines(SplitLines(s)) == s && |SplitLines(s)| == Newlines(s) + 1
    ensures Concat(SplitLines(s)) == Unbroken(s)
  {
    if s != "" {
      var before, c := s[..|s| - 1], s[|s| - 1];
      var front := SplitLines(before);
      SplitLinesJoin(before);
      assert s == before + [c];
      if c == '\n' {
        JoinPush(front, "");
        ConcatPush(front, "");
      } else {
        LastExtended(front, c);
      }
    } else {
      ConcatPush([], "");
    }
  }

  // Tab, line feed, vertical tab, form feed, carriage return and blank.
  predicate IsWhite(c: char) {
    c in "\t\n\U{B}\U{C}\r "
  }

  lemma SpaceIsWhite(c: char)
    ensures IsSpace(c) <==> IsWhite(c)
  {
    if '\t' <= c <= '\r' {
      assert c == "\t\n\U{B}\U{C}\r "[c as int - 9];
    }
  }

  predicate AllSpace(s: string) {
    forall c :: c in s ==> IsWhite(c)
  }

  // The middle of a text, with whitespace on either side of it and at neither end.
  predicate IsMiddle(s: string, i: nat, r: string) {
    && i + |r| <= |s| && s[i..i + |r|] == r && AllSpace(s[..i]) && AllSpace(s[i + |r|..])
    && (r != "" ==> !IsWhite(r[0]) && !IsWhite(r[|r| - 1]))
  }

  lemma SpaceBefore(s: string, i: nat, r: string)
    requires s != "" && IsSpace(s[0]) && IsMiddle(s[1..], i, r)
    ensures IsMiddle(s, i + 1, r)
  {
    SpaceIsWhite(s[0]);
    assert s[..i + 1] == [s[0]] + s[1..][..i];
    assert s[i + 1 + |r|..] == s[1..][i + |r|..];
    assert s[i + 1..i + 1 + |r|] == s[1..][i..i + |r|];
  }

  lemma SpaceBehind(s: string, i: nat, r: string)
    requires s != "" && IsSpace(s[|s| - 1]) && IsMiddle(s[..|s| - 1], i, r)
    ensures IsMiddle(s, i, r)
  {
    SpaceIsWhite(s[|s| - 1]);
    var front := s[..|s| - 1];
    assert s[i + |r|..] == front[i + |r|..] + [s[|s| - 1]];
    assert s[..i] == front[..i] && s[i..i + |r|] == front[i..i + |r|];
  }

  /** Trimming cuts off whitespace, all of it on both sides, and nothing else. */
  lemma {:induction false} TrimIsMiddle(s: string) returns (i: nat)
    ensures IsMiddle(s, i, Trim(s))
  {
    hide IsMiddle, IsSpace;
    if s != "" && IsSpace(s[0]) {
      i := TrimIsMiddle(s[1..]);
      SpaceBefore(s, i, Trim(s[1..]));
      i := i + 1;
    } else if s != "" && IsSpace(s[|s| - 1]) {
      i := TrimIsMiddle(s[..|s| - 1]);
      SpaceBehind(s, i, Trim(s[..|s| - 1]));
    } else {
      i := 0;
      AllMiddle(s);
    }
  }

  lemma AllMiddle(s: string)
    requires s != "" ==> !IsSpace(s[0]) && !IsSpace(s[|s| - 1])
    ensures IsMiddle(s, 0, s)
  {
    if s != "" {
      SpaceIsWhite(s[0]);
      SpaceIsWhite(s[|s| - 1]);
    }
  }

  predicate Narrow(lines: seq<string>) {
    forall line :: line in lines ==> |line| <= NODE_RENDER_WIDTH - 2
  }

  // A map's keys in order, as a sorted map iterates them.
  method SortedKeys(info: map<string, string>) returns (keys: seq<string>)
    ensures KeysInOrder(keys, info)
  {
    keys := [];
    var rest := info.Keys;
    while rest != {}
      invariant rest <= info.Keys && forall k :: k in keys <==> k in info.Keys - rest
      invariant forall i, j :: 0 <= i < j < |keys| ==> keys[i] != keys[j] && StringLeq(keys[i], keys[j])
      invariant forall i, k :: 0 <= i < |keys| && k in rest ==> StringLeq(keys[i], k)
      decreases |rest|
    {
      ghost var least := LeastExists(rest);
      assert IsLeast(least, rest);
      var key :| key in rest && forall k :: k in rest ==> StringLeq(key, k);
      assert forall i :: 0 <= i < |keys| ==> keys[i] in keys;
      keys, rest := keys + [key], rest - {key};
    }
  }

  ghost predicate IsLeast(k: string, s: set<string>) {
    k in s && forall m :: m in s ==> StringLeq(k, m)
  }

  lemma {:induction false} LeastExists(s: set<string>) returns (k: string)
    requires s != {}
    ensures IsLeast(k, s)
    decreases |s|
  {
    k :| k in s;
    StringLeqTotal(k, k);
    var rest := s - {k};
    if rest == {} {
      assert forall m :: m in s ==> m == k || m in rest;
    } else {
      var other := LeastExists(rest);
      StringLeqTotal(k, other);
      if StringLeq(other, k) {
        assert forall m :: m in s ==> m == k || m in rest;
        k := other;
      } else {
        LeastOfBoth(k, other, rest);
        assert s == rest + {k};
      }
    }
  }

  lemma LeastOfBoth(k: string, other: string, rest: set<string>)
    requires StringLeq(k, other) && IsLeast(other, rest)
    ensures IsLeast(k, rest + {k})
  {
    StringLeqTotal(k, k);
    forall m | m in rest ensures StringLeq(k, m) {
      StringLeqTransitive(k, other, m);
    }
  }

  function Shorten(splits: seq<string>, maxLines: nat): seq<string> {
    if |splits| > maxLines then
      splits[..maxLines / 2] + ["..."] + splits[|splits| - maxLines / 2..]
    else splits
  }

  // Every piece wrapped, one after the other.
  ghost predicate Shows(splits: seq<string>, lines: seq<string>) {
    if splits == [] then lines == []
    else
      exists n: nat :: n <= |lines| && Shows(splits[..|splits| - 1], lines[..n])
        && Wrapped(splits[|splits| - 1], lines[n..])
  }

  method SplitAll(splits: seq<string>, before: seq<string>) returns (result: seq<string>)
    requires Narrow(before)
    ensures Narrow(result) && before <= result && Shows(splits, result[|before|..])
  {
    result := before;
    assert result[|before|..] == [];
    for i := 0 to |splits|
      invariant Narrow(result) && before <= result && Shows(splits[..i], result[|before|..])
    {
      var wrapped := SplitStringBuffer(splits[i], result);
      OneMoreShown(splits, i, before, result, wrapped);
      assert forall k :: |result| <= k < |wrapped| ==> wrapped[k] == wrapped[|result|..][k - |result|];
      result := wrapped;
    }
    assert splits[..|splits|] == splits;
  }

  lemma OneMoreShown(splits: seq<string>, i: nat, before: seq<string>, result: seq<string>, wrapped: seq<string>)
    requires i < |splits| && before <= result <= wrapped && Shows(splits[..i], result[|before|..])
    requires Wrapped(splits[i], wrapped[|result|..])
    ensures Shows(splits[..i + 1], wrapped[|before|..])
  {
    var n, lines := |result| - |before|, wrapped[|before|..];
    assert splits[..i + 1][..i] == splits[..i];
    assert lines[..n] == result[|before|..] && lines[n..] == wrapped[|result|..];
  }

  // A detail on one line if it fits, else its key on a line of its own.
  predicate Inlined(key: string, value: string) {
    Trim(value) != "" && '\n' !in Trim(value) && |key| + |Trim(value)| + 2 < NODE_RENDER_WIDTH - 7
  }

  function DetailText(key: string, value: string): string {
    if Trim(value) == "" then key
    else if Inlined(key, value) then key + ": " + Trim(value)
    else key + ":\n" + Trim(value)
  }

  // A blank line comes before a detail, but for the first and between two on one line.
  predicate Spaced(info: map<string, string>, keys: seq<string>, i: nat)
    requires i < |keys| && forall k :: k in keys ==> k in info
  {
    i > 0 && !(Inlined(keys[i], info[keys[i]]) && Inlined(keys[i - 1], info[keys[i - 1]]))
  }

  // The lines of one detail.
  ghost predicate ShowsDetail(info: map<string, string>, keys: seq<string>, i: nat, maxLines: nat, lines: seq<string>)
    requires i < |keys| && forall k :: k in keys ==> k in info
  {
    var splits := Shorten(SplitLines(DetailText(keys[i], info[keys[i]])), maxLines);
    if Spaced(info, keys, i) then lines != [] && lines[0] == "" && Shows(splits, lines[1..])
    else Shows(splits, lines)
  }

  lemma LastShown(splits: seq<string>, lines: seq<string>) returns (n: nat)
    requires Shows(splits, lines) && splits != []
    ensures n <= |lines| && Shows(splits[..|splits| - 1], lines[..n]) && Concat(lines[n..]) == splits[|splits| - 1]
  {
    hide GoodBreaks;
    n :| n <= |lines| && Shows(splits[..|splits| - 1], lines[..n]) && Wrapped(splits[|splits| - 1], lines[n..]);
  }

  lemma {:induction false} ShowsConcat(splits: seq<string>, lines: seq<string>)
    requires Shows(splits, lines)
    ensures Concat(lines) == Concat(splits)
  {
    hide Shows, Concat, Wrapped, GoodBreaks;
    if splits == [] {
      NothingToShow(lines);
    } else {
      var front, last := splits[..|splits| - 1], splits[|splits| - 1];
      var n := LastShown(splits, lines);
      ShowsConcat(front, lines[..n]);
      assert Concat(lines) == Concat(lines[..n]) + Concat(lines[n..]) by {
        assert lines == lines[..n] + lines[n..];
        ConcatAppend(lines[..n], lines[n..]);
      }
      assert Concat(splits) == Concat(front) + last by {
        assert splits == front + [last];
        ConcatPush(front, last);
      }
    }
  }

  lemma NothingToShow(lines: seq<string>)
    requires Shows([], lines)
    ensures Concat(lines) == Concat([])
  {
  }

  lemma {:induction false} ConcatAppend(a: seq<string>, b: seq<string>)
    ensures Concat(a + b) == Concat(a) + Concat(b)
  {
    if b == [] {
      assert a + b == a;
    } else {
      assert (a + b)[..|a + b| - 1] == a + b[..|b| - 1];
      ConcatAppend(a, b[..|b| - 1]);
    }
  }

  lemma {:induction false} UnbrokenAppend(a: string, b: string)
    ensures Unbroken(a + b) == Unbroken(a) + Unbroken(b)
  {
    if b == "" {
      assert a + b == a;
    } else {
      assert (a + b)[..|a + b| - 1] == a + b[..|b| - 1];
      UnbrokenAppend(a, b[..|b| - 1]);
    }
  }

  // What a box shows of a detail, on as many lines as it takes.
  function OneLineOf(key: string, value: string): string {
    if value == "" then Unbroken(key)
    else if '\n' !in value && |key| + |value| + 2 < 22 then Unbroken(key) + ": " + Unbroken(value)
    else Unbroken(key) + ":" + Unbroken(value)
  }

  lemma UnbrokenMarks()
    ensures Unbroken(": ") == ": " && Unbroken(":\n") == ":"
  {
    assert ": "[..1] == ":" && ":\n"[..1] == ":" && ":"[..0] == "";
    assert Unbroken(":") == ":";
  }

  lemma DetailOnOneLine(key: string, value: string)
    ensures Unbroken(DetailText(key, value)) == OneLineOf(key, Trim(value))
  {
    hide Trim, Unbroken;
    var v := Trim(value);
    UnbrokenMarks();
    UnbrokenAppend(key, ": ");
    UnbrokenAppend(key + ": ", v);
    UnbrokenAppend(key, ":\n");
    UnbrokenAppend(key + ":\n", v);
  }

  lemma BlockConcat(info: map<string, string>, keys: seq<string>, i: nat, maxLines: nat, lines: seq<string>)
    requires i < |keys| && (forall k :: k in keys ==> k in info) && ShowsDetail(info, keys, i, maxLines, lines)
    ensures Concat(lines) == Concat(Shorten(SplitLines(DetailText(keys[i], info[keys[i]])), maxLines))
  {
    hide Shows, Trim, SplitLines, DetailText, Shorten;
    var splits := Shorten(SplitLines(DetailText(keys[i], info[keys[i]])), maxLines);
    if Spaced(info, keys, i) {
      ShowsConcat(splits, lines[1..]);
      assert lines == [""] + lines[1..];
      ConcatAppend([""], lines[1..]);
      ConcatPush([], "");
    } else {
      ShowsConcat(splits, lines);
    }
  }

  lemma ShortenConcat(pieces: seq<string>, maxLines: nat)
    ensures Concat(Shorten(pieces, maxLines)) ==
            if |pieces| <= maxLines then Concat(pieces)
            else Concat(pieces[..maxLines / 2]) + "..." + Concat(pieces[|pieces| - maxLines / 2..])
  {
    if |pieces| > maxLines {
      ConcatAppend(pieces[..maxLines / 2] + ["..."], pieces[|pieces| - maxLines / 2..]);
      ConcatPush(pieces[..maxLines / 2], "...");
    }
  }

  /** A detail's lines, put together, are its key, a colon and its trimmed value; nothing is
      lost unless the detail has more lines than the limit, and then only lines in its
      middle. */
  lemma DetailIsComplete(info: map<string, string>, keys: seq<string>, i: nat, maxLines: nat, lines: seq<string>)
    requires i < |keys| && (forall k :: k in keys ==> k in info) && ShowsDetail(info, keys, i, maxLines, lines)
    ensures var pieces := SplitLines(DetailText(keys[i], info[keys[i]]));
            && Concat(pieces) == OneLineOf(keys[i], Trim(info[keys[i]]))
            && Concat(lines) ==
               if |pieces| <= maxLines then Concat(pieces)
               else Concat(pieces[..maxLines / 2]) + "..." + Concat(pieces[|pieces| - maxLines / 2..])
  {
    hide Shows, Trim, SplitLines, DetailText, Shorten, OneLineOf, Concat;
    SplitLinesJoin(DetailText(keys[i], info[keys[i]]));
    DetailOnOneLine(keys[i], info[keys[i]]);
    BlockConcat(info, keys, i, maxLines, lines);
    ShortenConcat(SplitLines(DetailText(keys[i], info[keys[i]])), maxLines);
  }

  ghost predicate KeysInOrder(keys: seq<string>, info: map<string, string>) {
    && (forall k :: k in keys <==> k in info)
    && forall i, j :: 0 <= i < j < |keys| ==> keys[i] != keys[j] && StringLeq(keys[i], keys[j])
  }

  // All lines, or those up to the limit and an ellipsis.
  predicate IsCut(lines: seq<string>, maxLines: nat, cut: seq<string>) {
    && |cut| == (if |lines| <= maxLines then |lines| else maxLines + 1)
    && forall k :: 0 <= k < |cut| ==> cut[k] == if k < maxLines then lines[k] else "..."
  }

  lemma CutOff(lines: seq<string>, maxLines: nat)
    ensures IsCut(lines, maxLines, if |lines| > maxLines then lines[..maxLines] + ["..."] else lines)
  {
  }

  // The first details below a separator, as far as the limit allows.
  ghost predicate Shown(info: map<string, string>, keys: seq<string>, maxLines: nat, blocks: seq<seq<string>>,
                        result: seq<string>)
  {
    && KeysInOrder(keys, info) && |blocks| <= |keys|
    && (forall i :: 0 <= i < |blocks| ==> ShowsDetail(info, keys, i, maxLines, blocks[i]))
    && IsCut([Separator()] + Flatten(blocks), maxLines, result)
  }

  // All details in key order.
  ghost predicate Lists(info: map<string, string>, maxLines: nat, result: seq<string>) {
    exists keys, blocks :: |blocks| == |keys| && Shown(info, keys, maxLines, blocks, result)
  }

  lemma NothingShown(info: map<string, string>, keys: seq<string>, maxLines: nat)
    requires KeysInOrder(keys, info) && maxLines >= 1
    ensures Shown(info, keys, maxLines, [], [Separator()])
  {
    var none: seq<seq<string>> := [];
    assert [Separator()] + Flatten(none) == [Separator()];
  }

  lemma OneMoreDetail(info: map<string, string>, keys: seq<string>, maxLines: nat, blocks: seq<seq<string>>,
                      result: seq<string>, block: seq<string>, cut: seq<string>)
    requires Shown(info, keys, maxLines, blocks, result) && |blocks| < |keys|
    requires ShowsDetail(info, keys, |blocks|, maxLines, block) && IsCut(result + block, maxLines, cut)
    ensures Shown(info, keys, maxLines, blocks + [block], cut)
  {
    hide ShowsDetail, Separator, Flatten;
    FlattenPush(blocks, block);
    Associative([Separator()], Flatten(blocks), block);
  }

  lemma ShownShape(info: map<string, string>, keys: seq<string>, maxLines: nat, blocks: seq<seq<string>>,
                   result: seq<string>)
    requires Shown(info, keys, maxLines, blocks, result) && maxLines >= 1
    ensures result != [] && result[0] == Separator() && |result| <= maxLines + 1
    ensures |result| == maxLines + 1 ==> result[maxLines] == "..."
  {
  }

  /** An operator's details. Nothing is shown for no details; otherwise a separator comes
      first, then every detail in key order with its wrapped text, up to the limit, and an
      ellipsis if there is more. No line is wider than the box. */
  method SplitUpExtraInfo(info: map<string, string>, maxLines: nat) returns (result: seq<string>)
    requires maxLines >= 1
    ensures info != map[] ==> Lists(info, maxLines, result)
    ensures result == [] <==> info == map[]
    ensures Narrow(result) && |result| <= maxLines + 1
    ensures result != [] ==> result[0] == Separator()
    ensures |result| == maxLines + 1 ==> result[maxLines] == "..."
  {
    if |info| == 0 {
      return [];
    }
    hide Shown, Shows, ShowsDetail, Inlined, IsCut;
    result := [Separator()];
    var keys := SortedKeys(info);
    NothingShown(info, keys, maxLines);
    var requiresPadding, wasInlined := false, false;
    ghost var blocks := [];
    for i := 0 to |keys|
      invariant Narrow(result) && |blocks| == i && Shown(info, keys, maxLines, blocks, result)
      invariant requiresPadding == (i > 0) && wasInlined == (i > 0 && Inlined(keys[i - 1], info[keys[i - 1]]))
    {
      ghost var block;
      result, wasInlined, block := NextDetail(info, keys, i, maxLines, result, requiresPadding, wasInlined, blocks);
      blocks := blocks + [block];
      requiresPadding := true;
    }
    ShownShape(info, keys, maxLines, blocks, result);
  }

  // The lines so far and one more detail's, cut off at the limit.
  method NextDetail(info: map<string, string>, keys: seq<string>, i: nat, maxLines: nat, before: seq<string>,
                    requiresPadding: bool, wasInlined: bool, ghost blocks: seq<seq<string>>)
    returns (result: seq<string>, isInlined: bool, ghost block: seq<string>)
    requires i < |keys| && |blocks| == i && Narrow(before) && Shown(info, keys, maxLines, blocks, before)
    requires keys[i] in info && (i > 0 ==> keys[i - 1] in info)
    requires requiresPadding == (i > 0) && wasInlined == (i > 0 && Inlined(keys[i - 1], info[keys[i - 1]]))
    ensures Narrow(result) && Shown(info, keys, maxLines, blocks + [block], result)
    ensures isInlined == Inlined(keys[i], info[keys[i]])
  {
    hide Shows, ShowsDetail, Inlined, IsCut;
    result, isInlined, block := AddDetail(keys[i], info[keys[i]], maxLines, before, requiresPadding, wasInlined);
    DetailShown(info, keys, i, maxLines, block);
    CutOff(result, maxLines);
    if |result| > maxLines {
      result := result[..maxLines] + ["..."];
    }
    OneMoreDetail(info, keys, maxLines, blocks, before, block, result);
  }

  lemma DetailShown(info: map<string, string>, keys: seq<string>, i: nat, maxLines: nat, block: seq<string>)
    requires i < |keys| && forall k :: k in keys ==> k in info
    requires var splits := Shorten(SplitLines(DetailText(keys[i], info[keys[i]])), maxLines);
             if i > 0 && !(Inlined(keys[i], info[keys[i]]) && Inlined(keys[i - 1], info[keys[i - 1]]))
             then block != [] && block[0] == "" && Shows(splits, block[1..]) else Shows(splits, block)
    ensures ShowsDetail(info, keys, i, maxLines, block)
  {
    hide Shows;
  }

  // One detail's lines after what there is, with a blank one between unless it and the
  // detail before are on one line each.
  method AddDetail(key: string, value: string, maxLines: nat, before: seq<string>, afterOther: bool, wasInlined: bool)
    returns (result: seq<string>, isInlined: bool, ghost block: seq<string>)
    requires Narrow(before)
    ensures Narrow(result) && result == before + block && isInlined == Inlined(key, value)
    ensures var splits := Shorten(SplitLines(DetailText(key, value)), maxLines);
            if afterOther && !(isInlined && wasInlined) then block != [] && block[0] == "" && Shows(splits, block[1..])
            else Shows(splits, block)
  {
    hide Shows, SplitLines, Trim;
    var text := Trim(value);
    isInlined := false;
    if text == "" {
      text := key;
    } else if '\n' !in text && |key| + |text| + 2 < NODE_RENDER_WIDTH - 7 {
      text := key + ": " + text;
      isInlined := true;
    } else {
      text := key + ":\n" + text;
    }
    var requiresPadding := afterOther && !(isInlined && wasInlined);
    result := before;
    if requiresPadding {
      result := result + [""];
    }
    ghost var start := result;
    result := SplitAll(Shorten(SplitLines(text), maxLines), result);
    block := result[|before|..];
    assert requiresPadding ==> block[0] == "" && block[1..] == result[|start|..];
  }

  // ---------------------------------------------------------------- fitting a line in its box

  // Text centred in its box, or cut to fit.
  function AdjustText(source: string, width: nat): (text: string)
    requires width >= 3
    ensures |text| == width
  {
    if |source| > width then source[..width - 3] + "..."
    else
      var total := width - |source|;
      Repeat(' ', total / 2 + total % 2) + source + Repeat(' ', total / 2)
  }

  /** Text is centred in exactly `width` columns, the odd space on the left; longer text
      loses its end to an ellipsis. */
  lemma AdjustTextCentres(source: string, width: nat)
    requires width >= 3
    ensures var text := AdjustText(source, width);
            if |source| > width then text[..width - 3] == source[..width - 3] && text[width - 3..] == "..."
            else
              var left := (width - |source| + 1) / 2;
              text[..left] == Repeat(' ', left) && text[left..left + |source|] == source
              && text[left + |source|..] == Repeat(' ', (width - |source|) / 2)
  {
    if |source| <= width {
      var total := width - |source|;
      assert total / 2 + total % 2 == (total + 1) / 2;
    }
  }
}
