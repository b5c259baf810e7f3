/** The string operations of Python that the `.env` helpers use: strip, splitlines, join and split at the first "=". */
module EnvText {

  /** What str.strip() removes. */
  predicate Space(c: char) {
    || ('\t' <= c <= '\r') || ('\U{1c}' <= c <= ' ') || c == '\U{85}' || c == '\U{a0}' || c == '\U{1680}'
    || ('\U{2000}' <= c <= '\U{200a}') || c == '\U{2028}' || c == '\U{2029}' || c == '\U{202f}' || c == '\U{205f}' || c == '\U{3000}'
  }

  /** Where str.splitlines() ends a line. */
  predicate Break(c: char) {
    ('\n' <= c <= '\r') || ('\U{1c}' <= c <= '\U{1e}') || c == '\U{85}' || c == '\U{2028}' || c == '\U{2029}'
  }

  /** The ten characters that end a line. */
  lemma LineBreaksExactly(c: char)
    ensures Break(c) <==> c in "\n\U{b}\U{c}\r\U{1c}\U{1d}\U{1e}\U{85}\U{2028}\U{2029}"
  {
  }

  predicate OneLine(s: string) {
    forall k :: 0 <= k < |s| ==> !Break(s[k])
  }

  // ---- strip ----

  function LeftStrip(s: string): string {
    if s != "" && Space(s[0]) then LeftStrip(s[1..]) else s
  }

  function RightStrip(s: string): string {
    if s != "" && Space(s[|s| - 1]) then RightStrip(s[..|s| - 1]) else s
  }

  function Strip(s: string): string {
    RightStrip(LeftStrip(s))
  }

  predicate Trimmed(s: string) {
    s == "" || (!Space(s[0]) && !Space(s[|s| - 1]))
  }

  lemma {:induction false} RightStripAfter(a: string, b: string)
    requires a != "" && !Space(a[|a| - 1])
    ensures RightStrip(a + b) == a + RightStrip(b)
  {
    if b == "" {
      assert a + b == a;
    } else if Space(b[|b| - 1]) {
      RightStripAfter(a, b[..|b| - 1]);
      assert (a + b)[..|a + b| - 1] == a + b[..|b| - 1];
    }
  }

  lemma {:induction false} RightStripTwice(s: string)
    ensures RightStrip(RightStrip(s)) == RightStrip(s)
    ensures RightStrip(s) != "" ==> !Space(RightStrip(s)[|RightStrip(s)| - 1])
  {
    if s != "" && Space(s[|s| - 1]) {
      RightStripTwice(s[..|s| - 1]);
    }
  }

  lemma {:induction false} StripsCommute(s: string)
    ensures LeftStrip(RightStrip(s)) == RightStrip(LeftStrip(s))
    decreases |s|
  {
    if s == "" || !Space(s[0]) {
      if s != "" {
        RightStripAfter([s[0]], s[1..]);
        assert [s[0]] + s[1..] == s;
      }
    } else if RightStrip(s[1..]) == "" {
      AllSpace(s);
    } else {
      StripsCommute(s[1..]);
      RightStripBefore(s[0], s[1..]);
      assert [s[0]] + s[1..] == s;
      assert ([s[0]] + RightStrip(s[1..]))[1..] == RightStrip(s[1..]);
    }
  }

  lemma {:induction false} RightStripBefore(c: char, s: string)
    requires RightStrip(s) != ""
    ensures RightStrip([c] + s) == [c] + RightStrip(s)
  {
    if s != "" && Space(s[|s| - 1]) {
      RightStripBefore(c, s[..|s| - 1]);
      assert ([c] + s)[..|s|] == [c] + s[..|s| - 1];
    }
  }

  lemma {:induction false} AllSpace(s: string)
    requires s != "" && Space(s[0]) && RightStrip(s[1..]) == ""
    ensures RightStrip(s) == "" && RightStrip(LeftStrip(s)) == ""
    decreases |s|
  {
    if |s| == 1 {
      assert s[..0] == "" && s[1..] == "";
    } else {
      assert Space(s[1..][|s| - 2]) && s[1..][..|s| - 2] == s[..|s| - 1][1..];
      AllSpace(s[..|s| - 1]);
      EmptyRightStrip(s[1..]);
    }
  }

  /** A string that strips to nothing from the right does so from the left. */
  lemma {:induction false} EmptyRightStrip(s: string)
    requires RightStrip(s) == ""
    ensures LeftStrip(s) == "" && forall k :: 0 <= k < |s| ==> Space(s[k])
  {
    AllSpaces(s);
    LeftStripSpaces(s);
  }

  lemma {:induction false} AllSpaces(s: string)
    requires RightStrip(s) == ""
    ensures forall k :: 0 <= k < |s| ==> Space(s[k])
  {
    if s != "" {
      AllSpaces(s[..|s| - 1]);
    }
  }

  lemma {:induction false} LeftStripSpaces(s: string)
    requires forall k :: 0 <= k < |s| ==> Space(s[k])
    ensures LeftStrip(s) == ""
  {
    if s != "" {
      LeftStripSpaces(s[1..]);
    }
  }

  predicate Blank(s: string) {
    forall k :: 0 <= k < |s| ==> Space(s[k])
  }

  lemma {:induction false} LeftStripParts(s: string) returns (before: string)
    ensures s == before + LeftStrip(s) && Blank(before)
    ensures LeftStrip(s) != "" ==> !Space(LeftStrip(s)[0])
  {
    if s != "" && Space(s[0]) {
      var rest := LeftStripParts(s[1..]);
      before := [s[0]] + rest;
    } else {
      before := "";
    }
  }

  lemma {:induction false} RightStripParts(s: string) returns (after: string)
    ensures s == RightStrip(s) + after && Blank(after)
    ensures RightStrip(s) != "" ==> !Space(RightStrip(s)[|RightStrip(s)| - 1])
  {
    if s != "" && Space(s[|s| - 1]) {
      var rest := RightStripParts(s[..|s| - 1]);
      after := rest + [s[|s| - 1]];
    } else {
      after := "";
    }
  }

  /** Stripping takes off white space alone, and all of it at both ends; every line break is white space. */
  lemma StripExactly(s: string) returns (before: string, after: string)
    ensures s == before + Strip(s) + after && Blank(before) && Blank(after) && Trimmed(Strip(s))
    ensures forall c :: Break(c) ==> Space(c)
  {
    before := LeftStripParts(s);
    after := RightStripParts(LeftStrip(s));
    hide LeftStrip, RightStrip;
    if Strip(s) != "" {
      assert LeftStrip(s)[0] == Strip(s)[0];
    }
  }

  // ---- splitting a line at its first "=" ----

  function FindEquals(s: string): (at: nat)
    ensures at <= |s|
  {
    if s == "" || s[0] == '=' then 0 else 1 + FindEquals(s[1..])
  }

  lemma {:induction false} FindAfter(key: string, rest: string)
    requires forall k :: 0 <= k < |key| ==> key[k] != '='
    ensures FindEquals(key + "=" + rest) == |key|
  {
    var s := key + "=" + rest;
    if key != "" {
      FindAfter(key[1..], rest);
      assert s[1..] == key[1..] + "=" + rest;
    }
  }

  // ---- splitlines and join ----

  function FirstBreak(s: string): (at: nat)
    ensures at <= |s|
  {
    if s == "" || Break(s[0]) then 0 else 1 + FirstBreak(s[1..])
  }

  function SplitLines(s: string): seq<string>
    decreases |s|
  {
    if s == "" then []
    else
      var at := FirstBreak(s);
      if at == |s| then [s]
      else
        var next := if s[at] == '\r' && at + 1 < |s| && s[at + 1] == '\n' then at + 2 else at + 1;
        [s[..at]] + SplitLines(s[next..])
  }

  function JoinLines(lines: seq<string>): string {
    if lines == [] then ""
    else if |lines| == 1 then lines[0]
    else lines[0] + "\n" + JoinLines(lines[1..])
  }

  lemma {:induction false} FirstBreakAt(line: string, rest: string)
    requires OneLine(line)
    ensures FirstBreak(line + "\n" + rest) == |line| && FirstBreak(line) == |line|
  {
    var s := line + "\n" + rest;
    if line != "" {
      FirstBreakAt(line[1..], rest);
      assert s[1..] == line[1..] + "\n" + rest;
    }
  }

  lemma {:induction false} NoBreakBefore(s: string)
    ensures OneLine(s[..FirstBreak(s)])
  {
    if s != "" && !Break(s[0]) {
      NoBreakBefore(s[1..]);
      assert s[..FirstBreak(s)] == [s[0]] + s[1..][..FirstBreak(s[1..])];
    }
  }

  /** Splitting yields single lines, and splitting what was joined and ended gives the lines back. */
  lemma {:induction false} SplitIsSingleLines(s: string)
    ensures forall k :: 0 <= k < |SplitLines(s)| ==> OneLine(SplitLines(s)[k])
    decreases |s|
  {
    if s != "" {
      var at := FirstBreak(s);
      NoBreakBefore(s);
      if at == |s| {
        assert s[..at] == s;
      } else {
        SplitIsSingleLines(s[if s[at] == '\r' && at + 1 < |s| && s[at + 1] == '\n' then at + 2 else at + 1..]);
      }
    }
  }

  lemma {:induction false} SplitUndoesJoin(lines: seq<string>)
    requires lines != [] && forall k :: 0 <= k < |lines| ==> OneLine(lines[k])
    ensures SplitLines(JoinLines(lines) + "\n") == lines
  {
    if |lines| == 1 {
      FirstBreakAt(lines[0], "");
      var s := lines[0] + "\n";
      assert s == lines[0] + "\n" + "";
      assert s[|lines[0]| + 1..] == "" && s[..|lines[0]|] == lines[0];
    } else {
      var rest := JoinLines(lines[1..]) + "\n";
      SplitUndoesJoin(lines[1..]);
      var s := JoinLines(lines) + "\n";
      assert s == lines[0] + "\n" + rest;
      FirstBreakAt(lines[0], rest);
      assert s[|lines[0]| + 1..] == rest && s[..|lines[0]|] == lines[0];
    }
  }
}
