/** Editing and reading keys of a `.env` file (investor_ops.py:821-837, env_layout.py:440-451). */
module EnvFile {
  import opened Common
  import opened EnvText

  datatype Assignment = Assignment(key: string, value: string)

  predicate HasRow(line: string) {
    var s := Strip(line);
    s != "" && s[0] != '#' && FindEquals(s) < |s|
  }

  function KeyOf(line: string): string
    requires HasRow(line)
  {
    var s := Strip(line);
    Strip(s[..FindEquals(s)])
  }

  function ValueOf(line: string): string
    requires HasRow(line)
  {
    var s := Strip(line);
    Strip(s[FindEquals(s) + 1..])
  }

  function Row(u: Assignment): string {
    u.key + "=" + u.value
  }

  // ---- Editing ----

  /** The dictionary of updates: each key once, in insertion order. */
  ghost predicate IsDictionary(updates: seq<Assignment>) {
    forall i, j :: 0 <= i < j < |updates| ==> updates[i].key != updates[j].key
  }

  function Lookup(updates: seq<Assignment>, key: string): Option<string> {
    if updates == [] then None
    else if updates[0].key == key then Some(updates[0].value)
    else Lookup(updates[1..], key)
  }

  predicate Matches(line: string, updates: seq<Assignment>) {
    HasRow(line) && Lookup(updates, KeyOf(line)).Some?
  }

  function Edited(line: string, updates: seq<Assignment>): string {
    if Matches(line, updates) then Row(Assignment(KeyOf(line), Lookup(updates, KeyOf(line)).value)) else line
  }

  function Seen(lines: seq<string>, updates: seq<Assignment>): set<string> {
    set line | line in lines && Matches(line, updates) :: KeyOf(line)
  }

  function EditedLines(lines: seq<string>, updates: seq<Assignment>): (out: seq<string>)
    ensures |out| == |lines| && forall k :: 0 <= k < |lines| ==> out[k] == Edited(lines[k], updates)
  {
    seq(|lines|, k requires 0 <= k < |lines| => Edited(lines[k], updates))
  }

  function Added(updates: seq<Assignment>, seen: set<string>): seq<string> {
    if updates == [] then []
    else if updates[0].key in seen then Added(updates[1..], seen)
    else [Row(updates[0])] + Added(updates[1..], seen)
  }

  function Updated(lines: seq<string>, updates: seq<Assignment>): seq<string> {
    EditedLines(lines, updates) + Added(updates, Seen(lines, updates))
  }

  function LinesOf(text: Option<string>): seq<string> {
    if text.Some? then SplitLines(text.value) else []
  }

  function TextAfter(text: Option<string>, updates: seq<Assignment>): string {
    JoinLines(Updated(LinesOf(text), updates)) + "\n"
  }

  /** `text` is what reading the file in text mode gives; None while there is no file. */
  class File {
    var text: Option<string>

    constructor (text: Option<string>)
      ensures this.text == text
    {
      this.text := text;
    }

    function Lines(): seq<string>
      reads this
    {
      LinesOf(text)
    }

    method UpdateEnvFile(updates: seq<Assignment>)
      modifies this
      ensures text == Some(TextAfter(old(text), updates))
    {
      hide HasRow, KeyOf, JoinLines, Seen, Added, EditedLines, Lookup;
      var lines := Lines();
      var seen: set<string> := {};
      var out: seq<string> := [];
      NothingSeen(updates);
      assert lines[..0] == [];
      for k := 0 to |lines|
        invariant out == EditedLines(lines[..k], updates)
        invariant seen == Seen(lines[..k], updates)
      {
        var line := lines[k];
        NextLine(lines, k, updates);
        if Matches(line, updates) {
          var key := KeyOf(line);
          out := out + [Row(Assignment(key, Lookup(updates, key).value))];
          seen := seen + {key};
          continue;
        }
        out := out + [line];
      }
      assert lines[..|lines|] == lines && updates[0..] == updates;
      for k := 0 to |updates|
        invariant Updated(lines, updates) == out + Added(updates[k..], seen)
      {
        NextUpdate(updates, k, seen);
        if updates[k].key !in seen {
          out := out + [Row(updates[k])];
        }
      }
      assert updates[|updates|..] == [];
      assert out == Updated(lines, updates);
      text := Some(JoinLines(out) + "\n");
    }

    method ReadEnvKey(key: string) returns (value: string)
      ensures value == ReadKey(Lines(), Strip(key))
    {
      hide HasRow, KeyOf, ValueOf;
      if text.None? {
        return "";
      }
      var target := Strip(key);
      var lines := SplitLines(text.value);
      for k := 0 to |lines|
        invariant ReadKey(lines, target) == ReadKey(lines[k..], target)
      {
        assert lines[k..][1..] == lines[k + 1..];
        if HasRow(lines[k]) && KeyOf(lines[k]) == target {
          return ValueOf(lines[k]);
        }
      }
      return "";
    }
  }

  lemma NothingSeen(updates: seq<Assignment>)
    ensures EditedLines([], updates) == [] && Seen([], updates) == {}
    ensures forall seen :: Added([], seen) == []
  {
  }

  lemma NextLine(lines: seq<string>, k: nat, updates: seq<Assignment>)
    requires k < |lines|
    ensures EditedLines(lines[..k + 1], updates) == EditedLines(lines[..k], updates) + [Edited(lines[k], updates)]
    ensures Seen(lines[..k + 1], updates) ==
            Seen(lines[..k], updates) + if Matches(lines[k], updates) then {KeyOf(lines[k])} else {}
  {
    hide HasRow, KeyOf, Edited, Lookup;
    assert lines[..k + 1] == lines[..k] + [lines[k]];
  }

  lemma NextUpdate(updates: seq<Assignment>, k: nat, seen: set<string>)
    requires k < |updates|
    ensures Added(updates[k..], seen) ==
            (if updates[k].key in seen then [] else [Row(updates[k])]) + Added(updates[k + 1..], seen)
  {
    assert updates[k..][1..] == updates[k + 1..];
  }

  /** The value of the first row of that key. */
  function ReadKey(lines: seq<string>, target: string): string {
    if lines == [] then ""
    else if HasRow(lines[0]) && KeyOf(lines[0]) == target then ValueOf(lines[0])
    else ReadKey(lines[1..], target)
  }

  // ---- Reading back what was written ----

  /** A key that can stand on a line of its own: trimmed, no "=", not a comment. */
  predicate WellFormed(u: Assignment) {
    && Trimmed(u.key) && (u.key != "" ==> u.key[0] != '#') && (forall k :: 0 <= k < |u.key| ==> u.key[k] != '=')
    && OneLine(u.key) && OneLine(u.value)
  }

  ghost predicate AllWellFormed(updates: seq<Assignment>) {
    forall k :: 0 <= k < |updates| ==> WellFormed(updates[k])
  }

  lemma RowReadsBack(u: Assignment)
    requires WellFormed(u)
    ensures HasRow(Row(u)) && KeyOf(Row(u)) == u.key && ValueOf(Row(u)) == Strip(u.value)
  {
    var row := Row(u);
    var start := u.key + "=";
    assert row == start + u.value && !Space('=');
    assert LeftStrip(row) == row;
    RightStripAfter(start, u.value);
    var rest := RightStrip(u.value);
    assert Strip(row) == u.key + "=" + rest;
    FindAfter(u.key, rest);
    assert Strip(row)[..|u.key|] == u.key && Strip(row)[|u.key| + 1..] == rest;
    assert Strip(u.key) == u.key;
    StripsCommute(u.value);
    RightStripTwice(LeftStrip(u.value));
  }

  /** A comment is no row: it is neither edited nor read, whatever stands in it. */
  lemma CommentsStay(line: string, updates: seq<Assignment>, key: string)
    requires Strip(line) != "" && Strip(line)[0] == '#'
    ensures Edited(line, updates) == line && ReadKey([line], key) == ""
  {
    assert [line][1..] == [];
  }

  lemma {:induction false} LookupExactly(updates: seq<Assignment>, key: string)
    ensures Lookup(updates, key).Some? <==> exists k :: 0 <= k < |updates| && updates[k].key == key
    ensures Lookup(updates, key).Some? ==> Assignment(key, Lookup(updates, key).value) in updates
  {
    if updates != [] && updates[0].key != key {
      LookupExactly(updates[1..], key);
      if k :| 0 <= k < |updates| && updates[k].key == key {
        assert updates[1..][k - 1].key == key;
      }
    }
  }

  /** An edited line has the same key as before, and the value of the update where there is one. */
  lemma EditedReads(line: string, updates: seq<Assignment>)
    requires AllWellFormed(updates)
    ensures HasRow(Edited(line, updates)) == HasRow(line)
    ensures HasRow(line) ==> KeyOf(Edited(line, updates)) == KeyOf(line)
    ensures Matches(line, updates) ==> ValueOf(Edited(line, updates)) == Strip(Lookup(updates, KeyOf(line)).value)
    ensures OneLine(line) ==> OneLine(Edited(line, updates))
  {
    hide HasRow, KeyOf, ValueOf;
    if Matches(line, updates) {
      LookupExactly(updates, KeyOf(line));
      RowReadsBack(Assignment(KeyOf(line), Lookup(updates, KeyOf(line)).value));
    }
  }

  ghost predicate HasKey(lines: seq<string>, key: string) {
    exists k :: 0 <= k < |lines| && HasRow(lines[k]) && KeyOf(lines[k]) == key
  }

  lemma {:induction false} ReadConcat(a: seq<string>, b: seq<string>, key: string)
    ensures ReadKey(a + b, key) == if HasKey(a, key) then ReadKey(a, key) else ReadKey(b, key)
  {
    hide HasRow, KeyOf, ValueOf;
    if a == [] {
      assert a + b == b;
    } else {
      assert (a + b)[1..] == a[1..] + b && (a + b)[0] == a[0];
      ReadConcat(a[1..], b, key);
      if HasKey(a[1..], key) {
        var k :| 0 <= k < |a[1..]| && HasRow(a[1..][k]) && KeyOf(a[1..][k]) == key;
        assert HasRow(a[k + 1]) && KeyOf(a[k + 1]) == key;
      } else if k :| 0 <= k < |a| && HasRow(a[k]) && KeyOf(a[k]) == key {
        assert k > 0 ==> HasRow(a[1..][k - 1]) && KeyOf(a[1..][k - 1]) == key;
      }
    }
  }

  lemma {:induction false} ReadAbsent(lines: seq<string>, key: string)
    requires !HasKey(lines, key)
    ensures ReadKey(lines, key) == ""
  {
    hide HasRow, KeyOf, ValueOf;
    if lines != [] {
      forall k | 0 <= k < |lines[1..]| && HasRow(lines[1..][k]) ensures KeyOf(lines[1..][k]) != key {
        assert HasRow(lines[k + 1]);
      }
      ReadAbsent(lines[1..], key);
    }
  }

  lemma {:induction false} ReadEdited(lines: seq<string>, updates: seq<Assignment>, key: string)
    requires AllWellFormed(updates)
    ensures var edited := EditedLines(lines, updates);
            && (HasKey(edited, key) <==> HasKey(lines, key))
            && ReadKey(edited, key) ==
               if HasKey(lines, key) && Lookup(updates, key).Some? then Strip(Lookup(updates, key).value) else ReadKey(lines, key)
  {
    hide HasRow, KeyOf, ValueOf, Edited, AllWellFormed;
    var edited := EditedLines(lines, updates);
    forall k | 0 <= k < |lines|
      ensures HasRow(edited[k]) == HasRow(lines[k]) && (HasRow(lines[k]) ==> KeyOf(edited[k]) == KeyOf(lines[k]))
    {
      EditedReads(lines[k], updates);
    }
    if lines != [] {
      ReadEdited(lines[1..], updates, key);
      assert edited[1..] == EditedLines(lines[1..], updates);
      EditedReads(lines[0], updates);
      assert HasKey(lines, key) <==> (HasRow(lines[0]) && KeyOf(lines[0]) == key) || HasKey(lines[1..], key) by {
        HasKeyTail(lines, key);
      }
      if HasRow(lines[0]) && KeyOf(lines[0]) == key && Lookup(updates, key).None? {
        UnmatchedStays(lines[0], updates);
      }
    }
  }

  lemma HasKeyTail(lines: seq<string>, key: string)
    requires lines != []
    ensures HasKey(lines, key) <==> (HasRow(lines[0]) && KeyOf(lines[0]) == key) || HasKey(lines[1..], key)
  {
    hide HasRow, KeyOf;
    assert lines == [lines[0]] + lines[1..];
    if k :| 0 <= k < |lines[1..]| && HasRow(lines[1..][k]) && KeyOf(lines[1..][k]) == key {
      assert HasRow(lines[k + 1]) && KeyOf(lines[k + 1]) == key;
    }
    if k :| 1 <= k < |lines| && HasRow(lines[k]) && KeyOf(lines[k]) == key {
      assert HasRow(lines[1..][k - 1]) && KeyOf(lines[1..][k - 1]) == key;
    }
  }

  lemma UnmatchedStays(line: string, updates: seq<Assignment>)
    requires !Matches(line, updates)
    ensures Edited(line, updates) == line
  {
  }

  lemma {:induction false} ReadAdded(updates: seq<Assignment>, seen: set<string>, key: string)
    requires AllWellFormed(updates)
    ensures var added := Added(updates, seen);
            && ReadKey(added, key) ==
               (if key !in seen && Lookup(updates, key).Some? then Strip(Lookup(updates, key).value) else "")
            && (key in seen || Lookup(updates, key).None? ==> !HasKey(added, key))
            && (forall k :: 0 <= k < |added| ==> OneLine(added[k]))
  {
    hide HasRow, KeyOf, ValueOf;
    if updates != [] {
      var u := updates[0];
      ReadAdded(updates[1..], seen, key);
      RowReadsBack(u);
      var added := Added(updates, seen);
      if u.key !in seen {
        assert added[1..] == Added(updates[1..], seen) && added[0] == Row(u);
        HasKeyTail(added, key);
      }
    }
  }

  lemma SeenExactly(lines: seq<string>, updates: seq<Assignment>, key: string)
    ensures key in Seen(lines, updates) <==> HasKey(lines, key) && Lookup(updates, key).Some?
  {
    hide HasRow, KeyOf;
    if k :| 0 <= k < |lines| && HasRow(lines[k]) && KeyOf(lines[k]) == key && Lookup(updates, key).Some? {
      assert lines[k] in lines && Matches(lines[k], updates);
    }
  }

  /** After an edit an updated key reads its new value, trimmed; any other key reads as before. */
  lemma UpdatedReads(lines: seq<string>, updates: seq<Assignment>, key: string)
    requires AllWellFormed(updates)
    ensures ReadKey(Updated(lines, updates), key) ==
            match Lookup(updates, key)
            case Some(value) => Strip(value)
            case None => ReadKey(lines, key)
  {
    hide HasRow, KeyOf, ValueOf, EditedLines, Added, Seen, HasKey;
    var seen := Seen(lines, updates);
    ReadConcat(EditedLines(lines, updates), Added(updates, seen), key);
    ReadEdited(lines, updates, key);
    ReadAdded(updates, seen, key);
    SeenExactly(lines, updates, key);
    if !HasKey(lines, key) {
      ReadAbsent(lines, key);
    }
  }

  /** Lines without an updated key survive verbatim and in place; new rows only follow them. */
  lemma OtherLinesSurvive(lines: seq<string>, updates: seq<Assignment>)
    ensures |Updated(lines, updates)| >= |lines|
    ensures forall k :: 0 <= k < |lines| && !Matches(lines[k], updates) ==> Updated(lines, updates)[k] == lines[k]
    ensures forall k :: 0 <= k < |lines| && Matches(lines[k], updates) ==>
              Updated(lines, updates)[k] == Row(Assignment(KeyOf(lines[k]), Lookup(updates, KeyOf(lines[k])).value))
    ensures forall k :: |lines| <= k < |Updated(lines, updates)| ==>
              IsNewRow(Updated(lines, updates)[k], updates, Seen(lines, updates))
  {
    hide HasRow, KeyOf;
    AddedAreRows(updates, Seen(lines, updates));
  }

  /** The row of an update whose key no earlier line had. */
  ghost predicate IsNewRow(line: string, updates: seq<Assignment>, seen: set<string>) {
    exists u :: u in updates && u.key !in seen && line == Row(u)
  }

  lemma {:induction false} AddedAreRows(updates: seq<Assignment>, seen: set<string>)
    ensures forall k :: 0 <= k < |Added(updates, seen)| ==> IsNewRow(Added(updates, seen)[k], updates, seen)
  {
    if updates != [] {
      AddedAreRows(updates[1..], seen);
      var added := Added(updates, seen);
      forall k | 0 <= k < |added| ensures IsNewRow(added[k], updates, seen) {
        if updates[0].key !in seen && k == 0 {
          assert updates[0] in updates && added[k] == Row(updates[0]);
        } else {
          var rest := Added(updates[1..], seen);
          var at := if updates[0].key in seen then k else k - 1;
          var u :| u in updates[1..] && u.key !in seen && rest[at] == Row(u);
          assert u in updates && added[k] == Row(u);
        }
      }
    }
  }

  // ---- Editing twice ----

  lemma RowStays(u: Assignment, updates: seq<Assignment>)
    requires AllWellFormed(updates) && Lookup(updates, u.key) == Some(u.value)
    ensures Matches(Row(u), updates) && Edited(Row(u), updates) == Row(u)
  {
    hide HasRow, KeyOf;
    LookupExactly(updates, u.key);
    RowReadsBack(u);
  }

  lemma {:induction false} LookupInDictionary(updates: seq<Assignment>, u: Assignment)
    requires IsDictionary(updates) && u in updates
    ensures Lookup(updates, u.key) == Some(u.value)
  {
    if updates[0] != u {
      LookupInDictionary(updates[1..], u);
    }
  }

  lemma EditedStays(line: string, updates: seq<Assignment>)
    requires AllWellFormed(updates)
    ensures Edited(Edited(line, updates), updates) == Edited(line, updates)
  {
    hide HasRow, KeyOf, Lookup;
    if Matches(line, updates) {
      RowStays(Assignment(KeyOf(line), Lookup(updates, KeyOf(line)).value), updates);
    }
  }

  lemma {:induction false} AllSeen(updates: seq<Assignment>, seen: set<string>)
    requires forall u :: u in updates ==> u.key in seen
    ensures Added(updates, seen) == []
  {
    if updates != [] {
      AllSeen(updates[1..], seen);
    }
  }

  lemma SeenAfter(lines: seq<string>, updates: seq<Assignment>, u: Assignment)
    requires AllWellFormed(updates) && IsDictionary(updates) && u in updates
    ensures u.key in Seen(Updated(lines, updates), updates)
  {
    hide HasRow, KeyOf, Added, Seen, EditedLines;
    LookupInDictionary(updates, u);
    SeenExactly(lines, updates, u.key);
    SeenExactly(Updated(lines, updates), updates, u.key);
    var edited, added := EditedLines(lines, updates), Added(updates, Seen(lines, updates));
    ReadEdited(lines, updates, u.key);
    if HasKey(edited, u.key) {
      var k :| 0 <= k < |edited| && HasRow(edited[k]) && KeyOf(edited[k]) == u.key;
      assert HasRow((edited + added)[k]) && KeyOf((edited + added)[k]) == u.key;
    } else {
      AddedHas(updates, Seen(lines, updates), u);
      var k :| 0 <= k < |added| && added[k] == Row(u);
      RowReadsBack(u);
      assert HasRow((edited + added)[|edited| + k]) && KeyOf((edited + added)[|edited| + k]) == u.key;
    }
  }

  lemma {:induction false} AddedHas(updates: seq<Assignment>, seen: set<string>, u: Assignment)
    requires u in updates && u.key !in seen
    ensures Row(u) in Added(updates, seen)
  {
    if updates[0] != u {
      AddedHas(updates[1..], seen, u);
    }
  }

  /** A second identical edit changes nothing. */
  lemma UpdateIsIdempotent(lines: seq<string>, updates: seq<Assignment>)
    requires AllWellFormed(updates) && IsDictionary(updates)
    ensures Updated(Updated(lines, updates), updates) == Updated(lines, updates)
  {
    hide HasRow, KeyOf, Edited, Added, Seen, Lookup, Row;
    var once := Updated(lines, updates);
    forall u | u in updates ensures u.key in Seen(once, updates) {
      SeenAfter(lines, updates, u);
    }
    AllSeen(updates, Seen(once, updates));
    AddedAreRows(updates, Seen(lines, updates));
    forall k | 0 <= k < |once| ensures Edited(once[k], updates) == once[k] {
      if k < |lines| {
        EditedStays(lines[k], updates);
      } else {
        assert once[k] == Added(updates, Seen(lines, updates))[k - |lines|];
        assert IsNewRow(once[k], updates, Seen(lines, updates));
        var u :| u in updates && u.key !in Seen(lines, updates) && once[k] == Row(u);
        LookupInDictionary(updates, u);
        RowStays(u, updates);
      }
    }
  }

  // ---- The file as a whole ----

  lemma UpdatedLinesAreSingle(text: Option<string>, updates: seq<Assignment>)
    requires AllWellFormed(updates)
    ensures forall k :: 0 <= k < |Updated(LinesOf(text), updates)| ==> OneLine(Updated(LinesOf(text), updates)[k])
  {
    hide HasRow, KeyOf, Edited, Added, Seen, OneLine, SplitLines;
    var lines := LinesOf(text);
    if text.Some? {
      SplitIsSingleLines(text.value);
    }
    ReadAdded(updates, Seen(lines, updates), "");
    forall k | 0 <= k < |lines| ensures OneLine(Edited(lines[k], updates)) {
      EditedReads(lines[k], updates);
    }
  }

  lemma RereadLines(text: Option<string>, updates: seq<Assignment>)
    requires AllWellFormed(updates)
    ensures var out := Updated(LinesOf(text), updates);
            LinesOf(Some(TextAfter(text, updates))) == if out == [] then [""] else out
  {
    hide Updated;
    UpdatedLinesAreSingle(text, updates);
    if Updated(LinesOf(text), updates) != [] {
      SplitUndoesJoin(Updated(LinesOf(text), updates));
    } else {
      EmptyFile();
    }
  }

  lemma EmptyFile()
    ensures SplitLines("\n") == [""] && JoinLines([]) + "\n" == "\n" && JoinLines([""]) + "\n" == "\n"
  {
    assert "\n"[1..] == "" && "\n"[..0] == "";
  }

  /**
   Through the file: after an edit an updated key reads its new value, trimmed, any other key reads
   as before, and the same edit again leaves every byte as it is.
   */
  lemma FileReadsBack(text: Option<string>, updates: seq<Assignment>, key: string)
    requires AllWellFormed(updates) && IsDictionary(updates)
    ensures var after := TextAfter(text, updates);
            && ReadKey(LinesOf(Some(after)), key) ==
               (match Lookup(updates, key)
                case Some(value) => Strip(value)
                case None => ReadKey(LinesOf(text), key))
            && TextAfter(Some(after), updates) == after
  {
    hide SplitLines, HasRow, KeyOf, ValueOf;
    var lines := LinesOf(text);
    var out := Updated(lines, updates);
    RereadLines(text, updates);
    UpdatedReads(lines, updates, key);
    if out == [] {
      NothingToDo(lines, updates);
      EmptyFile();
      EmptyLine();
    } else {
      UpdateIsIdempotent(lines, updates);
    }
  }

  lemma EmptyLine()
    ensures !HasRow("")
  {
  }

  lemma NothingToDo(lines: seq<string>, updates: seq<Assignment>)
    requires Updated(lines, updates) == []
    ensures lines == [] && updates == []
  {
    hide HasRow;
  }
}
