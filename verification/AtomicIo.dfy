/**
 Crash-safe file replacement and durable appends (atomic_io.py) over a small file system.

 A crash brings the directory back as it stood at some moment since its last fsync, and each
 file, independently, with some content it had since its own last fsync; an unsynced write may
 survive as any prefix. The rename is the atomic rename() of POSIX.1-2017.
 */
module AtomicIo {
  import opened Common

  type Inode = nat
  type Directory = map<string, Inode>

  /** `survivors`: the contents a crash may leave. */
  datatype File = File(content: string, survivors: set<string>)

  /** `survivors`: the directories a crash may leave. */
  datatype Fs = Fs(files: map<Inode, File>, names: Directory, survivors: set<Directory>, next: Inode)

  ghost predicate WellFormed(fs: Fs) {
    && (forall i :: i in fs.files ==> i < fs.next && fs.files[i].content in fs.files[i].survivors)
    && fs.names in fs.survivors
    && (forall d, name :: d in fs.survivors && name in d ==> d[name] in fs.files)
  }

  predicate Exists(fs: Fs, name: string) {
    name in fs.names
  }

  // ---- System calls ----

  function Renamed(fs: Fs, names: Directory): Fs {
    fs.(names := names, survivors := fs.survivors + {names})
  }

  function Created(fs: Fs, name: string): Fs {
    Renamed(fs.(files := fs.files[fs.next := File("", {""})], next := fs.next + 1), fs.names[name := fs.next])
  }

  /** Opening for writing empties an existing file. */
  function OpenTruncate(fs: Fs, name: string): Fs {
    if name in fs.names && fs.names[name] in fs.files
    then fs.(files := fs.files[fs.names[name] := File("", fs.files[fs.names[name]].survivors + {""})])
    else Created(fs, name)
  }

  function OpenAppend(fs: Fs, name: string): Fs {
    if Exists(fs, name) then fs else Created(fs, name)
  }

  function Prefixes(text: string): set<string> {
    set k | 0 <= k <= |text| :: text[..k]
  }

  function Write(fs: Fs, i: Inode, text: string): Fs {
    if i !in fs.files then fs
    else
      var before := fs.files[i].content;
      fs.(files := fs.files[i := File(before + text, fs.files[i].survivors + set p | p in Prefixes(text) :: before + p)])
  }

  function Fsync(fs: Fs, i: Inode): Fs {
    if i !in fs.files then fs
    else fs.(files := fs.files[i := File(fs.files[i].content, {fs.files[i].content})])
  }

  function Replace(fs: Fs, from: string, to: string): Fs {
    if from !in fs.names then fs
    else Renamed(fs, fs.names[to := fs.names[from]] - {from})
  }

  function Unlink(fs: Fs, name: string): Fs {
    Renamed(fs, fs.names - {name})
  }

  function FsyncDirectory(fs: Fs, supported: bool): Fs {
    if supported then fs.(survivors := {fs.names}) else fs
  }

  // ---- Reading, and coming back from a crash ----

  function ReadIn(fs: Fs, names: Directory, name: string): Option<string> {
    if name in names && names[name] in fs.files then Some(fs.files[names[name]].content) else None
  }

  function Read(fs: Fs, name: string): Option<string> {
    ReadIn(fs, fs.names, name)
  }

  /** What a crash leaves: a surviving directory and one surviving content for every file. */
  datatype Remains = Remains(names: Directory, contents: map<Inode, string>)

  ghost predicate MayRemain(fs: Fs, remains: Remains) {
    && remains.names in fs.survivors
    && remains.contents.Keys == fs.files.Keys
    && (forall i :: i in fs.files ==> remains.contents[i] in fs.files[i].survivors)
  }

  function Recovered(fs: Fs, remains: Remains): Fs {
    Fs(map i | i in remains.contents :: File(remains.contents[i], {remains.contents[i]}), remains.names, {remains.names}, fs.next)
  }

  // ---- The replacing write ----

  /** Where the write meets an error, if anywhere. */
  datatype Fault = NoFault | OpenFails | WriteFails(written: nat) | FsyncFails | ReplaceFails

  datatype Attempt = Attempt(text: string, fault: Fault, unlinkFails: bool, dirSynced: bool)

  function Handle(fs: Fs, name: string): Inode {
    if name in fs.names then fs.names[name] else 0
  }

  function Filled(fs: Fs, tmp: string, text: string): Fs {
    Write(OpenTruncate(fs, tmp), Handle(OpenTruncate(fs, tmp), tmp), text)
  }

  function Synced(fs: Fs, tmp: string, text: string): Fs {
    Fsync(Filled(fs, tmp, text), Handle(OpenTruncate(fs, tmp), tmp))
  }

  function CleanedUp(fs: Fs, tmp: string, unlinkFails: bool): Fs {
    if Exists(fs, tmp) && !unlinkFails then Unlink(fs, tmp) else fs
  }

  function Written(text: string, k: nat): string {
    if k <= |text| then text[..k] else text
  }

  /** Every state the disk passes through, from the call to its return. */
  function ReplaceTrace(fs: Fs, target: string, tmp: string, a: Attempt): (trace: seq<Fs>)
    ensures |trace| > 0
  {
    var begun := OpenTruncate(fs, tmp);
    var filled := Filled(fs, tmp, a.text);
    var synced := Synced(fs, tmp, a.text);
    match a.fault
    case OpenFails => [fs, CleanedUp(fs, tmp, a.unlinkFails)]
    case WriteFails(k) =>
      var partial := Filled(fs, tmp, Written(a.text, k));
      [fs, begun, partial, CleanedUp(partial, tmp, a.unlinkFails)]
    case FsyncFails => [fs, begun, filled, CleanedUp(filled, tmp, a.unlinkFails)]
    case ReplaceFails => [fs, begun, filled, synced, CleanedUp(synced, tmp, a.unlinkFails)]
    case NoFault =>
      var replaced := Replace(synced, tmp, target);
      [fs, begun, filled, synced, replaced, FsyncDirectory(replaced, a.dirSynced)]
  }

  function Last(trace: seq<Fs>): Fs
    requires trace != []
  {
    trace[|trace| - 1]
  }

  function AppendTrace(fs: Fs, target: string, a: Attempt): (trace: seq<Fs>)
    ensures |trace| > 0
  {
    var begun := OpenAppend(fs, target);
    var i := Handle(begun, target);
    match a.fault
    case OpenFails => [fs]
    case WriteFails(k) => [fs, begun, Write(begun, i, Written(a.text, k))]
    case FsyncFails => [fs, begun, Write(begun, i, a.text)]
    case _ =>
      var synced := Fsync(Write(begun, i, a.text), i);
      [fs, begun, Write(begun, i, a.text), synced] + if Exists(fs, target) then [] else [FsyncDirectory(synced, a.dirSynced)]
  }

  /** The disk as the program changes it; `trace` records every state a crash could strike. */
  class Disk {
    var fs: Fs
    ghost var trace: seq<Fs>

    constructor (fs: Fs)
      ensures this.fs == fs && trace == [fs]
    {
      this.fs := fs;
      trace := [fs];
    }

    method Apply(after: Fs)
      modifies this
      ensures fs == after && trace == old(trace) + [after]
    {
      fs := after;
      trace := trace + [after];
    }

    method CleanUp(tmp: string, unlinkFails: bool)
      modifies this
      ensures fs == CleanedUp(old(fs), tmp, unlinkFails) && trace == old(trace) + [fs]
    {
      var after := fs;
      if Exists(fs, tmp) && !unlinkFails {
        after := Unlink(fs, tmp);
      }
      Apply(after);
    }

    /** False stands for the re-raised exception. */
    method AtomicWriteText(target: string, tmp: string, a: Attempt) returns (written: bool)
      requires trace == [fs]
      modifies this
      ensures written == a.fault.NoFault?
      ensures trace == ReplaceTrace(old(fs), target, tmp, a) && fs == Last(trace)
    {
      if a.fault.OpenFails? {
        CleanUp(tmp, a.unlinkFails);
        return false;
      }
      Apply(OpenTruncate(fs, tmp));
      var handle := Handle(fs, tmp);
      if a.fault.WriteFails? {
        Apply(Write(fs, handle, Written(a.text, a.fault.written)));
        CleanUp(tmp, a.unlinkFails);
        return false;
      }
      Apply(Write(fs, handle, a.text));
      if a.fault.FsyncFails? {
        CleanUp(tmp, a.unlinkFails);
        return false;
      }
      Apply(Fsync(fs, handle));
      if a.fault.ReplaceFails? {
        CleanUp(tmp, a.unlinkFails);
        return false;
      }
      Apply(Replace(fs, tmp, target));
      Apply(FsyncDirectory(fs, a.dirSynced));
      return true;
    }

    /** False stands for the exception, which nothing here catches. */
    method DurableAppendText(target: string, a: Attempt) returns (written: bool)
      requires trace == [fs]
      modifies this
      ensures written == (a.fault.NoFault? || a.fault.ReplaceFails?)
      ensures trace == AppendTrace(old(fs), target, a) && fs == Last(trace)
    {
      var existed := Exists(fs, target);
      if a.fault.OpenFails? {
        return false;
      }
      Apply(OpenAppend(fs, target));
      var handle := Handle(fs, target);
      if a.fault.WriteFails? {
        Apply(Write(fs, handle, Written(a.text, a.fault.written)));
        return false;
      }
      Apply(Write(fs, handle, a.text));
      if a.fault.FsyncFails? {
        return false;
      }
      Apply(Fsync(fs, handle));
      if !existed {
        Apply(FsyncDirectory(fs, a.dirSynced));
      }
      return true;
    }
  }

  // ---- Only whole versions ----

  /** Whatever the target may lead to is synced, is one of `versions`, and is not the temp file. */
  ghost predicate Whole(fs: Fs, target: string, tmp: string, versions: set<Option<string>>) {
    && WellFormed(fs) && target != tmp
    && (forall d :: d in fs.survivors ==> WholeIn(fs, d, target, tmp, versions))
  }

  ghost predicate WholeIn(fs: Fs, d: Directory, target: string, tmp: string, versions: set<Option<string>>) {
    && ReadIn(fs, d, target) in versions
    && (target in d && d[target] in fs.files ==>
          && fs.files[d[target]].survivors == {fs.files[d[target]].content}
          && (tmp in fs.names ==> fs.names[tmp] != d[target])
          && (tmp in d ==> d[tmp] != d[target]))
  }

  lemma BegunStaysWhole(fs: Fs, target: string, tmp: string, versions: set<Option<string>>)
    requires Whole(fs, target, tmp, versions)
    ensures var begun := OpenTruncate(fs, tmp);
            && Whole(begun, target, tmp, versions) && Read(begun, target) == Read(fs, target)
            && Read(begun, tmp) == Some("")
  {
  }

  lemma WriteStaysWhole(fs: Fs, target: string, tmp: string, text: string, versions: set<Option<string>>)
    requires Whole(fs, target, tmp, versions) && Read(fs, tmp) == Some("")
    ensures var filled := Write(fs, Handle(fs, tmp), text);
            && Whole(filled, target, tmp, versions) && Read(filled, target) == Read(fs, target)
            && Read(filled, tmp) == Some(text) && filled.names == fs.names
            && (forall k | 0 <= k <= |text| :: text[..k] in filled.files[fs.names[tmp]].survivors)
  {
    var filled := Write(fs, Handle(fs, tmp), text);
    assert text in Prefixes(text) by {
      assert text == text[..|text|];
    }
    assert "" + text == text;
    forall k | 0 <= k <= |text| ensures text[..k] in filled.files[fs.names[tmp]].survivors {
      assert text[..k] in Prefixes(text) && text[..k] == "" + text[..k];
    }
  }

  lemma FsyncStaysWhole(fs: Fs, target: string, tmp: string, text: string, versions: set<Option<string>>)
    requires Whole(fs, target, tmp, versions) && Read(fs, tmp) == Some(text)
    ensures var synced := Fsync(fs, Handle(fs, tmp));
            && Whole(synced, target, tmp, versions) && Read(synced, target) == Read(fs, target)
            && Read(synced, tmp) == Some(text) && synced.names == fs.names
            && synced.files[fs.names[tmp]].survivors == {text}
  {
  }

  lemma ReplaceStaysWhole(fs: Fs, target: string, tmp: string, text: string, versions: set<Option<string>>)
    requires Whole(fs, target, tmp, versions) && Read(fs, tmp) == Some(text)
    requires fs.files[fs.names[tmp]].survivors == {text}
    ensures var replaced := Replace(fs, tmp, target);
            && Whole(replaced, target, tmp, versions + {Some(text)}) && Read(replaced, target) == Some(text)
            && Whole(FsyncDirectory(replaced, true), target, tmp, {Some(text)})
  {
  }

  lemma CleanUpStaysWhole(fs: Fs, target: string, tmp: string, unlinkFails: bool, versions: set<Option<string>>)
    requires Whole(fs, target, tmp, versions)
    ensures var after := CleanedUp(fs, tmp, unlinkFails);
            Whole(after, target, tmp, versions) && Read(after, target) == Read(fs, target)
  {
  }

  lemma RecoveredStaysWhole(fs: Fs, target: string, tmp: string, versions: set<Option<string>>, remains: Remains)
    requires Whole(fs, target, tmp, versions) && MayRemain(fs, remains)
    ensures Whole(Recovered(fs, remains), target, tmp, versions)
    ensures Read(Recovered(fs, remains), target) in versions
  {
  }

  /** The versions a crash may bring back once the call is over. */
  function Possible(versions: set<Option<string>>, a: Attempt): set<Option<string>> {
    if !a.fault.NoFault? then versions
    else if a.dirSynced then {Some(a.text)}
    else versions + {Some(a.text)}
  }

  lemma MoreVersions(fs: Fs, target: string, tmp: string, fewer: set<Option<string>>, more: set<Option<string>>)
    requires Whole(fs, target, tmp, fewer) && fewer <= more
    ensures Whole(fs, target, tmp, more)
  {
  }

  /** An attempt that fails leaves no trace on the target. */
  lemma FailedReplaceKeepsTarget(fs: Fs, target: string, tmp: string, a: Attempt, versions: set<Option<string>>)
    requires Whole(fs, target, tmp, versions) && !a.fault.NoFault?
    ensures var trace := ReplaceTrace(fs, target, tmp, a);
            && (forall n :: 0 <= n < |trace| ==> Whole(trace[n], target, tmp, versions))
            && Read(Last(trace), target) == Read(fs, target)
  {
    hide OpenTruncate, Write, Fsync, CleanedUp, Handle, Whole, Read;
    var begun := OpenTruncate(fs, tmp);
    CleanUpStaysWhole(fs, target, tmp, a.unlinkFails, versions);
    BegunStaysWhole(fs, target, tmp, versions);
    var text := if a.fault.WriteFails? then Written(a.text, a.fault.written) else a.text;
    WriteStaysWhole(begun, target, tmp, text, versions);
    var filled := Write(begun, Handle(begun, tmp), text);
    CleanUpStaysWhole(filled, target, tmp, a.unlinkFails, versions);
    SyncedStaysWhole(fs, target, tmp, a.text, versions);
    CleanUpStaysWhole(Synced(fs, tmp, a.text), target, tmp, a.unlinkFails, versions);
  }

  lemma BegunNames(fs: Fs, tmp: string)
    ensures var begun := OpenTruncate(fs, tmp); begun.names.Keys == fs.names.Keys + {tmp}
    ensures forall name :: name != tmp && name in fs.names ==> OpenTruncate(fs, tmp).names[name] == fs.names[name]
  {
  }

  lemma FilledNames(fs: Fs, tmp: string, text: string)
    ensures Filled(fs, tmp, text).names == OpenTruncate(fs, tmp).names == Synced(fs, tmp, text).names
  {
    hide OpenTruncate, Handle;
  }

  /**
   A finished write leaves its temporary file behind exactly when it failed, had one and could not
   remove it; no name but the target's and the temporary one is touched.
   */
  lemma TempFileLeftExactly(fs: Fs, target: string, tmp: string, a: Attempt)
    requires target != tmp
    ensures var end := Last(ReplaceTrace(fs, target, tmp, a)).names;
            && (tmp in end <==> !a.fault.NoFault? && a.unlinkFails && (Exists(fs, tmp) || !a.fault.OpenFails?))
            && (target in end <==> a.fault.NoFault? || target in fs.names)
            && (forall name :: name != target && name != tmp ==> (name in end <==> name in fs.names))
            && (forall name :: name != target && name != tmp && name in end ==> end[name] == fs.names[name])
  {
    hide OpenTruncate, Filled, Synced;
    BegunNames(fs, tmp);
    FilledNames(fs, tmp, a.text);
    if a.fault.WriteFails? {
      FilledNames(fs, tmp, Written(a.text, a.fault.written));
    }
  }

  lemma SyncedStaysWhole(fs: Fs, target: string, tmp: string, text: string, versions: set<Option<string>>)
    requires Whole(fs, target, tmp, versions)
    ensures var synced := Synced(fs, tmp, text);
            && Whole(synced, target, tmp, versions) && Read(synced, target) == Read(fs, target)
            && Read(synced, tmp) == Some(text) && synced.files[synced.names[tmp]].survivors == {text}
  {
    hide OpenTruncate, Write, Fsync, Whole;
    var begun := OpenTruncate(fs, tmp);
    BegunStaysWhole(fs, target, tmp, versions);
    WriteStaysWhole(begun, target, tmp, text, versions);
    FsyncStaysWhole(Filled(fs, tmp, text), target, tmp, text, versions);
  }

  /** The call as a whole: whole versions in every state on the way, and the promised text at the end. */
  lemma ReplaceIsAtomic(fs: Fs, target: string, tmp: string, a: Attempt, versions: set<Option<string>>)
    requires Whole(fs, target, tmp, versions)
    ensures var trace := ReplaceTrace(fs, target, tmp, a);
            && (forall n :: 0 <= n < |trace| ==> Whole(trace[n], target, tmp, versions + {Some(a.text)}))
            && Whole(Last(trace), target, tmp, Possible(versions, a))
            && Read(Last(trace), target) == if a.fault.NoFault? then Some(a.text) else Read(fs, target)
  {
    hide OpenTruncate, Write, Fsync, CleanedUp, Handle, Whole, Read, Replace, Filled, Synced;
    var more := versions + {Some(a.text)};
    var trace := ReplaceTrace(fs, target, tmp, a);
    MoreVersions(fs, target, tmp, versions, more);
    if !a.fault.NoFault? {
      FailedReplaceKeepsTarget(fs, target, tmp, a, versions);
      FailedReplaceKeepsTarget(fs, target, tmp, a, more);
    } else {
      BegunStaysWhole(fs, target, tmp, more);
      FilledStaysWhole(fs, target, tmp, a.text, more);
      SyncedStaysWhole(fs, target, tmp, a.text, versions);
      var synced := Synced(fs, tmp, a.text);
      MoreVersions(synced, target, tmp, versions, more);
      ReplaceStaysWhole(synced, target, tmp, a.text, versions);
      var replaced := Replace(synced, tmp, target);
      DirectorySyncKeepsRead(replaced, target);
      MoreVersions(FsyncDirectory(replaced, true), target, tmp, {Some(a.text)}, more);
    }
  }

  lemma DirectorySyncKeepsRead(fs: Fs, name: string)
    ensures forall supported :: Read(FsyncDirectory(fs, supported), name) == Read(fs, name)
  {
  }

  lemma FilledStaysWhole(fs: Fs, target: string, tmp: string, text: string, versions: set<Option<string>>)
    requires Whole(fs, target, tmp, versions)
    ensures Whole(Filled(fs, tmp, text), target, tmp, versions)
    ensures Read(Filled(fs, tmp, text), tmp) == Some(text)
  {
    hide OpenTruncate, Write, Whole;
    BegunStaysWhole(fs, target, tmp, versions);
    WriteStaysWhole(OpenTruncate(fs, tmp), target, tmp, text, versions);
  }

  /** Without the file fsync, a crash after the rename may leave any prefix, down to an empty file. */
  lemma WithoutFsyncAnyPrefixSurvives(fs: Fs, target: string, tmp: string, text: string, versions: set<Option<string>>, k: nat)
    requires Whole(fs, target, tmp, versions) && k <= |text|
    ensures var replaced := Replace(Filled(fs, tmp, text), tmp, target);
            exists remains ::
              MayRemain(replaced, remains) && Read(Recovered(replaced, remains), target) == Some(text[..k])
  {
    var begun := OpenTruncate(fs, tmp);
    var filled := Filled(fs, tmp, text);
    var i := Handle(begun, tmp);
    BegunStaysWhole(fs, target, tmp, versions);
    WriteStaysWhole(begun, target, tmp, text, versions);
    var replaced := Replace(filled, tmp, target);
    var contents := map j | j in replaced.files :: if j == i then text[..k] else replaced.files[j].content;
    var remains := Remains(replaced.names, contents);
    assert WellFormed(filled) && replaced.files == filled.files;
    assert MayRemain(replaced, remains);
    assert Read(Recovered(replaced, remains), target) == Some(text[..k]);
  }

  // ---- Whole runs of writes and crashes ----

  /** A write attempt, cut off by a crash in state `at` of its trace when it is there. */
  datatype Event =
    | Completed(a: Attempt)
    | Crashed(a: Attempt, at: nat, remains: Remains)

  ghost predicate Possibly(fs: Fs, target: string, tmp: string, e: Event) {
    match e
    case Completed(_) => true
    case Crashed(a, at, remains) =>
      at < |ReplaceTrace(fs, target, tmp, a)| && MayRemain(ReplaceTrace(fs, target, tmp, a)[at], remains)
  }

  ghost function After(fs: Fs, target: string, tmp: string, e: Event): Fs
    requires Possibly(fs, target, tmp, e)
  {
    match e
    case Completed(a) => Last(ReplaceTrace(fs, target, tmp, a))
    case Crashed(a, at, remains) => Recovered(ReplaceTrace(fs, target, tmp, a)[at], remains)
  }

  ghost predicate Run(fs: Fs, target: string, tmp: string, events: seq<Event>, end: Fs)
    decreases |events|
  {
    if events == [] then end == fs
    else Possibly(fs, target, tmp, events[0]) && Run(After(fs, target, tmp, events[0]), target, tmp, events[1..], end)
  }

  /** What the target may hold after a run: what the last durable write left, or any later attempt. */
  function Outcomes(versions: set<Option<string>>, events: seq<Event>): set<Option<string>>
    decreases |events|
  {
    if events == [] then versions
    else
      match events[0]
      case Completed(a) => Outcomes(Possible(versions, a), events[1..])
      case Crashed(a, _, _) => Outcomes(versions + {Some(a.text)}, events[1..])
  }

  /** Through any writes, faults and crashes, the target is always exactly one of the texts written whole. */
  lemma {:induction false} RunsLeaveWholeVersions(
    fs: Fs, target: string, tmp: string, events: seq<Event>, end: Fs, versions: set<Option<string>>)
    requires Whole(fs, target, tmp, versions) && Run(fs, target, tmp, events, end)
    ensures Whole(end, target, tmp, Outcomes(versions, events)) && Read(end, target) in Outcomes(versions, events)
    ensures forall remains :: MayRemain(end, remains) ==>
              Read(Recovered(end, remains), target) in Outcomes(versions, events)
    decreases |events|
  {
    hide ReplaceTrace;
    if events == [] {
      forall remains | MayRemain(end, remains) ensures Read(Recovered(end, remains), target) in versions {
        RecoveredStaysWhole(end, target, tmp, versions, remains);
      }
    } else {
      var e := events[0];
      ReplaceIsAtomic(fs, target, tmp, e.a, versions);
      if e.Crashed? {
        var more := versions + {Some(e.a.text)};
        RecoveredStaysWhole(ReplaceTrace(fs, target, tmp, e.a)[e.at], target, tmp, more, e.remains);
      }
      RunsLeaveWholeVersions(After(fs, target, tmp, e), target, tmp, events[1..], end,
        if e.Completed? then Possible(versions, e.a) else versions + {Some(e.a.text)});
    }
  }

  // ---- Appends ----

  predicate StartsWith(text: string, start: string) {
    |start| <= |text| && text[..|start|] == start
  }

  /** Every content the target may have, now or after a crash, begins with `start`. */
  ghost predicate Keeps(fs: Fs, target: string, start: string) {
    && WellFormed(fs)
    && (forall d :: d in fs.survivors ==>
          target in d && forall text :: text in fs.files[d[target]].survivors ==> StartsWith(text, start))
  }

  lemma WriteKeepsStart(fs: Fs, target: string, i: Inode, start: string, text: string)
    requires Keeps(fs, target, start)
    ensures Keeps(Write(fs, i, text), target, start) && Keeps(Fsync(fs, i), target, start)
    ensures Write(fs, i, text).names == fs.names && Fsync(fs, i).names == fs.names
  {
    var after := Write(fs, i, text);
    if i in fs.files {
      var before := fs.files[i].content;
      assert text in Prefixes(text) by {
        assert text == text[..|text|];
      }
      forall d, t | d in fs.survivors && t in after.files[d[target]].survivors ensures StartsWith(t, start) {
        if t !in fs.files[d[target]].survivors {
          assert before in fs.files[i].survivors;
        }
      }
    }
  }

  /** An append, however it ends and wherever a crash strikes, loses no byte that was already durable. */
  lemma AppendLosesNothing(fs: Fs, target: string, a: Attempt, start: string)
    requires Keeps(fs, target, start)
    ensures forall n :: 0 <= n < |AppendTrace(fs, target, a)| ==> Keeps(AppendTrace(fs, target, a)[n], target, start)
  {
    hide Write, Fsync, Keeps;
    var i := Handle(fs, target);
    assert Exists(fs, target) by {
      KeptExists(fs, target, start);
    }
    var text := if a.fault.WriteFails? then Written(a.text, a.fault.written) else a.text;
    WriteKeepsStart(fs, target, i, start, text);
    WriteKeepsStart(Write(fs, i, text), target, i, start, "");
  }

  /** However an append ends, the file reads as before plus a start of the text: all of it unless the open or the write failed. */
  lemma AppendAddsAStart(fs: Fs, target: string, a: Attempt)
    requires WellFormed(fs)
    ensures var before := Read(fs, target).GetOr(""); var after := Read(Last(AppendTrace(fs, target, a)), target);
            match a.fault
            case OpenFails => after == Read(fs, target)
            case WriteFails(k) => after == Some(before + if k <= |a.text| then a.text[..k] else a.text)
            case _ => after == Some(before + a.text)
  {
  }

  lemma KeptExists(fs: Fs, target: string, start: string)
    requires Keeps(fs, target, start)
    ensures Exists(fs, target)
  {
  }

  /** What the target may read after a crash. */
  ghost predicate MayRead(fs: Fs, target: string, text: Option<string>) {
    exists remains :: MayRemain(fs, remains) && Read(Recovered(fs, remains), target) == text
  }

  /** The target has only ever been appended to: no other file has carried its name since the last directory fsync. */
  ghost predicate AppendedOnly(fs: Fs, target: string) {
    && WellFormed(fs)
    && (forall d :: d in fs.survivors && target in d ==> target in fs.names && d[target] == fs.names[target])
  }

  lemma AppendEnd(fs: Fs, target: string, a: Attempt)
    requires AppendedOnly(fs, target) && (a.fault.NoFault? || a.fault.ReplaceFails?)
    ensures var end := Last(AppendTrace(fs, target, a));
            && AppendedOnly(end, target) && Read(end, target) == Some(Read(fs, target).GetOr("") + a.text)
            && end.files[end.names[target]].survivors == {end.files[end.names[target]].content}
            && ((forall d :: d in end.survivors ==> target in d) <==>
                if Exists(fs, target) then forall d :: d in fs.survivors ==> target in d else a.dirSynced)
  {
    if !Exists(fs, target) {
      assert fs.names in Created(fs, target).survivors;
    }
  }

  /**
   A completed append is durable exactly when the name is: the call itself syncs the directory
   only if it created the file, so a name left unsynced by an earlier call stays unsynced.
   */
  lemma AppendDurableExactly(fs: Fs, target: string, a: Attempt)
    requires AppendedOnly(fs, target) && (a.fault.NoFault? || a.fault.ReplaceFails?)
    ensures var end := Last(AppendTrace(fs, target, a));
            var whole := Some(Read(fs, target).GetOr("") + a.text);
            && AppendedOnly(end, target) && Read(end, target) == whole
            && ((forall text :: MayRead(end, target, text) ==> text == whole) <==>
                if Exists(fs, target) then forall d :: d in fs.survivors ==> target in d else a.dirSynced)
  {
    hide AppendTrace;
    AppendEnd(fs, target, a);
    var end := Last(AppendTrace(fs, target, a));
    forall d | d in end.survivors && target !in d ensures MayRead(end, target, None) {
      var remains := Remains(d, map i | i in end.files :: end.files[i].content);
      assert MayRemain(end, remains);
    }
  }

  /**
   A first append that fails in its file fsync leaves the new name unsynced; the next one completes
   without syncing the directory, and a crash may still lose the whole file.
   */
  lemma CompletedAppendMayVanish() returns (fs: Fs, a: Attempt, b: Attempt)
    ensures WellFormed(fs) && !Exists(fs, "journal") && a.fault.FsyncFails? && b.fault.NoFault? && b.dirSynced
    ensures var first := Last(AppendTrace(fs, "journal", a)); var end := Last(AppendTrace(first, "journal", b));
            Read(end, "journal") == Some("ab") && MayRead(end, "journal", None)
  {
    fs := Fs(map[], map[], {map[]}, 0);
    a := Attempt("a", FsyncFails, false, true);
    b := Attempt("b", NoFault, false, true);
    var first := Last(AppendTrace(fs, "journal", a));
    assert first.names == map["journal" := 0] && map[] in first.survivors && first.files[0].content == "a";
    var end := Last(AppendTrace(first, "journal", b));
    assert end.files[0].content == "ab" && end.files.Keys == {0};
    var remains := Remains(map[], map[0 := "ab"]);
    assert MayRemain(end, remains);
    assert Read(Recovered(end, remains), "journal") == None;
  }
}
