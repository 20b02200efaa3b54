/**
 * The runonce manager: during an update, installers register the paths of
 * one-time migration scripts; at the end of the update the queue is written
 * into `system/runonce.php`, which the Contao runtime executes on its next
 * request. A `runonce.php` still pending from an earlier run is moved aside to
 * `system/runonce_1.php` unchanged, and the new file chains to it.
 */
module Runonce {
  import opened Results

  /** The script the Contao runtime executes next, relative to the Contao root. */
  const RunoncePath := "system/runonce.php"
  /** Where a still pending `runonce.php` is moved to. */
  const RelocatedPath := "system/runonce_1.php"

  /** `t` occurs in `s` starting at index `i`. */
  predicate OccursAt(s: string, t: string, i: int) {
    0 <= i <= |s| - |t| && s[i..i + |t|] == t
  }

  /** `t` occurs in `s` as a contiguous substring (PHPUnit's assertContains on strings). */
  predicate Contains(s: string, t: string) {
    exists i :: 0 <= i <= |s| - |t| && OccursAt(s, t, i)
  }

  lemma {:induction false} ContainsItself(s: string)
    ensures Contains(s, s)
  {
    assert OccursAt(s, s, 0);
  }

  /** Whatever occurs inside `m` occurs inside any string that embeds `m`. */
  lemma {:induction false} ContainsWithin(a: string, m: string, b: string, t: string)
    requires Contains(m, t)
    ensures Contains(a + m + b, t)
  {
    var i :| 0 <= i <= |m| - |t| && OccursAt(m, t, i);
    var s := a + m + b;
    assert m[i..i + |t|] == t;
    assert forall j :: |a| <= j < |a| + |m| ==> s[j] == m[j - |a|];
    assert s[|a| + i..|a| + i + |t|] == t;
    assert OccursAt(s, t, |a| + i);
  }

  predicate NoDuplicates(s: seq<string>) {
    forall i, j :: 0 <= i < j < |s| ==> s[i] != s[j]
  }

  /** Decimal digits of a natural number, as PHP prints an array index. */
  function NatToString(n: nat): (r: string)
    ensures |r| > 0
    decreases n
  {
    var d := ["0", "1", "2", "3", "4", "5", "6", "7", "8", "9"][n % 10];
    if n < 10 then d else NatToString(n / 10) + d
  }

  /** A path is printed unchanged by var_export when it holds no quote and no backslash. */
  predicate Plain(s: string) {
    forall i :: 0 <= i < |s| ==> s[i] != '\'' && s[i] != '\\'
  }

  /** var_export's escaping inside a single-quoted PHP string literal. */
  function Escape(s: string): (r: string)
    ensures |r| >= |s|
  {
    if s == [] then []
    else if s[0] == '\'' || s[0] == '\\' then ['\\', s[0]] + Escape(s[1..])
    else [s[0]] + Escape(s[1..])
  }

  lemma {:induction false} EscapePlain(s: string)
    requires Plain(s)
    ensures Escape(s) == s
  {
    if s != [] {
      EscapePlain(s[1..]);
    }
  }

  /** The lines `  <n> => '<path>',` of var_export's output for a list. */
  function ExportItems(entries: seq<string>, n: nat): string
    decreases |entries|
  {
    if entries == [] then ""
    else "  " + NatToString(n) + " => '" + Escape(entries[0]) + "',\n" + ExportItems(entries[1..], n + 1)
  }

  /**
   * The body of a runonce script: instantiate the runtime's RunonceExecutor
   * and run it on the literal list of paths, as var_export prints it.
   */
  function Render(entries: seq<string>): string {
    ScriptHead + ExportItems(entries, 0) + ScriptTail
  }

  const ScriptHead := "<?php\n\n$executor = new \\ContaoCommunityAlliance\\Composer\\Plugin\\RunonceExecutor();\n$executor->run(array (\n"
  const ScriptTail := "));\n"

  lemma {:induction false} ExportItemsListEntry(entries: seq<string>, n: nat, k: nat)
    requires k < |entries| && Plain(entries[k])
    ensures Contains(ExportItems(entries, n), entries[k])
    decreases |entries|
  {
    var head := "  " + NatToString(n) + " => '";
    var tail := ExportItems(entries[1..], n + 1);
    if k == 0 {
      EscapePlain(entries[0]);
      ContainsItself(entries[0]);
      ContainsWithin(head, entries[0], "',\n" + tail, entries[0]);
      assert ExportItems(entries, n) == head + entries[0] + ("',\n" + tail);
    } else {
      ExportItemsListEntry(entries[1..], n + 1, k - 1);
      var line := head + Escape(entries[0]) + "',\n";
      ContainsWithin(line, tail, "", entries[k]);
      assert ExportItems(entries, n) == line + tail + "";
    }
  }

  /** Every path written into a runonce script can be found in the file's text. */
  lemma RenderListsEntry(entries: seq<string>, k: nat)
    requires k < |entries| && Plain(entries[k])
    ensures Contains(Render(entries), entries[k])
  {
    ExportItemsListEntry(entries, 0, k);
    ContainsWithin(ScriptHead, ExportItems(entries, 0), ScriptTail, entries[k]);
  }

  /**
   * The queued paths that the relocated script does not already mention, in
   * queue order: the new runonce.php must not list them a second time.
   */
  function NotListedIn(queue: seq<string>, previous: string): (r: seq<string>)
    ensures forall p :: p in r <==> p in queue && !Contains(previous, p)
    ensures |r| <= |queue|
    ensures NoDuplicates(queue) ==> NoDuplicates(r)
  {
    if queue == [] then []
    else if Contains(previous, queue[0]) then NotListedIn(queue[1..], previous)
    else [queue[0]] + NotListedIn(queue[1..], previous)
  }

  /**
   * The entries of the new runonce.php: the drained queue, or, when a
   * pending script was moved aside, a reference to it followed by the queued
   * paths it does not already hold.
   */
  function NewEntries(queue: seq<string>, pending: Option<string>): seq<string> {
    if pending.None? then queue
    else [RelocatedPath] + NotListedIn(queue, pending.value)
  }

  /**
   * Nothing queued is lost: every registered path is either an entry of the
   * new runonce.php or already held by the relocated one; and nothing is
   * listed twice: the new file repeats no path the relocated one holds.
   */
  lemma NoEntryLostOrRepeated(queue: seq<string>, pending: string)
    ensures forall p :: p in queue ==> p in NewEntries(queue, Some(pending)) || Contains(pending, p)
    ensures forall k :: 1 <= k < |NewEntries(queue, Some(pending))| ==>
      !Contains(pending, NewEntries(queue, Some(pending))[k])
    ensures NewEntries(queue, Some(pending))[0] == RelocatedPath
  {
    var e := NewEntries(queue, Some(pending));
    forall k | 1 <= k < |e| ensures !Contains(pending, e[k]) {
      assert e[k] in NotListedIn(queue, pending);
    }
  }

  /**
   * A duplicate-free queue gives a script that lists no path twice; after a
   * relocation this needs the queue not to hold the relocated path itself.
   */
  lemma NewEntriesDistinct(queue: seq<string>, pending: Option<string>)
    requires NoDuplicates(queue)
    requires pending.Some? ==> RelocatedPath !in queue
    ensures NoDuplicates(NewEntries(queue, pending))
  {
    if pending.Some? {
      var rest := NotListedIn(queue, pending.value);
      var e := NewEntries(queue, pending);
      assert e == [RelocatedPath] + rest;
      forall i, j | 0 <= i < j < |e| ensures e[i] != e[j] {
        if i == 0 {
          assert e[j] == rest[j - 1] && e[j] in rest;
        } else {
          assert e[i] == rest[i - 1] && e[j] == rest[j - 1];
        }
      }
    }
  }

  /**
   * The process-wide runonce queue together with the files of the Contao
   * root it writes to (paths relative to the root).
   */
  class RunonceManager {
    var queue: seq<string>
    var files: map<string, string>

    ghost predicate Valid()
      reads this
    {
      NoDuplicates(queue)
    }

    constructor (files: map<string, string>)
      ensures Valid() && this.queue == [] && this.files == files
    {
      this.queue := [];
      this.files := files;
    }

    /** Registers a runonce script; a path already queued is not queued again. */
    method AddRunonce(path: string)
      requires Valid()
      modifies this
      ensures Valid()
      ensures queue == if path in old(queue) then old(queue) else old(queue) + [path]
      ensures files == old(files)
    {
      if path !in queue {
        queue := queue + [path];
      }
    }

    /**
     * Writes the queue into system/runonce.php and empties the queue. With
     * nothing queued no file is written. A runonce.php already present is
     * moved to system/runonce_1.php byte for byte and the new file runs it
     * first, followed by the queued paths it does not already hold.
     */
    method CreateRunonce()
      requires Valid()
      requires queue != [] ==> !(RunoncePath in files && RelocatedPath in files)
      modifies this
      ensures Valid() && queue == []
      ensures old(queue) == [] ==> files == old(files)
      ensures old(queue) != [] && RunoncePath !in old(files) ==>
        files == old(files)[RunoncePath := Render(old(queue))]
      ensures old(queue) != [] && RunoncePath in old(files) ==>
        files == old(files)[RelocatedPath := old(files)[RunoncePath]]
                           [RunoncePath := Render(NewEntries(old(queue), Some(old(files)[RunoncePath])))]
    ensures RunoncePath !in old(files) ==> NoDuplicates(NewEntries(old(queue), None))
    ensures RunoncePath in old(files) && RelocatedPath !in old(queue) ==>
      NoDuplicates(NewEntries(old(queue), Some(old(files)[RunoncePath])))
    {
      if RunoncePath in files {
        if RelocatedPath !in queue {
          NewEntriesDistinct(queue, Some(files[RunoncePath]));
        }
      } else {
        NewEntriesDistinct(queue, None);
      }
      if queue == [] {
        return;
      }
      var pending: Option<string> := None;
      if RunoncePath in files {
        pending := Some(files[RunoncePath]);
        files := files[RelocatedPath := files[RunoncePath]];
      }
      files := files[RunoncePath := Render(NewEntries(queue, pending))];
      queue := [];
    }
  }

  /** testNothingToDo: with nothing registered no runonce.php appears. */
  method NothingToDoScenario() returns (files: map<string, string>)
    ensures RunoncePath !in files && files == map[]
  {
    var m := new RunonceManager(map[]);
    m.CreateRunonce();
    files := m.files;
  }

  lemma RelocatedPathPlain()
    ensures Plain(RelocatedPath)
  {
  }

  /**
   * testRunonceCreateFiredTwice: the second run moves the first run's file to
   * runonce_1.php unchanged; the new runonce.php refers to it and lists the
   * second path, and the moved file lists the first path.
   */
  method FiredTwiceScenario(r1: string, r2: string) returns (files: map<string, string>)
    requires r1 != r2 && Plain(r1) && Plain(r2) && !Contains(Render([r1]), r2)
    ensures RunoncePath in files && RelocatedPath in files
    ensures Contains(files[RunoncePath], RelocatedPath) && Contains(files[RunoncePath], r2)
    ensures Contains(files[RelocatedPath], r1) && !Contains(files[RelocatedPath], r2)
  {
    var m := new RunonceManager(map[]);
    m.AddRunonce(r1);
    assert m.queue == [r1];
    m.CreateRunonce();
    assert m.files == map[][RunoncePath := Render([r1])];
    m.AddRunonce(r2);
    m.CreateRunonce();
    assert NotListedIn([r2], Render([r1])) == [r2];
    ghost var e := [RelocatedPath, r2];
    assert m.files[RunoncePath] == Render(e);
    assert m.files[RelocatedPath] == Render([r1]);
    RelocatedPathPlain();
    RenderListsEntry(e, 0);
    RenderListsEntry(e, 1);
    RenderListsEntry([r1], 0);
    assert Contains(m.files[RunoncePath], RelocatedPath);
    assert Contains(m.files[RunoncePath], r2);
    assert Contains(m.files[RelocatedPath], r1);
    assert !Contains(m.files[RelocatedPath], r2);
    files := m.files;
  }

  /**
   * testRunonceCreateFiredBeforeRunonceExecuted: a runonce.php mentioning r1
   * (there, the text Render([r1])) is still pending when r1 and r2 are
   * registered again. It is moved aside unchanged, and the new runonce.php
   * mentions runonce_1.php and r2 and does not list r1 as an entry.
   */
  method FiredBeforeExecutedScenario(r1: string, r2: string, pending: string) returns (files: map<string, string>)
    requires r1 != r2 && r1 != RelocatedPath && r2 != RelocatedPath
    requires Contains(pending, r1) && !Contains(pending, r2) && Plain(r2)
    ensures RunoncePath in files && RelocatedPath in files && files[RelocatedPath] == pending
    ensures files[RunoncePath] == Render([RelocatedPath, r2])
    ensures Contains(files[RunoncePath], RelocatedPath) && Contains(files[RunoncePath], r2)
  {
    var m := new RunonceManager(map[RunoncePath := pending]);
    m.AddRunonce(r1);
    m.AddRunonce(r2);
    assert m.queue == [r1, r2];
    m.CreateRunonce();
    files := m.files;
    ghost var e := [RelocatedPath, r2];
    assert NotListedIn([r1, r2], pending) == [r2] by {
      assert NotListedIn([r1, r2], pending) == NotListedIn([r2], pending);
      assert [r1, r2][1..] == [r2] && [r2][1..] == [];
    }
    assert files[RunoncePath] == Render(e);
    RelocatedPathPlain();
    RenderListsEntry(e, 0);
    RenderListsEntry(e, 1);
  }
}
