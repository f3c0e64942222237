/** The atomic steps of the log sessions make up the calls: a finalization and a start that are not
    interrupted do what their functions say. And a run, for any log file, in which a finalized
    archive lacks a line that was logged while its session was current. */
module SessionLogRuns {
  import opened Wrappers
  import opened SessionLogs

  // ---------- the steps make up the calls ----------

  function AdvanceBy(n: Names, w: World, newId: SessionId, k: nat): World
    decreases k
  {
    if k == 0 then w else AdvanceBy(n, Advance(n, w, true, newId), newId, k - 1)
  }

  lemma {:induction false} AdvanceSum(n: Names, w: World, newId: SessionId, k: nat, l: nat)
    ensures AdvanceBy(n, w, newId, k + l) == AdvanceBy(n, AdvanceBy(n, w, newId, k), newId, l)
    decreases k
  {
    hide Advance;
    if k > 0 {
      AdvanceSum(n, Advance(n, w, true, newId), newId, k - 1, l);
    }
  }

  /** Run without a crash, a failure or another writer, the copying steps do what
      `CopyAll` says. */
  lemma {:induction false} CopyingRuns(n: Names, w: World, newId: SessionId)
    requires w.pc.Copying? && w.pc.s in w.disk.archives
    ensures var r := AdvanceBy(n, w, newId, |w.pc.rest|);
            && r.disk == CopyAll(n, w.disk, w.pc.s, w.pc.rest, w.pc.copied).0
            && r.pc == Copying(w.pc.s, [], CopyAll(n, w.disk, w.pc.s, w.pc.rest, w.pc.copied).1, w.pc.recovering)
    decreases |w.pc.rest|
  {
    hide CopyFile;
    if |w.pc.rest| > 0 {
      CopyTouchesFilesOnly(n, w.disk, w.pc.s, w.pc.rest[0], true);
      CopyingRuns(n, Advance(n, w, true, newId), newId);
    } else {
      assert w.pc.rest == [];
    }
  }

  /** The steps of one finalization, uninterrupted, make up one `FinalizeDisk`. */
  lemma FinalizeRuns(n: Names, w: World, newId: SessionId)
    requires w.pc.Copying? && w.pc.rest == n.flat + n.nested && w.pc.copied == {} && w.pc.s in w.disk.archives
    ensures var r := AdvanceBy(n, w, newId, |w.pc.rest| + 4);
            && r.disk == FinalizeDisk(n, w.disk, w.pc.s)
            && r.pc == if w.pc.recovering then Truncating(n.truncated) else Idle
  {
    hide CopyAll, CopyFile, Advance;
    CopyingRuns(n, w, newId);
    CopiedArchive(n, w.disk, w.pc.s, w.pc.rest);
    AdvanceSum(n, w, newId, |w.pc.rest|, 4);
    var copied := AdvanceBy(n, w, newId, |w.pc.rest|);
    FourSteps(n, copied, newId);
    FinalSteps(n, copied, newId);
  }

  lemma CopiedArchive(n: Names, d: Disk, s: SessionId, files: seq<FileName>)
    requires s in d.archives
    ensures s in CopyAll(n, d, s, files, {}).0.archives
  {
  }

  /** The steps after the last copy: write the manifest, replace it, note the latest, unpoint. */
  lemma FinalSteps(n: Names, w: World, newId: SessionId)
    requires w.pc.Copying? && w.pc.rest == [] && w.pc.s in w.disk.archives
    ensures var r := Advance(n, Advance(n, Advance(n, Advance(n, w, true, newId), true, newId), true, newId), true, newId);
            var m := Manifest(true, w.pc.copied);
            var placed := ReplaceManifest(WriteTemporary(w.disk, w.pc.s, m), w.pc.s);
            && r.disk == Unpoint(placed.(latest := Some(w.pc.s)), w.pc.s)
            && r.pc == if w.pc.recovering then Truncating(n.truncated) else Idle
  {
    hide Advance, Unpoint, ReplaceManifest, WriteTemporary;
    MarkSteps(n, w, newId);
    UnpointSteps(n, Advance(n, Advance(n, w, true, newId), true, newId), newId);
  }

  lemma MarkSteps(n: Names, w: World, newId: SessionId)
    requires w.pc.Copying? && w.pc.rest == [] && w.pc.s in w.disk.archives
    ensures var r := Advance(n, Advance(n, w, true, newId), true, newId);
            && r.disk == ReplaceManifest(WriteTemporary(w.disk, w.pc.s, Manifest(true, w.pc.copied)), w.pc.s)
            && r.pc == WritingLatest(w.pc.s, w.pc.recovering)
  {
  }

  lemma UnpointSteps(n: Names, w: World, newId: SessionId)
    requires w.pc.WritingLatest?
    ensures var r := Advance(n, Advance(n, w, true, newId), true, newId);
            && r.disk == Unpoint(w.disk.(latest := Some(w.pc.s)), w.pc.s)
            && r.pc == if w.pc.recovering then Truncating(n.truncated) else Idle
  {
    hide Unpoint;
  }

  lemma FourSteps(n: Names, w: World, newId: SessionId)
    ensures AdvanceBy(n, w, newId, 4)
         == Advance(n, Advance(n, Advance(n, Advance(n, w, true, newId), true, newId), true, newId), true, newId)
  {
    hide Advance;
    var one := Advance(n, w, true, newId);
    var two := Advance(n, one, true, newId);
    var three := Advance(n, two, true, newId);
    assert AdvanceBy(n, three, newId, 1) == Advance(n, three, true, newId);
    assert AdvanceBy(n, two, newId, 2) == AdvanceBy(n, three, newId, 1);
    assert AdvanceBy(n, one, newId, 3) == AdvanceBy(n, two, newId, 2);
  }

  // ---------- a start ----------

  lemma {:induction false} TruncatingRuns(n: Names, w: World, newId: SessionId)
    requires w.pc.Truncating?
    ensures AdvanceBy(n, w, newId, |w.pc.rest|)
         == w.(disk := TruncateAll(w.disk, w.pc.rest), pc := Truncating([]))
    decreases |w.pc.rest|
  {
    if |w.pc.rest| > 0 {
      var next := Advance(n, w, true, newId);
      assert next == w.(disk := Truncate(w.disk, w.pc.rest[0]), pc := Truncating(w.pc.rest[1..]));
      hide Advance, Truncate;
      TruncatingRuns(n, next, newId);
    } else {
      assert w.pc.rest == [];
    }
  }

  /** The steps after the truncation: make the directory, write its manifest, point at it. */
  lemma MakingSteps(n: Names, w: World, newId: SessionId)
    requires w.pc.MakingDirectory?
    ensures var r := Advance(n, Advance(n, Advance(n, Advance(n, w, true, newId), true, newId), true, newId), true, newId);
            if newId in w.disk.archives then r.disk == w.disk && r.pc.Idle?
            else
              var made := WithArchive(w.disk, newId, Archive(map[], None, None));
              var placed := ReplaceManifest(WriteTemporary(made, newId, Manifest(false, {})), newId);
              r.disk == placed.(current := Some(newId)) && r.pc == InSession(newId)
  {
    var one := Advance(n, w, true, newId);
    var two := Advance(n, one, true, newId);
    if newId in w.disk.archives {
      assert one == w.(pc := Idle) && two == one;
    } else {
      assert two.pc == PlacingManifest(newId);
    }
  }

  function StartSteps(n: Names, d: Disk): nat {
    (if PointedSession(d).Some? then |n.flat + n.nested| + 4 else 0) + |n.truncated| + 5
  }

  /** The steps of one start, uninterrupted, make up one `ResetDisk`. */
  lemma ResetRuns(n: Names, w: World, newId: SessionId)
    requires w.pc.Idle?
    ensures var r := AdvanceBy(n, Next(n, w, BeginStart), newId, StartSteps(n, w.disk));
            && r.disk == ResetDisk(n, w.disk, newId).0
            && r.pc == if ResetDisk(n, w.disk, newId).1.Some? then InSession(newId) else Idle
  {
    var previous := PointedSession(w.disk);
    var begun := Next(n, w, BeginStart);
    var k := if previous.Some? then |n.flat + n.nested| + 4 else 0;
    hide Next, Advance, CopyAll, Unpoint, ReplaceManifest, WriteTemporary, Truncate, TruncateAll;
    BeginsStart(n, w);
    if previous.Some? {
      FinalizeRuns(n, begun, newId);
    }
    var recovered := AdvanceBy(n, begun, newId, k);
    assert recovered.pc == Truncating(n.truncated);
    AdvanceSum(n, begun, newId, k, |n.truncated| + 5);
    ResetTail(n, recovered, newId);
  }

  lemma BeginsStart(n: Names, w: World)
    requires w.pc.Idle?
    ensures var begun := Next(n, w, BeginStart);
            && begun.disk == w.disk
            && begun.pc == match PointedSession(w.disk)
                           case Some(s) => Copying(s, n.flat + n.nested, {}, true)
                           case None => Truncating(n.truncated)
  {
  }

  lemma ResetTail(n: Names, w: World, newId: SessionId)
    requires w.pc == Truncating(n.truncated)
    ensures var r := AdvanceBy(n, w, newId, |n.truncated| + 5);
            var clean := TruncateAll(w.disk, n.truncated);
            if newId in clean.archives then r.disk == clean && r.pc.Idle?
            else
              var made := WithArchive(clean, newId, Archive(map[], None, None));
              var placed := ReplaceManifest(WriteTemporary(made, newId, Manifest(false, {})), newId);
              r.disk == placed.(current := Some(newId)) && r.pc == InSession(newId)
  {
    hide Advance, TruncateAll, ReplaceManifest, WriteTemporary, WithArchive;
    TruncatingRuns(n, w, newId);
    AdvanceSum(n, w, newId, |n.truncated|, 5);
    var clean := AdvanceBy(n, w, newId, |n.truncated|);
    var making := Advance(n, clean, true, newId);
    StartsMaking(n, clean, newId);
    FourSteps(n, making, newId);
    MakingSteps(n, making, newId);
  }

  lemma StartsMaking(n: Names, w: World, newId: SessionId)
    requires w.pc == Truncating([])
    ensures Advance(n, w, true, newId) == w.(pc := MakingDirectory)
  {
  }

  // ---------- a run that loses a line ----------

  function Steps(newId: SessionId, k: nat): seq<Action> {
    seq(k, _ => Step(true, newId))
  }

  lemma RunNext(n: Names, actions: seq<Action>, a: Action)
    ensures Run(n, actions + [a]) == Next(n, Run(n, actions), a)
  {
    assert (actions + [a])[..|actions|] == actions;
  }

  lemma {:induction false} RunSteps(n: Names, actions: seq<Action>, newId: SessionId, k: nat)
    ensures Run(n, actions + Steps(newId, k)) == AdvanceBy(n, Run(n, actions), newId, k)
  {
    hide Run, Advance;
    if k == 0 {
      assert actions + Steps(newId, 0) == actions;
    } else {
      RunSteps(n, actions, newId, k - 1);
      assert actions + Steps(newId, k) == (actions + Steps(newId, k - 1)) + [Step(true, newId)];
      RunNext(n, actions + Steps(newId, k - 1), Step(true, newId));
      AdvanceSum(n, Run(n, actions), newId, k - 1, 1);
    }
  }

  /** A first session of a new log directory. */
  lemma FirstSession(n: Names, f: FileName, id: SessionId) returns (actions: seq<Action>)
    requires Separate(n)
    ensures var w := Run(n, actions);
            && w.pc == InSession(id) && id in w.disk.archives && w.disk.archives[id].files == map[]
            && LinesOf(w.disk.root, f) == []
  {
    hide ResetDisk, AdvanceBy, TruncateAll;
    var steps := Steps(id, StartSteps(n, INITIAL_DISK));
    var initial := Run(n, []);
    assert initial.disk == INITIAL_DISK && initial.pc.Idle?;
    RunNext(n, [], BeginStart);
    actions := ([] + [BeginStart]) + steps;
    RunSteps(n, [] + [BeginStart], id, StartSteps(n, INITIAL_DISK));
    hide Run, Next;
    ResetRuns(n, initial, id);
    ResetResult(n, INITIAL_DISK, id);
    NewRoot(n, f, id);
  }

  lemma NewRoot(n: Names, f: FileName, id: SessionId)
    ensures LinesOf(ResetDisk(n, INITIAL_DISK, id).0.root, f) == []
  {
    TruncateAllResult(INITIAL_DISK, n.truncated);
    hide TruncateAll;
  }

  lemma BeginsStop(n: Names, w: World, f: FileName, line: Line, id: SessionId)
    requires w.pc == InSession(id)
    ensures var stopping := Next(n, Next(n, w, Log(f, line)), BeginStop);
            && stopping.pc == Copying(id, n.flat + n.nested, {}, false)
            && stopping.disk == w.disk.(root := Append(w.disk.root, f, line))
  {
  }

  lemma CopiesLogged(n: Names, w: World, f: FileName, id: SessionId)
    requires Separate(n) && f in n.flat && id in w.disk.archives && f in w.disk.root
    requires w.pc == Copying(id, n.flat + n.nested, {}, false)
    ensures var copied := AdvanceBy(n, w, id, |n.flat + n.nested|);
            && copied.pc.Copying? && copied.pc.s == id && copied.pc.rest == [] && id in copied.disk.archives
            && copied.disk.root == w.disk.root
            && f in copied.disk.archives[id].files && copied.disk.archives[id].files[f] == w.disk.root[f]
  {
    hide AdvanceBy, CopyAll;
    CopyingRuns(n, w, id);
    CopyAllResult(n, w.disk, id, n.flat + n.nested, {});
  }

  lemma FinalizesAfterLog(n: Names, w: World, f: FileName, line: Line, id: SessionId)
    requires w.pc.Copying? && w.pc.s == id && w.pc.rest == [] && id in w.disk.archives
    ensures var done := AdvanceBy(n, Next(n, w, Log(f, line)), id, 4);
            && IsFinalized(done.disk, id)
            && done.disk.archives[id].files == w.disk.archives[id].files
            && done.disk.root == Append(w.disk.root, f, line)
  {
    var logged := Next(n, w, Log(f, line));
    assert logged == w.(disk := w.disk.(root := Append(w.disk.root, f, line)), owed := Append(w.owed, f, line),
                        late := Append(w.late, f, line));
    hide Next, Advance, AdvanceBy, Append;
    FourSteps(n, logged, id);
    FinalSteps(n, logged, id);
  }

  /** For any log file and any two lines: a first session logs one line, is stopped, and logs the
      other after the copies; it ends finalized, its archive without the second line. */
  lemma LineLostInRun(n: Names, f: FileName, first: Line, second: Line, id: SessionId) returns (actions: seq<Action>)
    requires Separate(n) && f in n.flat
    ensures var d := Run(n, actions).disk;
            && IsFinalized(d, id)
            && f in d.root && d.root[f] == [first, second]
            && f in d.archives[id].files && d.archives[id].files[f] == [first]
  {
    hide Run, Next, AdvanceBy;
    var start := FirstSession(n, f, id);
    var begun := Run(n, start);
    RunNext(n, start, Log(f, first));
    RunNext(n, start + [Log(f, first)], BeginStop);
    BeginsStop(n, begun, f, first, id);
    var stop := start + [Log(f, first)] + [BeginStop];
    var k := |n.flat + n.nested|;
    RunSteps(n, stop, id, k);
    CopiesLogged(n, Run(n, stop), f, id);
    RunNext(n, stop + Steps(id, k), Log(f, second));
    FinalizesAfterLog(n, Run(n, stop + Steps(id, k)), f, second, id);
    RunSteps(n, stop + Steps(id, k) + [Log(f, second)], id, 4);
    actions := stop + Steps(id, k) + [Log(f, second)] + Steps(id, 4);
  }
}
