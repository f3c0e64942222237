/** Durable log sessions: every run's root logs are copied into its own archive, the archive
    is marked finalized, the pointer is removed, and only then may the next start truncate the
    root logs. Each write, replace or unlink is one atomic step on the disk; the process may
    crash before any of them, and anything may be logged between any two. */
module SessionLogs {
  import opened Wrappers

  type FileName = string
  type SessionId = string
  type Line = string

  /** `flat` are the copied root logs in copy order, `nested` the receiver's runtime files,
      `truncated` the root logs that a start empties. */
  datatype Names = Names(flat: seq<FileName>, nested: seq<FileName>, truncated: seq<FileName>)

  ghost predicate Separate(n: Names) {
    forall f :: f in n.flat ==> f !in n.nested
  }

  datatype Manifest = Manifest(finalized: bool, copied: set<FileName>)

  datatype Archive = Archive(files: map<FileName, seq<Line>>, manifest: Option<Manifest>, temporary: Option<Manifest>)

  /** `current` is CURRENT_SESSION, `latest` is LATEST_SESSION. */
  datatype Disk = Disk(
    root: map<FileName, seq<Line>>,
    archives: map<SessionId, Archive>,
    current: Option<SessionId>,
    latest: Option<SessionId>)

  function LinesOf(m: map<FileName, seq<Line>>, f: FileName): seq<Line> {
    if f in m then m[f] else []
  }

  predicate IsFinalized(d: Disk, s: SessionId) {
    s in d.archives && d.archives[s].manifest.Some? && d.archives[s].manifest.value.finalized
  }

  /** `_session_from_pointer`: the pointed session, unless its manifest is missing or finalized. */
  function PointedSession(d: Disk): Option<SessionId> {
    if d.current.Some? && d.current.value in d.archives
       && d.archives[d.current.value].manifest.Some? && !d.archives[d.current.value].manifest.value.finalized
    then d.current
    else None
  }

  // ---------- single disk steps ----------

  function WithArchive(d: Disk, s: SessionId, a: Archive): Disk {
    d.(archives := d.archives[s := a])
  }

  /** One file of `_copy_session_artifacts`; the flag says whether it is listed as copied. A
      nested file the archive already has is listed and left alone. */
  function CopyFile(n: Names, d: Disk, s: SessionId, f: FileName, ok: bool): (Disk, bool)
    requires s in d.archives
  {
    if f !in d.root then (d, false)
    else if f in n.nested && f in d.archives[s].files then (d, true)
    else if !ok then (d, false)
    else (WithArchive(d, s, d.archives[s].(files := d.archives[s].files[f := d.root[f]])), true)
  }

  function WriteTemporary(d: Disk, s: SessionId, m: Manifest): Disk
    requires s in d.archives
  {
    WithArchive(d, s, d.archives[s].(temporary := Some(m)))
  }

  function ReplaceManifest(d: Disk, s: SessionId): Disk
    requires s in d.archives
  {
    WithArchive(d, s, d.archives[s].(manifest := d.archives[s].temporary, temporary := None))
  }

  function Unpoint(d: Disk, s: SessionId): Disk {
    if d.current == Some(s) then d.(current := None) else d
  }

  function Truncate(d: Disk, f: FileName): Disk {
    d.(root := d.root[f := []])
  }

  // ---------- the process ----------

  /** Where the process stands. `recovering` distinguishes the finalization a start does for a
      session it found unfinalized from the one a stop does for its own. */
  datatype Pc =
    | Idle
    | InSession(s: SessionId)
    | Copying(s: SessionId, rest: seq<FileName>, copied: set<FileName>, recovering: bool)
    | Marking(s: SessionId, recovering: bool)
    | WritingLatest(s: SessionId, recovering: bool)
    | Unpointing(s: SessionId, recovering: bool)
    | Truncating(rest: seq<FileName>)
    | MakingDirectory
    | WritingManifest(s: SessionId)
    | PlacingManifest(s: SessionId)
    | Pointing(s: SessionId)

  /** The lines owed to a session when it was marked, those logged since each file's last
      copy, and the archived files at that moment. */
  datatype Mark = Mark(owed: map<FileName, seq<Line>>, late: map<FileName, seq<Line>>, files: map<FileName, seq<Line>>)

  /** `owed`, `late` and `marks` are history: the lines logged to each file since the pointer
      last appeared, the part of them after the file's last copy, and the marks made. */
  datatype World = World(
    disk: Disk,
    pc: Pc,
    owed: map<FileName, seq<Line>>,
    late: map<FileName, seq<Line>>,
    marks: map<SessionId, Mark>)

  datatype Action =
    | BeginStart
    | BeginStop
    | Step(ok: bool, newId: SessionId)
    | Log(f: FileName, line: Line)
    | BridgeWrites(f: FileName, lines: seq<Line>)
    | Crash

  const INITIAL_DISK := Disk(map[], map[], None, None)

  function Append(m: map<FileName, seq<Line>>, f: FileName, line: Line): map<FileName, seq<Line>> {
    m[f := LinesOf(m, f) + [line]]
  }

  /** The program's next step; `ok` is false for a copy or truncation that fails, which the
      source ignores. */
  function Advance(n: Names, w: World, ok: bool, newId: SessionId): World {
    match w.pc
    case Idle => w
    case InSession(_) => w
    case Copying(s, rest, copied, recovering) =>
      if s !in w.disk.archives then w
      else if |rest| == 0 then
        w.(disk := WriteTemporary(w.disk, s, Manifest(true, copied)), pc := Marking(s, recovering))
      else
        var (d, listed) := CopyFile(n, w.disk, s, rest[0], ok);
        w.(disk := d,
           pc := Copying(s, rest[1..], if listed then copied + {rest[0]} else copied, recovering),
           late := if listed && rest[0] !in n.nested then w.late[rest[0] := []] else w.late)
    case Marking(s, recovering) =>
      if s !in w.disk.archives then w
      else
        w.(disk := ReplaceManifest(w.disk, s), pc := WritingLatest(s, recovering),
           marks := w.marks[s := Mark(w.owed, w.late, w.disk.archives[s].files)])
    case WritingLatest(s, recovering) =>
      w.(disk := w.disk.(latest := Some(s)), pc := Unpointing(s, recovering))
    case Unpointing(s, recovering) =>
      w.(disk := Unpoint(w.disk, s), pc := if recovering then Truncating(n.truncated) else Idle)
    case Truncating(rest) =>
      if |rest| == 0 then w.(pc := MakingDirectory)
      else w.(disk := if ok then Truncate(w.disk, rest[0]) else w.disk, pc := Truncating(rest[1..]))
    case MakingDirectory =>
      if newId in w.disk.archives then w.(pc := Idle)
      else w.(disk := WithArchive(w.disk, newId, Archive(map[], None, None)), pc := WritingManifest(newId))
    case WritingManifest(s) =>
      if s !in w.disk.archives then w
      else w.(disk := WriteTemporary(w.disk, s, Manifest(false, {})), pc := PlacingManifest(s))
    case PlacingManifest(s) =>
      if s !in w.disk.archives then w
      else w.(disk := ReplaceManifest(w.disk, s), pc := Pointing(s))
    case Pointing(s) =>
      w.(disk := w.disk.(current := Some(s)), pc := InSession(s), owed := map[], late := map[])
  }

  function Next(n: Names, w: World, a: Action): World {
    match a
    case BeginStart =>
      if !w.pc.Idle? then w
      else
        var previous := PointedSession(w.disk);
        w.(pc := if previous.Some? then Copying(previous.value, n.flat + n.nested, {}, true)
                 else Truncating(n.truncated))
    case BeginStop =>
      if w.pc.InSession? then w.(pc := Copying(w.pc.s, n.flat + n.nested, {}, false)) else w
    case Step(ok, newId) => Advance(n, w, ok, newId)
    case Log(f, line) =>
      w.(disk := w.disk.(root := Append(w.disk.root, f, line)),
         owed := Append(w.owed, f, line), late := Append(w.late, f, line))
    case BridgeWrites(f, lines) =>
      if w.pc.InSession? && f in n.nested && w.pc.s in w.disk.archives then
        var a := w.disk.archives[w.pc.s];
        w.(disk := WithArchive(w.disk, w.pc.s, a.(files := a.files[f := lines])))
      else w
    case Crash => w.(pc := Idle)
  }

  function Run(n: Names, actions: seq<Action>): World {
    if |actions| == 0 then World(INITIAL_DISK, Idle, map[], map[], map[])
    else Next(n, Run(n, actions[..|actions| - 1]), actions[|actions| - 1])
  }

  // ---------- the invariant ----------

  predicate IsSuffix(part: seq<Line>, whole: seq<Line>) {
    |part| <= |whole| && whole[|whole| - |part|..] == part
  }

  /** What an archive has of the flat logs, against what was logged: the archived copy lacks
      exactly the late lines, and a file never copied lacks all it is owed. */
  ghost predicate Accounts(n: Names, owed: map<FileName, seq<Line>>, late: map<FileName, seq<Line>>,
                           files: map<FileName, seq<Line>>) {
    forall f :: f in n.flat ==>
      && (f in files ==> IsSuffix(LinesOf(owed, f), files[f] + LinesOf(late, f)))
      && (f !in files ==> LinesOf(late, f) == LinesOf(owed, f))
  }

  ghost predicate RootAccounts(n: Names, w: World, s: SessionId)
    requires s in w.disk.archives
  {
    var files := w.disk.archives[s].files;
    && (forall f :: f in n.flat && f in files ==>
          f in w.disk.root && w.disk.root[f] == files[f] + LinesOf(w.late, f))
    && (forall f :: f in n.flat ==> IsSuffix(LinesOf(w.owed, f), LinesOf(w.disk.root, f)))
    && (forall f :: f in n.flat && f !in files ==> LinesOf(w.late, f) == LinesOf(w.owed, f))
  }

  /** The session that the process is working on, between being pointed at and being marked. */
  function Open(pc: Pc): Option<SessionId> {
    match pc
    case InSession(s) => Some(s)
    case Copying(s, _, _, _) => Some(s)
    case Marking(s, _) => Some(s)
    case _ => None
  }

  ghost predicate PcInv(n: Names, w: World) {
    match w.pc
    case Marking(s, _) =>
      s in w.disk.archives && w.disk.archives[s].temporary.Some?
      && w.disk.archives[s].temporary.value.finalized
    case WritingLatest(s, _) => IsFinalized(w.disk, s) && PointedSession(w.disk).None?
    case Unpointing(s, _) => IsFinalized(w.disk, s) && PointedSession(w.disk).None?
    case Truncating(_) => PointedSession(w.disk).None?
    case MakingDirectory => PointedSession(w.disk).None?
    case WritingManifest(s) =>
      PointedSession(w.disk).None? && s !in w.marks && w.disk.current != Some(s)
      && s in w.disk.archives && w.disk.archives[s] == Archive(map[], None, None)
    case PlacingManifest(s) =>
      PointedSession(w.disk).None? && s !in w.marks && w.disk.current != Some(s)
      && s in w.disk.archives && w.disk.archives[s] == Archive(map[], None, Some(Manifest(false, {})))
    case Pointing(s) =>
      PointedSession(w.disk).None? && s !in w.marks
      && s in w.disk.archives && w.disk.archives[s] == Archive(map[], Some(Manifest(false, {})), None)
    case _ => true
  }

  /** The current-session file names an archive with a readable manifest. */
  ghost predicate PointerInv(d: Disk) {
    d.current.Some? ==>
      d.current.value in d.archives && d.archives[d.current.value].manifest.Some?
  }

  /** The marks made are those of the finalized archives, whose files have not changed since. */
  ghost predicate MarksInv(n: Names, w: World) {
    && (forall s :: s in w.marks <==> IsFinalized(w.disk, s))
    && (forall s :: s in w.marks ==> w.disk.archives[s].files == w.marks[s].files)
    && (forall s :: s in w.marks ==> Accounts(n, w.marks[s].owed, w.marks[s].late, w.marks[s].files))
  }

  ghost predicate Inv(n: Names, w: World) {
    && PointerInv(w.disk)
    && (Open(w.pc).Some? ==> PointedSession(w.disk) == Open(w.pc))
    && PcInv(n, w)
    && (PointedSession(w.disk).Some? ==> RootAccounts(n, w, PointedSession(w.disk).value))
    && MarksInv(n, w)
  }

  /** A disk step that touches no finalized archive and finalizes none keeps the marks. */
  lemma MarksKept(n: Names, w: World, t: World)
    requires MarksInv(n, w) && t.marks == w.marks
    requires forall s :: IsFinalized(w.disk, s) ==> s in t.disk.archives && t.disk.archives[s] == w.disk.archives[s]
    requires forall s :: IsFinalized(t.disk, s) ==> IsFinalized(w.disk, s)
    ensures MarksInv(n, t)
  {
    hide Accounts;
  }

  /** Rewriting one unfinalized archive, so that it stays unfinalized. */
  lemma ArchiveStep(n: Names, w: World, t: World, s: SessionId, a: Archive)
    requires MarksInv(n, w) && t.marks == w.marks
    requires t.disk.archives == w.disk.archives[s := a]
    requires !IsFinalized(w.disk, s) && !(a.manifest.Some? && a.manifest.value.finalized)
    ensures MarksInv(n, t)
  {
    hide Accounts, MarksInv;
    MarksKept(n, w, t);
  }

  lemma SuffixAppend(part: seq<Line>, whole: seq<Line>, line: Line)
    requires IsSuffix(part, whole)
    ensures IsSuffix(part + [line], whole + [line])
  {
  }

  lemma LogKeepsInv(n: Names, w: World, f: FileName, line: Line)
    requires Separate(n) && Inv(n, w)
    ensures Inv(n, Next(n, w, Log(f, line)))
  {
    hide Accounts, RootAccounts;
    if PointedSession(w.disk).Some? {
      LogKeepsRoot(n, w, PointedSession(w.disk).value, f, line);
    }
  }

  /** A logged line goes to the root file, to what is owed and to what comes late alike. */
  lemma LogKeepsRoot(n: Names, w: World, s: SessionId, f: FileName, line: Line)
    requires s in w.disk.archives && RootAccounts(n, w, s)
    ensures RootAccounts(n, Next(n, w, Log(f, line)), s)
  {
    hide IsSuffix, LinesOf, Append;
    var t := Next(n, w, Log(f, line));
    var files := w.disk.archives[s].files;
    forall g | g in n.flat
      ensures IsSuffix(LinesOf(t.owed, g), LinesOf(t.disk.root, g))
      ensures g !in files ==> LinesOf(t.late, g) == LinesOf(t.owed, g)
      ensures g in files ==> g in t.disk.root && t.disk.root[g] == files[g] + LinesOf(t.late, g)
    {
      AppendedLines(w.disk.root, f, line, g);
      AppendedLines(w.owed, f, line, g);
      AppendedLines(w.late, f, line, g);
      if g == f {
        SuffixAppend(LinesOf(w.owed, f), LinesOf(w.disk.root, f), line);
      }
      if g == f && g in files {
        assert files[f] + LinesOf(w.late, f) + [line] == files[f] + (LinesOf(w.late, f) + [line]);
      }
    }
  }

  lemma AppendedLines(lines: map<FileName, seq<Line>>, f: FileName, line: Line, g: FileName)
    ensures LinesOf(Append(lines, f, line), g) == if g == f then LinesOf(lines, f) + [line] else LinesOf(lines, g)
    ensures g in lines ==> g in Append(lines, f, line)
    ensures g in lines ==> LinesOf(lines, g) == lines[g]
    ensures g in lines ==> LinesOf(Append(lines, f, line), g) == Append(lines, f, line)[g]
  {
  }

  lemma BridgeKeepsInv(n: Names, w: World, f: FileName, lines: seq<Line>)
    requires Separate(n) && Inv(n, w)
    ensures Inv(n, Next(n, w, BridgeWrites(f, lines)))
  {
    hide IsSuffix, MarksInv;
    var t := Next(n, w, BridgeWrites(f, lines));
    if w.pc.InSession? && f in n.nested {
      var a := w.disk.archives[w.pc.s];
      ArchiveStep(n, w, t, w.pc.s, a.(files := a.files[f := lines]));
    }
  }

  /** What a copy does to the open session's accounts. */
  lemma CopyAccounts(n: Names, w: World, s: SessionId, f: FileName, ok: bool)
    requires Separate(n) && s in w.disk.archives && RootAccounts(n, w, s)
    ensures var (d, listed) := CopyFile(n, w.disk, s, f, ok);
            var late := if listed && f !in n.nested then w.late[f := []] else w.late;
            && s in d.archives
            && RootAccounts(n, World(d, w.pc, w.owed, late, w.marks), s)
  {
    hide IsSuffix;
    var (d, listed) := CopyFile(n, w.disk, s, f, ok);
    if listed {
      assert w.disk.root[f] + [] == w.disk.root[f];
    }
  }

  lemma CopyTouchesFilesOnly(n: Names, d: Disk, s: SessionId, f: FileName, ok: bool)
    requires s in d.archives
    ensures var t := CopyFile(n, d, s, f, ok).0;
            && t.root == d.root && t.current == d.current && s in t.archives
            && t.archives == d.archives[s := t.archives[s]]
            && t.archives[s].manifest == d.archives[s].manifest
            && t.archives[s].temporary == d.archives[s].temporary
  {
    assert d.archives == d.archives[s := d.archives[s]];
  }

  lemma CopyKeepsInv(n: Names, w: World, ok: bool, newId: SessionId)
    requires Separate(n) && Inv(n, w) && w.pc.Copying?
    ensures Inv(n, Advance(n, w, ok, newId))
  {
    hide RootAccounts, MarksInv, CopyFile, Separate;
    var t := Advance(n, w, ok, newId);
    var s := w.pc.s;
    assert PointedSession(w.disk) == Some(s);
    if |w.pc.rest| > 0 {
      CopyTouchesFilesOnly(n, w.disk, s, w.pc.rest[0], ok);
      CopyAccounts(n, w, s, w.pc.rest[0], ok);
      SameAccounts(n, World(t.disk, w.pc, t.owed, t.late, t.marks), t, s);
    } else {
      SameAccounts(n, w, t, s);
    }
    ArchiveStep(n, w, t, s, t.disk.archives[s]);
  }

  lemma SameAccounts(n: Names, w: World, t: World, s: SessionId)
    requires s in w.disk.archives && s in t.disk.archives && RootAccounts(n, w, s)
    requires w.disk.root == t.disk.root && w.owed == t.owed && w.late == t.late
    requires w.disk.archives[s].files == t.disk.archives[s].files
    ensures RootAccounts(n, t, s)
  {
    hide IsSuffix;
  }

  /** At the mark, the archive accounts for everything owed to the session. */
  lemma MarkAccounts(n: Names, w: World, s: SessionId)
    requires s in w.disk.archives && RootAccounts(n, w, s)
    ensures Accounts(n, w.owed, w.late, w.disk.archives[s].files)
  {
    hide IsSuffix;
  }

  lemma MarkKeepsInv(n: Names, w: World, ok: bool, newId: SessionId)
    requires Separate(n) && Inv(n, w) && w.pc.Marking?
    ensures Inv(n, Advance(n, w, ok, newId))
  {
    var s, t := w.pc.s, Advance(n, w, ok, newId);
    assert PointedSession(w.disk) == Some(s);
    MarkAccounts(n, w, s);
    hide RootAccounts, Accounts, Separate;
    assert PointedSession(t.disk).None?;
    forall r: SessionId | true
      ensures r in t.marks <==> IsFinalized(t.disk, r)
    {
    }
  }

  lemma TailKeepsInv(n: Names, w: World, ok: bool, newId: SessionId)
    requires Separate(n) && Inv(n, w)
    requires w.pc.WritingLatest? || w.pc.Unpointing? || w.pc.Truncating?
    ensures Inv(n, Advance(n, w, ok, newId))
  {
    hide RootAccounts, MarksInv, Separate;
    var t := Advance(n, w, ok, newId);
    assert t.disk.archives == w.disk.archives;
    assert PointedSession(t.disk).None?;
    MarksKept(n, w, t);
  }

  lemma ManifestKeepsInv(n: Names, w: World, ok: bool, newId: SessionId)
    requires Separate(n) && Inv(n, w)
    requires w.pc.WritingManifest? || w.pc.PlacingManifest?
    ensures Inv(n, Advance(n, w, ok, newId))
  {
    hide RootAccounts, MarksInv, Separate;
    var t := Advance(n, w, ok, newId);
    assert PointedSession(t.disk).None?;
    ArchiveStep(n, w, t, w.pc.s, t.disk.archives[w.pc.s]);
  }

  lemma DirectoryKeepsInv(n: Names, w: World, ok: bool, newId: SessionId)
    requires Separate(n) && Inv(n, w) && w.pc.MakingDirectory?
    ensures Inv(n, Advance(n, w, ok, newId))
  {
    hide RootAccounts, Separate, Accounts;
    var t := Advance(n, w, ok, newId);
    assert PointedSession(t.disk).None?;
    assert newId !in w.disk.archives ==> newId !in w.marks;
    hide MarksInv;
    if newId !in w.disk.archives {
      ArchiveStep(n, w, t, newId, Archive(map[], None, None));
    } else {
      MarksKept(n, w, t);
    }
  }

  lemma PointKeepsInv(n: Names, w: World, ok: bool, newId: SessionId)
    requires Separate(n) && Inv(n, w) && w.pc.Pointing?
    ensures Inv(n, Advance(n, w, ok, newId))
  {
    hide MarksInv;
    var t := Advance(n, w, ok, newId);
    assert PointedSession(t.disk) == Some(w.pc.s);
    MarksKept(n, w, t);
  }

  lemma StepKeepsInv(n: Names, w: World, a: Action)
    requires Separate(n) && Inv(n, w)
    ensures Inv(n, Next(n, w, a))
  {
    match a
    case Log(f, line) => LogKeepsInv(n, w, f, line);
    case BridgeWrites(f, lines) => BridgeKeepsInv(n, w, f, lines);
    case BeginStart => hide IsSuffix, Accounts, RootAccounts;
    case BeginStop => hide IsSuffix, Accounts, RootAccounts;
    case Crash => hide IsSuffix, Accounts, RootAccounts;
    case Step(ok, newId) =>
      hide Inv, Advance;
      match w.pc
      case Idle => IdleStands(n, w, ok, newId);
      case InSession(_) => IdleStands(n, w, ok, newId);
      case Copying(_, _, _, _) => CopyKeepsInv(n, w, ok, newId);
      case Marking(_, _) => MarkKeepsInv(n, w, ok, newId);
      case Pointing(_) => PointKeepsInv(n, w, ok, newId);
      case WritingManifest(_) => ManifestKeepsInv(n, w, ok, newId);
      case PlacingManifest(_) => ManifestKeepsInv(n, w, ok, newId);
      case MakingDirectory => DirectoryKeepsInv(n, w, ok, newId);
      case _ => TailKeepsInv(n, w, ok, newId);
  }

  lemma IdleStands(n: Names, w: World, ok: bool, newId: SessionId)
    requires w.pc.Idle? || w.pc.InSession?
    ensures Advance(n, w, ok, newId) == w
  {
  }

  lemma {:induction false} RunKeepsInv(n: Names, actions: seq<Action>)
    requires Separate(n)
    ensures Inv(n, Run(n, actions))
  {
    hide Next;
    if |actions| > 0 {
      hide Inv;
      RunKeepsInv(n, actions[..|actions| - 1]);
      StepKeepsInv(n, Run(n, actions[..|actions| - 1]), actions[|actions| - 1]);
    }
  }

  // ---------- what every run guarantees ----------

  lemma TruncationIsGuarded(n: Names, w: World, a: Action, f: FileName)
    requires Inv(n, w)
    requires !(LinesOf(w.disk.root, f) <= LinesOf(Next(n, w, a).disk.root, f))
    ensures PointedSession(w.disk).None? && w.pc.Truncating?
    ensures w.disk.current.Some? ==> IsFinalized(w.disk, w.disk.current.value)
  {
    OnlyTruncationShortens(n, w, a, f);
    hide RootAccounts, MarksInv, Next, LinesOf;
  }

  lemma OnlyTruncationShortens(n: Names, w: World, a: Action, f: FileName)
    ensures LinesOf(w.disk.root, f) <= LinesOf(Next(n, w, a).disk.root, f) || (a.Step? && w.pc.Truncating?)
  {
    hide CopyFile;
    if a.Step? && w.pc.Copying? && w.pc.s in w.disk.archives && |w.pc.rest| > 0 {
      CopyTouchesFilesOnly(n, w.disk, w.pc.s, w.pc.rest[0], a.ok);
    }
  }

  /** The archive the next step may write to, besides a new one. */
  function Written(pc: Pc): Option<SessionId> {
    match pc
    case WritingManifest(s) => Some(s)
    case PlacingManifest(s) => Some(s)
    case _ => Open(pc)
  }

  lemma WrittenIsUnfinalized(n: Names, w: World)
    requires Inv(n, w) && Written(w.pc).Some?
    ensures !IsFinalized(w.disk, Written(w.pc).value)
  {
    hide RootAccounts, MarksInv;
  }

  lemma OthersStand(n: Names, w: World, a: Action, s: SessionId)
    requires s in w.disk.archives && Written(w.pc) != Some(s)
    ensures s in Next(n, w, a).disk.archives && Next(n, w, a).disk.archives[s] == w.disk.archives[s]
  {
    hide CopyFile;
    if a.Step? && w.pc.Copying? && w.pc.s in w.disk.archives && |w.pc.rest| > 0 {
      CopyTouchesFilesOnly(n, w.disk, w.pc.s, w.pc.rest[0], a.ok);
    }
  }

  lemma FinalizedStands(n: Names, w: World, a: Action, s: SessionId)
    requires Inv(n, w) && IsFinalized(w.disk, s)
    ensures s in Next(n, w, a).disk.archives && Next(n, w, a).disk.archives[s] == w.disk.archives[s]
  {
    hide Inv, Next, Written;
    if Written(w.pc).Some? {
      WrittenIsUnfinalized(n, w);
    }
    OthersStand(n, w, a, s);
  }

  /** A root log is only ever shortened by a truncation, and never while the current-session file names a
      session that is not finalized. */
  lemma NeverTruncatesUnfinalized(n: Names, actions: seq<Action>, a: Action, f: FileName)
    requires Separate(n)
    requires var w := Run(n, actions);
             !(LinesOf(w.disk.root, f) <= LinesOf(Next(n, w, a).disk.root, f))
    ensures var w := Run(n, actions);
            && PointedSession(w.disk).None?
            && (w.disk.current.Some? ==> IsFinalized(w.disk, w.disk.current.value))
            && w.pc.Truncating?
  {
    RunKeepsInv(n, actions);
    TruncationIsGuarded(n, Run(n, actions), a, f);
  }

  /** A finalized archive is final: no later step of any run changes its files or its manifest. */
  lemma FinalizedNeverChanges(n: Names, actions: seq<Action>, a: Action, s: SessionId)
    requires Separate(n) && IsFinalized(Run(n, actions).disk, s)
    ensures var w := Run(n, actions);
            && IsFinalized(Next(n, w, a).disk, s)
            && Next(n, w, a).disk.archives[s] == w.disk.archives[s]
  {
    RunKeepsInv(n, actions);
    FinalizedStands(n, Run(n, actions), a, s);
  }

  /** The archive of every finalized session, against what was logged while its pointer stood:
      each file's copy lacks exactly the lines logged after that file's last copy. */
  lemma FinalizedAccounts(n: Names, actions: seq<Action>, s: SessionId)
    requires Separate(n) && IsFinalized(Run(n, actions).disk, s)
    ensures var w := Run(n, actions);
            && s in w.marks
            && w.disk.archives[s].files == w.marks[s].files
            && Accounts(n, w.marks[s].owed, w.marks[s].late, w.disk.archives[s].files)
  {
    RunKeepsInv(n, actions);
  }

  /** So, with nothing logged to a file between its copy and the mark, and its copy not failed,
      the archive ends with every line owed to the session. */
  lemma QuietFileIsComplete(n: Names, actions: seq<Action>, s: SessionId, f: FileName)
    requires Separate(n) && IsFinalized(Run(n, actions).disk, s) && f in n.flat
    requires s in Run(n, actions).marks && LinesOf(Run(n, actions).marks[s].late, f) == []
    ensures var w := Run(n, actions);
            IsSuffix(LinesOf(w.marks[s].owed, f), LinesOf(w.disk.archives[s].files, f))
  {
    FinalizedAccounts(n, actions, s);
    var w := Run(n, actions);
    hide Run;
    if f in w.disk.archives[s].files {
      assert w.disk.archives[s].files[f] + [] == w.disk.archives[s].files[f];
    }
  }

  /** At the mark, a copied file is whole exactly when nothing was logged to it since its copy. */
  lemma MarkedCopyIsWhole(n: Names, actions: seq<Action>, f: FileName)
    requires Separate(n) && f in n.flat
    requires Run(n, actions).pc.Marking?
    ensures var w := Run(n, actions);
            && w.pc.s in w.disk.archives
            && (f in w.disk.archives[w.pc.s].files ==>
                  (w.disk.archives[w.pc.s].files[f] == LinesOf(w.disk.root, f) <==> LinesOf(w.late, f) == []))
  {
    RunKeepsInv(n, actions);
    var w := Run(n, actions);
    hide Run;
    assert PointedSession(w.disk) == Some(w.pc.s);
    if f in w.disk.archives[w.pc.s].files {
      assert |w.disk.root[f]| == |w.disk.archives[w.pc.s].files[f]| + |LinesOf(w.late, f)|;
      if LinesOf(w.late, f) == [] {
        assert w.disk.archives[w.pc.s].files[f] + [] == w.disk.archives[w.pc.s].files[f];
      }
    }
  }

  /** And a line logged after the copies and before the mark is lost to the archive: the next two
      steps finalize the session, and what the archive has of the file, if anything, ends before
      that line. */
  lemma LateLineIsLost(n: Names, actions: seq<Action>, f: FileName, line: Line, newId: SessionId)
    requires Separate(n) && f in n.flat
    requires Run(n, actions).pc.Copying? && Run(n, actions).pc.rest == []
    ensures var w := Run(n, actions);
            var s := w.pc.s;
            var marked := Advance(n, Advance(n, Next(n, w, Log(f, line)), true, newId), true, newId);
            && IsFinalized(marked.disk, s)
            && LinesOf(marked.marks[s].owed, f) == LinesOf(w.owed, f) + [line]
            && f in marked.disk.root
            && (f in marked.disk.archives[s].files ==>
                  marked.disk.root[f] == marked.disk.archives[s].files[f] + LinesOf(w.late, f) + [line])
  {
    hide Run, Inv, Next, Advance;
    RunKeepsInv(n, actions);
    LateLineAtMark(n, Run(n, actions), f, line, newId);
  }

  lemma LateLineAtMark(n: Names, w: World, f: FileName, line: Line, newId: SessionId)
    requires Inv(n, w) && f in n.flat && w.pc.Copying? && w.pc.rest == []
    ensures w.pc.s in w.disk.archives
    ensures var s := w.pc.s;
            var marked := Advance(n, Advance(n, Next(n, w, Log(f, line)), true, newId), true, newId);
            && IsFinalized(marked.disk, s)
            && LinesOf(marked.marks[s].owed, f) == LinesOf(w.owed, f) + [line]
            && f in marked.disk.root
            && (f in marked.disk.archives[s].files ==>
                  marked.disk.root[f] == marked.disk.archives[s].files[f] + LinesOf(w.late, f) + [line])
  {
    CopyingAccounts(n, w);
    hide Inv, RootAccounts;
    MarkAfterLog(n, w, f, line, newId);
  }

  lemma CopyingAccounts(n: Names, w: World)
    requires Inv(n, w) && w.pc.Copying?
    ensures w.pc.s in w.disk.archives
    ensures forall f :: f in n.flat && f in w.disk.archives[w.pc.s].files ==>
              f in w.disk.root && w.disk.root[f] == w.disk.archives[w.pc.s].files[f] + LinesOf(w.late, f)
  {
    hide MarksInv, IsSuffix;
  }

  lemma MarkAfterLog(n: Names, w: World, f: FileName, line: Line, newId: SessionId)
    requires w.pc.Copying? && w.pc.rest == [] && w.pc.s in w.disk.archives
    ensures var s := w.pc.s;
            var marked := Advance(n, Advance(n, Next(n, w, Log(f, line)), true, newId), true, newId);
            && IsFinalized(marked.disk, s)
            && marked.disk.archives[s].files == w.disk.archives[s].files
            && marked.disk.root == Append(w.disk.root, f, line)
            && LinesOf(marked.marks[s].owed, f) == LinesOf(w.owed, f) + [line]
  {
    hide CopyFile;
  }

  // ---------- what a manifest lists is there ----------

  ghost predicate Listed(copied: set<FileName>, a: Archive) {
    copied <= a.files.Keys
  }

  ghost predicate ArchiveLists(a: Archive) {
    && (a.manifest.Some? ==> Listed(a.manifest.value.copied, a))
    && (a.temporary.Some? ==> Listed(a.temporary.value.copied, a))
  }

  ghost predicate Lists(w: World) {
    && (forall s :: s in w.disk.archives ==> ArchiveLists(w.disk.archives[s]))
    && (w.pc.Copying? && w.pc.s in w.disk.archives ==> Listed(w.pc.copied, w.disk.archives[w.pc.s]))
  }

  lemma CopyLists(n: Names, d: Disk, s: SessionId, f: FileName, ok: bool, copied: set<FileName>)
    requires s in d.archives && ArchiveLists(d.archives[s]) && Listed(copied, d.archives[s])
    ensures var (t, listed) := CopyFile(n, d, s, f, ok);
            && t.archives.Keys == d.archives.Keys
            && (forall r :: r in d.archives && r != s ==> t.archives[r] == d.archives[r])
            && ArchiveLists(t.archives[s])
            && Listed(if listed then copied + {f} else copied, t.archives[s])
  {
  }

  lemma StepLists(n: Names, w: World, ok: bool, newId: SessionId)
    requires Lists(w)
    ensures Lists(Advance(n, w, ok, newId))
  {
    hide CopyFile, ArchiveLists, Listed;
    match w.pc
    case Copying(s, rest, copied, _) =>
      if s in w.disk.archives && |rest| > 0 {
        CopyLists(n, w.disk, s, rest[0], ok, copied);
      } else if s in w.disk.archives {
        WriteLists(w.disk.archives[s], Manifest(true, copied));
      }
    case Marking(s, _) =>
      if s in w.disk.archives {
        ReplaceLists(w.disk.archives[s]);
      }
    case WritingManifest(s) =>
      if s in w.disk.archives {
        NothingListed(w.disk.archives[s]);
        WriteLists(w.disk.archives[s], Manifest(false, {}));
      }
    case PlacingManifest(s) =>
      if s in w.disk.archives {
        ReplaceLists(w.disk.archives[s]);
      }
    case MakingDirectory => NothingListed(Archive(map[], None, None));
    case _ =>
  }

  lemma NothingListed(a: Archive)
    ensures Listed({}, a)
    ensures a.manifest.None? && a.temporary.None? ==> ArchiveLists(a)
  {
  }

  lemma WriteLists(a: Archive, m: Manifest)
    requires ArchiveLists(a) && Listed(m.copied, a)
    ensures ArchiveLists(a.(temporary := Some(m)))
  {
  }

  lemma ReplaceLists(a: Archive)
    requires ArchiveLists(a)
    ensures ArchiveLists(a.(manifest := a.temporary, temporary := None))
  {
  }

  lemma BridgeLists(a: Archive, f: FileName, lines: seq<Line>)
    requires ArchiveLists(a)
    ensures ArchiveLists(a.(files := a.files[f := lines]))
  {
  }

  lemma NextLists(n: Names, w: World, a: Action)
    requires Lists(w)
    ensures Lists(Next(n, w, a))
  {
    hide Advance, ArchiveLists, Listed;
    match a
    case Step(ok, newId) => StepLists(n, w, ok, newId);
    case BridgeWrites(f, lines) =>
      if w.pc.InSession? && w.pc.s in w.disk.archives {
        BridgeLists(w.disk.archives[w.pc.s], f, lines);
      }
    case BeginStop =>
      if w.pc.InSession? && w.pc.s in w.disk.archives {
        NothingListed(w.disk.archives[w.pc.s]);
      }
    case BeginStart =>
      if PointedSession(w.disk).Some? {
        NothingListed(w.disk.archives[PointedSession(w.disk).value]);
      }
    case _ =>
  }

  lemma {:induction false} RunLists(n: Names, actions: seq<Action>)
    ensures Lists(Run(n, actions))
  {
    hide Next;
    if |actions| > 0 {
      hide Lists;
      RunLists(n, actions[..|actions| - 1]);
      NextLists(n, Run(n, actions[..|actions| - 1]), actions[|actions| - 1]);
    }
  }

  /** In every run, crashes and failed copies included: every file that a manifest lists as copied
      is in its archive. */
  lemma ListedFilesAreArchived(n: Names, actions: seq<Action>, s: SessionId, f: FileName)
    requires s in Run(n, actions).disk.archives && Run(n, actions).disk.archives[s].manifest.Some?
    requires f in Run(n, actions).disk.archives[s].manifest.value.copied
    ensures f in Run(n, actions).disk.archives[s].files
  {
    hide Run;
    RunLists(n, actions);
  }

  /** The archived copy of `f` is left alone, or made of the root file where there was none. */
  predicate KeptOrCopied(d: Disk, before: Archive, after: Archive, f: FileName) {
    if f in before.files then f in after.files && after.files[f] == before.files[f]
    else f in after.files ==> f in d.root && after.files[f] == d.root[f]
  }

  lemma Kept(d: Disk, a: Archive, f: FileName)
    ensures KeptOrCopied(d, a, a, f)
  {
  }

  lemma CopyKeepsNested(n: Names, d: Disk, s: SessionId, g: FileName, ok: bool, r: SessionId, f: FileName)
    requires s in d.archives && r in d.archives && f in n.nested
    ensures var t := CopyFile(n, d, s, g, ok).0;
            r in t.archives && KeptOrCopied(d, d.archives[r], t.archives[r], f)
  {
  }

  lemma ManifestsKeepFiles(d: Disk, s: SessionId, m: Manifest, r: SessionId)
    requires s in d.archives && r in d.archives
    ensures r in WriteTemporary(d, s, m).archives && WriteTemporary(d, s, m).archives[r].files == d.archives[r].files
    ensures r in ReplaceManifest(d, s).archives && ReplaceManifest(d, s).archives[r].files == d.archives[r].files
  {
  }

  lemma OthersKeepFiles(n: Names, w: World, ok: bool, newId: SessionId, r: SessionId)
    requires r in w.disk.archives && !(w.pc.Copying? && |w.pc.rest| > 0)
    ensures var t := Advance(n, w, ok, newId);
            r in t.disk.archives && t.disk.archives[r].files == w.disk.archives[r].files
  {
    hide CopyFile, WriteTemporary, ReplaceManifest;
    match w.pc
    case Copying(s, _, copied, _) =>
      if s in w.disk.archives {
        ManifestsKeepFiles(w.disk, s, Manifest(true, copied), r);
      }
    case Marking(s, _) =>
      if s in w.disk.archives {
        ManifestsKeepFiles(w.disk, s, Manifest(true, {}), r);
      }
    case WritingManifest(s) =>
      if s in w.disk.archives {
        ManifestsKeepFiles(w.disk, s, Manifest(false, {}), r);
      }
    case PlacingManifest(s) =>
      if s in w.disk.archives {
        ManifestsKeepFiles(w.disk, s, Manifest(false, {}), r);
      }
    case _ =>
  }

  lemma NestedFileAdvance(n: Names, w: World, ok: bool, newId: SessionId, s: SessionId, f: FileName)
    requires f in n.nested && s in w.disk.archives
    ensures var t := Advance(n, w, ok, newId);
            s in t.disk.archives && KeptOrCopied(w.disk, w.disk.archives[s], t.disk.archives[s], f)
  {
    if w.pc.Copying? && |w.pc.rest| > 0 {
      hide CopyFile, KeptOrCopied;
      Kept(w.disk, w.disk.archives[s], f);
      if w.pc.s in w.disk.archives {
        CopyKeepsNested(n, w.disk, w.pc.s, w.pc.rest[0], ok, s, f);
      }
    } else {
      OthersKeepFiles(n, w, ok, newId, s);
      hide Advance;
    }
  }

  /** In every run, the receiver's own files in an archive only change when the bridge writes them,
      except that one the archive lacks is copied from the root directory. */
  lemma NestedEvidenceStands(n: Names, actions: seq<Action>, a: Action, s: SessionId, f: FileName)
    requires f in n.nested && s in Run(n, actions).disk.archives
    ensures var w := Run(n, actions);
            var t := Next(n, w, a);
            && s in t.disk.archives
            && if a.BridgeWrites? && a.f == f && w.pc == InSession(s) then
                 f in t.disk.archives[s].files && t.disk.archives[s].files[f] == a.lines
               else KeptOrCopied(w.disk, w.disk.archives[s], t.disk.archives[s], f)
  {
    var w := Run(n, actions);
    hide Run;
    if a.Step? {
      NestedFileAdvance(n, w, a.ok, a.newId, s, f);
    }
    hide Advance;
  }

  // ---------- whole calls, uninterrupted ----------

  /** `_copy_session_artifacts` when every copy succeeds. */
  function CopyAll(n: Names, d: Disk, s: SessionId, files: seq<FileName>, copied: set<FileName>): (r: (Disk, set<FileName>))
    requires s in d.archives
    ensures s in r.0.archives
    decreases |files|
  {
    if |files| == 0 then (d, copied)
    else
      var (next, listed) := CopyFile(n, d, s, files[0], true);
      CopyAll(n, next, s, files[1..], if listed then copied + {files[0]} else copied)
  }

  /** `finalize_session_logs` */
  function FinalizeDisk(n: Names, d: Disk, s: SessionId): Disk
    requires s in d.archives
  {
    var (copies, copied) := CopyAll(n, d, s, n.flat + n.nested, {});
    Unpoint(ReplaceManifest(WriteTemporary(copies, s, Manifest(true, copied)), s).(latest := Some(s)), s)
  }

  function TruncateAll(d: Disk, files: seq<FileName>): Disk
    decreases |files|
  {
    if |files| == 0 then d else TruncateAll(Truncate(d, files[0]), files[1..])
  }

  /** `reset_session_logs`; `None` is the error for a session directory that already exists. */
  function ResetDisk(n: Names, d: Disk, newId: SessionId): (Disk, Option<SessionId>) {
    var previous := PointedSession(d);
    var recovered := if previous.Some? then FinalizeDisk(n, d, previous.value) else d;
    var clean := TruncateAll(recovered, n.truncated);
    if newId in clean.archives then (clean, None)
    else
      var made := WithArchive(clean, newId, Archive(map[], None, None));
      var placed := ReplaceManifest(WriteTemporary(made, newId, Manifest(false, {})), newId);
      (placed.(current := Some(newId)), Some(newId))
  }

  /** The session object the backend keeps in memory. */
  class RuntimeLogSession {
    const id: SessionId
    var finalized: bool

    constructor (id: SessionId)
      ensures this.id == id && !finalized
    {
      this.id, finalized := id, false;
    }
  }

  class LogDirectory {
    var root: map<FileName, seq<Line>>
    var archives: map<SessionId, Archive>
    var current: Option<SessionId>
    var latest: Option<SessionId>

    ghost function Value(): Disk
      reads this
    {
      Disk(root, archives, current, latest)
    }

    method CopySessionArtifacts(n: Names, s: SessionId) returns (copied: set<FileName>)
      requires s in archives
      modifies this`archives
      ensures (Value(), copied) == CopyAll(n, old(Value()), s, n.flat + n.nested, {})
    {
      copied := {};
      var files := n.flat + n.nested;
      for i := 0 to |files|
        invariant s in archives
        invariant CopyAll(n, Value(), s, files[i..], copied) == CopyAll(n, old(Value()), s, files, {})
      {
        var f := files[i];
        assert files[i..][0] == f && files[i..][1..] == files[i + 1..];
        if f !in root {
          continue;
        }
        if !(f in n.nested && f in archives[s].files) {
          archives := archives[s := archives[s].(files := archives[s].files[f := root[f]])];
        }
        copied := copied + {f};
      }
    }

    method WriteManifest(s: SessionId, m: Manifest)
      requires s in archives
      modifies this`archives
      ensures Value() == ReplaceManifest(WriteTemporary(old(Value()), s, m), s)
    {
      archives := archives[s := archives[s].(temporary := Some(m))];
      archives := archives[s := archives[s].(manifest := archives[s].temporary, temporary := None)];
    }

    method FinalizeSessionLogs(n: Names, session: RuntimeLogSession?)
      requires session != null ==> session.id in archives
      modifies this, session
      ensures session != null ==> session.finalized
      ensures Value() == if session == null || old(session.finalized) then old(Value())
                         else FinalizeDisk(n, old(Value()), session.id)
    {
      if session == null || session.finalized {
        return;
      }
      var copied := CopySessionArtifacts(n, session.id);
      session.finalized := true;
      WriteManifest(session.id, Manifest(true, copied));
      latest := Some(session.id);
      if current == Some(session.id) {
        current := None;
      }
    }

    method ResetSessionLogs(n: Names, newId: SessionId) returns (session: RuntimeLogSession?)
      modifies this
      ensures (Value(), if session == null then None else Some(session.id)) == ResetDisk(n, old(Value()), newId)
      ensures session != null ==> fresh(session) && !session.finalized
    {
      var pointed := current.Some? && current.value in archives
        && archives[current.value].manifest.Some? && !archives[current.value].manifest.value.finalized;
      if pointed {
        var previous := new RuntimeLogSession(current.value);
        FinalizeSessionLogs(n, previous);
      }
      ghost var recovered := Value();
      for i := 0 to |n.truncated|
        invariant TruncateAll(Value(), n.truncated[i..]) == TruncateAll(recovered, n.truncated)
        invariant archives == recovered.archives
      {
        assert n.truncated[i..][0] == n.truncated[i] && n.truncated[i..][1..] == n.truncated[i + 1..];
        root := root[n.truncated[i] := []];
      }
      if newId in archives {
        return null;
      }
      archives := archives[newId := Archive(map[], None, None)];
      session := new RuntimeLogSession(newId);
      WriteManifest(newId, Manifest(false, {}));
      current := Some(newId);
    }
  }

  lemma {:induction false} CopyAllResult(n: Names, d: Disk, s: SessionId, files: seq<FileName>, copied: set<FileName>)
    requires s in d.archives
    ensures var (r, listed) := CopyAll(n, d, s, files, copied);
            && r.root == d.root && r.current == d.current && r.latest == d.latest
            && r.archives == d.archives[s := r.archives[s]]
            && r.archives[s].manifest == d.archives[s].manifest
            && (forall f :: f in r.archives[s].files <==> f in d.archives[s].files || (f in files && f in d.root))
            && (forall f :: f in files && f in d.root && (f in n.nested ==> f !in d.archives[s].files) ==>
                  f in r.archives[s].files && r.archives[s].files[f] == d.root[f])
            && (forall f :: f in d.archives[s].files && (f !in files || f in n.nested || f !in d.root) ==>
                  f in r.archives[s].files && r.archives[s].files[f] == d.archives[s].files[f])
            && (forall f :: f in listed <==> f in copied || (f in files && f in d.root))
    decreases |files|
  {
    if |files| == 0 {
      assert d.archives == d.archives[s := d.archives[s]];
    } else {
      var (next, ok) := CopyFile(n, d, s, files[0], true);
      CopyTouchesFilesOnly(n, d, s, files[0], true);
      CopyAllResult(n, next, s, files[1..], if ok then copied + {files[0]} else copied);
    }
  }

  /** A finalization that is not interrupted: the archive is marked finalized and holds every
      flat root log whole, and every nested root file it did not have before; all else it had is
      untouched and nothing else is added; the manifest lists exactly the root files of these
      names, and all it lists is there; the pointer no longer names it; nothing else moved. */
  lemma FinalizeResult(n: Names, d: Disk, s: SessionId)
    requires Separate(n) && s in d.archives
    ensures var r := FinalizeDisk(n, d, s);
            && IsFinalized(r, s) && r.root == d.root && r.latest == Some(s)
            && r.current == (if d.current == Some(s) then None else d.current)
            && r.archives == d.archives[s := r.archives[s]]
            && (forall f :: f in n.flat && f in d.root ==>
                  f in r.archives[s].files && r.archives[s].files[f] == d.root[f])
            && (forall f :: f in n.nested && f in d.root && f !in d.archives[s].files ==>
                  f in r.archives[s].files && r.archives[s].files[f] == d.root[f])
            && (forall f :: f in d.archives[s].files && (f !in n.flat || f !in d.root) ==>
                  f in r.archives[s].files && r.archives[s].files[f] == d.archives[s].files[f])
            && (forall f :: f in r.archives[s].files <==>
                  f in d.archives[s].files || (f in n.flat + n.nested && f in d.root))
            && (forall f :: f in r.archives[s].manifest.value.copied <==> f in n.flat + n.nested && f in d.root)
            && r.archives[s].manifest.value.copied <= r.archives[s].files.Keys
  {
    CopyAllResult(n, d, s, n.flat + n.nested, {});
    hide CopyAll;
  }

  lemma {:induction false} TruncateAllResult(d: Disk, files: seq<FileName>)
    ensures var r := TruncateAll(d, files);
            && r.archives == d.archives && r.current == d.current && r.latest == d.latest
            && (forall f :: f in files ==> f in r.root && r.root[f] == [])
            && (forall f :: f !in files && f in d.root ==> f in r.root && r.root[f] == d.root[f])
            && (forall f :: f !in files && f !in d.root ==> f !in r.root)
    decreases |files|
  {
    if |files| > 0 {
      TruncateAllResult(Truncate(d, files[0]), files[1..]);
      assert files == [files[0]] + files[1..];
    }
  }

  /** A start that is not interrupted: a session left unfinalized is finalized with all its
      logs before any is emptied, no other archive and no other root file is touched, and the new
      session is pointed at with an empty archive, unless its directory exists. */
  lemma ResetResult(n: Names, d: Disk, newId: SessionId)
    requires Separate(n)
    ensures var (r, session) := ResetDisk(n, d, newId);
            && session == (if newId in d.archives then None else Some(newId))
            && (forall f :: f in n.truncated ==> f in r.root && r.root[f] == [])
            && (forall f :: f !in n.truncated ==>
                  (f in r.root <==> f in d.root) && (f in d.root ==> r.root[f] == d.root[f]))
            && (PointedSession(d).Some? ==>
                  var s := PointedSession(d).value;
                  && IsFinalized(r, s) && r.latest == Some(s)
                  && s in r.archives && r.archives[s] == FinalizeDisk(n, d, s).archives[s]
                  && forall f :: f in n.flat && f in d.root ==>
                       f in r.archives[s].files && r.archives[s].files[f] == d.root[f])
            && (PointedSession(d).None? ==> r.latest == d.latest)
            && (forall s :: s in d.archives && PointedSession(d) != Some(s) ==>
                  s in r.archives && r.archives[s] == d.archives[s])
            && (forall s :: s in r.archives <==> s in d.archives || session == Some(s))
            && (session.Some? ==>
                  && PointedSession(r) == Some(newId)
                  && r.archives[newId] == Archive(map[], Some(Manifest(false, {})), None))
            && (session.None? ==> r.current == if PointedSession(d).Some? then None else d.current)
  {
    hide FinalizeDisk, TruncateAll;
    var previous := PointedSession(d);
    if previous.Some? {
      FinalizeResult(n, d, previous.value);
    }
    var recovered := if previous.Some? then FinalizeDisk(n, d, previous.value) else d;
    TruncateAllResult(recovered, n.truncated);
    assert recovered.archives.Keys == d.archives.Keys;
  }
}
