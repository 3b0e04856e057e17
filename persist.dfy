/**
 * Persistence: the output root is made, then the assembled artifacts are
 * written below it, in list order, each after passing the path guard and
 * after its directory is made; then the manifest, the debug log and the
 * run metadata. The file system is a set of directories and a map from
 * resolved paths to contents; JSON documents are kept as values, not
 * serialised, and the hash function is a parameter.
 */
module Persist {
  import opened Wrappers
  import opened Values
  import opened State
  import opened Encoding
  import opened PathGuard
  import Paths
  import Workspace
  import Assembly
  import Text

  /** What a file holds: text, or a JSON document. */
  datatype FileData = TextFile(text: string) | JsonFile(doc: Value)

  type Files = map<seq<string>, FileData>

  /**
   * A file system: the files and the directories, each keyed by the
   * resolved components of its path. The root `[]` is always a directory.
   */
  datatype Disk = Disk(files: Files, dirs: set<seq<string>>)

  /** The file system the stage writes to. */
  class FileStore {
    var files: Files
    var dirs: set<seq<string>>

    constructor(files: Files, dirs: set<seq<string>>)
      ensures this.files == files && this.dirs == dirs
    {
      this.files := files;
      this.dirs := dirs;
    }
  }

  /** Why the stage stopped: the path guard rejected an artifact, or the file system refused an operation. */
  datatype PersistError =
    | Rejected(reason: PathError)
    | MkdirFailed(dir: seq<string>)      // a file is at the directory to make, or on the way to it
    | IsADirectory(place: seq<string>)   // the file to write is a directory
    | NoDirectory(dir: seq<string>)      // the directory to write into is missing or is a file

  /** The directory holding `p`; the root holds itself. */
  function Dir(p: seq<string>): seq<string> {
    if p == [] then [] else p[..|p| - 1]
  }

  predicate IsDir(d: Disk, p: seq<string>) {
    p == [] || p in d.dirs
  }

  /** `q` names a directory strictly on the way to `p`. */
  predicate Encloses(q: seq<string>, p: seq<string>) {
    |q| < |p| && p[..|q|] == q
  }

  /** A file sits at `p` or at one of the directories on the way to it. */
  predicate FileOnPath(files: Files, p: seq<string>) {
    exists k :: 1 <= k <= |p| && p[..k] in files
  }

  /** `p` and the directories on the way to it, below the root. */
  function Ancestry(p: seq<string>): set<seq<string>> {
    set k | 1 <= k <= |p| :: p[..k]
  }

  /**
   * `mkdir(parents=True, exist_ok=True)`: refused when a file is in the
   * way; otherwise `p` and every directory above it exist afterwards.
   */
  function MakeDirs(d: Disk, p: seq<string>): Result<Disk, PersistError> {
    if FileOnPath(d.files, p) then Err(MkdirFailed(p)) else Ok(d.(dirs := d.dirs + Ancestry(p)))
  }

  /**
   * `write_text`: refused on a directory, or when the directory to hold
   * the file is missing; otherwise the file is created or replaced.
   */
  function WriteFile(d: Disk, p: seq<string>, data: FileData): Result<Disk, PersistError> {
    if IsDir(d, p) then Err(IsADirectory(p))
    else if !IsDir(d, Dir(p)) then Err(NoDirectory(Dir(p)))
    else Ok(d.(files := d.files[p := data]))
  }

  type Hasher = seq<byte> -> string

  const ManifestName: string := "manifest.lock.json"
  const DebugName: string := "debug.json"
  const MetadataName: string := "metadata.json"

  /** An artifact's fields as the loop reads them, with their defaults. */
  function RelPath(a: Artifact): string { a.path.GetOr("") }
  function ContentOf(a: Artifact): string { a.content.GetOr("") }
  function RoleOf(a: Artifact): string { a.role.GetOr("unknown") }

  /** The manifest entry of one artifact: its size and digest are those of its UTF-8 bytes. */
  function ManifestEntry(a: Artifact, sha256: Hasher): Value {
    var payload := Encode(ContentOf(a));
    Mapping(map["path" := Str(RelPath(a)), "role" := Str(RoleOf(a)),
                "bytes" := Int(|payload|), "sha256" := Str(sha256(payload))])
  }

  /** How far the artifact loop got: the file system, the manifest entries, the written paths, and the error that stopped it. */
  datatype Progress = Progress(disk: Disk, entries: seq<Value>, persisted: seq<string>, failure: Option<PersistError>)

  /** A check that accepts an artifact with the resolved place to write it, or rejects it. */
  type Guard = Artifact -> Result<seq<string>, PathError>

  /** The path guard below `root`, applied to an artifact's path. */
  function GuardAt(root: Paths.PurePath, cwd: seq<string>): Guard {
    a => ValidateArtifactPath(root, RelPath(a), cwd)
  }

  /**
   * One turn of the artifact loop: once stopped it stays stopped;
   * otherwise the guard decides, then the artifact's directory is made,
   * then the file is written.
   */
  function Step(before: Progress, guard: Guard, a: Artifact, sha256: Hasher): (p: Progress)
    ensures before.failure.Some? ==> p == before
    ensures before.failure.None? && p.failure.None? ==>
              && guard(a).Ok?
              && |p.entries| == |before.entries| + 1 && |p.persisted| == |before.persisted| + 1
              && p.disk.files == before.disk.files[guard(a).value := TextFile(ContentOf(a))]
  {
    if before.failure.Some? then before
    else
      match guard(a)
      case Err(e) => before.(failure := Some(Rejected(e)))
      case Ok(fin) =>
        match MakeDirs(before.disk, Dir(fin))
        case Err(e) => before.(failure := Some(e))
        case Ok(made) =>
          match WriteFile(made, fin, TextFile(ContentOf(a)))
          case Err(e) => before.(disk := made, failure := Some(e))
          case Ok(wrote) =>
            Progress(wrote, before.entries + [ManifestEntry(a, sha256)],
                     before.persisted + [Paths.ResolvedStr(fin)], None)
  }

  /** The artifact loop over `arts`: it stops at the first artifact that cannot be written. */
  function Written(d: Disk, guard: Guard, arts: seq<Artifact>, sha256: Hasher): (p: Progress)
    ensures p.failure.None? ==> |p.entries| == |arts| && |p.persisted| == |arts|
    decreases |arts|
  {
    if arts == [] then Progress(d, [], [], None)
    else Step(Written(d, guard, arts[..|arts| - 1], sha256), guard, arts[|arts| - 1], sha256)
  }

  /** The loop over one more artifact is one more step. */
  lemma {:induction false} WrittenPrefix(d: Disk, guard: Guard, arts: seq<Artifact>, i: nat, sha256: Hasher)
    requires i < |arts|
    ensures Written(d, guard, arts[..i + 1], sha256) == Step(Written(d, guard, arts[..i], sha256), guard, arts[i], sha256)
  {
    assert arts[..i + 1][..i] == arts[..i];
  }

  /** A debug log entry as the debug file records it; timestamps and durations are not modelled. */
  function LogValue(e: LogEntry): Value {
    Mapping(map["node" := Str(e.node), "input" := e.input, "output" := e.output, "metadata" := e.metadata])
  }

  function LogValues(logs: seq<LogEntry>): (r: seq<Value>)
    ensures |r| == |logs|
    ensures forall i :: 0 <= i < |logs| ==> r[i] == LogValue(logs[i])
  {
    seq(|logs|, i requires 0 <= i < |logs| => LogValue(logs[i]))
  }

  function RunDir(s: AgentState): string { s.runDir.GetOr("./output") }
  function RunPath(s: AgentState): Paths.PurePath { Paths.Parse(RunDir(s)) }
  function OutputRoot(s: AgentState): Paths.PurePath { Paths.Parse(Workspace.GetWorkspace(s).outputRoot) }
  function ArtifactsOf(s: AgentState): seq<Artifact> { s.artifacts.GetOr([]) }

  function ManifestDoc(s: AgentState, entries: seq<Value>): Value {
    var w := Workspace.GetWorkspace(s);
    Mapping(map["project_name" := Str(w.projectName), "target" := Str(w.target),
                "active_skills" := StrList(s.activeSkills.GetOr([])), "artifacts" := List(entries)])
  }

  function MetadataDoc(s: AgentState): Value {
    var w := Workspace.GetWorkspace(s);
    Mapping(map["task_name" := Str(s.taskName.GetOr("unknown")), "prompt_file" := Str(s.promptFile.GetOr("unknown")),
                "project_name" := Str(w.projectName), "active_skills" := StrList(s.activeSkills.GetOr([])),
                "output_type" := Str(w.target), "requirements" := Str(s.requirements.GetOr(""))])
  }

  /** The resolved output root and run directory. */
  function RootKey(s: AgentState, cwd: seq<string>): seq<string> {
    Paths.Resolve(cwd, OutputRoot(s))
  }
  function RunKey(s: AgentState, cwd: seq<string>): seq<string> {
    Paths.Resolve(cwd, RunPath(s))
  }

  /** The three run-level files and their resolved places. */
  function ManifestKey(s: AgentState, cwd: seq<string>): seq<string> {
    Paths.Resolve(cwd, Paths.JoinStr(OutputRoot(s), ManifestName))
  }
  function DebugKey(s: AgentState, cwd: seq<string>): seq<string> {
    Paths.Resolve(cwd, Paths.JoinStr(RunPath(s), DebugName))
  }
  function MetadataKey(s: AgentState, cwd: seq<string>): seq<string> {
    Paths.Resolve(cwd, Paths.JoinStr(RunPath(s), MetadataName))
  }

  /** The files after a run whose every write succeeded. */
  function RunFiles(files: Files, s: AgentState, cwd: seq<string>, entries: seq<Value>): Files {
    files[ManifestKey(s, cwd) := JsonFile(ManifestDoc(s, entries))]
         [DebugKey(s, cwd) := JsonFile(List(LogValues(s.debugLogs)))]
         [MetadataKey(s, cwd) := JsonFile(MetadataDoc(s))]
  }

  /** The stage's update after a complete run. */
  function PersistUpdate(s: AgentState, persisted: seq<string>): AgentState {
    Blank.(manifestPath := Some(Paths.Str(Paths.JoinStr(OutputRoot(s), ManifestName))),
           persistedPaths := Some(persisted),
           statusMsg := Some("Project generated at " + Paths.Str(RunPath(s))))
  }

  /** What `persist_node` returns or raises, and the file system it leaves. */
  datatype Outcome = Outcome(result: Result<AgentState, PersistError>, disk: Disk)

  /** The three run-level writes after a complete artifact loop; the first refusal ends the stage. */
  function RunLevel(p: Progress, s: AgentState, cwd: seq<string>): Outcome {
    match WriteFile(p.disk, ManifestKey(s, cwd), JsonFile(ManifestDoc(s, p.entries)))
    case Err(e) => Outcome(Err(e), p.disk)
    case Ok(d2) =>
      match WriteFile(d2, DebugKey(s, cwd), JsonFile(List(LogValues(s.debugLogs))))
      case Err(e) => Outcome(Err(e), d2)
      case Ok(d3) =>
        match WriteFile(d3, MetadataKey(s, cwd), JsonFile(MetadataDoc(s)))
        case Err(e) => Outcome(Err(e), d3)
        case Ok(d4) => Outcome(Ok(PersistUpdate(s, p.persisted)), d4)
  }

  /** `persist_node` on the file system `d`: the output root, the artifact loop, then the run-level files. */
  function Persisted(d: Disk, s: AgentState, cwd: seq<string>, sha256: Hasher): Outcome {
    match MakeDirs(d, RootKey(s, cwd))
    case Err(e) => Outcome(Err(e), d)
    case Ok(made) =>
      var p := Written(made, GuardAt(OutputRoot(s), cwd), ArtifactsOf(s), sha256);
      if p.failure.Some? then Outcome(Err(p.failure.value), p.disk)
      else RunLevel(p, s, cwd)
  }

  /** The artifact loop of `persist_node`: each artifact is guarded, its directory made, then its file written. */
  method WriteArtifacts(fs: FileStore, root: Paths.PurePath, cwd: seq<string>, arts: seq<Artifact>, sha256: Hasher)
      returns (p: Progress)
    modifies fs
    ensures p == Written(old(Disk(fs.files, fs.dirs)), GuardAt(root, cwd), arts, sha256)
    ensures Disk(fs.files, fs.dirs) == p.disk
  {
    ghost var d0 := Disk(fs.files, fs.dirs);
    ghost var guard := GuardAt(root, cwd);
    var entries: seq<Value> := [];
    var persisted: seq<string> := [];
    for i := 0 to |arts|
      invariant Written(d0, guard, arts[..i], sha256) == Progress(Disk(fs.files, fs.dirs), entries, persisted, None)
    {
      var a := arts[i];
      ghost var before := Progress(Disk(fs.files, fs.dirs), entries, persisted, None);
      var checked := ValidateArtifactPath(root, RelPath(a), cwd);
      assert checked == guard(a);
      WrittenPrefix(d0, guard, arts, i, sha256);
      if checked.Err? {
        assert Step(before, guard, a, sha256) == before.(failure := Some(Rejected(checked.error)));
        WrittenStopped(d0, guard, arts, i + 1, sha256);
        return Progress(Disk(fs.files, fs.dirs), entries, persisted, Some(Rejected(checked.error)));
      }
      var made := MakeDirs(Disk(fs.files, fs.dirs), Dir(checked.value));
      if made.Err? {
        assert Step(before, guard, a, sha256) == before.(failure := Some(made.error));
        WrittenStopped(d0, guard, arts, i + 1, sha256);
        return Progress(Disk(fs.files, fs.dirs), entries, persisted, Some(made.error));
      }
      fs.files, fs.dirs := made.value.files, made.value.dirs;
      var wrote := WriteFile(made.value, checked.value, TextFile(ContentOf(a)));
      if wrote.Err? {
        assert Step(before, guard, a, sha256) == before.(disk := made.value, failure := Some(wrote.error));
        WrittenStopped(d0, guard, arts, i + 1, sha256);
        return Progress(made.value, entries, persisted, Some(wrote.error));
      }
      assert Step(before, guard, a, sha256) ==
             Progress(wrote.value, entries + [ManifestEntry(a, sha256)], persisted + [Paths.ResolvedStr(checked.value)], None);
      fs.files, fs.dirs := wrote.value.files, wrote.value.dirs;
      entries := entries + [ManifestEntry(a, sha256)];
      persisted := persisted + [Paths.ResolvedStr(checked.value)];
    }
    assert arts[..|arts|] == arts;
    p := Progress(Disk(fs.files, fs.dirs), entries, persisted, None);
  }

  /**
   * `persist_node` against the file store `fs`: the result and the file
   * system it leaves are those of `Persisted` on the old file system.
   */
  method PersistNode(fs: FileStore, s: AgentState, cwd: seq<string>, sha256: Hasher) returns (r: Result<AgentState, PersistError>)
    modifies fs
    ensures Outcome(r, Disk(fs.files, fs.dirs)) == Persisted(old(Disk(fs.files, fs.dirs)), s, cwd, sha256)
  {
    var root := MakeDirs(Disk(fs.files, fs.dirs), RootKey(s, cwd));
    if root.Err? {
      return Err(root.error);
    }
    fs.files, fs.dirs := root.value.files, root.value.dirs;
    var p := WriteArtifacts(fs, OutputRoot(s), cwd, ArtifactsOf(s), sha256);
    if p.failure.Some? {
      return Err(p.failure.value);
    }
    var w := WriteFile(Disk(fs.files, fs.dirs), ManifestKey(s, cwd), JsonFile(ManifestDoc(s, p.entries)));
    if w.Err? {
      return Err(w.error);
    }
    fs.files, fs.dirs := w.value.files, w.value.dirs;
    w := WriteFile(Disk(fs.files, fs.dirs), DebugKey(s, cwd), JsonFile(List(LogValues(s.debugLogs))));
    if w.Err? {
      return Err(w.error);
    }
    fs.files, fs.dirs := w.value.files, w.value.dirs;
    w := WriteFile(Disk(fs.files, fs.dirs), MetadataKey(s, cwd), JsonFile(MetadataDoc(s)));
    if w.Err? {
      return Err(w.error);
    }
    fs.files, fs.dirs := w.value.files, w.value.dirs;
    r := Ok(PersistUpdate(s, p.persisted));
  }

  // ----- lemmas -----

  /** Once the loop has stopped, later artifacts change nothing. */
  lemma {:induction false} WrittenStopped(d: Disk, guard: Guard, arts: seq<Artifact>, k: nat, sha256: Hasher)
    requires k <= |arts|
    requires Written(d, guard, arts[..k], sha256).failure.Some?
    ensures Written(d, guard, arts, sha256) == Written(d, guard, arts[..k], sha256)
    decreases |arts| - k
  {
    if k < |arts| {
      assert arts[..|arts| - 1][..k] == arts[..k];
      WrittenStopped(d, guard, arts[..|arts| - 1], k, sha256);
    } else {
      assert arts[..k] == arts;
    }
  }

  predicate AllPass(guard: Guard, arts: seq<Artifact>) {
    forall i :: 0 <= i < |arts| ==> guard(arts[i]).Ok?
  }

  lemma {:induction false} AllPassSnoc(guard: Guard, arts: seq<Artifact>)
    requires arts != []
    ensures AllPass(guard, arts) <==> AllPass(guard, arts[..|arts| - 1]) && guard(arts[|arts| - 1]).Ok?
  {
    var front := arts[..|arts| - 1];
    assert forall i :: 0 <= i < |front| ==> front[i] == arts[i];
    if AllPass(guard, front) && guard(arts[|arts| - 1]).Ok? {
      forall i | 0 <= i < |arts| ensures guard(arts[i]).Ok? {
        if i < |front| { assert guard(front[i]).Ok?; }
      }
    }
  }

  /** The places the accepted artifacts go to. */
  function Targets(guard: Guard, arts: seq<Artifact>): set<seq<string>>
    decreases |arts|
  {
    if arts == [] then {}
    else
      var a := arts[|arts| - 1];
      Targets(guard, arts[..|arts| - 1]) + (if guard(a).Ok? then {guard(a).value} else {})
  }

  /** The directories made above them. */
  function Folders(guard: Guard, arts: seq<Artifact>): set<seq<string>>
    decreases |arts|
  {
    if arts == [] then {}
    else
      var a := arts[|arts| - 1];
      Folders(guard, arts[..|arts| - 1]) + (if guard(a).Ok? then Ancestry(Dir(guard(a).value)) else {})
  }

  /** A file can be written at `p`: it is not a directory, and no file is on the way to it. */
  predicate Writable(d: Disk, p: seq<string>) {
    !IsDir(d, p) && !FileOnPath(d.files, Dir(p))
  }

  /** No accepted place in `arts` lies on the way to `p`, and `p` lies on the way to none of them. */
  ghost predicate Apart(guard: Guard, arts: seq<Artifact>, p: seq<string>) {
    forall j :: 0 <= j < |arts| && guard(arts[j]).Ok? ==>
      !Encloses(p, guard(arts[j]).value) && !Encloses(guard(arts[j]).value, p)
  }

  /**
   * The whole list can be written on `d`: every artifact passes the guard,
   * every place can be written on `d`, and no place lies on the way to another.
   */
  ghost predicate Clear(d: Disk, guard: Guard, arts: seq<Artifact>) {
    && AllPass(guard, arts)
    && (forall i :: 0 <= i < |arts| ==> Writable(d, guard(arts[i]).value))
    && (forall i, j :: 0 <= i < |arts| && 0 <= j < |arts| ==> !Encloses(guard(arts[i]).value, guard(arts[j]).value))
  }

  /** The directories above `p` are exactly the non-empty paths on the way to it. */
  lemma {:induction false} InAncestryDir(q: seq<string>, p: seq<string>)
    ensures q in Ancestry(Dir(p)) <==> 1 <= |q| && Encloses(q, p)
  {
    var D := Dir(p);
    if q in Ancestry(D) {
      var k :| 1 <= k <= |D| && D[..k] == q;
      assert p[..k] == D[..k];
    }
    if 1 <= |q| && Encloses(q, p) {
      assert D[..|q|] == p[..|q|];
    }
  }

  lemma {:induction false} InTargets(guard: Guard, arts: seq<Artifact>, q: seq<string>)
    requires AllPass(guard, arts)
    ensures q in Targets(guard, arts) <==> exists j :: 0 <= j < |arts| && guard(arts[j]).value == q
    decreases |arts|
  {
    if arts != [] {
      var front := arts[..|arts| - 1];
      AllPassSnoc(guard, arts);
      InTargets(guard, front, q);
      if q in Targets(guard, front) {
        var j :| 0 <= j < |front| && guard(front[j]).value == q;
        assert arts[j] == front[j];
      }
      if exists j :: 0 <= j < |arts| && guard(arts[j]).value == q {
        var j :| 0 <= j < |arts| && guard(arts[j]).value == q;
        if j < |front| { assert front[j] == arts[j]; }
      }
    }
  }

  lemma {:induction false} InFolders(guard: Guard, arts: seq<Artifact>, q: seq<string>)
    requires AllPass(guard, arts)
    ensures q in Folders(guard, arts) <==> 1 <= |q| && exists j :: 0 <= j < |arts| && Encloses(q, guard(arts[j]).value)
    decreases |arts|
  {
    if arts != [] {
      var front, a := arts[..|arts| - 1], arts[|arts| - 1];
      AllPassSnoc(guard, arts);
      InFolders(guard, front, q);
      InAncestryDir(q, guard(a).value);
      if q in Folders(guard, front) {
        var j :| 0 <= j < |front| && Encloses(q, guard(front[j]).value);
        assert arts[j] == front[j];
      }
      if 1 <= |q| && exists j :: 0 <= j < |arts| && Encloses(q, guard(arts[j]).value) {
        var j :| 0 <= j < |arts| && Encloses(q, guard(arts[j]).value);
        if j < |front| { assert front[j] == arts[j]; }
      }
    }
  }

  /** After the loop over `front`, a directory is one `d` had or one on the way to an accepted place. */
  lemma {:induction false} DirTraced(d: Disk, guard: Guard, front: seq<Artifact>, wd: Disk, p: seq<string>)
    requires AllPass(guard, front)
    requires wd.dirs == d.dirs + Folders(guard, front)
    ensures IsDir(wd, p) <==> IsDir(d, p) || exists j :: 0 <= j < |front| && Encloses(p, guard(front[j]).value)
  {
    InFolders(guard, front, p);
  }

  /** After the loop over `front`, a file on the way to `p` is one `d` had or an accepted place on the way to `p`. */
  lemma {:induction false} FilesTraced(d: Disk, guard: Guard, front: seq<Artifact>, wd: Disk, p: seq<string>)
    requires AllPass(guard, front)
    requires forall j :: 0 <= j < |front| ==> guard(front[j]).value != []
    requires wd.files.Keys == d.files.Keys + Targets(guard, front)
    ensures FileOnPath(wd.files, Dir(p)) <==>
            FileOnPath(d.files, Dir(p)) || exists j :: 0 <= j < |front| && Encloses(guard(front[j]).value, p)
  {
    var D := Dir(p);
    if FileOnPath(wd.files, D) {
      var k :| 1 <= k <= |D| && D[..k] in wd.files;
      if D[..k] !in d.files {
        InTargets(guard, front, D[..k]);
        var j :| 0 <= j < |front| && guard(front[j]).value == D[..k];
        assert p[..k] == D[..k];
        assert Encloses(guard(front[j]).value, p);
      }
    }
    if FileOnPath(d.files, D) {
      var k :| 1 <= k <= |D| && D[..k] in d.files;
      assert D[..k] in wd.files;
    }
    if exists j :: 0 <= j < |front| && Encloses(guard(front[j]).value, p) {
      var j :| 0 <= j < |front| && Encloses(guard(front[j]).value, p);
      var q := guard(front[j]).value;
      InTargets(guard, front, q);
      assert D[..|q|] == q;
      assert D[..|q|] in wd.files;
    }
  }

  /** After a clear loop over `front`, `p` can be written exactly when it could on `d` and is apart from the places written. */
  lemma {:induction false} WritableTraced(d: Disk, guard: Guard, front: seq<Artifact>, wd: Disk, p: seq<string>)
    requires Clear(d, guard, front)
    requires wd.files.Keys == d.files.Keys + Targets(guard, front)
    requires wd.dirs == d.dirs + Folders(guard, front)
    ensures Writable(wd, p) <==> Writable(d, p) && Apart(guard, front, p)
  {
    forall j | 0 <= j < |front| ensures guard(front[j]).value != [] {
      assert Writable(d, guard(front[j]).value);
    }
    DirTraced(d, guard, front, wd, p);
    FilesTraced(d, guard, front, wd, p);
  }

  /** One step on accepted artifact `a` succeeds exactly when its place can be written; it then writes the file and makes the directories above it. */
  lemma {:induction false} StepOutcome(before: Progress, guard: Guard, a: Artifact, sha256: Hasher)
    requires before.failure.None? && guard(a).Ok?
    ensures Step(before, guard, a, sha256).failure.None? <==> Writable(before.disk, guard(a).value)
    ensures Step(before, guard, a, sha256).failure.None? ==>
              Step(before, guard, a, sha256).disk ==
              Disk(before.disk.files[guard(a).value := TextFile(ContentOf(a))],
                   before.disk.dirs + Ancestry(Dir(guard(a).value)))
  {
    var fin := guard(a).value;
    var D := Dir(fin);
    if !FileOnPath(before.disk.files, D) {
      var made := before.disk.(dirs := before.disk.dirs + Ancestry(D));
      assert fin !in Ancestry(D) by {
        forall k | 1 <= k <= |D| ensures D[..k] != fin {
          assert |D[..k]| < |fin|;
        }
      }
      assert IsDir(made, D) by {
        if D != [] { assert D[..|D|] == D; }
      }
    }
  }

  lemma {:induction false} ClearSnoc(d: Disk, guard: Guard, arts: seq<Artifact>)
    requires arts != []
    ensures var front, a := arts[..|arts| - 1], arts[|arts| - 1];
            Clear(d, guard, arts) <==>
            Clear(d, guard, front) && guard(a).Ok? && Writable(d, guard(a).value) && Apart(guard, front, guard(a).value)
  {
    var front, a := arts[..|arts| - 1], arts[|arts| - 1];
    var n := |front|;
    AllPassSnoc(guard, arts);
    assert forall i :: 0 <= i < n ==> front[i] == arts[i];
    if Clear(d, guard, front) && guard(a).Ok? && Writable(d, guard(a).value) && Apart(guard, front, guard(a).value) {
      forall i | 0 <= i < |arts| ensures Writable(d, guard(arts[i]).value) {
        if i < n { assert arts[i] == front[i]; }
      }
      forall i, j | 0 <= i < |arts| && 0 <= j < |arts|
        ensures !Encloses(guard(arts[i]).value, guard(arts[j]).value)
      {
        if i < n { assert arts[i] == front[i]; }
        if j < n { assert arts[j] == front[j]; }
      }
    }
    if Clear(d, guard, arts) {
      forall i | 0 <= i < n ensures Writable(d, guard(front[i]).value) {
        assert Writable(d, guard(arts[i]).value);
      }
      forall i, j | 0 <= i < n && 0 <= j < n
        ensures !Encloses(guard(front[i]).value, guard(front[j]).value)
      {
        assert !Encloses(guard(arts[i]).value, guard(arts[j]).value);
      }
      forall j | 0 <= j < n && guard(front[j]).Ok?
        ensures !Encloses(guard(a).value, guard(front[j]).value) && !Encloses(guard(front[j]).value, guard(a).value)
      {
        assert !Encloses(guard(arts[n]).value, guard(arts[j]).value);
        assert !Encloses(guard(arts[j]).value, guard(arts[n]).value);
      }
    }
  }

  /**
   * The loop completes exactly when the list is clear on the starting file
   * system. It then records, for each artifact in order, its resolved path
   * and its manifest entry, leaves files exactly at the old places and the
   * artifacts' places, and adds exactly the directories above the artifacts.
   */
  lemma {:induction false} WrittenInOrder(d: Disk, guard: Guard, arts: seq<Artifact>, sha256: Hasher)
    ensures Written(d, guard, arts, sha256).failure.None? <==> Clear(d, guard, arts)
    ensures Clear(d, guard, arts) ==>
              && (forall i :: 0 <= i < |arts| ==>
                    && Written(d, guard, arts, sha256).persisted[i] == Paths.ResolvedStr(guard(arts[i]).value)
                    && Written(d, guard, arts, sha256).entries[i] == ManifestEntry(arts[i], sha256))
              && Written(d, guard, arts, sha256).disk.files.Keys == d.files.Keys + Targets(guard, arts)
              && Written(d, guard, arts, sha256).disk.dirs == d.dirs + Folders(guard, arts)
    decreases |arts|
  {
    if arts != [] {
      var front, a := arts[..|arts| - 1], arts[|arts| - 1];
      WrittenInOrder(d, guard, front, sha256);
      ClearSnoc(d, guard, arts);
      var before := Written(d, guard, front, sha256);
      assert Written(d, guard, arts, sha256) == Step(before, guard, a, sha256);
      if before.failure.None? && guard(a).Ok? {
        StepOutcome(before, guard, a, sha256);
        WritableTraced(d, guard, front, before.disk, guard(a).value);
        if Step(before, guard, a, sha256).failure.None? {
          StepRecords(d, before, guard, arts, front, sha256);
        }
      }
    }
  }

  /** A successful step after a clear loop over `front` extends its records and its file system by the last artifact. */
  lemma {:induction false} StepRecords(d: Disk, before: Progress, guard: Guard, arts: seq<Artifact>, front: seq<Artifact>, sha256: Hasher)
    requires arts != [] && front == arts[..|arts| - 1] && AllPass(guard, arts)
    requires before.failure.None? && |before.persisted| == |front| && |before.entries| == |front|
    requires forall i :: 0 <= i < |front| ==>
               && before.persisted[i] == Paths.ResolvedStr(guard(front[i]).value)
               && before.entries[i] == ManifestEntry(front[i], sha256)
    requires before.disk.files.Keys == d.files.Keys + Targets(guard, front)
    requires before.disk.dirs == d.dirs + Folders(guard, front)
    requires Step(before, guard, arts[|arts| - 1], sha256).failure.None?
    ensures var p := Step(before, guard, arts[|arts| - 1], sha256);
            && (forall i :: 0 <= i < |arts| ==>
                  && p.persisted[i] == Paths.ResolvedStr(guard(arts[i]).value)
                  && p.entries[i] == ManifestEntry(arts[i], sha256))
            && p.disk.files.Keys == d.files.Keys + Targets(guard, arts)
            && p.disk.dirs == d.dirs + Folders(guard, arts)
  {
    var a := arts[|arts| - 1];
    assert guard(a).Ok?;
    StepOutcome(before, guard, a, sha256);
    var p := Step(before, guard, a, sha256);
    assert p.persisted == before.persisted + [Paths.ResolvedStr(guard(a).value)];
    assert p.entries == before.entries + [ManifestEntry(a, sha256)];
    forall i | 0 <= i < |arts|
      ensures p.persisted[i] == Paths.ResolvedStr(guard(arts[i]).value)
      ensures p.entries[i] == ManifestEntry(arts[i], sha256)
    {
      if i < |front| { assert arts[i] == front[i]; }
    }
  }

  /** Two accepted artifacts one of whose places lies on the way to the other's stop the loop, in either order. */
  lemma {:induction false} NestedPlacesFail(d: Disk, guard: Guard, arts: seq<Artifact>, i: nat, j: nat, sha256: Hasher)
    requires i < |arts| && j < |arts| && guard(arts[i]).Ok? && guard(arts[j]).Ok?
    requires Encloses(guard(arts[i]).value, guard(arts[j]).value)
    ensures Written(d, guard, arts, sha256).failure.Some?
  {
    WrittenInOrder(d, guard, arts, sha256);
  }

  /** So a file "main" next to "main/main.c" is never written completely, whichever comes first. */
  lemma {:induction false} FileAndFolderClash(d: Disk, root: Paths.PurePath, cwd: seq<string>, a: Artifact, b: Artifact, sha256: Hasher)
    requires RelPath(a) == "main" && RelPath(b) == Assembly.EspIdfCodePath
    ensures Written(d, GuardAt(root, cwd), [a, b], sha256).failure.Some?
    ensures Written(d, GuardAt(root, cwd), [b, a], sha256).failure.Some?
  {
    var guard := GuardAt(root, cwd);
    MainPlaces(root, cwd, a, b);
    assert [a, b][0] == a && [a, b][1] == b;
    assert [b, a][0] == b && [b, a][1] == a;
    NestedPlacesFail(d, guard, [a, b], 0, 1, sha256);
    NestedPlacesFail(d, guard, [b, a], 1, 0, sha256);
  }

  lemma {:induction false} MainPlaces(root: Paths.PurePath, cwd: seq<string>, a: Artifact, b: Artifact)
    requires RelPath(a) == "main" && RelPath(b) == Assembly.EspIdfCodePath
    ensures GuardAt(root, cwd)(a).Ok? && GuardAt(root, cwd)(b).Ok?
    ensures Encloses(GuardAt(root, cwd)(a).value, GuardAt(root, cwd)(b).value)
  {
    MainFolderPlace(root, cwd, a);
    MainFilePlace(root, cwd, b);
    EnclosesBelow(Paths.Resolve(cwd, root), ["main"], ["main", "main.c"]);
  }

  lemma {:induction false} MainFolderPlace(root: Paths.PurePath, cwd: seq<string>, a: Artifact)
    requires RelPath(a) == "main"
    ensures GuardAt(root, cwd)(a) == Ok(Paths.Resolve(cwd, root) + ["main"])
  {
    MainFolderFacts(RelPath(a));
    GuardAtPlaces(root, cwd, a);
  }

  lemma {:induction false} MainFolderFacts(rel: string)
    requires rel == "main"
    ensures Acceptable(rel) && Paths.Parse(rel).parts == ["main"]
  {
    Paths.ParseComponent("main");
    OneAcceptable("main");
  }

  lemma {:induction false} MainFilePlace(root: Paths.PurePath, cwd: seq<string>, b: Artifact)
    requires RelPath(b) == Assembly.EspIdfCodePath
    ensures GuardAt(root, cwd)(b) == Ok(Paths.Resolve(cwd, root) + ["main", "main.c"])
  {
    MainFileFacts(RelPath(b));
    GuardAtPlaces(root, cwd, b);
  }

  lemma {:induction false} MainFileFacts(rel: string)
    requires rel == Assembly.EspIdfCodePath
    ensures Acceptable(rel) && Paths.Parse(rel).parts == ["main", "main.c"]
  {
    MainFileSpelling();
    TwoPlaced(rel, "main", "main.c");
  }

  /** A path of two components apart from ".." and not starting with whitespace is acceptable, with those parts. */
  lemma {:induction false} TwoPlaced(rel: string, a: string, b: string)
    requires rel == a + "/" + b
    requires Paths.IsComponent(a) && Paths.IsComponent(b) && |a| != 2 && |b| != 2 && !Text.IsSpace(a[0])
    ensures Acceptable(rel) && Paths.Parse(rel).parts == [a, b]
  {
    TwoAcceptable(a, b);
    ParseTwo(a, b);
  }

  /**
   * At the first rejected artifact the loop stops with the guard's error,
   * keeping exactly what the artifacts before it wrote.
   */
  lemma {:induction false} FirstRejectionStops(d: Disk, guard: Guard, arts: seq<Artifact>, k: nat, sha256: Hasher)
    requires k < |arts| && Written(d, guard, arts[..k], sha256).failure.None? && guard(arts[k]).Err?
    ensures Written(d, guard, arts, sha256) ==
            Written(d, guard, arts[..k], sha256).(failure := Some(Rejected(guard(arts[k]).error)))
  {
    WrittenPrefix(d, guard, arts, k, sha256);
    WrittenStopped(d, guard, arts, k + 1, sha256);
  }

  /** Files at places the guard never hands out are left as they were, whether or not the loop completes. */
  lemma {:induction false} OnlyTargetsWritten(d: Disk, guard: Guard, arts: seq<Artifact>, sha256: Hasher, key: seq<string>)
    requires forall i :: 0 <= i < |arts| ==> guard(arts[i]) != Ok(key)
    ensures key in Written(d, guard, arts, sha256).disk.files <==> key in d.files
    ensures key in d.files ==> Written(d, guard, arts, sha256).disk.files[key] == d.files[key]
    decreases |arts|
  {
    if arts != [] {
      var front := arts[..|arts| - 1];
      assert forall i :: 0 <= i < |front| ==> front[i] == arts[i];
      OnlyTargetsWritten(d, guard, front, sha256, key);
      assert guard(arts[|arts| - 1]) != Ok(key);
    }
  }

  /** The guard passes `a` and `files` holds its content at the place the guard gives. */
  ghost predicate Placed(files: Files, guard: Guard, a: Artifact) {
    guard(a).Ok? && guard(a).value in files && files[guard(a).value] == TextFile(ContentOf(a))
  }

  /** With distinct places, a completed loop leaves each artifact's content at its place. */
  lemma {:induction false} EachArtifactWritten(d: Disk, guard: Guard, arts: seq<Artifact>, sha256: Hasher)
    requires Written(d, guard, arts, sha256).failure.None?
    requires forall i, j :: 0 <= i < j < |arts| ==> guard(arts[i]) != guard(arts[j])
    ensures forall i :: 0 <= i < |arts| ==> Placed(Written(d, guard, arts, sha256).disk.files, guard, arts[i])
    decreases |arts|
  {
    if arts != [] {
      var front, a := arts[..|arts| - 1], arts[|arts| - 1];
      assert forall i :: 0 <= i < |front| ==> front[i] == arts[i];
      var before := Written(d, guard, front, sha256);
      assert before.failure.None?;
      EachArtifactWritten(d, guard, front, sha256);
      var after := Written(d, guard, arts, sha256).disk.files;
      assert after == before.disk.files[guard(a).value := TextFile(ContentOf(a))];
      forall i | 0 <= i < |arts| ensures Placed(after, guard, arts[i]) {
        if i < |front| {
          PlacedKept(before.disk.files, guard, arts[i], a);
        }
      }
    }
  }

  /** Writing `a` keeps every other artifact's content at its own, different, place. */
  lemma {:induction false} PlacedKept(files: Files, guard: Guard, x: Artifact, a: Artifact)
    requires Placed(files, guard, x) && guard(a).Ok? && guard(x) != guard(a)
    ensures Placed(files[guard(a).value := TextFile(ContentOf(a))], guard, x)
  {
  }

  /** The path guard passes an artifact exactly when its path is acceptable, and places it below the resolved root. */
  lemma {:induction false} GuardAtPlaces(root: Paths.PurePath, cwd: seq<string>, a: Artifact)
    ensures GuardAt(root, cwd)(a).Ok? <==> Acceptable(RelPath(a))
    ensures Acceptable(RelPath(a)) ==> GuardAt(root, cwd)(a).value == Paths.Resolve(cwd, root) + Paths.Parse(RelPath(a)).parts
  {
    GuardAccepts(root, RelPath(a), cwd);
  }

  predicate AllAcceptable(arts: seq<Artifact>) {
    forall i :: 0 <= i < |arts| ==> Acceptable(RelPath(arts[i]))
  }

  /** A common root does not change which path lies on the way to which. */
  lemma {:induction false} EnclosesBelow(r: seq<string>, x: seq<string>, y: seq<string>)
    ensures Encloses(r + x, r + y) <==> Encloses(x, y)
  {
    if |x| < |y| {
      assert (r + y)[..|r + x|] == r + y[..|x|];
      if (r + y)[..|r + x|] == r + x {
        assert y[..|x|] == (r + y)[..|r + x|][|r|..];
      }
    }
  }

  /** The relative components of an artifact's path. */
  function Components(a: Artifact): seq<string> {
    Paths.Parse(RelPath(a)).parts
  }

  /**
   * A list whose every path is acceptable, none of whose paths lies on the
   * way to another, and whose places can each be written, is written completely.
   */
  lemma {:induction false} AcceptableAllWritten(d: Disk, root: Paths.PurePath, cwd: seq<string>, arts: seq<Artifact>, sha256: Hasher)
    requires AllAcceptable(arts)
    requires forall i :: 0 <= i < |arts| ==> Writable(d, Paths.Resolve(cwd, root) + Components(arts[i]))
    requires forall i, j :: 0 <= i < |arts| && 0 <= j < |arts| ==> !Encloses(Components(arts[i]), Components(arts[j]))
    ensures Written(d, GuardAt(root, cwd), arts, sha256).failure.None?
  {
    var guard, r := GuardAt(root, cwd), Paths.Resolve(cwd, root);
    forall i | 0 <= i < |arts| ensures guard(arts[i]).Ok? && guard(arts[i]).value == r + Components(arts[i]) {
      GuardAtPlaces(root, cwd, arts[i]);
    }
    forall i, j | 0 <= i < |arts| && 0 <= j < |arts| ensures !Encloses(guard(arts[i]).value, guard(arts[j]).value) {
      EnclosesBelow(r, Components(arts[i]), Components(arts[j]));
    }
    WrittenInOrder(d, guard, arts, sha256);
  }

  /** A manifest entry's byte count is the UTF-8 length of the content, and the length itself for ASCII text. */
  lemma {:induction false} ManifestBytes(a: Artifact, sha256: Hasher)
    ensures ManifestEntry(a, sha256).entries["bytes"] == Int(ByteLength(ContentOf(a)))
    ensures IsAscii(ContentOf(a)) ==> ManifestEntry(a, sha256).entries["bytes"] == Int(|ContentOf(a)|)
  {
    EncodeLength(ContentOf(a));
    if IsAscii(ContentOf(a)) { AsciiLength(ContentOf(a)); }
  }

  /** An artifact without a path is rejected as empty. */
  lemma {:induction false} MissingPathRejected(root: Paths.PurePath, cwd: seq<string>, a: Artifact)
    requires a.path.None?
    ensures ValidateArtifactPath(root, RelPath(a), cwd) == Err(EmptyPath)
  {
    assert Paths.Segments("") == [[]];
    assert Paths.Parse("") == Paths.PurePath("", []);
    GuardRejectsInOrder(root, "", cwd);
  }

  /**
   * Every path the assembly stage produces passes the guard, provided an
   * Arduino project name has no slash.
   */
  lemma {:induction false} AssembledPathsAcceptable(w: Workspace.Workspace, code: string, diagram: string)
    requires Workspace.ValidTarget(w.target)
    requires w.target == Workspace.ArduinoTarget ==> '/' !in w.projectName
    ensures AllAcceptable(Assembly.Assembled(w, code, diagram))
  {
    var arts := Assembly.Assembled(w, code, diagram);
    Assembly.AssembledCount(w, code, diagram);
    Assembly.CodeFirst(w, code, diagram);
    Assembly.DiagramIff(w, code, diagram);
    var n := if w.target == Workspace.EspIdfTarget then 3 else 1;
    assert Acceptable(RelPath(arts[0])) by {
      if w.target == Workspace.ArduinoTarget { SketchAcceptable(w.projectName); } else { MainFileAcceptable(); }
    }
    if w.target == Workspace.EspIdfTarget {
      Assembly.EspIdfBuildFiles(w, code, diagram);
      RootCMakeAcceptable();
      MainCMakeAcceptable();
    }
    if diagram != [] {
      DiagramFileAcceptable();
      assert RelPath(arts[|arts| - 1]) == Assembly.DiagramPath;
    }
    forall i | 0 <= i < |arts| ensures Acceptable(RelPath(arts[i])) {
      assert i == 0 || (n == 3 && (i == 1 || i == 2)) || (diagram != [] && i == |arts| - 1);
    }
  }

  /** The shapes of the assembled paths: one component other than "main" and "wiring", or two starting with one of those. */
  predicate Shaped(c: seq<string>) {
    || (|c| == 1 && c[0] != "main" && c[0] != "wiring")
    || (|c| == 2 && (c[0] == "main" || c[0] == "wiring"))
  }

  predicate ShapedPath(rel: string) {
    Shaped(Paths.Parse(rel).parts)
  }

  lemma {:induction false} ShapedApart(x: seq<string>, y: seq<string>)
    requires Shaped(x) && Shaped(y)
    ensures !Encloses(x, y)
  {
    if |x| < |y| {
      assert y[..|x|][0] == y[0];
    }
  }

  /** Every artifact's path has one of those shapes. */
  predicate AllShaped(arts: seq<Artifact>) {
    forall i :: 0 <= i < |arts| ==> ShapedPath(RelPath(arts[i]))
  }

  lemma {:induction false} AllShapedConcat(xs: seq<Artifact>, ys: seq<Artifact>)
    requires AllShaped(xs) && AllShaped(ys)
    ensures AllShaped(xs + ys)
  {
    forall i | 0 <= i < |xs + ys| ensures ShapedPath(RelPath((xs + ys)[i])) {
      if i < |xs| {
        assert (xs + ys)[i] == xs[i];
      } else {
        assert (xs + ys)[i] == ys[i - |xs|];
      }
    }
  }

  /** Each path the assembly stage produces has one of those shapes. */
  lemma {:induction false} AssembledShaped(w: Workspace.Workspace, code: string, diagram: string)
    requires w.target == Workspace.ArduinoTarget ==> '/' !in w.projectName
    ensures AllShaped(Assembly.Assembled(w, code, diagram))
  {
    var first := Assembly.File(Assembly.CodeRelPath(w), code, Assembly.CodeRole);
    var root := Assembly.File(Assembly.RootCMakePath, Assembly.RootCMakeContent(w.projectName), Assembly.MetaRole);
    var main := Assembly.File(Assembly.MainCMakePath, Assembly.MainCMakeContent, Assembly.MetaRole);
    var wiring := Assembly.File(Assembly.DiagramPath, diagram, Assembly.DiagramRole);
    var mid := if w.target == Workspace.EspIdfTarget then [root, main] else [];
    var tail := if diagram != [] then [wiring] else [];
    assert Assembly.Assembled(w, code, diagram) == [first] + mid + tail;
    CodeArtifactShaped(w, first);
    if w.target == Workspace.EspIdfTarget {
      BuildArtifactsShaped(root, main);
    } else {
      NoneShaped();
    }
    if diagram != [] {
      DiagramArtifactShaped(wiring);
    } else {
      NoneShaped();
    }
    AllShapedConcat([first], mid);
    AllShapedConcat([first] + mid, tail);
  }

  lemma {:induction false} CodeArtifactShaped(w: Workspace.Workspace, a: Artifact)
    requires w.target == Workspace.ArduinoTarget ==> '/' !in w.projectName
    requires a.path == Some(Assembly.CodeRelPath(w))
    ensures AllShaped([a])
  {
    CodeShaped(w);
  }

  lemma {:induction false} NoneShaped()
    ensures AllShaped([])
  {
  }

  lemma {:induction false} BuildArtifactsShaped(a: Artifact, b: Artifact)
    requires a.path == Some(Assembly.RootCMakePath) && b.path == Some(Assembly.MainCMakePath)
    ensures AllShaped([a, b])
  {
    BuildFilesShaped();
  }

  lemma {:induction false} DiagramArtifactShaped(a: Artifact)
    requires a.path == Some(Assembly.DiagramPath)
    ensures AllShaped([a])
  {
    DiagramShaped();
  }

  lemma {:induction false} CodeShaped(w: Workspace.Workspace)
    requires w.target == Workspace.ArduinoTarget ==> '/' !in w.projectName
    ensures ShapedPath(Assembly.CodeRelPath(w))
  {
    if w.target == Workspace.ArduinoTarget {
      SketchAcceptable(w.projectName);
      var x := w.projectName + ".ino";
      assert x[|x| - 1] == 'o';
    } else {
      MainFileSpelling();
      ParseTwo("main", "main.c");
    }
  }

  lemma {:induction false} BuildFilesShaped()
    ensures ShapedPath(Assembly.RootCMakePath)
    ensures ShapedPath(Assembly.MainCMakePath)
  {
    Paths.ParseComponent(Assembly.RootCMakePath);
    MainCMakeSpelling();
    ParseTwo("main", "CMakeLists.txt");
  }

  lemma {:induction false} DiagramShaped()
    ensures ShapedPath(Assembly.DiagramPath)
  {
    DiagramFileSpelling();
    ParseTwo("wiring", "wokwi.json");
  }

  /** No path the assembly stage produces lies on the way to another. */
  lemma {:induction false} AssembledApart(w: Workspace.Workspace, code: string, diagram: string)
    requires Workspace.ValidTarget(w.target)
    requires w.target == Workspace.ArduinoTarget ==> '/' !in w.projectName
    ensures var arts := Assembly.Assembled(w, code, diagram);
            forall i, j :: 0 <= i < |arts| && 0 <= j < |arts| ==> !Encloses(Components(arts[i]), Components(arts[j]))
  {
    var arts := Assembly.Assembled(w, code, diagram);
    AssembledShaped(w, code, diagram);
    forall i, j | 0 <= i < |arts| && 0 <= j < |arts| ensures !Encloses(Components(arts[i]), Components(arts[j])) {
      assert ShapedPath(RelPath(arts[i])) && ShapedPath(RelPath(arts[j]));
      ShapedApart(Components(arts[i]), Components(arts[j]));
    }
  }

  /** So a freshly assembled list is written completely wherever each of its places can be written. */
  lemma {:induction false} AssembledAllWritten(d: Disk, root: Paths.PurePath, cwd: seq<string>,
                                               w: Workspace.Workspace, code: string, diagram: string, sha256: Hasher)
    requires Workspace.ValidTarget(w.target)
    requires w.target == Workspace.ArduinoTarget ==> '/' !in w.projectName
    requires var arts := Assembly.Assembled(w, code, diagram);
             forall i :: 0 <= i < |arts| ==> Writable(d, Paths.Resolve(cwd, root) + Components(arts[i]))
    ensures Written(d, GuardAt(root, cwd), Assembly.Assembled(w, code, diagram), sha256).failure.None?
  {
    AssembledPathsAcceptable(w, code, diagram);
    AssembledApart(w, code, diagram);
    AcceptableAllWritten(d, root, cwd, Assembly.Assembled(w, code, diagram), sha256);
  }

  /** The three run-level files go directly into the output root and the run directory. */
  lemma {:induction false} RunKeys(s: AgentState, cwd: seq<string>)
    ensures ManifestKey(s, cwd) == RootKey(s, cwd) + [ManifestName]
    ensures DebugKey(s, cwd) == RunKey(s, cwd) + [DebugName]
    ensures MetadataKey(s, cwd) == RunKey(s, cwd) + [MetadataName]
  {
    RunNamesAreComponents();
    var root, run := OutputRoot(s), RunPath(s);
    ResolveChild(cwd, root, ManifestName);
    ResolveChild(cwd, run, DebugName);
    ResolveChild(cwd, run, MetadataName);
  }

  lemma {:induction false} RunNamesAreComponents()
    ensures Paths.IsComponent(ManifestName) && ManifestName != ".."
    ensures Paths.IsComponent(DebugName) && DebugName != ".."
    ensures Paths.IsComponent(MetadataName) && MetadataName != ".."
  {
    assert |ManifestName| > 2 && |DebugName| > 2 && |MetadataName| > 2;
    assert forall i :: 0 <= i < |ManifestName| ==> ManifestName[i] != '/';
    assert forall i :: 0 <= i < |DebugName| ==> DebugName[i] != '/';
    assert forall i :: 0 <= i < |MetadataName| ==> MetadataName[i] != '/';
  }

  lemma {:induction false} ResolveChild(cwd: seq<string>, p: Paths.PurePath, x: string)
    requires Paths.IsComponent(x) && x != ".."
    ensures Paths.Resolve(cwd, Paths.JoinStr(p, x)) == Paths.Resolve(cwd, p) + [x]
  {
    Paths.ParseComponent(x);
    Paths.ResolveJoinBelow(cwd, p, Paths.Parse(x));
  }

  /** The run-level writes go through on `d`: none of the three files is a directory, and the run directory exists. */
  predicate RunWritable(d: Disk, s: AgentState, cwd: seq<string>) {
    && !IsDir(d, ManifestKey(s, cwd)) && !IsDir(d, DebugKey(s, cwd)) && !IsDir(d, MetadataKey(s, cwd))
    && IsDir(d, RunKey(s, cwd))
  }

  /** After a complete loop that leaves the output root a directory, the run-level writes succeed exactly when they can. */
  lemma {:induction false} RunLevelOutcome(p: Progress, s: AgentState, cwd: seq<string>)
    requires IsDir(p.disk, RootKey(s, cwd))
    ensures RunLevel(p, s, cwd).result.Ok? <==> RunWritable(p.disk, s, cwd)
    ensures RunLevel(p, s, cwd).result.Ok? ==>
              RunLevel(p, s, cwd) == Outcome(Ok(PersistUpdate(s, p.persisted)), Disk(RunFiles(p.disk.files, s, cwd, p.entries), p.disk.dirs))
  {
    var m, g, t := ManifestKey(s, cwd), DebugKey(s, cwd), MetadataKey(s, cwd);
    RunKeys(s, cwd);
    assert Dir(m) == RootKey(s, cwd) && Dir(g) == RunKey(s, cwd) && Dir(t) == RunKey(s, cwd);
    var d1 := p.disk;
    WriteFileOutcome(d1, m, JsonFile(ManifestDoc(s, p.entries)));
    if !IsDir(d1, m) {
      var d2 := Disk(d1.files[m := JsonFile(ManifestDoc(s, p.entries))], d1.dirs);
      WriteFileOutcome(d2, g, JsonFile(List(LogValues(s.debugLogs))));
      if !IsDir(d1, g) && IsDir(d1, RunKey(s, cwd)) {
        var d3 := Disk(d2.files[g := JsonFile(List(LogValues(s.debugLogs)))], d1.dirs);
        WriteFileOutcome(d3, t, JsonFile(MetadataDoc(s)));
      }
    }
  }

  /** `write_text` succeeds exactly when the place is no directory and its directory exists; it then sets that one file. */
  lemma {:induction false} WriteFileOutcome(d: Disk, p: seq<string>, data: FileData)
    ensures WriteFile(d, p, data).Ok? <==> !IsDir(d, p) && IsDir(d, Dir(p))
    ensures WriteFile(d, p, data).Ok? ==> WriteFile(d, p, data).value == Disk(d.files[p := data], d.dirs)
  {
  }

  /**
   * Where `persist_node` ends. A file in the way of the output root stops
   * it before anything is written. A failed artifact loop ends it with the
   * loop's error and the loop's file system, without run-level files.
   * After a complete loop it succeeds exactly when the run-level files can
   * be written, and then it writes those three and returns the update.
   */
  lemma {:induction false} PersistedStages(d: Disk, s: AgentState, cwd: seq<string>, sha256: Hasher)
    ensures FileOnPath(d.files, RootKey(s, cwd)) ==>
              Persisted(d, s, cwd, sha256) == Outcome(Err(MkdirFailed(RootKey(s, cwd))), d)
    ensures !FileOnPath(d.files, RootKey(s, cwd)) ==>
              var made := d.(dirs := d.dirs + Ancestry(RootKey(s, cwd)));
              var p := Written(made, GuardAt(OutputRoot(s), cwd), ArtifactsOf(s), sha256);
              var o := Persisted(d, s, cwd, sha256);
              && (p.failure.Some? ==> o == Outcome(Err(p.failure.value), p.disk))
              && (p.failure.None? ==> (o.result.Ok? <==> RunWritable(p.disk, s, cwd)))
              && (o.result.Ok? ==>
                    && p.failure.None?
                    && o == Outcome(Ok(PersistUpdate(s, p.persisted)), Disk(RunFiles(p.disk.files, s, cwd, p.entries), p.disk.dirs)))
  {
    var r := RootKey(s, cwd);
    if !FileOnPath(d.files, r) {
      var made := d.(dirs := d.dirs + Ancestry(r));
      var guard := GuardAt(OutputRoot(s), cwd);
      var p := Written(made, guard, ArtifactsOf(s), sha256);
      if p.failure.None? {
        WrittenInOrder(made, guard, ArtifactsOf(s), sha256);
        assert IsDir(p.disk, r) by {
          if r != [] { assert r[..|r|] == r; }
        }
        RunLevelOutcome(p, s, cwd);
      }
    }
  }

  /** An artifact whose path is "." names the output root itself, a directory by then: the stage fails there. */
  lemma {:induction false} DotArtifactFails(d: Disk, s: AgentState, cwd: seq<string>, sha256: Hasher)
    requires !FileOnPath(d.files, RootKey(s, cwd))
    requires ArtifactsOf(s) != [] && RelPath(ArtifactsOf(s)[0]) == "."
    ensures Persisted(d, s, cwd, sha256).result == Err(IsADirectory(RootKey(s, cwd)))
  {
    var r := RootKey(s, cwd);
    var made := d.(dirs := d.dirs + Ancestry(r));
    var guard := GuardAt(OutputRoot(s), cwd);
    var arts := ArtifactsOf(s);
    DotIsRoot(OutputRoot(s), cwd);
    assert guard(arts[0]) == Ok(r);
    MadeRoot(d, r);
    FirstStepHitsDir(made, guard, arts, r, sha256);
    WrittenStopped(made, guard, arts, 1, sha256);
  }

  /** Making the root `r` on `d` with no file on the way leaves `r` a directory with no file above it. */
  lemma {:induction false} MadeRoot(d: Disk, r: seq<string>)
    requires !FileOnPath(d.files, r)
    ensures IsDir(d.(dirs := d.dirs + Ancestry(r)), r)
    ensures !FileOnPath(d.files, Dir(r))
  {
    forall k | 1 <= k <= |Dir(r)| ensures Dir(r)[..k] == r[..k] { }
    if r != [] { assert r[..|r|] == r; }
  }

  /** A first artifact placed at an existing directory stops the loop with `IsADirectory`. */
  lemma {:induction false} FirstStepHitsDir(d: Disk, guard: Guard, arts: seq<Artifact>, r: seq<string>, sha256: Hasher)
    requires arts != [] && guard(arts[0]) == Ok(r)
    requires IsDir(d, r) && !FileOnPath(d.files, Dir(r))
    ensures Written(d, guard, arts[..1], sha256).failure == Some(IsADirectory(r))
  {
    WrittenPrefix(d, guard, arts, 0, sha256);
    assert arts[..0] == [];
    assert Written(d, guard, arts[..0], sha256) == Progress(d, [], [], None);
  }

  /** When the output root lies in the run directory, making the root makes the run directory too. */
  lemma {:induction false} RunDirWithRoot(d: Disk, s: AgentState, cwd: seq<string>)
    requires Paths.IsUnder(RunKey(s, cwd), RootKey(s, cwd))
    requires !FileOnPath(d.files, RootKey(s, cwd))
    ensures MakeDirs(d, RootKey(s, cwd)).Ok?
    ensures IsDir(MakeDirs(d, RootKey(s, cwd)).value, RunKey(s, cwd))
  {
    var run := RunKey(s, cwd);
    if run != [] {
      assert RootKey(s, cwd)[..|run|] == run;
    }
  }

  /** No path is both a file and a directory. */
  predicate Consistent(d: Disk) {
    forall q :: q in d.files ==> q !in d.dirs
  }

  lemma {:induction false} MakeDirsConsistent(d: Disk, p: seq<string>)
    requires Consistent(d) && MakeDirs(d, p).Ok?
    ensures Consistent(MakeDirs(d, p).value)
  {
    forall q | q in d.files ensures q !in Ancestry(p) {
      forall k | 1 <= k <= |p| ensures p[..k] != q {
        assert p[..k] !in d.files;
      }
    }
  }

  lemma {:induction false} WriteFileConsistent(d: Disk, p: seq<string>, data: FileData)
    requires Consistent(d) && WriteFile(d, p, data).Ok?
    ensures Consistent(WriteFile(d, p, data).value)
  {
  }

  lemma {:induction false} StepConsistent(before: Progress, guard: Guard, a: Artifact, sha256: Hasher)
    requires Consistent(before.disk)
    ensures Consistent(Step(before, guard, a, sha256).disk)
  {
    if before.failure.None? && guard(a).Ok? {
      var fin := guard(a).value;
      var made := MakeDirs(before.disk, Dir(fin));
      if made.Ok? {
        MakeDirsConsistent(before.disk, Dir(fin));
        var wrote := WriteFile(made.value, fin, TextFile(ContentOf(a)));
        if wrote.Ok? {
          WriteFileConsistent(made.value, fin, TextFile(ContentOf(a)));
        }
      }
    }
  }

  /** The artifact loop never turns a directory into a file or a file into a directory, whether or not it completes. */
  lemma {:induction false} WrittenConsistent(d: Disk, guard: Guard, arts: seq<Artifact>, sha256: Hasher)
    requires Consistent(d)
    ensures Consistent(Written(d, guard, arts, sha256).disk)
    decreases |arts|
  {
    if arts != [] {
      WrittenConsistent(d, guard, arts[..|arts| - 1], sha256);
      StepConsistent(Written(d, guard, arts[..|arts| - 1], sha256), guard, arts[|arts| - 1], sha256);
    }
  }

  lemma {:induction false} RunLevelConsistent(p: Progress, s: AgentState, cwd: seq<string>)
    requires Consistent(p.disk)
    ensures Consistent(RunLevel(p, s, cwd).disk)
  {
    var m := WriteFile(p.disk, ManifestKey(s, cwd), JsonFile(ManifestDoc(s, p.entries)));
    if m.Ok? {
      WriteFileConsistent(p.disk, ManifestKey(s, cwd), JsonFile(ManifestDoc(s, p.entries)));
      var g := WriteFile(m.value, DebugKey(s, cwd), JsonFile(List(LogValues(s.debugLogs))));
      if g.Ok? {
        WriteFileConsistent(m.value, DebugKey(s, cwd), JsonFile(List(LogValues(s.debugLogs))));
        var t := WriteFile(g.value, MetadataKey(s, cwd), JsonFile(MetadataDoc(s)));
        if t.Ok? {
          WriteFileConsistent(g.value, MetadataKey(s, cwd), JsonFile(MetadataDoc(s)));
        }
      }
    }
  }

  /** Nor does the whole stage, whether it succeeds or fails. */
  lemma {:induction false} PersistedConsistent(d: Disk, s: AgentState, cwd: seq<string>, sha256: Hasher)
    requires Consistent(d)
    ensures Consistent(Persisted(d, s, cwd, sha256).disk)
  {
    var made := MakeDirs(d, RootKey(s, cwd));
    if made.Ok? {
      MakeDirsConsistent(d, RootKey(s, cwd));
      var p := Written(made.value, GuardAt(OutputRoot(s), cwd), ArtifactsOf(s), sha256);
      WrittenConsistent(made.value, GuardAt(OutputRoot(s), cwd), ArtifactsOf(s), sha256);
      if p.failure.None? {
        RunLevelConsistent(p, s, cwd);
      }
    }
  }
}
