/**
 * The target-platform and output-location decisions: the workspace stage,
 * which fixes them before code generation, and the normalisation later
 * stages apply to whatever workspace record the state holds.
 */
module Workspace {
  import opened Wrappers
  import opened State
  import opened Paths
  import Text

  const ArduinoTarget: string := "arduino"
  const EspIdfTarget: string := "esp-idf"

  /** A complete workspace record. */
  datatype Workspace = Workspace(outputRoot: string, target: string, projectName: string)

  predicate ValidTarget(t: string) {
    t == ArduinoTarget || t == EspIdfTarget
  }

  /** The platform the selected skills imply: Arduino exactly when its skill is selected. */
  function PlatformFor(skills: seq<string>): (t: string)
    ensures ValidTarget(t)
    ensures t == ArduinoTarget <==> ArduinoTarget in skills
  {
    if ArduinoTarget in skills then ArduinoTarget else EspIdfTarget
  }

  /** Python truthiness of an optional string. */
  predicate Present(o: Option<string>) {
    o.Some? && o.value != []
  }

  /** Python's `a or b` on optional strings. */
  function OrElse(a: Option<string>, b: Option<string>): (r: Option<string>)
    ensures Present(a) ==> r == a
    ensures !Present(a) ==> r == b
  {
    if Present(a) then a else b
  }

  /** `Path(run_dir) / "output"`. */
  function OutputDir(runDir: string): PurePath {
    JoinStr(Parse(runDir), "output")
  }

  /** Where the workspace stage puts the code file below the output directory. */
  function CodePath(outputDir: PurePath, platform: string, projectName: string): PurePath {
    if platform == ArduinoTarget then JoinStr(outputDir, projectName + ".ino")
    else JoinStr(JoinStr(outputDir, "main"), "main.c")
  }

  /** The workspace stage's update; creating the directories is not modelled. */
  function PrepareWorkspace(s: AgentState): (u: AgentState)
    ensures u.messages == [] && u.debugLogs == []
    ensures u.activePlatform.Some? && ValidTarget(u.activePlatform.value)
    ensures u.workspace.Some? && u.workspace.value.target == u.activePlatform
    ensures u.workspace.value.outputRoot == u.preparedOutputDir
    ensures u == Blank.(preparedOutputDir := u.preparedOutputDir, preparedCodePath := u.preparedCodePath,
                        activePlatform := u.activePlatform, workspace := u.workspace)
  {
    var projectName := s.projectName.GetOr("embedded_project");
    var skills := s.activeSkills.GetOr([]);
    var outputDir := OutputDir(s.runDir.GetOr("./output"));
    var platform := PlatformFor(skills);
    var codePath := CodePath(outputDir, platform, projectName);
    Blank.(
      preparedOutputDir := Some(Str(outputDir)),
      preparedCodePath := Some(Str(codePath)),
      activePlatform := Some(platform),
      workspace := Some(WorkspaceInfo(Some(Str(outputDir)), Some(platform), Some(projectName))))
  }

  /** The workspace record later stages use, with the fallbacks for older state layouts. */
  function GetWorkspace(s: AgentState): (w: Workspace)
    ensures ValidTarget(w.target)
  {
    var ws := s.workspace.GetOr(WorkspaceInfo(None, None, None));
    var outputRoot := OrElse(ws.outputRoot, s.preparedOutputDir);
    var target := OrElse(ws.target, s.activePlatform);
    var projectName := if Present(ws.projectName) then ws.projectName.value
                       else s.projectName.GetOr("output_project");
    var root := if Present(outputRoot) then outputRoot.value
                else Str(OutputDir(s.runDir.GetOr("./output")));
    var t := if target.Some? && ValidTarget(target.value) then target.value
             else PlatformFor(s.activeSkills.GetOr([]));
    Workspace(root, t, projectName)
  }

  /** The workspace as a state record holds it. */
  function ToInfo(w: Workspace): WorkspaceInfo {
    WorkspaceInfo(Some(w.outputRoot), Some(w.target), Some(w.projectName))
  }

  // ----- lemmas -----

  /** The workspace stage picks Arduino exactly when the Arduino skill is active, else ESP-IDF. */
  lemma {:induction false} PrepareTarget(s: AgentState)
    ensures var skills := s.activeSkills.GetOr([]);
            PrepareWorkspace(s).activePlatform ==
              Some(if ArduinoTarget in skills then ArduinoTarget else EspIdfTarget)
  {
  }

  /** The code file lies in the output directory: `{project}.ino` for Arduino, `main/main.c` otherwise. */
  lemma {:induction false} PrepareCodeInOutputDir(s: AgentState)
    ensures var u := PrepareWorkspace(s);
            var dir := Parse(u.preparedOutputDir.value);
            var name := s.projectName.GetOr("embedded_project");
            Parse(u.preparedCodePath.value) ==
              if u.activePlatform == Some(ArduinoTarget) then Join(dir, Parse(name + ".ino"))
              else Join(dir, PurePath("", ["main", "main.c"]))
  {
    var outputDir := OutputDir(s.runDir.GetOr("./output"));
    var platform := PlatformFor(s.activeSkills.GetOr([]));
    var name := s.projectName.GetOr("embedded_project");
    ParseStr(outputDir);
    CodePathBelow(outputDir, platform, name);
  }

  /** The code path, printed and parsed again, is the output directory plus the file's components. */
  lemma {:induction false} CodePathBelow(dir: PurePath, platform: string, name: string)
    requires WellFormed(dir)
    ensures Parse(Str(CodePath(dir, platform, name))) ==
              if platform == ArduinoTarget then Join(dir, Parse(name + ".ino"))
              else Join(dir, PurePath("", ["main", "main.c"]))
  {
    ParseStr(CodePath(dir, platform, name));
    if platform != ArduinoTarget {
      ParseMainFile();
      assert dir.parts + ["main"] + ["main.c"] == dir.parts + ["main", "main.c"];
    }
  }

  /** The default run directory "./output" gives the output directory "output/output". */
  lemma {:induction false} DefaultOutputDir()
    ensures OutputDir("./output") == PurePath("", ["output", "output"])
    ensures Str(OutputDir("./output")) == "output/output"
  {
    ParseDefaultRunDir();
    ParseOutput();
    StrOutputOutput();
  }

  lemma {:induction false} ParseDefaultRunDir()
    ensures Parse("./output") == PurePath("", ["output"])
  {
    ParseDotSlash("output");
    assert "./" + "output" == "./output";
  }

  lemma {:induction false} ParseOutput()
    ensures Parse("output") == PurePath("", ["output"])
  {
    ParseComponent("output");
  }

  lemma {:induction false} StrOutputOutput()
    ensures Str(PurePath("", ["output", "output"])) == "output/output"
  {
    Text.JoinTwo("/", "output", "output");
    assert "output" + "/" + "output" == "output/output";
  }

  lemma {:induction false} ParseMainFile()
    ensures Parse("main") == PurePath("", ["main"])
    ensures Parse("main.c") == PurePath("", ["main.c"])
  {
    ParseComponent("main");
    ParseComponent("main.c");
  }

  lemma {:induction false} StrDefaultCodePath()
    ensures Str(PurePath("", ["output", "output", "main", "main.c"])) == "output/output/main/main.c"
  {
    Text.JoinFour("/", "output", "output", "main", "main.c");
    assert "output" + "/" + "output" + "/" + "main" + "/" + "main.c" == "output/output/main/main.c";
  }

  /** With none of its inputs set, the workspace stage uses project "embedded_project" under "output/output". */
  lemma {:induction false} PrepareDefaults(s: AgentState)
    requires s.projectName.None? && s.activeSkills.None? && s.runDir.None?
    ensures var u := PrepareWorkspace(s);
            u.preparedOutputDir == Some("output/output")
            && u.preparedCodePath == Some("output/output/main/main.c")
            && u.activePlatform == Some(EspIdfTarget)
            && u.workspace.value.projectName == Some("embedded_project")
  {
    DefaultOutputDir();
    DefaultCodePath();
  }

  /** The code path for the defaults. */
  lemma {:induction false} DefaultCodePath()
    ensures Str(CodePath(PurePath("", ["output", "output"]), EspIdfTarget, "embedded_project"))
            == "output/output/main/main.c"
  {
    ParseMainFile();
    StrDefaultCodePath();
    assert CodePath(PurePath("", ["output", "output"]), EspIdfTarget, "embedded_project")
           == PurePath("", ["output", "output", "main", "main.c"]);
  }

  /** Fields of the workspace record win over the older state fields. */
  lemma {:induction false} WorkspaceFieldsWin(s: AgentState)
    requires s.workspace.Some?
    ensures var ws, w := s.workspace.value, GetWorkspace(s);
            && (Present(ws.outputRoot) ==> w.outputRoot == ws.outputRoot.value)
            && (Present(ws.target) && ValidTarget(ws.target.value) ==> w.target == ws.target.value)
            && (Present(ws.projectName) ==> w.projectName == ws.projectName.value)
  {
  }

  /** Without a workspace record, the older fields are used, then the defaults. */
  lemma {:induction false} LegacyFallbacks(s: AgentState)
    requires s.workspace.None?
    ensures var w := GetWorkspace(s);
            && w.outputRoot == (if Present(s.preparedOutputDir) then s.preparedOutputDir.value
                                else Str(OutputDir(s.runDir.GetOr("./output"))))
            && w.projectName == s.projectName.GetOr("output_project")
            && (s.activePlatform.Some? && ValidTarget(s.activePlatform.value) ==> w.target == s.activePlatform.value)
  {
  }

  /** A missing or unknown target is derived from the skills again. */
  lemma {:induction false} TargetRederived(s: AgentState)
    requires var ws := s.workspace.GetOr(WorkspaceInfo(None, None, None));
             var t := OrElse(ws.target, s.activePlatform);
             !(t.Some? && ValidTarget(t.value))
    ensures GetWorkspace(s).target == ArduinoTarget <==> ArduinoTarget in s.activeSkills.GetOr([])
  {
  }

  /** After the workspace stage, normalisation returns exactly the workspace that stage chose. */
  lemma {:induction false} GetWorkspaceAfterPrepare(s: AgentState)
    ensures var u := PrepareWorkspace(s);
            GetWorkspace(Merge(s, u)) ==
              Workspace(Str(OutputDir(s.runDir.GetOr("./output"))),
                        PlatformFor(s.activeSkills.GetOr([])),
                        s.projectName.GetOr("embedded_project"))
  {
    StrNotEmpty(OutputDir(s.runDir.GetOr("./output")));
  }

  /** The string form of a path is never empty. */
  lemma {:induction false} StrNotEmpty(p: PurePath)
    ensures Str(p) != []
  {
  }
}
