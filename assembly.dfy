/**
 * Artifact assembly: the generated outputs become the list of files to
 * write, as paths relative to the output root, without touching the disk.
 */
module Assembly {
  import opened Wrappers
  import opened Text
  import opened State
  import opened Workspace
  import Extraction

  const CodeRole: string := "code"
  const MetaRole: string := "meta"
  const DiagramRole: string := "diagram"

  const RootCMakePath: string := "CMakeLists.txt"
  const MainCMakePath: string := "main/CMakeLists.txt"
  const DiagramPath: string := "wiring/wokwi.json"
  const EspIdfCodePath: string := "main/main.c"

  /** The head of the top-level CMake file; `$ENV{IDF_PATH}` is literal text, not a substitution. */
  const RootCMakeHead: string :=
    "cmake_minimum_required(VERSION 3.16)\ninclude($ENV{IDF_PATH}/tools/cmake/project.cmake)\n"
  const MainCMakeContent: string := "idf_component_register(SRCS \"main.c\" INCLUDE_DIRS \".\")"

  /** The code file's path relative to the output root. */
  function CodeRelPath(w: Workspace): string {
    if w.target == ArduinoTarget then w.projectName + ".ino" else EspIdfCodePath
  }

  function RootCMakeContent(projectName: string): string {
    RootCMakeHead + "project(" + projectName + ")"
  }

  function File(path: string, content: string, role: string): Artifact {
    Artifact(Some(path), Some(content), Some(role))
  }

  /**
   * The artifacts for workspace `w`, cleaned code `code` and stripped
   * diagram `diagram`: the code file, the two ESP-IDF build files for an
   * ESP-IDF target, and the wiring diagram when there is one.
   */
  function Assembled(w: Workspace, code: string, diagram: string): seq<Artifact> {
    [File(CodeRelPath(w), code, CodeRole)]
    + (if w.target == EspIdfTarget
       then [File(RootCMakePath, RootCMakeContent(w.projectName), MetaRole), File(MainCMakePath, MainCMakeContent, MetaRole)]
       else [])
    + (if diagram != [] then [File(DiagramPath, diagram, DiagramRole)] else [])
  }

  /** The assembly stage's update: the normalised workspace and the artifact list. */
  function AssemblyUpdate(s: AgentState): AgentState {
    var w := GetWorkspace(s);
    Blank.(workspace := Some(ToInfo(w)),
           artifacts := Some(Assembled(w, Extraction.CleanCode(s.codeContent.GetOr("")), Strip(s.diagramContent.GetOr("")))))
  }

  /** `assemble_artifacts_node`: the list is built by appending, in the order of `Assembled`. */
  method AssembleArtifacts(s: AgentState) returns (u: AgentState)
    ensures u.artifacts == AssemblyUpdate(s).artifacts
    ensures u.workspace == AssemblyUpdate(s).workspace
    ensures u == Blank.(workspace := u.workspace, artifacts := u.artifacts)
  {
    var w := GetWorkspace(s);
    var cleanCode := Extraction.ExtractCleanCode(s.codeContent.GetOr(""));
    var diagram := Strip(s.diagramContent.GetOr(""));
    var artifacts := AssembleList(w, cleanCode, diagram);
    u := Blank.(workspace := Some(ToInfo(w)), artifacts := Some(artifacts));
  }

  /** The appends of `assemble_artifacts_node`, in order. */
  method AssembleList(w: Workspace, code: string, diagram: string) returns (artifacts: seq<Artifact>)
    ensures artifacts == Assembled(w, code, diagram)
  {
    artifacts := [];
    artifacts := artifacts + [File(CodeRelPath(w), code, CodeRole)];
    if w.target == EspIdfTarget {
      artifacts := artifacts + [File(RootCMakePath, RootCMakeContent(w.projectName), MetaRole)];
      artifacts := artifacts + [File(MainCMakePath, MainCMakeContent, MetaRole)];
    }
    ghost var front := artifacts;
    if diagram != [] {
      artifacts := artifacts + [File(DiagramPath, diagram, DiagramRole)];
    }
    AssembledSplit(w, code, diagram, front, artifacts);
  }

  /** `Assembled` from its two appended parts. */
  lemma {:induction false} AssembledSplit(w: Workspace, code: string, diagram: string, front: seq<Artifact>, arts: seq<Artifact>)
    requires front == [File(CodeRelPath(w), code, CodeRole)]
                      + (if w.target == EspIdfTarget
                         then [File(RootCMakePath, RootCMakeContent(w.projectName), MetaRole),
                               File(MainCMakePath, MainCMakeContent, MetaRole)]
                         else [])
    requires arts == front + (if diagram != [] then [File(DiagramPath, diagram, DiagramRole)] else [])
    ensures arts == Assembled(w, code, diagram)
  {
  }

  predicate HasRole(arts: seq<Artifact>, role: string) {
    exists i :: 0 <= i < |arts| && arts[i].role == Some(role)
  }

  // ----- lemmas -----

  lemma {:induction false} RolesDistinct()
    ensures CodeRole != DiagramRole && MetaRole != DiagramRole && CodeRole != MetaRole
  {
    assert CodeRole[0] != DiagramRole[0] && MetaRole[0] != DiagramRole[0] && CodeRole[0] != MetaRole[0];
  }

  /** An ESP-IDF project has three or four files, an Arduino one one or two: one more exactly when there is a diagram. */
  lemma {:induction false} AssembledCount(w: Workspace, code: string, diagram: string)
    requires ValidTarget(w.target)
    ensures |Assembled(w, code, diagram)| ==
            (if w.target == EspIdfTarget then 3 else 1) + (if diagram != [] then 1 else 0)
  {
  }

  /** The code file comes first, with the cleaned code, at `{project}.ino` or `main/main.c`. */
  lemma {:induction false} CodeFirst(w: Workspace, code: string, diagram: string)
    ensures var a := Assembled(w, code, diagram);
            && a[0] == File(CodeRelPath(w), code, CodeRole)
            && (w.target == ArduinoTarget ==> a[0].path == Some(w.projectName + ".ino"))
            && (w.target != ArduinoTarget ==> a[0].path == Some(EspIdfCodePath))
  {
  }

  /** For ESP-IDF the two build files follow the code, and the top-level one ends by naming the project. */
  lemma {:induction false} EspIdfBuildFiles(w: Workspace, code: string, diagram: string)
    requires w.target == EspIdfTarget
    ensures var a, tail := Assembled(w, code, diagram), "project(" + w.projectName + ")";
            && a[1].path == Some(RootCMakePath) && a[1].role == Some(MetaRole)
            && |a[1].content.value| >= |tail|
            && a[1].content.value[|a[1].content.value| - |tail|..] == tail
            && a[2] == File(MainCMakePath, MainCMakeContent, MetaRole)
  {
    var tail := "project(" + w.projectName + ")";
    var c := RootCMakeContent(w.projectName);
    assert c == RootCMakeHead + tail;
    assert c[|c| - |tail|..] == tail;
  }

  /** There is a diagram file exactly when the stripped diagram text is non-empty, and it is the last file. */
  lemma {:induction false} DiagramIff(w: Workspace, code: string, diagram: string)
    ensures HasRole(Assembled(w, code, diagram), DiagramRole) <==> diagram != []
    ensures diagram != [] ==> Assembled(w, code, diagram)[|Assembled(w, code, diagram)| - 1] == File(DiagramPath, diagram, DiagramRole)
  {
    var a := Assembled(w, code, diagram);
    RolesDistinct();
    if diagram != [] {
      assert a[|a| - 1].role == Some(DiagramRole);
    } else {
      forall i | 0 <= i < |a| ensures a[i].role != Some(DiagramRole) {
        assert a[i].role == Some(CodeRole) || a[i].role == Some(MetaRole);
      }
    }
  }

  /** The update from the stage: the artifacts are those of the normalised workspace, and the diagram is stripped. */
  lemma {:induction false} UpdateArtifacts(s: AgentState)
    ensures var u, w := AssemblyUpdate(s), GetWorkspace(s);
            && u.workspace == Some(ToInfo(w)) && u.artifacts.Some?
            && u.artifacts.value[0].content == Some(Extraction.CleanCode(s.codeContent.GetOr("")))
            && (HasRole(u.artifacts.value, DiagramRole) <==> Strip(s.diagramContent.GetOr("")) != [])
  {
    var w := GetWorkspace(s);
    DiagramIff(w, Extraction.CleanCode(s.codeContent.GetOr("")), Strip(s.diagramContent.GetOr("")));
  }

  /** After the diagram placeholder stage no diagram file is assembled. */
  lemma {:induction false} PlaceholderDiagramAddsNothing(s: AgentState, d: AgentState)
    requires d.diagramContent == Some("")
    ensures var u := AssemblyUpdate(Merge(s, d));
            !HasRole(u.artifacts.value, DiagramRole)
  {
    var s1 := Merge(s, d);
    assert Strip(s1.diagramContent.GetOr("")) == [];
    UpdateArtifacts(s1);
  }
}
