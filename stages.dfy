/**
 * The language-model stages of the workflow: the manager plans the project
 * and selects skills, the coder asks for the source file, the diagram
 * stage is a placeholder. Each stage returns a partial update of the state.
 * The language model is a parameter: the planner receives the skill
 * listing and the requirements, the code model the system prompt and the
 * requirements, and each either answers or fails with a reason.
 */
module Stages {
  import opened Wrappers
  import opened Values
  import opened State
  import Workspace
  import Loader
  import Paths

  /** The manager's structured answer. */
  datatype Plan = Plan(projectName: string, selectedSkills: seq<string>)

  type Planner = (string, string) -> Result<Plan, string>
  type CodeModel = (string, string) -> Result<string, string>

  /** Why a stage raised instead of returning an update. */
  datatype NodeError = MissingKey(key: string) | ModelFailed(reason: string)

  const ManagerNodeName: string := "manager"
  const CoderNodeName: string := "coder"

  /** The manager's system template, logged as written, placeholders included. */
  const ManagerTemplate: string :=
    "You are a Project Planner. Analyze the request and output a JSON plan.\n"
    + "1. Use snake_case for the project_name.\n"
    + "2. Select relevant skills ONLY from the AVAILABLE SKILLS list.\n\n"
    + "AVAILABLE SKILLS:\n{skills}\n\n"
    + "{format_instructions}"

  const FallbackProject: string := "esp32_fallback"
  const FallbackSkills: seq<string> := ["esp-idf"]
  const FallbackContent: string := "Use standard ESP-IDF best practices."
  const DefaultProject: string := "embedded_project"
  const NoStandards: string := "No specific standards."

  /** A debug log entry; missing or empty metadata is recorded as an empty mapping. */
  function CreateDebugLog(node: string, input: Value, output: Value, metadata: Value): LogEntry {
    LogEntry(node, input, output, Or(metadata, Mapping(map[])))
  }

  /** The plan as the log records it. */
  function PlanOutput(p: Plan): Value {
    Mapping(map["project_name" := Str(p.projectName), "selected_skills" := StrList(p.selectedSkills)])
  }

  /** The manager's update when the planner answered. */
  function ManagerSuccess(requirements: string, available: string, plan: Plan, content: string): AgentState {
    var log := CreateDebugLog(ManagerNodeName,
      Mapping(map["system" := Str(ManagerTemplate), "user" := Str(requirements), "available_skills" := Str(available)]),
      PlanOutput(plan),
      Mapping(map["parser" := Str("PydanticOutputParser"), "schema" := Str("ProjectPlan")]));
    Blank.(projectName := Some(plan.projectName), activeSkills := Some(plan.selectedSkills),
           activeSkillContent := Some(content), debugLogs := [log])
  }

  /** The manager's update when the planner failed with `reason`. */
  function ManagerFallback(requirements: string, reason: string): AgentState {
    var log := CreateDebugLog(ManagerNodeName,
      Mapping(map["request" := Str(requirements)]),
      Mapping(map["error" := Str(reason)]),
      Mapping(map["status" := Str("fallback")]));
    Blank.(projectName := Some(FallbackProject), activeSkills := Some(FallbackSkills),
           activeSkillContent := Some(FallbackContent), debugLogs := [log])
  }

  /** The fields the manager writes; everything else is left out of its update. */
  predicate ManagerWrites(u: AgentState) {
    && u.projectName.Some? && u.activeSkills.Some? && u.activeSkillContent.Some?
    && |u.debugLogs| == 1 && u.debugLogs[0].node == ManagerNodeName
    && u == Blank.(projectName := u.projectName, activeSkills := u.activeSkills,
                   activeSkillContent := u.activeSkillContent, debugLogs := u.debugLogs)
  }

  /**
   * The manager stage for the skill listing `available`, where `content`
   * gives the body of each skill: a missing `requirements` raises; whatever
   * the planner does, the update sets the plan's three fields and one log.
   */
  function ManagerOutcome(s: AgentState, available: string, planner: Planner, content: string -> Option<string>)
    : (r: Result<AgentState, NodeError>)
    ensures r.Err? <==> s.requirements.None?
    ensures r.Err? ==> r.error == MissingKey("requirements")
    ensures r.Ok? ==> ManagerWrites(r.value)
  {
    match s.requirements
    case None => Err(MissingKey("requirements"))
    case Some(req) =>
      match planner(available, req)
      case Ok(plan) => Ok(ManagerSuccess(req, available, plan, Loader.Combined(plan.selectedSkills, content)))
      case Err(reason) => Ok(ManagerFallback(req, reason))
  }

  /**
   * `manager_node` against the module's registry: the scan runs first and
   * always; skill bodies are loaded only for an answered plan.
   */
  method ManagerNode(reg: Loader.SkillRegistry, s: AgentState, found: seq<Paths.PurePath>,
                     parseYaml: Loader.YamlParser, render: Loader.Renderer, planner: Planner)
      returns (r: Result<AgentState, NodeError>)
    modifies reg`descriptions, reg`cache
    ensures reg.descriptions == Loader.ScanAll(found, Loader.MetaOf(reg.files, parseYaml))
    ensures r == ManagerOutcome(s, Loader.Listing(reg.descriptions, render), planner,
                                Loader.Loads(old(reg.cache), reg.files, reg.skillsDir))
    ensures Loader.SameLoads(reg.cache, old(reg.cache), reg.files, reg.skillsDir)
  {
    var available := reg.ScanSkills(found, parseYaml, render);
    if s.requirements.None? {
      return Err(MissingKey("requirements"));
    }
    var req := s.requirements.value;
    match planner(available, req)
    case Err(reason) =>
      r := Ok(ManagerFallback(req, reason));
    case Ok(plan) =>
      var content := reg.GetCombinedSkillContent(plan.selectedSkills);
      r := Ok(ManagerSuccess(req, available, plan, content));
  }

  const CoderHead: string :=
    "You are an expert Embedded Engineer. Generate ONLY the code for main.c or *.ino file.\n\nTarget Project: "
  const CoderMiddle: string := "\n\n=== APPLICABLE STANDARDS ===\n"
  const CoderTail: string :=
    "\n============================\n\nTask: Write the main C/C++ code file.\n\n"
    + "RULES:\n1. Do NOT ask clarifying questions. Make reasonable engineering assumptions.\n"
    + "2. Output ONLY the code block (inside ```c wrapper).\n"
    + "3. Include all necessary headers based on the requirements.\n"
    + "4. Use reasonable GPIO pins if not specified."

  /** The coder's system prompt. */
  function CoderPrompt(projectName: string, instructions: string): string {
    CoderHead + projectName + CoderMiddle + instructions + CoderTail
  }

  /** The standards the coder is given: the selected skills' text, or a placeholder when it is empty. */
  function Instructions(s: AgentState): (r: string)
    ensures r != []
  {
    if Workspace.Present(s.activeSkillContent) then s.activeSkillContent.value else NoStandards
  }

  function CoderProject(s: AgentState): string {
    s.projectName.GetOr(DefaultProject)
  }

  /** The coder's update for the model's `reply`. */
  function CoderSuccess(s: AgentState, requirements: string, reply: string): AgentState {
    var prompt := CoderPrompt(CoderProject(s), Instructions(s));
    var skills := s.activeSkills.GetOr([]);
    var log := CreateDebugLog(CoderNodeName,
      Mapping(map["system" := Str(prompt), "user" := Str(requirements)]),
      Str(reply),
      Mapping(map["project_name" := Str(CoderProject(s)), "active_skills" := StrList(skills)]));
    Blank.(codeContent := Some(reply), messages := [Message(reply)], activeSkills := Some(skills),
           debugLogs := [log])
  }

  /**
   * The coder stage: a missing `requirements` raises, and so does the
   * model; otherwise the reply becomes the code and the one new message.
   */
  function CoderOutcome(s: AgentState, model: CodeModel): (r: Result<AgentState, NodeError>)
    ensures s.requirements.None? ==> r == Err(MissingKey("requirements"))
    ensures r.Ok? ==> && r.value.codeContent.Some? && r.value.messages == [Message(r.value.codeContent.value)]
                      && |r.value.debugLogs| == 1 && r.value.debugLogs[0].node == CoderNodeName
  {
    match s.requirements
    case None => Err(MissingKey("requirements"))
    case Some(req) =>
      match model(CoderPrompt(CoderProject(s), Instructions(s)), req)
      case Err(reason) => Err(ModelFailed(reason))
      case Ok(reply) => Ok(CoderSuccess(s, req, reply))
  }

  /** The diagram placeholder: an empty diagram. */
  const DiagramUpdate: AgentState := Blank.(diagramContent := Some(""))

  // ----- lemmas -----

  /** Whatever metadata a stage passes, a mapping or nothing, the entry records a mapping. */
  lemma {:induction false} DebugLogMetadataIsMapping(node: string, input: Value, output: Value, metadata: Value)
    requires metadata.Null? || metadata.Mapping?
    ensures CreateDebugLog(node, input, output, metadata).metadata.Mapping?
    ensures metadata.Mapping? && metadata.entries != map[] ==> CreateDebugLog(node, input, output, metadata).metadata == metadata
  {
  }

  /** An answered plan is applied as given: its name, its skills and their combined text. */
  lemma {:induction false} ManagerAppliesPlan(s: AgentState, available: string, planner: Planner,
                                              content: string -> Option<string>)
    requires s.requirements.Some? && planner(available, s.requirements.value).Ok?
    ensures var plan, r := planner(available, s.requirements.value).value, ManagerOutcome(s, available, planner, content);
            && r.Ok? && r.value.projectName == Some(plan.projectName)
            && r.value.activeSkills == Some(plan.selectedSkills)
            && r.value.activeSkillContent == Some(Loader.Combined(plan.selectedSkills, content))
            && r.value.debugLogs[0].output == PlanOutput(plan)
  {
  }

  /** A failed plan gives the fixed ESP-IDF fallback and logs the reason. */
  lemma {:induction false} ManagerFallsBack(s: AgentState, available: string, planner: Planner,
                                            content: string -> Option<string>)
    requires s.requirements.Some? && planner(available, s.requirements.value).Err?
    ensures var reason, r := planner(available, s.requirements.value).error, ManagerOutcome(s, available, planner, content);
            && r.Ok? && r.value.projectName == Some(FallbackProject)
            && r.value.activeSkills == Some(FallbackSkills)
            && r.value.activeSkillContent == Some(FallbackContent)
            && r.value.debugLogs[0].output == Mapping(map["error" := Str(reason)])
            && r.value.debugLogs[0].metadata == Mapping(map["status" := Str("fallback")])
  {
    var reason := planner(available, s.requirements.value).error;
    DebugLogMetadataIsMapping(ManagerNodeName, Mapping(map["request" := Str(s.requirements.value)]),
                              Mapping(map["error" := Str(reason)]), Mapping(map["status" := Str("fallback")]));
  }

  /** Merging the manager's update changes nothing but its three fields and the log. */
  lemma {:induction false} ManagerKeepsRest(s: AgentState, u: AgentState)
    requires ManagerWrites(u)
    ensures Merge(s, u) == s.(projectName := u.projectName, activeSkills := u.activeSkills,
                              activeSkillContent := u.activeSkillContent, debugLogs := s.debugLogs + u.debugLogs)
  {
    assert s.messages + [] == s.messages;
  }

  /** After the fallback plan the workspace is prepared for ESP-IDF. */
  lemma {:induction false} FallbackTargetsEspIdf(s: AgentState, requirements: string, reason: string)
    ensures var s1 := Merge(s, ManagerFallback(requirements, reason));
            Workspace.PrepareWorkspace(s1).activePlatform == Some(Workspace.EspIdfTarget)
  {
    var s1 := Merge(s, ManagerFallback(requirements, reason));
    assert s1.activeSkills == Some(FallbackSkills);
    assert Workspace.ArduinoTarget !in FallbackSkills by {
      assert Workspace.ArduinoTarget[0] != FallbackSkills[0][0];
    }
  }

  /** The coder's prompt carries the project name and the standards, each at its place. */
  lemma {:induction false} CoderPromptCarries(projectName: string, instructions: string)
    ensures var p, i := CoderPrompt(projectName, instructions), |CoderHead| + |projectName| + |CoderMiddle|;
            && p[..|CoderHead|] == CoderHead
            && p[|CoderHead|..|CoderHead| + |projectName|] == projectName
            && p[i..i + |instructions|] == instructions
            && p[i + |instructions|..] == CoderTail
  {
    var p, i := CoderPrompt(projectName, instructions), |CoderHead| + |projectName| + |CoderMiddle|;
    assert p == CoderHead + projectName + CoderMiddle + instructions + CoderTail;
  }

  /** Without selected standards, the coder is told there are none; otherwise it gets them verbatim. */
  lemma {:induction false} CoderStandards(s: AgentState)
    ensures !Workspace.Present(s.activeSkillContent) ==> Instructions(s) == NoStandards
    ensures Workspace.Present(s.activeSkillContent) ==> Instructions(s) == s.activeSkillContent.value
  {
  }

  /** A coder run appends one message and one log, stores the reply, and fixes the skills list. */
  lemma {:induction false} CoderMerge(s: AgentState, model: CodeModel)
    requires CoderOutcome(s, model).Ok?
    ensures var u := CoderOutcome(s, model).value;
            var reply := model(CoderPrompt(CoderProject(s), Instructions(s)), s.requirements.value).value;
            var r := Merge(s, u);
            && r.codeContent == Some(reply)
            && r.messages == s.messages + [Message(reply)]
            && r.activeSkills == Some(s.activeSkills.GetOr([]))
            && r.projectName == s.projectName && r.workspace == s.workspace
  {
  }

  /** The model's failure propagates out of the coder. */
  lemma {:induction false} CoderModelFailure(s: AgentState, model: CodeModel)
    requires s.requirements.Some?
    requires model(CoderPrompt(CoderProject(s), Instructions(s)), s.requirements.value).Err?
    ensures CoderOutcome(s, model) ==
            Err(ModelFailed(model(CoderPrompt(CoderProject(s), Instructions(s)), s.requirements.value).error))
  {
  }

  /** The diagram stage sets the diagram to the empty text and nothing else. */
  lemma {:induction false} DiagramOnlyDiagram(s: AgentState)
    ensures Merge(s, DiagramUpdate) == s.(diagramContent := Some(""))
  {
    assert s.messages + [] == s.messages;
    assert s.debugLogs + [] == s.debugLogs;
  }

  /**
   * From the command line's initial state, manager, workspace preparation
   * and coder leave exactly two log entries, the manager's then the
   * coder's, and one message.
   */
  lemma {:induction false} PipelineLogs(requirements: string, taskName: string, runDir: string, available: string,
                                        planner: Planner, content: string -> Option<string>, model: CodeModel)
    requires var s0 := Initial(requirements, taskName, runDir);
             var m := ManagerOutcome(s0, available, planner, content).value;
             var s1 := Merge(s0, m);
             var s2 := Merge(s1, Workspace.PrepareWorkspace(s1));
             model(CoderPrompt(CoderProject(s2), Instructions(s2)), requirements).Ok?
    ensures var s0 := Initial(requirements, taskName, runDir);
            var m := ManagerOutcome(s0, available, planner, content);
            && m.Ok?
            && var s1 := Merge(s0, m.value);
               var s2 := Merge(s1, Workspace.PrepareWorkspace(s1));
               var c := CoderOutcome(s2, model);
               && c.Ok?
               && var s3 := Merge(s2, c.value);
                  && |s3.debugLogs| == 2 && s3.debugLogs[0].node == ManagerNodeName
                  && s3.debugLogs[1].node == CoderNodeName && |s3.messages| == 1
  {
    var s0 := Initial(requirements, taskName, runDir);
    ManagerStep(s0, available, planner, content);
    var s1 := Merge(s0, ManagerOutcome(s0, available, planner, content).value);
    PrepareStep(s1);
    var s2 := Merge(s1, Workspace.PrepareWorkspace(s1));
    CoderStep(s2, model);
  }

  /** The manager adds its one log entry and no message. */
  lemma {:induction false} ManagerStep(s: AgentState, available: string, planner: Planner, content: string -> Option<string>)
    requires s.requirements.Some?
    ensures var m := ManagerOutcome(s, available, planner, content);
            && m.Ok?
            && var s1 := Merge(s, m.value);
               && s1.requirements == s.requirements && s1.messages == s.messages
               && |s1.debugLogs| == |s.debugLogs| + 1 && s1.debugLogs[..|s.debugLogs|] == s.debugLogs
               && s1.debugLogs[|s.debugLogs|].node == ManagerNodeName
  {
    var m := ManagerOutcome(s, available, planner, content);
    assert ManagerWrites(m.value);
    assert m.value.messages == [] && m.value.requirements.None?;
  }

  /** The workspace stage adds no log entry and no message, and keeps the requirements. */
  lemma {:induction false} PrepareStep(s: AgentState)
    ensures var s2 := Merge(s, Workspace.PrepareWorkspace(s));
            s2.requirements == s.requirements && s2.messages == s.messages && s2.debugLogs == s.debugLogs
  {
    var p := Workspace.PrepareWorkspace(s);
    assert p.requirements.None?;
    assert s.messages + [] == s.messages && s.debugLogs + [] == s.debugLogs;
  }

  /** When the model answers, the coder adds its one log entry and one message. */
  lemma {:induction false} CoderStep(s: AgentState, model: CodeModel)
    requires s.requirements.Some? && model(CoderPrompt(CoderProject(s), Instructions(s)), s.requirements.value).Ok?
    ensures var c := CoderOutcome(s, model);
            && c.Ok?
            && var s3 := Merge(s, c.value);
               && |s3.messages| == |s.messages| + 1
               && |s3.debugLogs| == |s.debugLogs| + 1 && s3.debugLogs[..|s.debugLogs|] == s.debugLogs
               && s3.debugLogs[|s.debugLogs|].node == CoderNodeName
  {
  }
}
