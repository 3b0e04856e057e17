/**
 * The agent's state record and the policy by which a stage's partial update
 * is merged into it: `messages` and `debug_logs` are concatenated (their
 * reducer is list addition), every other field is replaced when the update
 * carries it. Every field may be absent.
 */
module State {
  import opened Wrappers
  import opened Values

  /** A chat message; only its text content is modelled. */
  datatype Message = Message(content: string)

  /** A debug log entry; the timestamp and the duration are not modelled. */
  datatype LogEntry = LogEntry(node: string, input: Value, output: Value, metadata: Value)

  /** The `workspace` record as stages find it in the state: any key may be missing. */
  datatype WorkspaceInfo = WorkspaceInfo(outputRoot: Option<string>, target: Option<string>, projectName: Option<string>)

  /** One file to be written, as a record whose keys may be missing. */
  datatype Artifact = Artifact(path: Option<string>, content: Option<string>, role: Option<string>)

  /**
   * The state, and equally a stage's partial update: `None` is a missing
   * key, and an empty list in `messages` or `debugLogs` contributes nothing.
   */
  datatype AgentState = AgentState(
    requirements: Option<string>,
    taskName: Option<string>,
    promptFile: Option<string>,
    runDir: Option<string>,
    projectName: Option<string>,
    activePlatform: Option<string>,
    activeSkills: Option<seq<string>>,
    activeSkillContent: Option<string>,
    preparedOutputDir: Option<string>,
    preparedCodePath: Option<string>,
    codeContent: Option<string>,
    diagramContent: Option<string>,
    messages: seq<Message>,
    debugLogs: seq<LogEntry>,
    statusMsg: Option<string>,
    workspace: Option<WorkspaceInfo>,
    artifacts: Option<seq<Artifact>>,
    manifestPath: Option<string>,
    persistedPaths: Option<seq<string>>)

  /** The state with no key set; as an update, the one that changes nothing. */
  const Blank: AgentState := AgentState(None, None, None, None, None, None, None, None, None, None,
                                        None, None, [], [], None, None, None, None, None)

  /** The initial state the command line builds for a run. */
  function Initial(requirements: string, taskName: string, runDir: string): (s: AgentState)
    ensures s.messages == [] && s.debugLogs == []
    ensures s.requirements == Some(requirements) && s.taskName == Some(taskName) && s.runDir == Some(runDir)
    ensures s.(requirements := None, taskName := None, runDir := None) == Blank
  {
    Blank.(requirements := Some(requirements), taskName := Some(taskName), runDir := Some(runDir))
  }

  /** A field without a reducer: the update's value wins when it has one. */
  function Overwrite<T>(cur: Option<T>, upd: Option<T>): (r: Option<T>)
    ensures upd.Some? ==> r == upd
    ensures upd.None? ==> r == cur
  {
    if upd.Some? then upd else cur
  }

  /** Applying a stage's update `u` to the state `s`. */
  function Merge(s: AgentState, u: AgentState): (r: AgentState)
    ensures r.messages == s.messages + u.messages
    ensures r.debugLogs == s.debugLogs + u.debugLogs
  {
    AgentState(
      Overwrite(s.requirements, u.requirements),
      Overwrite(s.taskName, u.taskName),
      Overwrite(s.promptFile, u.promptFile),
      Overwrite(s.runDir, u.runDir),
      Overwrite(s.projectName, u.projectName),
      Overwrite(s.activePlatform, u.activePlatform),
      Overwrite(s.activeSkills, u.activeSkills),
      Overwrite(s.activeSkillContent, u.activeSkillContent),
      Overwrite(s.preparedOutputDir, u.preparedOutputDir),
      Overwrite(s.preparedCodePath, u.preparedCodePath),
      Overwrite(s.codeContent, u.codeContent),
      Overwrite(s.diagramContent, u.diagramContent),
      s.messages + u.messages,
      s.debugLogs + u.debugLogs,
      Overwrite(s.statusMsg, u.statusMsg),
      Overwrite(s.workspace, u.workspace),
      Overwrite(s.artifacts, u.artifacts),
      Overwrite(s.manifestPath, u.manifestPath),
      Overwrite(s.persistedPaths, u.persistedPaths))
  }

  /** Applying a sequence of updates in order. */
  function MergeAll(s: AgentState, us: seq<AgentState>): AgentState
    decreases |us|
  {
    if us == [] then s else MergeAll(Merge(s, us[0]), us[1..])
  }

  /** All that the updates appended to the logs, in order. */
  function LogsOf(us: seq<AgentState>): seq<LogEntry>
    decreases |us|
  {
    if us == [] then [] else us[0].debugLogs + LogsOf(us[1..])
  }

  // ----- lemmas -----

  /** The blank update changes nothing, and merging into the blank state yields the update. */
  lemma {:induction false} MergeBlank(s: AgentState)
    ensures Merge(s, Blank) == s
    ensures Merge(Blank, s) == s
  {
    assert s.messages + [] == s.messages && [] + s.messages == s.messages;
    assert s.debugLogs + [] == s.debugLogs && [] + s.debugLogs == s.debugLogs;
  }

  /** Two updates applied one after the other act as their merge applied once. */
  lemma {:induction false} MergeAssociative(s: AgentState, u: AgentState, v: AgentState)
    ensures Merge(Merge(s, u), v) == Merge(s, Merge(u, v))
  {
    assert s.messages + u.messages + v.messages == s.messages + (u.messages + v.messages);
    assert s.debugLogs + u.debugLogs + v.debugLogs == s.debugLogs + (u.debugLogs + v.debugLogs);
  }

  /**
   * Every field other than the two lists takes the update's value when the
   * update carries one, and otherwise keeps the state's.
   */
  lemma {:induction false} MergeOverwrites(s: AgentState, u: AgentState)
    ensures u.requirements.Some? ==> Merge(s, u).requirements == u.requirements
    ensures u.requirements.None? ==> Merge(s, u).requirements == s.requirements
    ensures u.taskName.Some? ==> Merge(s, u).taskName == u.taskName
    ensures u.taskName.None? ==> Merge(s, u).taskName == s.taskName
    ensures u.promptFile.Some? ==> Merge(s, u).promptFile == u.promptFile
    ensures u.promptFile.None? ==> Merge(s, u).promptFile == s.promptFile
    ensures u.runDir.Some? ==> Merge(s, u).runDir == u.runDir
    ensures u.runDir.None? ==> Merge(s, u).runDir == s.runDir
    ensures u.projectName.Some? ==> Merge(s, u).projectName == u.projectName
    ensures u.projectName.None? ==> Merge(s, u).projectName == s.projectName
    ensures u.activePlatform.Some? ==> Merge(s, u).activePlatform == u.activePlatform
    ensures u.activePlatform.None? ==> Merge(s, u).activePlatform == s.activePlatform
    ensures u.activeSkills.Some? ==> Merge(s, u).activeSkills == u.activeSkills
    ensures u.activeSkills.None? ==> Merge(s, u).activeSkills == s.activeSkills
    ensures u.activeSkillContent.Some? ==> Merge(s, u).activeSkillContent == u.activeSkillContent
    ensures u.activeSkillContent.None? ==> Merge(s, u).activeSkillContent == s.activeSkillContent
    ensures u.preparedOutputDir.Some? ==> Merge(s, u).preparedOutputDir == u.preparedOutputDir
    ensures u.preparedOutputDir.None? ==> Merge(s, u).preparedOutputDir == s.preparedOutputDir
    ensures u.preparedCodePath.Some? ==> Merge(s, u).preparedCodePath == u.preparedCodePath
    ensures u.preparedCodePath.None? ==> Merge(s, u).preparedCodePath == s.preparedCodePath
    ensures u.codeContent.Some? ==> Merge(s, u).codeContent == u.codeContent
    ensures u.codeContent.None? ==> Merge(s, u).codeContent == s.codeContent
    ensures u.diagramContent.Some? ==> Merge(s, u).diagramContent == u.diagramContent
    ensures u.diagramContent.None? ==> Merge(s, u).diagramContent == s.diagramContent
    ensures u.statusMsg.Some? ==> Merge(s, u).statusMsg == u.statusMsg
    ensures u.statusMsg.None? ==> Merge(s, u).statusMsg == s.statusMsg
    ensures u.workspace.Some? ==> Merge(s, u).workspace == u.workspace
    ensures u.workspace.None? ==> Merge(s, u).workspace == s.workspace
    ensures u.artifacts.Some? ==> Merge(s, u).artifacts == u.artifacts
    ensures u.artifacts.None? ==> Merge(s, u).artifacts == s.artifacts
    ensures u.manifestPath.Some? ==> Merge(s, u).manifestPath == u.manifestPath
    ensures u.manifestPath.None? ==> Merge(s, u).manifestPath == s.manifestPath
    ensures u.persistedPaths.Some? ==> Merge(s, u).persistedPaths == u.persistedPaths
    ensures u.persistedPaths.None? ==> Merge(s, u).persistedPaths == s.persistedPaths
  {
  }

  /** So an update that does not carry the project name, the skills, the workspace or the run directory leaves those four as they were. */
  lemma {:induction false} MergeKeepsUnset(s: AgentState, u: AgentState)
    requires u.projectName.None? && u.activeSkills.None? && u.workspace.None? && u.runDir.None?
    ensures var r := Merge(s, u);
            r.projectName == s.projectName && r.activeSkills == s.activeSkills
            && r.workspace == s.workspace && r.runDir == s.runDir
  {
  }

  /** After any sequence of updates the logs are the initial ones followed by every update's, in order. */
  lemma {:induction false} MergeAllLogs(s: AgentState, us: seq<AgentState>)
    ensures MergeAll(s, us).debugLogs == s.debugLogs + LogsOf(us)
    ensures |MergeAll(s, us).messages| >= |s.messages|
    ensures MergeAll(s, us).messages[..|s.messages|] == s.messages
    decreases |us|
  {
    if us != [] {
      var s1 := Merge(s, us[0]);
      MergeAllLogs(s1, us[1..]);
      assert s.debugLogs + us[0].debugLogs + LogsOf(us[1..]) == s.debugLogs + LogsOf(us);
      assert s1.messages[..|s.messages|] == s.messages;
    }
  }
}
