/**
 * The engineer-session facade: sequences of gateway calls that start an
 * engineer's session, brief it, hand it project ideas, relay messages between
 * sessions and end it. Each operation is proved to issue exactly the commands
 * its run function describes, in that order; the messages are string templates.
 *
 * The project-ideas file is modelled as a field holding what a read of the
 * file would give; the outcome of a write is a parameter.
 */
module Engineering {
  import opened Wrappers
  import opened JsText
  import opened Types
  import opened TmuxProtocol
  import opened TmuxGateway

  const DefaultIdeasPath: string := "/tmp/toma_project_ideas.json"
  /** The name the engineer's first window is given. */
  const EngineerWindowName: string := "ingeniero"
  /** What is typed to start the engineer's assistant. */
  const AssistantCommand: string := "claude"
  /** How long the facade waits for the assistant to start, and for final commits, in milliseconds. */
  const StartupWait: int := 5000
  const TerminationWait: int := 30000
  const Unassigned: string := "unassigned"

  /** Window 0 of a session, where every message of the facade goes. */
  function FirstWindow(session: string): (r: string)
    ensures r == Target(session, Num(0))
  {
    assert NumberText(Num(0)) == "0";
    session + ":0"
  }

  // ---------------------------------------------------------------------------
  // Message templates
  // ---------------------------------------------------------------------------

  const BriefingIntro: string := "You are an AI engineer responsible for the codebase at: "

  const BriefingDuties: string :=
    "\n\nYour primary duties include:\n"
    + "1. Analyzing the project structure and understanding the codebase\n"
    + "2. Working on assigned tasks and priorities from the Project Manager\n"
    + "3. Following git discipline (commit every 30 minutes)\n"
    + "4. Communicating progress and blockers clearly to the PM\n"
    + "5. Managing sub-agents internally for different specialized tasks\n"
    + "6. Maintaining high code quality standards\n\n"
    + "Git Discipline Rules (MANDATORY):\n"
    + "- Commit every 30 minutes: git add -A && git commit -m \"Progress: [description]\"\n"
    + "- Never work >1 hour without committing\n"
    + "- Use meaningful commit messages\n"
    + "- Create feature branches for new work\n"
    + "- Tag stable versions before major changes\n\n"
    + "Internal Sub-Agent Management:\n"
    + "- You can delegate specialized tasks to internal sub-agents (frontend, backend, testing, etc.)\n"
    + "- Coordinate between your sub-agents to ensure cohesive development\n"
    + "- The Project Manager will communicate with you, not your sub-agents directly\n"
    + "- Report consolidated progress from all your sub-agents to the PM\n\n"
    + "First, analyze the project to understand:\n"
    + "- Project type (check package.json, requirements.txt, etc.)\n"
    + "- Current issues or priorities\n"
    + "- Main application purpose\n"
    + "- Available development tools and setup\n\n"
    + "Wait for instructions from the Project Manager before beginning work."

  const AdditionalInstructions: string := "\n\nAdditional Instructions:\n"

  /** The standing briefing for an engineer working on the project at `projectPath`. */
  function BaseBriefing(projectPath: string): string {
    BriefingIntro + projectPath + BriefingDuties
  }

  /**
   * The briefing: the standing text, followed by the custom instructions under
   * their own heading when there are any.
   */
  function Briefing(projectPath: string, custom: Option<string>): string {
    WithInstructions(BaseBriefing(projectPath), custom)
  }

  function WithInstructions(base: string, custom: Option<string>): string {
    if Truthy(custom) then base + AdditionalInstructions + custom.value else base
  }

  /**
   * A briefing opens with the standing text; it is only the standing text when
   * the custom instructions are absent or empty, and otherwise ends with them
   * after their heading.
   */
  lemma WithInstructionsShape(base: string, custom: Option<string>)
    ensures var r := WithInstructions(base, custom);
      && |r| >= |base| && r[..|base|] == base
      && (!Truthy(custom) <==> r == base)
      && (Truthy(custom) ==> r[|base|..] == AdditionalInstructions + custom.value)
  {
    var r := WithInstructions(base, custom);
    if Truthy(custom) {
      assert r == base + (AdditionalInstructions + custom.value);
      PrefixOfConcat(base, AdditionalInstructions + custom.value);
    } else {
      assert r[..|base|] == base;
    }
  }

  lemma PrefixOfConcat(a: string, b: string)
    ensures (a + b)[..|a|] == a && (a + b)[|a|..] == b
    ensures forall n :: 0 <= n <= |a| ==> (a + b)[..n] == a[..n]
  {
  }

  function PriorityName(p: Priority): string {
    match p
    case High => "high"
    case Medium => "medium"
    case Low => "low"
  }

  /** The requirement lines, each as a bullet. */
  function Bullets(items: seq<string>): (r: seq<string>)
    ensures |r| == |items| && forall i :: 0 <= i < |items| ==> r[i] == "- " + items[i]
    decreases |items|
  {
    if items == [] then [] else Bullets(items[..|items| - 1]) + ["- " + items[|items| - 1]]
  }

  /** The optional lines of an idea: empty when the member is absent or falsy. */
  function HoursLine(hours: Option<int>): string {
    if hours.Some? && hours.value != 0 then "Estimated Hours: " + IntToString(hours.value) else ""
  }

  function AssigneeLine(assignee: Option<string>): string {
    if Truthy(assignee) then "Assigned To: " + assignee.value else ""
  }

  /** The message that hands a project idea to an engineer. */
  function IdeaMessage(idea: ProjectIdea): string {
    "New Project Idea: " + idea.title + "\n\n"
      + "Description: " + idea.description + "\n\n"
      + "Requirements:\n" + Join(Bullets(idea.requirements), '\n') + "\n\n"
      + "Priority: " + ToUpper(PriorityName(idea.priority)) + "\n"
      + HoursLine(idea.estimated_hours) + "\n"
      + AssigneeLine(idea.assigned_to) + "\n\n"
      + "Please review this project idea and provide:\n"
      + "1. Technical feasibility assessment\n"
      + "2. Implementation approach\n"
      + "3. Potential challenges\n"
      + "4. Time estimate refinement"
  }

  /** The priority is announced in capitals. */
  lemma PriorityInCapitals(p: Priority)
    ensures ToUpper(PriorityName(p)) == match p case High => "HIGH" case Medium => "MEDIUM" case Low => "LOW"
  {
    var r := ToUpper(PriorityName(p));
    match p
    case High => assert r == "HIGH";
    case Medium => assert r == "MEDIUM";
    case Low => assert r == "LOW";
  }

  const StatusRequest: string :=
    "STATUS UPDATE REQUEST\n\n"
    + "Please provide a comprehensive status update including:\n\n"
    + "1. COMPLETED TASKS (since last update):\n"
    + "   - List specific tasks/features completed\n"
    + "   - Include any commits made\n\n"
    + "2. CURRENT WORK:\n"
    + "   - What you're currently working on\n"
    + "   - Progress percentage if applicable\n\n"
    + "3. BLOCKERS/ISSUES:\n"
    + "   - Any technical challenges\n"
    + "   - Dependencies waiting on others\n"
    + "   - Resource needs\n\n"
    + "4. NEXT STEPS:\n"
    + "   - Immediate next tasks (next 2-4 hours)\n"
    + "   - Planned work for rest of day\n\n"
    + "5. GIT STATUS:\n"
    + "   - Last commit time and message\n"
    + "   - Any uncommitted changes\n"
    + "   - Branch status\n\n"
    + "Please be specific and include relevant details for project coordination."

  const RelayFooter: string := "\n\n---\nThis message was sent via the orchestrator system."
  const BroadcastFooter: string := "\n\n---\nThis message was broadcast to all active engineer sessions."

  /** The envelope of a message from one engineer to another. */
  function RelayMessage(fromSession: string, message: string): string {
    "MESSAGE FROM " + ToUpper(fromSession) + ":\n\n" + message + RelayFooter
  }

  /** The sender is named in capitals, so its case does not change the envelope. */
  lemma RelayIgnoresSenderCase(fromSession: string, message: string)
    ensures RelayMessage(ToLower(fromSession), message) == RelayMessage(fromSession, message)
  {
    assert ToUpper(ToLower(fromSession)) == ToUpper(fromSession) by {
      forall i | 0 <= i < |fromSession| ensures UpperChar(LowerChar(fromSession[i])) == UpperChar(fromSession[i]) {
      }
    }
  }

  function BroadcastText(message: string): string {
    "BROADCAST MESSAGE:\n\n" + message + BroadcastFooter
  }

  function TerminationNotice(reason: string): string {
    "SESSION TERMINATION NOTICE: " + reason
      + "\n\nPlease commit any outstanding work immediately. Session will be terminated in 30 seconds."
  }

  // ---------------------------------------------------------------------------
  // The project-ideas file
  // ---------------------------------------------------------------------------

  /** What reading the ideas file gives: no file, a file that cannot be read or parsed as a list, or a list. */
  datatype IdeasFile = Absent | Unreadable | Stored(ideas: seq<ProjectIdea>)

  /** An idea as it is saved: an idea nobody is assigned to is marked unassigned. */
  function AsSaved(idea: ProjectIdea): (r: ProjectIdea)
    ensures r == idea.(assigned_to := r.assigned_to)
    ensures Truthy(r.assigned_to)
    ensures Truthy(idea.assigned_to) ==> r.assigned_to == idea.assigned_to
    ensures !Truthy(idea.assigned_to) ==> r.assigned_to == Some(Unassigned)
  {
    idea.(assigned_to := Some(if Truthy(idea.assigned_to) then idea.assigned_to.value else Unassigned))
  }

  /** The ideas a read returns: an absent or unusable file reads as no ideas. */
  function StoredIdeas(f: IdeasFile): seq<ProjectIdea> {
    if f.Stored? then f.ideas else []
  }

  /**
   * Saving an idea: load the list (none if there is no file), append the idea
   * and write the list back. An unusable file or a failed write raises an
   * error and leaves the file as it was.
   */
  function SaveSpec(f: IdeasFile, idea: ProjectIdea, writeOk: bool): (IdeasFile, bool) {
    if f.Unreadable? || !writeOk then (f, false)
    else (Stored(StoredIdeas(f) + [AsSaved(idea)]), true)
  }

  /**
   * A saved idea is read back last, after the earlier ideas, which are
   * unchanged; a failed save changes nothing.
   */
  lemma SaveThenRead(f: IdeasFile, idea: ProjectIdea, writeOk: bool)
    ensures var (f', saved) := SaveSpec(f, idea, writeOk);
      && (saved <==> !f.Unreadable? && writeOk)
      && (saved ==> StoredIdeas(f') == StoredIdeas(f) + [AsSaved(idea)])
      && (saved ==> |StoredIdeas(f')| == |StoredIdeas(f)| + 1 && StoredIdeas(f')[..|StoredIdeas(f)|] == StoredIdeas(f))
      && (!saved ==> f' == f)
  {
    var (f', saved) := SaveSpec(f, idea, writeOk);
    if saved {
      assert StoredIdeas(f')[..|StoredIdeas(f)|] == StoredIdeas(f);
    }
  }

  // ---------------------------------------------------------------------------
  // Runs against the multiplexer
  // ---------------------------------------------------------------------------

  /**
   * Starting an engineer's session: create it in the project directory; only
   * if that worked, rename window 0, start the assistant, wait for it and send
   * the briefing. The outcome is whether the session was created.
   */
  function CreateEngineerRun(host: Host, t: seq<Event>, config: EngineerSessionConfig, briefing: string): (r: (bool, seq<Event>))
  {
    var session := config.session_name;
    var create := NewSession(session, DirOption(Some(config.project_path)));
    var (created, t1) := CommandRun(host, t, create);
    if !created then (false, t1)
    else
      var t2 := CommandRun(host, t1, RenameWindow(Target(session, Num(0)), EngineerWindowName)).1;
      var t3 := CommandRun(host, t2, SendKeys(FirstWindow(session), AssistantCommand)).1;
      var t4 := CommandRun(host, t3, SendKeys(FirstWindow(session), EnterKey)).1;
      var t5 := t4 + [Sleep(StartupWait)];
      (true, SendMessageRun(host, t5, FirstWindow(session), briefing, DefaultMessageDelay).1)
  }

  /**
   * A failed create ends the call with nothing else issued; otherwise window 0
   * is renamed, the assistant started and awaited, and the briefing typed, in
   * that order, and the call succeeds whatever those steps report.
   */
  lemma CreateEngineerOrder(host: Host, t: seq<Event>, config: EngineerSessionConfig, briefing: string)
    ensures var (ok, t') := CreateEngineerRun(host, t, config, briefing);
      var session := config.session_name;
      var create := NewSession(session, DirOption(Some(config.project_path)));
      && (ok <==> host(t, create).Ok?)
      && (!ok ==> t' == t + [Exec(create)])
      && (ok ==>
            && |t'| > |t| + 5
            && t'[..|t| + 5] == t + [Exec(create),
                                     Exec(RenameWindow(FirstWindow(session), EngineerWindowName)),
                                     Exec(SendKeys(FirstWindow(session), AssistantCommand)),
                                     Exec(SendKeys(FirstWindow(session), EnterKey)),
                                     Sleep(StartupWait)]
            && t'[|t| + 5] == Exec(SendKeys(FirstWindow(session), briefing)))
  {
    var (ok, t') := CreateEngineerRun(host, t, config, briefing);
    if ok {
      var session := config.session_name;
      var t5 := t + [Exec(NewSession(session, DirOption(Some(config.project_path)))),
                     Exec(RenameWindow(FirstWindow(session), EngineerWindowName)),
                     Exec(SendKeys(FirstWindow(session), AssistantCommand)),
                     Exec(SendKeys(FirstWindow(session), EnterKey)),
                     Sleep(StartupWait)];
      assert t'[..|t5|] == t5;
    }
  }

  /** Whether a session is the excluded one: only a non-empty exclusion excludes anything. */
  predicate Excluded(session: string, exclude: Option<string>) {
    Truthy(exclude) && session == exclude.value
  }

  /** The sessions a broadcast reaches, in the given order. */
  function Recipients(sessions: seq<string>, exclude: Option<string>): (r: seq<string>)
    ensures |r| <= |sessions|
    ensures forall i :: 0 <= i < |r| ==> r[i] in sessions && !Excluded(r[i], exclude)
    ensures forall i :: 0 <= i < |sessions| && !Excluded(sessions[i], exclude) ==> sessions[i] in r
    decreases |sessions|
  {
    if sessions == [] then []
    else
      var init := sessions[..|sessions| - 1];
      var last := sessions[|sessions| - 1];
      assert sessions == init + [last];
      if Excluded(last, exclude) then Recipients(init, exclude) else Recipients(init, exclude) + [last]
  }

  /** A broadcast of a text: one two-phase delivery to window 0 of each recipient in turn, collecting the outcomes. */
  function BroadcastRun(host: Host, t: seq<Event>, sessions: seq<string>, text: string, exclude: Option<string>)
    : (r: (seq<bool>, seq<Event>))
    ensures |r.0| == |Recipients(sessions, exclude)|
    ensures |r.1| >= |t| && r.1[..|t|] == t
    decreases |sessions|
  {
    if sessions == [] then ([], t)
    else
      var init := sessions[..|sessions| - 1];
      var last := sessions[|sessions| - 1];
      var (results, t1) := BroadcastRun(host, t, init, text, exclude);
      if Excluded(last, exclude) then (results, t1)
      else
        var (ok, t2) := SendMessageRun(host, t1, FirstWindow(last), text, DefaultMessageDelay);
        assert t2[..|t|] == t2[..|t1|][..|t|];
        (results + [ok], t2)
  }

  /** One more session of the broadcast loop: an excluded one adds nothing, any other adds one delivery. */
  lemma BroadcastRunStep(host: Host, t: seq<Event>, sessions: seq<string>, i: int, text: string, exclude: Option<string>)
    requires 0 <= i < |sessions|
    ensures var (results, t1) := BroadcastRun(host, t, sessions[..i], text, exclude);
      BroadcastRun(host, t, sessions[..i + 1], text, exclude) ==
        if Excluded(sessions[i], exclude) then (results, t1)
        else
          var (ok, t2) := SendMessageRun(host, t1, FirstWindow(sessions[i]), text, DefaultMessageDelay);
          (results + [ok], t2)
  {
    assert sessions[..i + 1][..i] == sessions[..i];
  }

  /** Events that only type keys into the given windows, or wait. */
  ghost predicate TypesOnlyInto(events: seq<Event>, windows: set<string>) {
    forall i :: 0 <= i < |events| ==> events[i].Sleep? || (events[i].cmd.SendKeys? && events[i].cmd.target in windows)
  }

  ghost function FirstWindows(sessions: seq<string>): set<string> {
    set i | 0 <= i < |sessions| :: FirstWindow(sessions[i])
  }

  /** A two-phase delivery types only into its target. */
  lemma SendMessageTypesOnlyInto(host: Host, t: seq<Event>, target: string, text: string, delay: int)
    ensures var t' := SendMessageRun(host, t, target, text, delay).1;
      TypesOnlyInto(t'[|t|..], {target})
  {
  }

  /**
   * A broadcast types only into window 0 of its recipients; in particular it
   * never types into the excluded session.
   */
  lemma {:induction false} BroadcastTypesOnlyIntoRecipients(host: Host, t: seq<Event>, sessions: seq<string>,
                                                             text: string, exclude: Option<string>)
    ensures var t' := BroadcastRun(host, t, sessions, text, exclude).1;
      TypesOnlyInto(t'[|t|..], FirstWindows(Recipients(sessions, exclude)))
    decreases |sessions|
  {
    if sessions != [] {
      var init := sessions[..|sessions| - 1];
      var last := sessions[|sessions| - 1];
      BroadcastTypesOnlyIntoRecipients(host, t, init, text, exclude);
      var t1 := BroadcastRun(host, t, init, text, exclude).1;
      if !Excluded(last, exclude) {
        var t2 := SendMessageRun(host, t1, FirstWindow(last), text, DefaultMessageDelay).1;
        SendMessageTypesOnlyInto(host, t1, FirstWindow(last), text, DefaultMessageDelay);
        var rs := Recipients(init, exclude);
        assert Recipients(sessions, exclude) == rs + [last];
        FirstWindowsAppend(rs, last);
        SuffixSplit(t, t1, t2);
        TypesOnlyIntoConcat(t1[|t|..], t2[|t1|..], FirstWindows(rs), {FirstWindow(last)});
      }
    }
  }

  /** The events after `t` in `t2` are those after `t` in `t1`, then those after `t1`. */
  lemma SuffixSplit(t: seq<Event>, t1: seq<Event>, t2: seq<Event>)
    requires |t| <= |t1| <= |t2| && t2[..|t1|] == t1
    ensures t2[|t|..] == t1[|t|..] + t2[|t1|..]
  {
  }

  lemma FirstWindowsAppend(rs: seq<string>, last: string)
    ensures FirstWindows(rs + [last]) == FirstWindows(rs) + {FirstWindow(last)}
  {
    var all := rs + [last];
    forall w | w in FirstWindows(rs) ensures w in FirstWindows(all) {
      var i :| 0 <= i < |rs| && w == FirstWindow(rs[i]);
      assert all[i] == rs[i];
    }
    assert all[|rs|] == last;
  }

  lemma TypesOnlyIntoConcat(a: seq<Event>, b: seq<Event>, wa: set<string>, wb: set<string>)
    requires TypesOnlyInto(a, wa) && TypesOnlyInto(b, wb)
    ensures TypesOnlyInto(a + b, wa + wb)
  {
    forall i | 0 <= i < |a + b|
      ensures (a + b)[i].Sleep? || ((a + b)[i].cmd.SendKeys? && (a + b)[i].cmd.target in wa + wb)
    {
      if i >= |a| {
        assert (a + b)[i] == b[i - |a|];
      }
    }
  }

  /** A non-empty excluded session receives nothing from a broadcast. */
  lemma BroadcastSkipsExcluded(host: Host, t: seq<Event>, sessions: seq<string>, text: string, exclude: Option<string>)
    requires Truthy(exclude)
    ensures var t' := BroadcastRun(host, t, sessions, text, exclude).1;
      forall i :: |t| <= i < |t'| ==> t'[i].Sleep? || (t'[i].cmd.SendKeys? && t'[i].cmd.target != FirstWindow(exclude.value))
  {
    var t' := BroadcastRun(host, t, sessions, text, exclude).1;
    var rs := Recipients(sessions, exclude);
    BroadcastTypesOnlyIntoRecipients(host, t, sessions, text, exclude);
    forall i | |t| <= i < |t'| && t'[i].Exec?
      ensures t'[i].cmd.SendKeys? && t'[i].cmd.target != FirstWindow(exclude.value)
    {
      assert t'[|t|..][i - |t|] == t'[i];
      var j :| 0 <= j < |rs| && t'[i].cmd.target == FirstWindow(rs[j]);
      FirstWindowInjective(rs[j], exclude.value);
    }
  }

  /** Selecting the recipients distributes over concatenation, so it keeps the given order. */
  lemma {:induction false} RecipientsAppend(a: seq<string>, b: seq<string>, exclude: Option<string>)
    ensures Recipients(a + b, exclude) == Recipients(a, exclude) + Recipients(b, exclude)
    decreases |b|
  {
    if b != [] {
      var b' := b[..|b| - 1];
      assert (a + b)[..|a + b| - 1] == a + b';
      assert (a + b)[|a + b| - 1] == b[|b| - 1];
      RecipientsAppend(a, b', exclude);
    } else {
      assert a + b == a;
    }
  }

  /** One session is a recipient exactly when it is not the excluded one. */
  lemma RecipientsOfOne(s: string, exclude: Option<string>)
    ensures Recipients([s], exclude) == if Excluded(s, exclude) then [] else [s]
  {
    assert [s][..0] == [];
  }

  /** The windows into which exactly the keys `text` are typed, in order. */
  function TypedTargets(events: seq<Event>, text: string): seq<string>
    decreases |events|
  {
    if events == [] then []
    else
      var e := events[|events| - 1];
      if e.Exec? && e.cmd.SendKeys? && e.cmd.keys == text then TypedTargets(events[..|events| - 1], text) + [e.cmd.target]
      else TypedTargets(events[..|events| - 1], text)
  }

  lemma {:induction false} TypedTargetsConcat(a: seq<Event>, b: seq<Event>, text: string)
    ensures TypedTargets(a + b, text) == TypedTargets(a, text) + TypedTargets(b, text)
    decreases |b|
  {
    if b != [] {
      var b' := b[..|b| - 1];
      assert (a + b)[..|a + b| - 1] == a + b';
      assert (a + b)[|a + b| - 1] == b[|b| - 1];
      TypedTargetsConcat(a, b', text);
    } else {
      assert a + b == a;
    }
  }

  /** A two-phase delivery of a text other than `Enter` types that text once, into its target. */
  lemma SendMessageTypesOnce(host: Host, t: seq<Event>, target: string, text: string, delay: int)
    requires text != EnterKey
    ensures TypedTargets(SendMessageRun(host, t, target, text, delay).1[|t|..], text) == [target]
  {
    var tail := SendMessageRun(host, t, target, text, delay).1[|t|..];
    var first := Exec(SendKeys(target, text));
    if host(t, SendKeys(target, text)).Fail? {
      assert tail == [first];
      assert tail[..0] == [];
      assert TypedTargets([first], text) == [] + [target];
    } else {
      var typed := [first, Sleep(delay)];
      assert tail == typed + [Exec(SendKeys(target, EnterKey))];
      assert (typed + [Exec(SendKeys(target, EnterKey))])[..2] == typed;
      assert TypedTargets(tail, text) == TypedTargets(typed, text);
      assert typed[..1] == [first];
      assert TypedTargets(typed, text) == TypedTargets([first], text);
      assert [first][..0] == [];
      assert TypedTargets([first], text) == [] + [target];
    }
  }

  /** Window 0 of each session, in order. */
  function FirstWindowsInOrder(sessions: seq<string>): (r: seq<string>)
    ensures |r| == |sessions|
    ensures forall k :: 0 <= k < |sessions| ==> r[k] == FirstWindow(sessions[k])
  {
    seq(|sessions|, k requires 0 <= k < |sessions| => FirstWindow(sessions[k]))
  }

  lemma FirstWindowsInOrderAppend(sessions: seq<string>, last: string)
    ensures FirstWindowsInOrder(sessions + [last]) == FirstWindowsInOrder(sessions) + [FirstWindow(last)]
  {
    var all := sessions + [last];
    assert forall k :: 0 <= k < |sessions| ==> all[k] == sessions[k];
  }

  /**
   * A broadcast of a text other than `Enter` types that text exactly once into
   * window 0 of each recipient, in the order of the recipients, and nowhere else.
   */
  lemma {:induction false} BroadcastDeliversInOrder(host: Host, t: seq<Event>, sessions: seq<string>,
                                                    text: string, exclude: Option<string>)
    requires text != EnterKey
    ensures TypedTargets(BroadcastRun(host, t, sessions, text, exclude).1[|t|..], text)
         == FirstWindowsInOrder(Recipients(sessions, exclude))
    decreases |sessions|
  {
    if sessions == [] {
      assert BroadcastRun(host, t, sessions, text, exclude).1[|t|..] == [];
    } else {
      var init := sessions[..|sessions| - 1];
      var last := sessions[|sessions| - 1];
      BroadcastDeliversInOrder(host, t, init, text, exclude);
      var t1 := BroadcastRun(host, t, init, text, exclude).1;
      var rs := Recipients(init, exclude);
      if Excluded(last, exclude) {
        assert BroadcastRun(host, t, sessions, text, exclude).1 == t1;
        assert Recipients(sessions, exclude) == rs;
      } else {
        var t2 := SendMessageRun(host, t1, FirstWindow(last), text, DefaultMessageDelay).1;
        assert BroadcastRun(host, t, sessions, text, exclude).1 == t2;
        DeliveryAppendsTarget(host, t, t1, FirstWindow(last), text);
        assert Recipients(sessions, exclude) == rs + [last];
        FirstWindowsInOrderAppend(rs, last);
      }
    }
  }

  /** One more delivery after the trace `t1` adds its target to the windows typed into since `t`. */
  lemma DeliveryAppendsTarget(host: Host, t: seq<Event>, t1: seq<Event>, target: string, text: string)
    requires text != EnterKey
    requires |t| <= |t1|
    ensures TypedTargets(SendMessageRun(host, t1, target, text, DefaultMessageDelay).1[|t|..], text)
         == TypedTargets(t1[|t|..], text) + [target]
  {
    var t2 := SendMessageRun(host, t1, target, text, DefaultMessageDelay).1;
    SendMessageTypesOnce(host, t1, target, text, DefaultMessageDelay);
    SuffixSplit(t, t1, t2);
    TypedTargetsConcat(t1[|t|..], t2[|t1|..], text);
  }

  /** The broadcast envelope is never the bare `Enter` key. */
  lemma BroadcastTextIsNotEnter(message: string)
    ensures BroadcastText(message) != EnterKey
  {
    assert |BroadcastText(message)| > |EnterKey|;
  }

  lemma FirstWindowInjective(a: string, b: string)
    ensures FirstWindow(a) == FirstWindow(b) <==> a == b
  {
    if FirstWindow(a) == FirstWindow(b) {
      assert a == FirstWindow(a)[..|a|];
      assert b == FirstWindow(b)[..|b|];
    }
  }

  /** Without an exclusion, every session is reached, in order. */
  lemma {:induction false} BroadcastReachesAll(sessions: seq<string>, exclude: Option<string>)
    requires !Truthy(exclude)
    ensures Recipients(sessions, exclude) == sessions
    decreases |sessions|
  {
    if sessions != [] {
      BroadcastReachesAll(sessions[..|sessions| - 1], exclude);
      assert sessions == sessions[..|sessions| - 1] + [sessions[|sessions| - 1]];
    }
  }

  /** A termination notice is sent exactly when there is a reason. */
  function NoticeFor(reason: Option<string>): (r: Option<string>)
    ensures r.Some? <==> Truthy(reason)
    ensures r.Some? ==> r.value == TerminationNotice(reason.value)
  {
    if Truthy(reason) then Some(TerminationNotice(reason.value)) else None
  }

  /**
   * Ending a session: when there is a notice, announce it and wait for final
   * commits; then kill the session. The outcome is the kill's.
   */
  function TerminateRun(host: Host, t: seq<Event>, session: string, notice: Option<string>): (bool, seq<Event>) {
    CommandRun(host, NoticeRun(host, t, session, notice), KillSession(session))
  }

  /** The termination notice, if there is one, and the wait for final commits. */
  function NoticeRun(host: Host, t: seq<Event>, session: string, notice: Option<string>): (r: seq<Event>)
    ensures |r| >= |t| && r[..|t|] == t
    ensures notice.None? ==> r == t
    ensures notice.Some? ==>
      && |r| >= |t| + 2
      && r[|t|] == Exec(SendKeys(FirstWindow(session), notice.value))
      && r[|r| - 1] == Sleep(TerminationWait)
  {
    if notice.Some? then
      var t1 := SendMessageRun(host, t, FirstWindow(session), notice.value, DefaultMessageDelay).1;
      assert (t1 + [Sleep(TerminationWait)])[..|t|] == t1[..|t|];
      t1 + [Sleep(TerminationWait)]
    else t
  }

  /**
   * Ending a session always kills it last and reports the kill's outcome; the
   * notice and the wait come first, and only when there is a notice.
   */
  lemma TerminateOutcome(host: Host, t: seq<Event>, session: string, notice: Option<string>)
    ensures var (ok, t') := TerminateRun(host, t, session, notice);
      && |t'| > |t| && t'[..|t|] == t && t'[|t'| - 1] == Exec(KillSession(session))
      && (ok <==> host(t'[..|t'| - 1], KillSession(session)).Ok?)
      && (notice.None? ==> t' == t + [Exec(KillSession(session))])
      && (notice.Some? ==>
            && t'[|t|] == Exec(SendKeys(FirstWindow(session), notice.value))
            && t'[|t'| - 2] == Sleep(TerminationWait))
  {
    var t1 := NoticeRun(host, t, session, notice);
    var t' := t1 + [Exec(KillSession(session))];
    assert t'[..|t'| - 1] == t1;
    assert t'[..|t|] == t1[..|t|];
  }

  // ---------------------------------------------------------------------------
  // The facade object
  // ---------------------------------------------------------------------------

  class EngineerManager {
    const tmux: TmuxManager
    const projectIdeasPath: string
    /** What a read of the ideas file would give now. */
    var ideasFile: IdeasFile

    constructor (tmux: TmuxManager, ideasFile: IdeasFile, projectIdeasPath: string := DefaultIdeasPath)
      ensures this.tmux == tmux && this.ideasFile == ideasFile && this.projectIdeasPath == projectIdeasPath
    {
      this.tmux := tmux;
      this.ideasFile := ideasFile;
      this.projectIdeasPath := projectIdeasPath;
    }

    method CreateEngineerSession(config: EngineerSessionConfig) returns (ok: bool)
      modifies tmux
      ensures (ok, tmux.trace) == CreateEngineerRun(tmux.host, old(tmux.trace), config, Briefing(config.project_path, config.briefing))
    {
      var session := config.session_name;
      var created := tmux.CreateSession(session, Some(config.project_path));
      if !created {
        return false;
      }
      var _ := tmux.RenameWindow(session, Num(0), EngineerWindowName);
      var _ := tmux.SendKeys(FirstWindow(session), AssistantCommand);
      var _ := tmux.SendKeys(FirstWindow(session), EnterKey);
      tmux.Wait(StartupWait);
      var _ := tmux.SendMessage(MessageOptions(FirstWindow(session), Briefing(config.project_path, config.briefing), None));
      return true;
    }

    /** Appends an idea to the ideas file; `writeOk` says whether writing the file succeeded. */
    method SaveProjectIdea(idea: ProjectIdea, writeOk: bool) returns (saved: bool)
      modifies this
      ensures (ideasFile, saved) == SaveSpec(old(ideasFile), idea, writeOk)
    {
      if ideasFile.Unreadable? {
        return false;
      }
      var ideas := StoredIdeas(ideasFile);
      ideas := ideas + [AsSaved(idea)];
      if !writeOk {
        return false;
      }
      ideasFile := Stored(ideas);
      return true;
    }

    /** The saved ideas; an absent or unusable file gives none. */
    function GetProjectIdeas(): (r: seq<ProjectIdea>)
      reads this
      ensures ideasFile.Stored? ==> r == ideasFile.ideas
      ensures !ideasFile.Stored? ==> r == []
    {
      StoredIdeas(ideasFile)
    }

    /** Saves an idea and hands it to the engineer; nothing is sent when the save fails. */
    method SendProjectIdea(sessionName: string, idea: ProjectIdea, writeOk: bool) returns (ok: bool)
      modifies this, tmux
      ensures ideasFile == SaveSpec(old(ideasFile), idea, writeOk).0
      ensures !SaveSpec(old(ideasFile), idea, writeOk).1 ==> !ok && tmux.trace == old(tmux.trace)
      ensures SaveSpec(old(ideasFile), idea, writeOk).1 ==>
        (ok, tmux.trace) == SendMessageRun(tmux.host, old(tmux.trace), FirstWindow(sessionName), IdeaMessage(idea), DefaultMessageDelay)
    {
      var saved := SaveProjectIdea(idea, writeOk);
      if !saved {
        return false;
      }
      ok := tmux.SendMessage(MessageOptions(FirstWindow(sessionName), IdeaMessage(idea), None));
    }

    method RequestStatusUpdate(sessionName: string) returns (ok: bool)
      modifies tmux
      ensures (ok, tmux.trace) == SendMessageRun(tmux.host, old(tmux.trace), FirstWindow(sessionName), StatusRequest, DefaultMessageDelay)
    {
      ok := tmux.SendMessage(MessageOptions(FirstWindow(sessionName), StatusRequest, None));
    }

    method SendMessageBetweenEngineers(fromSession: string, toSession: string, message: string) returns (ok: bool)
      modifies tmux
      ensures (ok, tmux.trace) == SendMessageRun(tmux.host, old(tmux.trace), FirstWindow(toSession),
                                                 RelayMessage(fromSession, message), DefaultMessageDelay)
    {
      ok := tmux.SendMessage(MessageOptions(FirstWindow(toSession), RelayMessage(fromSession, message), None));
    }

    /** Sends a message to window 0 of every session except the excluded one, collecting the outcomes. */
    method BroadcastMessage(sessions: seq<string>, message: string, exclude: Option<string> := None)
      returns (results: seq<bool>)
      modifies tmux
      ensures (results, tmux.trace) == BroadcastRun(tmux.host, old(tmux.trace), sessions, BroadcastText(message), exclude)
    {
      results := [];
      ghost var t0 := tmux.trace;
      var i := 0;
      while i < |sessions|
        invariant 0 <= i <= |sessions|
        invariant (results, tmux.trace) == BroadcastRun(tmux.host, t0, sessions[..i], BroadcastText(message), exclude)
      {
        var session := sessions[i];
        BroadcastRunStep(tmux.host, t0, sessions, i, BroadcastText(message), exclude);
        if !(Truthy(exclude) && session == exclude.value) {
          var ok := Deliver(session, BroadcastText(message));
          results := results + [ok];
        }
        i := i + 1;
      }
      assert sessions[..|sessions|] == sessions;
    }

    /** The body of the broadcast loop for one recipient: the text goes to its window 0 with the default delay. */
    method Deliver(session: string, text: string) returns (ok: bool)
      modifies tmux
      ensures (ok, tmux.trace) == SendMessageRun(tmux.host, old(tmux.trace), FirstWindow(session), text, DefaultMessageDelay)
    {
      ok := tmux.SendMessage(MessageOptions(FirstWindow(session), text, None));
    }

    method TerminateEngineerSession(sessionName: string, reason: Option<string> := None) returns (ok: bool)
      modifies tmux
      ensures (ok, tmux.trace) == TerminateRun(tmux.host, old(tmux.trace), sessionName, NoticeFor(reason))
    {
      if Truthy(reason) {
        var _ := tmux.SendMessage(MessageOptions(FirstWindow(sessionName), TerminationNotice(reason.value), None));
        tmux.Wait(TerminationWait);
      }
      ok := tmux.KillSession(sessionName);
    }
  }
}
