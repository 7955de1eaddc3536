/**
 * The deferred task scheduler. A task records a note in the shared note file
 * and launches a detached background job that sleeps, then types a reminder
 * into the target window with the gateway's two-phase keystroke protocol. The
 * registry keeps every task whose job was launched, in insertion order.
 *
 * The clock, the random part of a task id, the file system, the process
 * launcher and `process.kill` are outside the model: their outcomes are
 * parameters of the operations, and what the scheduler does to the world is
 * recorded as a sequence of effects.
 */
module Scheduling {
  import opened Wrappers
  import opened JsText
  import opened Types
  import opened TmuxProtocol

  // ---------------------------------------------------------------------------
  // Tasks
  // ---------------------------------------------------------------------------

  /** The lifecycle of a task: pending, then running, then completed (cancelled) or failed (launch failed). */
  datatype Status = Pending | Running | Completed | Failed

  /** A clock instant, in milliseconds since the epoch. */
  type Instant = int

  const DefaultNoteFilePath: string := "/tmp/toma_next_check_note.txt"
  const DefaultTarget: string := "tmux-orc:0"
  const LaunchError: string := "Failed to schedule task"
  const ReminderText: string := "Time for orchestrator check! cat "

  /** The milliseconds in a minute, and the seconds. */
  const MinuteMillis: int := 60 * 1000
  const MinuteSeconds: int := 60

  /** The values held by one task at one moment. */
  datatype TaskRecord = TaskRecord(
    id: string,
    minutes: int,
    note: string,
    target_window: string,
    scheduled_at: Instant,
    execute_at: Instant,
    pid: Option<int>,
    status: Status)

  /** A scheduled task; the scheduler assigns its process id and status in place. */
  class Task {
    const id: string
    const minutes: int
    const note: string
    const target_window: string
    const scheduled_at: Instant
    const execute_at: Instant
    var pid: Option<int>
    var status: Status

    constructor (id: string, minutes: int, note: string, target_window: string, scheduled_at: Instant, execute_at: Instant)
      ensures this.id == id && this.minutes == minutes && this.note == note
      ensures this.target_window == target_window
      ensures this.scheduled_at == scheduled_at && this.execute_at == execute_at
      ensures pid == None && status == Pending
    {
      this.id := id;
      this.minutes := minutes;
      this.note := note;
      this.target_window := target_window;
      this.scheduled_at := scheduled_at;
      this.execute_at := execute_at;
      pid := None;
      status := Pending;
    }
  }

  function Record(t: Task): TaskRecord
    reads t
  {
    TaskRecord(t.id, t.minutes, t.note, t.target_window, t.scheduled_at, t.execute_at, t.pid, t.status)
  }

  // ---------------------------------------------------------------------------
  // Creating a task
  // ---------------------------------------------------------------------------

  /**
   * The window a reminder goes to: a PM session (at the given window, else
   * window 0) wins over an explicit target window, which wins over the default.
   */
  function ResolveTarget(options: ScheduleOptions): (r: string)
    ensures Truthy(options.pm_session_name) ==>
      r == options.pm_session_name.value + ":" + IntToString(options.pm_window_index.GetOr(0))
    ensures !Truthy(options.pm_session_name) && Truthy(options.target_window) ==> r == options.target_window.value
    ensures !Truthy(options.pm_session_name) && !Truthy(options.target_window) ==> r == DefaultTarget
  {
    var fallback := if Truthy(options.target_window) then options.target_window.value else DefaultTarget;
    if Truthy(options.pm_session_name) then
      options.pm_session_name.value + ":" + IntToString(options.pm_window_index.GetOr(0))
    else fallback
  }

  /** A fresh task as it stands before its job is launched. */
  function NewRecord(options: ScheduleOptions, id: string, now: Instant): TaskRecord {
    TaskRecord(id, options.minutes, options.note, ResolveTarget(options), now,
               now + options.minutes * MinuteMillis, None, Pending)
  }

  /** The lines of the note file: four header lines, a blank line, then the note. */
  function NoteLines(iso: Instant -> string, rec: TaskRecord): seq<string> {
    [ "=== Next Check Note (" + iso(rec.scheduled_at) + ") ===",
      "Scheduled for: " + IntToString(rec.minutes) + " minutes",
      "Target: " + rec.target_window,
      "Execute at: " + iso(rec.execute_at),
      "",
      rec.note ]
  }

  function NoteContent(iso: Instant -> string, rec: TaskRecord): string {
    Join(NoteLines(iso, rec), '\n')
  }

  /**
   * Read back line by line, the note file holds the four header lines, the
   * blank line and then the note's own lines; a one-line note is the sixth
   * and last line.
   */
  lemma NoteLayout(iso: Instant -> string, rec: TaskRecord)
    requires '\n' !in iso(rec.scheduled_at) && '\n' !in iso(rec.execute_at)
    requires '\n' !in rec.target_window
    ensures Split(NoteContent(iso, rec), '\n') == NoteLines(iso, rec)[..5] + Split(rec.note, '\n')
    ensures '\n' !in rec.note ==>
      |Split(NoteContent(iso, rec), '\n')| == 6 && Split(NoteContent(iso, rec), '\n')[5] == rec.note
  {
    var lines := NoteLines(iso, rec);
    var head := lines[..5];
    assert lines == head + [rec.note];
    NoteHeadHasNoNewline(iso, rec);
    JoinOfHead(head, rec.note);
    SplitOfJoin(head + Split(rec.note, '\n'), '\n');
    if '\n' !in rec.note {
      SplitWithoutSeparator(rec.note, '\n');
    }
  }

  /** The header lines of a note file are single lines. */
  lemma NoteHeadHasNoNewline(iso: Instant -> string, rec: TaskRecord)
    requires '\n' !in iso(rec.scheduled_at) && '\n' !in iso(rec.execute_at)
    requires '\n' !in rec.target_window
    ensures forall k :: 0 <= k < 5 ==> '\n' !in NoteLines(iso, rec)[k]
  {
    IntToStringHasNo(rec.minutes, '\n');
    NoteLiteralsHaveNoNewline();
    NoNewlineAround("=== Next Check Note (", iso(rec.scheduled_at), ") ===");
    NoNewlineAround("Scheduled for: ", IntToString(rec.minutes), " minutes");
    NoNewlineAround("Target: ", rec.target_window, "");
    NoNewlineAround("Execute at: ", iso(rec.execute_at), "");
    var lines := NoteLines(iso, rec);
    assert lines[2] == "Target: " + rec.target_window + "";
    assert lines[3] == "Execute at: " + iso(rec.execute_at) + "";
  }

  lemma NoteLiteralsHaveNoNewline()
    ensures '\n' !in "=== Next Check Note (" && '\n' !in ") ===" && '\n' !in "Scheduled for: "
    ensures '\n' !in " minutes" && '\n' !in "Target: " && '\n' !in "Execute at: "
  {
  }

  lemma NoNewlineAround(a: string, b: string, c: string)
    requires '\n' !in a && '\n' !in b && '\n' !in c
    ensures '\n' !in a + b + c
  {
  }

  /** Joining a separator-free head before a string equals its join with that string's pieces. */
  lemma {:induction false} JoinOfHead(head: seq<string>, s: string)
    requires |head| >= 1
    ensures Join(head + [s], '\n') == Join(head + Split(s, '\n'), '\n')
    decreases |head|
  {
    JoinOfSplit(s, '\n');
    if |head| == 1 {
      assert (head + [s])[1..] == [s];
      assert (head + Split(s, '\n'))[1..] == Split(s, '\n');
    } else {
      JoinOfHead(head[1..], s);
      assert (head + [s])[1..] == head[1..] + [s];
      assert (head + Split(s, '\n'))[1..] == head[1..] + Split(s, '\n');
    }
  }

  // ---------------------------------------------------------------------------
  // The background job
  // ---------------------------------------------------------------------------

  /** What a background job does: sleep, then type a text into a window and press Enter. */
  datatype Job = Job(sleepSeconds: int, target: string, text: string)

  /** The job launched for a task: it reminds the target window to read the note file. */
  function JobFor(rec: TaskRecord, notePath: string): (j: Job)
    ensures j.sleepSeconds * 1000 == rec.minutes * MinuteMillis
    ensures j.target == rec.target_window
  {
    Job(rec.minutes * MinuteSeconds, rec.target_window, ReminderText + notePath)
  }

  /**
   * The job run against the multiplexer: a negative sleep fails and stops the
   * chain; otherwise the job sleeps, types the text, waits a second and
   * presses Enter unless typing the text failed.
   */
  function JobRun(host: Host, t: seq<Event>, job: Job): (r: (bool, seq<Event>))
    ensures job.sleepSeconds < 0 ==> r == (false, t)
    ensures job.sleepSeconds >= 0 ==>
      && |r.1| >= |t| + 2
      && r.1[..|t|] == t
      && r.1[|t|] == Sleep(job.sleepSeconds * 1000)
      && r.1[|t| + 1] == Exec(SendKeys(job.target, job.text))
    ensures job.sleepSeconds >= 0 && r.0 ==>
      |r.1| == |t| + 4 && r.1[|t| + 2] == Sleep(1000) && r.1[|t| + 3] == Exec(SendKeys(job.target, EnterKey))
    ensures job.sleepSeconds >= 0 && host(t + [Sleep(job.sleepSeconds * 1000)], SendKeys(job.target, job.text)).Fail? ==>
      !r.0 && |r.1| == |t| + 2
    ensures job.sleepSeconds >= 0 && host(t + [Sleep(job.sleepSeconds * 1000)], SendKeys(job.target, job.text)).Ok? ==>
      && |r.1| == |t| + 4
      && r.1[|t| + 2] == Sleep(1000)
      && r.1[|t| + 3] == Exec(SendKeys(job.target, EnterKey))
      && (r.0 <==> host(r.1[..|t| + 3], SendKeys(job.target, EnterKey)).Ok?)
  {
    if job.sleepSeconds < 0 then (false, t)
    else
      var t1 := t + [Sleep(job.sleepSeconds * 1000)];
      var r := SendMessageRun(host, t1, job.target, job.text, 1000);
      assert r.1[..|t|] == r.1[..|t1|][..|t|];
      r
  }

  /** A job for a task fires exactly at the task's execution instant. */
  lemma JobFiresAtExecuteAt(options: ScheduleOptions, id: string, now: Instant, notePath: string)
    ensures var rec := NewRecord(options, id, now);
      rec.scheduled_at + JobFor(rec, notePath).sleepSeconds * 1000 == rec.execute_at
  {
  }

  // ---------------------------------------------------------------------------
  // The registry as a value
  // ---------------------------------------------------------------------------

  /** The outcome of launching a job: the launcher threw, or it spawned a child with a possibly missing pid. */
  datatype Launch = Threw | Spawned(pid: Option<int>)

  /** What the scheduler does outside its own memory. */
  datatype Effect = WriteNote(path: string, content: string) | Spawn(job: Job) | Signal(pid: int)

  /** The scheduler's whole state: registry keys in insertion order, the tasks, the note file, the effects. */
  datatype SchedState = SchedState(
    order: seq<string>,
    tasks: map<string, TaskRecord>,
    noteFile: Option<string>,
    effects: seq<Effect>)

  predicate NoDuplicates(keys: seq<string>) {
    forall i, j :: 0 <= i < j < |keys| ==> keys[i] != keys[j]
  }

  /** A status a task in the registry can hold. */
  predicate Registrable(st: Status) {
    st == Running || st == Completed
  }

  /**
   * The registry is consistent: its order lists each key once, every task is
   * filed under its own id, and no pending or failed task is ever registered.
   */
  predicate WellFormed(s: SchedState) {
    && (forall k :: k in s.tasks ==> k in s.order)
    && (forall i :: 0 <= i < |s.order| ==> s.order[i] in s.tasks)
    && NoDuplicates(s.order)
    && (forall k :: k in s.tasks ==> s.tasks[k].id == k)
    && (forall k :: k in s.tasks ==> Registrable(s.tasks[k].status))
  }

  const Initial: SchedState := SchedState([], map[], None, [])

  /** A process id JavaScript treats as true. */
  predicate PidTruthy(pid: Option<int>) {
    pid.Some? && pid.value != 0
  }

  /**
   * Scheduling a task: write the note file (an error is raised and nothing
   * else happens), then launch the job; only a launched task is registered,
   * as running, under its id, and its id is returned.
   */
  function ScheduleSpec(s: SchedState, notePath: string, iso: Instant -> string, options: ScheduleOptions,
                        id: string, now: Instant, writeError: Option<string>, launch: Launch)
    : (Result<string, string>, SchedState)
  {
    var rec := NewRecord(options, id, now);
    if writeError.Some? then (Failure(writeError.value), s)
    else
      var content := NoteContent(iso, rec);
      var written := s.(noteFile := Some(content), effects := s.effects + [WriteNote(notePath, content)]);
      match launch
      case Threw => (Failure(LaunchError), written)
      case Spawned(pid) =>
        var order := if id in s.tasks then s.order else s.order + [id];
        (Success(id), written.(order := order,
                               tasks := s.tasks[id := rec.(pid := pid, status := Running)],
                               effects := written.effects + [Spawn(JobFor(rec, notePath))]))
  }

  /**
   * Cancelling a task: only a registered, running task with a truthy pid is
   * signalled; when the signal is delivered the task is completed.
   */
  function CancelSpec(s: SchedState, id: string, killOk: bool): (bool, SchedState) {
    if id !in s.tasks then (false, s)
    else
      var rec := s.tasks[id];
      if PidTruthy(rec.pid) && rec.status == Running && killOk then
        (true, s.(tasks := s.tasks[id := rec.(status := Completed)], effects := s.effects + [Signal(rec.pid.value)]))
      else (false, s)
  }

  // ---------------------------------------------------------------------------
  // Properties of scheduling
  // ---------------------------------------------------------------------------

  /**
   * Scheduling succeeds exactly when the note was written and the job was
   * launched, and then returns the id; the task is registered as running with
   * the launcher's pid and every other task is left alone. On failure the
   * registry does not change. The note is always written before the job is
   * launched.
   */
  lemma ScheduleOutcome(s: SchedState, notePath: string, iso: Instant -> string, options: ScheduleOptions,
                        id: string, now: Instant, writeError: Option<string>, launch: Launch)
    ensures var (r, s') := ScheduleSpec(s, notePath, iso, options, id, now, writeError, launch);
      && (r.Success? <==> writeError.None? && launch.Spawned?)
      && (r.Success? ==> r.value == id)
      && (writeError.Some? ==> r == Failure(writeError.value) && s' == s)
      && (writeError.None? && launch.Threw? ==> r == Failure(LaunchError))
      && (r.Failure? ==> s'.tasks == s.tasks && s'.order == s.order)
      && (r.Success? ==>
            && id in s'.tasks
            && (id in s.tasks ==> s'.order == s.order)
            && (id !in s.tasks ==> s'.order == s.order + [id])
            && s'.tasks[id].status == Running
            && s'.tasks[id].pid == launch.pid
            && s'.tasks[id].target_window == ResolveTarget(options)
            && s'.tasks[id].execute_at == now + options.minutes * MinuteMillis
            && s'.tasks.Keys == s.tasks.Keys + {id}
            && (forall k :: k in s.tasks && k != id ==> s'.tasks[k] == s.tasks[k]))
      && (writeError.None? ==>
            && |s'.effects| > |s.effects|
            && s'.effects[..|s.effects|] == s.effects
            && s'.effects[|s.effects|] == WriteNote(notePath, NoteContent(iso, NewRecord(options, id, now)))
            && (launch.Spawned? <==> |s'.effects| == |s.effects| + 2)
            && (launch.Spawned? ==> s'.effects[|s.effects| + 1] == Spawn(JobFor(NewRecord(options, id, now), notePath))))
  {
    var rec := NewRecord(options, id, now);
    if writeError.None? {
      var content := NoteContent(iso, rec);
      var e1 := s.effects + [WriteNote(notePath, content)];
      assert (e1 + [Spawn(JobFor(rec, notePath))])[..|s.effects|] == s.effects;
    }
  }

  /** Whatever the note file held before, a successful write leaves only the latest task's note. */
  lemma NoteFileLastWriterWins(s: SchedState, notePath: string, iso: Instant -> string,
                               a: ScheduleOptions, idA: string, nowA: Instant, launchA: Launch,
                               b: ScheduleOptions, idB: string, nowB: Instant, launchB: Launch)
    ensures var s1 := ScheduleSpec(s, notePath, iso, a, idA, nowA, None, launchA).1;
      ScheduleSpec(s1, notePath, iso, b, idB, nowB, None, launchB).1.noteFile
        == Some(NoteContent(iso, NewRecord(b, idB, nowB)))
  {
  }

  /** Scheduling keeps the registry consistent; in particular no pending or failed task is ever registered. */
  lemma ScheduleKeepsWellFormed(s: SchedState, notePath: string, iso: Instant -> string, options: ScheduleOptions,
                                id: string, now: Instant, writeError: Option<string>, launch: Launch)
    requires WellFormed(s)
    ensures WellFormed(ScheduleSpec(s, notePath, iso, options, id, now, writeError, launch).1)
  {
    if writeError.None? && launch.Spawned? {
      var rec := NewRecord(options, id, now);
      var content := NoteContent(iso, rec);
      var written := s.(noteFile := Some(content), effects := s.effects + [WriteNote(notePath, content)]);
      RegisterKeepsWellFormed(written, id, rec.(pid := launch.pid, status := Running),
                              written.effects + [Spawn(JobFor(rec, notePath))]);
    }
  }

  /** Filing a running or completed record under its own id keeps the registry consistent. */
  lemma RegisterKeepsWellFormed(s: SchedState, id: string, rec: TaskRecord, effects: seq<Effect>)
    requires WellFormed(s)
    requires rec.id == id && Registrable(rec.status)
    ensures WellFormed(s.(order := if id in s.tasks then s.order else s.order + [id],
                          tasks := s.tasks[id := rec], effects := effects))
  {
    if id !in s.tasks {
      var order := s.order + [id];
      forall i, j | 0 <= i < j < |order| ensures order[i] != order[j] {
        if j == |s.order| {
          assert order[i] == s.order[i] && s.order[i] in s.order;
        } else {
          assert order[i] == s.order[i] && order[j] == s.order[j];
        }
      }
      assert forall i :: 0 <= i < |s.order| ==> order[i] == s.order[i];
    }
  }

  /**
   * The note of a task that could not be launched is still written: the
   * note file changes even though the call fails and nothing is registered.
   */
  lemma FailedLaunchStillWritesNote(s: SchedState, notePath: string, iso: Instant -> string,
                                    options: ScheduleOptions, id: string, now: Instant)
    ensures var (r, s') := ScheduleSpec(s, notePath, iso, options, id, now, None, Threw);
      r.Failure? && s'.tasks == s.tasks && s'.noteFile == Some(NoteContent(iso, NewRecord(options, id, now)))
  {
  }

  /** A launch that yields no pid still registers the task as running, and such a task can never be cancelled. */
  lemma RunningWithoutPid(s: SchedState, notePath: string, iso: Instant -> string,
                          options: ScheduleOptions, id: string, now: Instant, killOk: bool)
    ensures var (r, s') := ScheduleSpec(s, notePath, iso, options, id, now, None, Spawned(None));
      && r == Success(id)
      && s'.tasks[id].status == Running && s'.tasks[id].pid == None
      && CancelSpec(s', id, killOk) == (false, s')
  {
  }

  // ---------------------------------------------------------------------------
  // Properties of cancelling
  // ---------------------------------------------------------------------------

  /**
   * Cancelling reports success exactly for a registered running task with a
   * truthy pid whose signal is delivered; then only that task changes, to
   * completed, and the signal is recorded. Otherwise nothing changes.
   */
  lemma CancelOutcome(s: SchedState, id: string, killOk: bool)
    ensures var (r, s') := CancelSpec(s, id, killOk);
      && (r <==> id in s.tasks && PidTruthy(s.tasks[id].pid) && s.tasks[id].status == Running && killOk)
      && (!r ==> s' == s)
      && (r ==> && s'.order == s.order
                && s'.tasks.Keys == s.tasks.Keys
                && s'.tasks[id] == s.tasks[id].(status := Completed)
                && (forall k :: k in s.tasks && k != id ==> s'.tasks[k] == s.tasks[k])
                && s'.effects == s.effects + [Signal(s.tasks[id].pid.value)])
  {
  }

  /** Cancelling keeps the registry consistent. */
  lemma CancelKeepsWellFormed(s: SchedState, id: string, killOk: bool)
    requires WellFormed(s)
    ensures WellFormed(CancelSpec(s, id, killOk).1)
  {
  }

  /** A task is cancelled at most once: a second cancel of the same id reports failure and changes nothing. */
  lemma CancelTwice(s: SchedState, id: string, killOk1: bool, killOk2: bool)
    ensures var s1 := CancelSpec(s, id, killOk1);
      s1.0 ==> CancelSpec(s1.1, id, killOk2) == (false, s1.1)
  {
  }

  /** Status only moves forward: cancelling changes a running task to completed and no other status. */
  lemma CancelMovesForward(s: SchedState, id: string, killOk: bool)
    ensures var s' := CancelSpec(s, id, killOk).1;
      forall k :: k in s.tasks ==>
        k in s'.tasks && (s'.tasks[k].status == s.tasks[k].status ||
                          (s.tasks[k].status == Running && s'.tasks[k].status == Completed))
  {
  }

  // ---------------------------------------------------------------------------
  // Queries
  // ---------------------------------------------------------------------------

  /** The tasks filed under the given keys, in the keys' order. */
  function Lookup(keys: seq<string>, tasks: map<string, Task>): (r: seq<Task>)
    requires forall k :: k in keys ==> k in tasks
    ensures |r| == |keys|
    ensures forall i :: 0 <= i < |keys| ==> r[i] == tasks[keys[i]]
    decreases |keys|
  {
    if keys == [] then []
    else Lookup(keys[..|keys| - 1], tasks) + [tasks[keys[|keys| - 1]]]
  }

  /**
   * Looking up a duplicate-free order that lists exactly the keys of the
   * map, each holding the task of that id, gives every task exactly once.
   */
  lemma LookupListsEachOnce(keys: seq<string>, tasks: map<string, Task>)
    requires forall i :: 0 <= i < |keys| ==> keys[i] in tasks
    requires forall k :: k in tasks ==> k in keys
    requires NoDuplicates(keys)
    requires forall k :: k in tasks ==> tasks[k].id == k
    ensures forall k :: k in tasks ==> tasks[k] in Lookup(keys, tasks)
    ensures forall i, j :: 0 <= i < j < |keys| ==> Lookup(keys, tasks)[i] != Lookup(keys, tasks)[j]
  {
    var r := Lookup(keys, tasks);
    forall k | k in tasks ensures tasks[k] in r {
      var i :| 0 <= i < |keys| && keys[i] == k;
      assert r[i] == tasks[k];
    }
    forall i, j | 0 <= i < j < |keys| ensures r[i] != r[j] {
      assert r[i].id == keys[i] && r[j].id == keys[j];
    }
  }

  /** The status the active-task query selects. */
  predicate IsActive(st: Status) {
    st == Pending || st == Running
  }

  /**
   * Among the tasks of a registry, whose statuses are all registrable, the
   * active ones are exactly the running ones.
   */
  lemma ActiveAmongRegistry(all: seq<Task>, tasks: map<string, Task>)
    requires forall i :: 0 <= i < |all| ==> all[i] in tasks.Values
    requires forall k :: k in tasks ==> tasks[k] in all
    requires forall k :: k in tasks ==> Registrable(tasks[k].status)
    ensures forall i :: 0 <= i < |ActiveAmong(all)| ==> ActiveAmong(all)[i] in tasks.Values && ActiveAmong(all)[i].status == Running
    ensures forall k :: k in tasks && tasks[k].status == Running ==> tasks[k] in ActiveAmong(all)
  {
    var r := ActiveAmong(all);
    forall i | 0 <= i < |r| ensures r[i] in tasks.Values && r[i].status == Running {
      var k :| k in tasks && tasks[k] == r[i];
    }
  }

  /** The active tasks among the given ones, in their order. */
  function ActiveAmong(ts: seq<Task>): (r: seq<Task>)
    reads ts
    ensures |r| <= |ts|
    ensures forall i :: 0 <= i < |r| ==> r[i] in ts && IsActive(r[i].status)
    ensures forall i :: 0 <= i < |ts| && IsActive(ts[i].status) ==> ts[i] in r
    decreases |ts|
  {
    if ts == [] then []
    else
      var last := ts[|ts| - 1];
      var init := ts[..|ts| - 1];
      assert ts == init + [last];
      if IsActive(last.status) then ActiveAmong(init) + [last] else ActiveAmong(init)
  }

  /** Filtering distributes over concatenation, so the active tasks keep the registry's order. */
  lemma {:induction false} ActiveAmongAppend(a: seq<Task>, b: seq<Task>)
    ensures ActiveAmong(a + b) == ActiveAmong(a) + ActiveAmong(b)
    decreases |b|
  {
    if b == [] {
      assert a + b == a;
    } else {
      var init := b[..|b| - 1];
      assert (a + b)[..|a + b| - 1] == a + init;
      assert (a + b)[|a + b| - 1] == b[|b| - 1];
      ActiveAmongAppend(a, init);
    }
  }

  // ---------------------------------------------------------------------------
  // The scheduler object
  // ---------------------------------------------------------------------------

  /** The values the registered tasks hold now. */
  ghost function Records(tasks: map<string, Task>): map<string, TaskRecord>
    reads tasks.Values
  {
    map k | k in tasks :: Record(tasks[k])
  }

  lemma RecordsInsert(tasks: map<string, Task>, id: string, task: Task)
    ensures Records(tasks[id := task]) == Records(tasks)[id := Record(task)]
  {
  }

  lemma RecordsSplit(tasks: map<string, Task>, id: string)
    requires id in tasks
    ensures Records(tasks) == Records(tasks - {id})[id := Record(tasks[id])]
  {
  }

  class Scheduler {
    const noteFilePath: string
    /** `Date.prototype.toISOString`, which the model does not define. */
    const isoFormat: Instant -> string
    var tasks: map<string, Task>
    /** The registry's keys in insertion order, as a JavaScript `Map` iterates them. */
    var order: seq<string>
    /** What this scheduler last wrote to the note file. */
    var noteFile: Option<string>
    var effects: seq<Effect>

    ghost function State(): SchedState
      reads this, tasks.Values
    {
      SchedState(order, Records(tasks), noteFile, effects)
    }

    ghost predicate Valid()
      reads this, tasks.Values
    {
      WellFormed(State())
    }

    constructor (isoFormat: Instant -> string, noteFilePath: string := DefaultNoteFilePath)
      ensures Valid()
      ensures this.noteFilePath == noteFilePath && this.isoFormat == isoFormat
      ensures State() == Initial
    {
      this.noteFilePath := noteFilePath;
      this.isoFormat := isoFormat;
      tasks := map[];
      order := [];
      noteFile := None;
      effects := [];
    }

    /** Writes the task's note file; reports whether the write succeeded. */
    method CreateNoteFile(task: Task, writeError: Option<string>) returns (written: bool)
      modifies this
      ensures written <==> writeError.None?
      ensures tasks == old(tasks) && order == old(order)
      ensures written ==> noteFile == Some(NoteContent(isoFormat, Record(task)))
      ensures written ==> effects == old(effects) + [WriteNote(noteFilePath, NoteContent(isoFormat, Record(task)))]
      ensures !written ==> noteFile == old(noteFile) && effects == old(effects)
      ensures written ==> State() == old(State()).(noteFile := Some(NoteContent(isoFormat, Record(task))),
        effects := old(effects) + [WriteNote(noteFilePath, NoteContent(isoFormat, Record(task)))])
      ensures !written ==> State() == old(State())
    {
      if writeError.Some? {
        return false;
      }
      var content := NoteContent(isoFormat, Record(task));
      noteFile := Some(content);
      effects := effects + [WriteNote(noteFilePath, content)];
      return true;
    }

    /** Launches the task's job; the task runs with the child's pid, or fails if the launcher threw. */
    method ScheduleSystemTask(task: Task, launch: Launch) returns (launched: bool)
      requires task !in tasks.Values
      modifies this, task
      ensures launched <==> launch.Spawned?
      ensures tasks == old(tasks) && order == old(order) && noteFile == old(noteFile)
      ensures launched ==> task.pid == launch.pid && task.status == Running
      ensures launched ==> effects == old(effects) + [Spawn(JobFor(old(Record(task)), noteFilePath))]
      ensures !launched ==> task.pid == old(task.pid) && task.status == Failed && effects == old(effects)
      ensures launched ==> State() == old(State()).(effects := old(effects) + [Spawn(JobFor(old(Record(task)), noteFilePath))])
      ensures !launched ==> State() == old(State())
    {
      match launch
      case Threw =>
        task.status := Failed;
        return false;
      case Spawned(pid) =>
        effects := effects + [Spawn(JobFor(Record(task), noteFilePath))];
        task.pid := pid;
        task.status := Running;
        return true;
    }

    /**
     * Schedules a reminder. The id, the clock reading, the outcome of the note
     * write and the outcome of the launch are supplied by the caller.
     */
    method ScheduleTask(options: ScheduleOptions, id: string, now: Instant, writeError: Option<string>, launch: Launch)
      returns (r: Result<string, string>)
      requires Valid()
      modifies this
      ensures Valid()
      ensures (r, State()) == ScheduleSpec(old(State()), noteFilePath, isoFormat, options, id, now, writeError, launch)
    {
      ghost var s := State();
      ghost var spec := ScheduleSpec(s, noteFilePath, isoFormat, options, id, now, writeError, launch);
      ScheduleKeepsWellFormed(s, noteFilePath, isoFormat, options, id, now, writeError, launch);
      ghost var rec := NewRecord(options, id, now);
      var task := new Task(id, options.minutes, options.note, ResolveTarget(options), now,
                           now + options.minutes * MinuteMillis);
      assert Record(task) == rec;
      var written := CreateNoteFile(task, writeError);
      if !written {
        assert spec == (Failure(writeError.value), s);
        return Failure(writeError.value);
      }
      ghost var content := NoteContent(isoFormat, rec);
      ghost var s1 := s.(noteFile := Some(content), effects := s.effects + [WriteNote(noteFilePath, content)]);
      assert State() == s1;
      var launched := ScheduleSystemTask(task, launch);
      if !launched {
        assert spec == (Failure(LaunchError), s1);
        return Failure(LaunchError);
      }
      ghost var s2 := s1.(effects := s1.effects + [Spawn(JobFor(rec, noteFilePath))]);
      assert State() == s2;
      assert Record(task) == rec.(pid := launch.pid, status := Running);
      Register(task);
      assert State() == spec.1;
      return Success(id);
    }

    /** Files a task under its id; a new id goes to the end of the order, a known one keeps its place. */
    method Register(task: Task)
      modifies this
      ensures State() == old(State()).(
        order := if task.id in old(tasks) then old(order) else old(order) + [task.id],
        tasks := old(State()).tasks[task.id := Record(task)])
    {
      RecordsInsert(tasks, task.id, task);
      if task.id !in tasks {
        order := order + [task.id];
      }
      tasks := tasks[task.id := task];
    }

    /** Cancels a task by signalling its job; `killOk` says whether the signal was delivered. */
    method CancelTask(id: string, killOk: bool) returns (cancelled: bool)
      requires Valid()
      modifies this, tasks.Values
      ensures Valid()
      ensures tasks == old(tasks)
      ensures (cancelled, State()) == CancelSpec(old(State()), id, killOk)
    {
      ghost var s := State();
      CancelKeepsWellFormed(s, id, killOk);
      if id !in tasks {
        return false;
      }
      var task := tasks[id];
      assert s.tasks[id] == Record(task);
      if task.pid.Some? && task.pid.value != 0 && task.status == Running && killOk {
        assert task !in (tasks - {id}).Values by {
          forall k | k in tasks && k != id ensures tasks[k] != task {
            assert s.tasks[k].id == k;
          }
        }
        Complete(id);
        return true;
      }
      return false;
    }

    /** Signals a running task's job and marks the task completed. */
    method Complete(id: string)
      requires id in tasks && tasks[id].pid.Some?
      requires tasks[id] !in (tasks - {id}).Values
      modifies this, tasks[id]
      ensures tasks == old(tasks)
      ensures State() == old(State()).(
        tasks := old(State()).tasks[id := old(Record(tasks[id])).(status := Completed)],
        effects := old(effects) + [Signal(old(tasks[id].pid.value))])
    {
      var task := tasks[id];
      ghost var rest := tasks - {id};
      ghost var others := Records(rest);
      ghost var done := Record(task).(status := Completed);
      effects := effects + [Signal(task.pid.value)];
      task.status := Completed;
      assert Records(rest) == others;
      RecordsSplit(tasks, id);
    }

    /** The task filed under an id; it carries that id. */
    function GetTask(id: string): (r: Option<Task>)
      reads this, tasks.Values
      requires Valid()
      ensures r.Some? <==> id in order
      ensures r.Some? ==> r.value in tasks.Values && r.value.id == id
      ensures r.Some? ==> id in tasks && r.value == tasks[id]
    {
      assert id in tasks ==> State().tasks[id] == Record(tasks[id]);
      if id in tasks then Some(tasks[id]) else None
    }

    /** Every registered task, once each, in insertion order. */
    function GetAllTasks(): (r: seq<Task>)
      reads this, tasks.Values
      requires Valid()
      ensures |r| == |order|
      ensures forall i :: 0 <= i < |r| ==> r[i] == tasks[order[i]]
      ensures forall i :: 0 <= i < |r| ==> r[i] in tasks.Values
      ensures forall k :: k in tasks ==> tasks[k] in r
      ensures forall i, j :: 0 <= i < j < |r| ==> r[i] != r[j]
    {
      assert forall k :: k in tasks ==> tasks[k].id == k by {
        forall k | k in tasks ensures tasks[k].id == k {
          assert State().tasks[k].id == k;
        }
      }
      LookupListsEachOnce(order, tasks);
      var r := Lookup(order, tasks);
      r
    }

    /**
     * The pending or running tasks in insertion order. Since no pending task
     * is ever registered, these are exactly the running ones.
     */
    function GetActiveTasks(): (r: seq<Task>)
      reads this, tasks.Values
      requires Valid()
      ensures forall i :: 0 <= i < |r| ==> r[i] in tasks.Values && r[i].status == Running
      ensures forall k :: k in tasks && tasks[k].status == Running ==> tasks[k] in r
      ensures r == ActiveAmong(GetAllTasks())
    {
      var all := GetAllTasks();
      assert forall k :: k in tasks ==> Registrable(tasks[k].status) by {
        forall k | k in tasks ensures Registrable(tasks[k].status) {
          assert State().tasks[k].status == tasks[k].status;
        }
      }
      ActiveAmongRegistry(all, tasks);
      ActiveAmong(all)
    }

    /** A progress review of a session, after 30 minutes unless told otherwise. */
    method ScheduleProgressReview(id: string, now: Instant, writeError: Option<string>, launch: Launch,
                                  sessionName: string, minutes: int := 30,
                                  pmSessionName: Option<string> := None, pmWindowIndex: Option<int> := None)
      returns (r: Result<string, string>)
      requires Valid()
      modifies this
      ensures Valid()
      ensures (r, State()) == ScheduleSpec(old(State()), noteFilePath, isoFormat,
        ProgressReviewOptions(sessionName, minutes, pmSessionName, pmWindowIndex), id, now, writeError, launch)
    {
      r := ScheduleTask(ProgressReviewOptions(sessionName, minutes, pmSessionName, pmWindowIndex), id, now, writeError, launch);
    }

    /** An orchestrator oversight check, after 15 minutes unless told otherwise. */
    method ScheduleOrchestratorCheck(id: string, now: Instant, writeError: Option<string>, launch: Launch,
                                     minutes: int := 15,
                                     pmSessionName: Option<string> := None, pmWindowIndex: Option<int> := None)
      returns (r: Result<string, string>)
      requires Valid()
      modifies this
      ensures Valid()
      ensures (r, State()) == ScheduleSpec(old(State()), noteFilePath, isoFormat,
        OrchestratorCheckOptions(minutes, pmSessionName, pmWindowIndex), id, now, writeError, launch)
    {
      r := ScheduleTask(OrchestratorCheckOptions(minutes, pmSessionName, pmWindowIndex), id, now, writeError, launch);
    }

    /** An engineer's daily standup, after 480 minutes unless told otherwise. */
    method ScheduleEngineerStandup(id: string, now: Instant, writeError: Option<string>, launch: Launch,
                                   sessionName: string, minutes: int := 480,
                                   pmSessionName: Option<string> := None, pmWindowIndex: Option<int> := None)
      returns (r: Result<string, string>)
      requires Valid()
      modifies this
      ensures Valid()
      ensures (r, State()) == ScheduleSpec(old(State()), noteFilePath, isoFormat,
        StandupOptions(sessionName, minutes, pmSessionName, pmWindowIndex), id, now, writeError, launch)
    {
      r := ScheduleTask(StandupOptions(sessionName, minutes, pmSessionName, pmWindowIndex), id, now, writeError, launch);
    }
  }

  // ---------------------------------------------------------------------------
  // The canned reminders
  // ---------------------------------------------------------------------------

  function ProgressReviewNote(sessionName: string): string {
    "Progress review for session: " + sessionName + "\n"
      + "Please provide status update:\n"
      + "1. Completed tasks\n"
      + "2. Current work\n"
      + "3. Any blockers\n"
      + "4. Next steps"
  }

  const OrchestratorCheckNote: string :=
    "Regular orchestrator oversight check\n" + "Review all active sessions and provide status summary"

  function StandupNote(sessionName: string): string {
    "Daily standup for engineer: " + sessionName + "\n"
      + "Please provide:\n"
      + "- Yesterday's accomplishments\n"
      + "- Today's goals\n"
      + "- Any impediments"
  }

  function ProgressReviewOptions(sessionName: string, minutes: int, pm: Option<string>, pmIndex: Option<int>): ScheduleOptions {
    ScheduleOptions(minutes, ProgressReviewNote(sessionName), Some(sessionName + ":0"), pm, pmIndex)
  }

  function OrchestratorCheckOptions(minutes: int, pm: Option<string>, pmIndex: Option<int>): ScheduleOptions {
    ScheduleOptions(minutes, OrchestratorCheckNote, Some(DefaultTarget), pm, pmIndex)
  }

  function StandupOptions(sessionName: string, minutes: int, pm: Option<string>, pmIndex: Option<int>): ScheduleOptions {
    ScheduleOptions(minutes, StandupNote(sessionName), Some(sessionName + ":0"), pm, pmIndex)
  }

  /**
   * The canned reminders go to window 0 of the named session (the
   * orchestrator's window for the oversight check) unless a PM session is
   * given, which then takes precedence.
   */
  lemma CannedReminderTargets(sessionName: string, minutes: int, pm: Option<string>, pmIndex: Option<int>)
    ensures var pmTarget := if Truthy(pm) then Some(pm.value + ":" + IntToString(pmIndex.GetOr(0))) else None;
      && ResolveTarget(ProgressReviewOptions(sessionName, minutes, pm, pmIndex)) == pmTarget.GetOr(sessionName + ":0")
      && ResolveTarget(StandupOptions(sessionName, minutes, pm, pmIndex)) == pmTarget.GetOr(sessionName + ":0")
      && ResolveTarget(OrchestratorCheckOptions(minutes, pm, pmIndex)) == pmTarget.GetOr(DefaultTarget)
  {
  }
}
