/**
 * The session controller, Go's `AccessPods`: it is created with the path of
 * the configuration file and registers its commands, and `Execute` runs one
 * session: load the profiles, select an environment, confirm, connect to the
 * cluster, then serve menu commands until one ends the program.
 *
 * Everything the session reads from the outside world is a parameter: the
 * files on disk, the numbers and answer the user types (a non-number reaches
 * the program as 0), whether connecting succeeds, and whether each handler's
 * external command succeeds.
 */
module Controller {
  import opened Wrappers
  import opened Text
  import opened Selection
  import opened Config
  import opened Commands

  /** One pass of the command loop: the number typed, and whether the chosen handler's external call succeeds. */
  datatype Step = Step(choice: int, handlerOk: bool)

  /** An external effect of the session. */
  datatype Event =
    | Connect(config: ClusterConfig)                                     // fetching the cluster's credentials
    | Ran(kind: CommandType, namespace: string, result: HandlerResult)   // a command's action, on a namespace

  /** How a session ends. */
  datatype Outcome =
    | LoadFailed(error: ConfigError)  // the profiles could not be loaded
    | InvalidSelection                // the environment number is out of range
    | Cancelled                       // the user did not confirm
    | ConnectFailed                   // fetching the cluster's credentials failed
    | Terminated(status: int)         // an action ended the process
    | Returned                        // `Execute` returned after the Exit command
    | InputExhausted                  // the scripted input ran out while the loop still waits

  /** The outcome of a session and its events, in order. */
  datatype Report = Report(outcome: Outcome, trace: seq<Event>)

  /** The process exit status an outcome leads to; `None` for a loop that never ends. */
  function ExitStatus(o: Outcome): (status: Option<int>)
    ensures status == Some(1) <==> o.LoadFailed? || o.InvalidSelection? || o.ConnectFailed? || o == Terminated(1)
    ensures status.None? <==> o.InputExhausted?
  {
    match o
    case LoadFailed(_) => Some(1)
    case InvalidSelection => Some(1)
    case ConnectFailed => Some(1)
    case Cancelled => Some(0)
    case Returned => Some(0)
    case Terminated(status) => Some(status)
    case InputExhausted => None
  }

  /** `events` happened before the rest of the session. */
  function WithEvents(events: seq<Event>, r: Report): Report {
    Report(r.outcome, events + r.trace)
  }

  /** The confirmation prompt accepts an answer whose lower case is "y". */
  predicate Confirmed(answer: string) {
    ToLower(answer) == "y"
  }

  /** Exactly "y" and "Y" confirm. */
  lemma ConfirmedIff(answer: string)
    ensures Confirmed(answer) <==> answer == "y" || answer == "Y"
  {
    if Confirmed(answer) {
      assert |answer| == 1 && LowerChar(answer[0]) == 'y';
      assert answer == [answer[0]];
    }
  }

  /**
   * The command loop on the namespace `ns`, fed the steps in order: an
   * out-of-range number or an unregistered kind runs nothing and prompts
   * again; otherwise the kind's action runs, and the loop ends when the
   * action terminates the process or the kind was Exit.
   */
  function CommandLoop(commands: map<CommandType, ShellCommand>, ns: string, steps: seq<Step>): (r: Report)
    decreases |steps|
  {
    if steps == [] then Report(InputExhausted, [])
    else
      var rest := CommandLoop(commands, ns, steps[1..]);
      var kind := Pick(CommandOrder, steps[0].choice);
      if kind.None? || kind.value !in commands then rest
      else
        var result := Invoke(commands[kind.value].action, steps[0].handlerOk);
        var event := Ran(kind.value, ns, result);
        if result.Terminate? then Report(Terminated(result.status), [event])
        else if kind.value == Exit then Report(Returned, [event])
        else WithEvents([event], rest)
  }

  /** The whole session, as `Execute` runs it on the given inputs. */
  function Session(commands: map<CommandType, ShellCommand>, disk: map<string, FileContents>, path: string,
                   envChoice: int, answer: string, connectOk: bool, steps: seq<Step>): Report
  {
    var loaded := Load(disk, path);
    if loaded.Failure? then Report(LoadFailed(loaded.error), [])
    else if Pick(loaded.value, envChoice).None? then Report(InvalidSelection, [])
    else
      var selected := loaded.value[envChoice - 1];
      if !Confirmed(answer) then Report(Cancelled, [])
      else if !connectOk then Report(ConnectFailed, [Connect(selected)])
      else WithEvents([Connect(selected)], CommandLoop(commands, selected.namespace, steps))
  }

  lemma WithEventsStep(done: seq<Event>, event: Event, r: Report)
    ensures WithEvents(done, WithEvents([event], r)) == WithEvents(done + [event], r)
  {
    assert done + ([event] + r.trace) == (done + [event]) + r.trace;
  }

  /** An event the command loop on namespace `ns` can produce: a displayed, registered command run on `ns`. */
  predicate LoopEvent(commands: map<CommandType, ShellCommand>, ns: string, e: Event) {
    && e.Ran? && e.namespace == ns && e.kind in CommandOrder && e.kind in commands
    && (e.result == Invoke(commands[e.kind].action, true) || e.result == Invoke(commands[e.kind].action, false))
  }

  /** The event that ends the loop: the Exit command, or an action that terminated the process. */
  predicate Final(e: Event) {
    e.Ran? && (e.kind == Exit || e.result.Terminate?)
  }

  /**
   * A loop report whose events are all loop events, whose only final event
   * is its last one, and whose outcome says how it ended: by that final
   * event, or by running out of input.
   */
  predicate WellEnded(commands: map<CommandType, ShellCommand>, ns: string, r: Report) {
    && (forall k :: 0 <= k < |r.trace| ==> LoopEvent(commands, ns, r.trace[k]))
    && (forall k :: 0 <= k < |r.trace| - 1 ==> !Final(r.trace[k]))
    && (r.outcome.InputExhausted? <==> r.trace == [] || !Final(r.trace[|r.trace| - 1]))
    && (r.outcome.Terminated? || r.outcome.Returned? || r.outcome.InputExhausted?)
    && (r.outcome.Terminated? ==> r.trace != [] && r.trace[|r.trace| - 1].result == Terminate(r.outcome.status))
  }

  lemma WellEndedCons(commands: map<CommandType, ShellCommand>, ns: string, event: Event, r: Report)
    requires LoopEvent(commands, ns, event) && !Final(event)
    requires WellEnded(commands, ns, r)
    ensures WellEnded(commands, ns, WithEvents([event], r))
  {
    var trace := [event] + r.trace;
    assert forall k :: 1 <= k < |trace| ==> trace[k] == r.trace[k - 1];
  }

  /**
   * Every command the loop runs is a registered kind from the display order,
   * run on the selected namespace; the loop stops at the first final event,
   * and it ends otherwise only when the input runs out.
   */
  lemma {:induction false} LoopEvents(commands: map<CommandType, ShellCommand>, ns: string, steps: seq<Step>)
    ensures WellEnded(commands, ns, CommandLoop(commands, ns, steps))
    decreases |steps|
  {
    if steps != [] {
      var rest := CommandLoop(commands, ns, steps[1..]);
      LoopEvents(commands, ns, steps[1..]);
      var kind := Pick(CommandOrder, steps[0].choice);
      if kind.Some? && kind.value in commands {
        var result := Invoke(commands[kind.value].action, steps[0].handlerOk);
        var event := Ran(kind.value, ns, result);
        assert LoopEvent(commands, ns, event);
        if !result.Terminate? && kind.value != Exit {
          WellEndedCons(commands, ns, event, rest);
        }
      }
    }
  }

  /** A load failure ends the session with status 1 before any prompt, with no external effect. */
  lemma LoadFailureIsFatal(commands: map<CommandType, ShellCommand>, disk: map<string, FileContents>, path: string,
                           envChoice: int, answer: string, connectOk: bool, steps: seq<Step>)
    requires Load(disk, path).Failure?
    ensures Session(commands, disk, path, envChoice, answer, connectOk, steps) == Report(LoadFailed(Load(disk, path).error), [])
    ensures ExitStatus(Session(commands, disk, path, envChoice, answer, connectOk, steps).outcome) == Some(1)
  {
  }

  /** An environment number outside the list is fatal with status 1; it is not asked again and nothing else is read. */
  lemma InvalidEnvironmentIsFatal(commands: map<CommandType, ShellCommand>, disk: map<string, FileContents>, path: string,
                                  envChoice: int, answer: string, connectOk: bool, steps: seq<Step>,
                                  answer': string, connectOk': bool, steps': seq<Step>)
    requires Load(disk, path).Success?
    requires envChoice < 1 || envChoice > |Load(disk, path).value|
    ensures Session(commands, disk, path, envChoice, answer, connectOk, steps) == Report(InvalidSelection, [])
    ensures Session(commands, disk, path, envChoice, answer, connectOk, steps)
         == Session(commands, disk, path, envChoice, answer', connectOk', steps')
    ensures ExitStatus(Session(commands, disk, path, envChoice, answer, connectOk, steps).outcome) == Some(1)
  {
  }

  /** Declining ends the session with status 0 and never connects. */
  lemma DeclineCancels(commands: map<CommandType, ShellCommand>, disk: map<string, FileContents>, path: string,
                       envChoice: int, answer: string, connectOk: bool, steps: seq<Step>)
    requires Load(disk, path).Success? && 1 <= envChoice <= |Load(disk, path).value|
    requires answer != "y" && answer != "Y"
    ensures Session(commands, disk, path, envChoice, answer, connectOk, steps) == Report(Cancelled, [])
    ensures ExitStatus(Session(commands, disk, path, envChoice, answer, connectOk, steps).outcome) == Some(0)
  {
    ConfirmedIff(answer);
  }

  /** A failed connection ends the session with status 1 before the command loop. */
  lemma ConnectFailureIsFatal(commands: map<CommandType, ShellCommand>, disk: map<string, FileContents>, path: string,
                              envChoice: int, answer: string, steps: seq<Step>)
    requires Load(disk, path).Success? && 1 <= envChoice <= |Load(disk, path).value|
    requires answer == "y" || answer == "Y"
    ensures Session(commands, disk, path, envChoice, answer, false, steps)
         == Report(ConnectFailed, [Connect(Load(disk, path).value[envChoice - 1])])
    ensures ExitStatus(Session(commands, disk, path, envChoice, answer, false, steps).outcome) == Some(1)
  {
    ConfirmedIff(answer);
  }

  /**
   * After a confirmed answer and a successful connection, the session
   * connects to the profile numbered `envChoice` and then runs only
   * displayed, registered commands, all on that profile's namespace.
   */
  lemma SelectedEnvironmentServes(commands: map<CommandType, ShellCommand>, disk: map<string, FileContents>, path: string,
                                  envChoice: int, answer: string, steps: seq<Step>)
    requires Load(disk, path).Success? && 1 <= envChoice <= |Load(disk, path).value|
    requires answer == "y" || answer == "Y"
    ensures var selected := Load(disk, path).value[envChoice - 1];
      var r := Session(commands, disk, path, envChoice, answer, true, steps);
      && r.trace != [] && r.trace[0] == Connect(selected)
      && forall k :: 1 <= k < |r.trace| ==> LoopEvent(commands, selected.namespace, r.trace[k])
  {
    ConfirmedIff(answer);
    var selected := Load(disk, path).value[envChoice - 1];
    assert Session(commands, disk, path, envChoice, answer, true, steps)
        == WithEvents([Connect(selected)], CommandLoop(commands, selected.namespace, steps));
    ConnectedLoop(commands, selected, steps);
  }

  lemma ConnectedLoop(commands: map<CommandType, ShellCommand>, selected: ClusterConfig, steps: seq<Step>)
    ensures var r := WithEvents([Connect(selected)], CommandLoop(commands, selected.namespace, steps));
      && r.trace != [] && r.trace[0] == Connect(selected)
      && forall k :: 1 <= k < |r.trace| ==> LoopEvent(commands, selected.namespace, r.trace[k])
  {
    var loop := CommandLoop(commands, selected.namespace, steps);
    LoopEvents(commands, selected.namespace, steps);
    var trace := [Connect(selected)] + loop.trace;
    assert forall k :: 1 <= k < |trace| ==> trace[k] == loop.trace[k - 1];
  }

  /** A command number outside the display order (a non-number included) runs nothing and prompts again. */
  lemma InvalidCommandReprompts(commands: map<CommandType, ShellCommand>, ns: string, step: Step, rest: seq<Step>)
    requires step.choice < 1 || step.choice > |CommandOrder|
    ensures CommandLoop(commands, ns, [step] + rest) == CommandLoop(commands, ns, rest)
  {
    assert ([step] + rest)[1..] == rest;
  }

  /**
   * A valid number runs the handler of the kind at that position on the
   * namespace; an error is reported in the trace and the loop goes on.
   */
  lemma HandlerRunsAndContinues(commands: map<CommandType, ShellCommand>, ns: string, step: Step, rest: seq<Step>)
    requires 1 <= step.choice <= |CommandOrder|
    requires CommandOrder[step.choice - 1] in commands && CommandOrder[step.choice - 1] != Exit
    requires commands[CommandOrder[step.choice - 1]].action.Handler?
    ensures CommandLoop(commands, ns, [step] + rest)
         == WithEvents([Ran(CommandOrder[step.choice - 1], ns, if step.handlerOk then Done else Failed)], CommandLoop(commands, ns, rest))
  {
    assert ([step] + rest)[1..] == rest;
  }

  /** With either edition's registry, choosing Exit (number 5) ends the process with status 0 and nothing runs after it. */
  lemma ExitEndsSession(e: Edition, ns: string, step: Step, rest: seq<Step>)
    requires step.choice == 5
    ensures CommandLoop(Registry(Table(e)), ns, [step] + rest) == Report(Terminated(0), [Ran(Exit, ns, Terminate(0))])
  {
    ExitActionTerminates(e, step.handlerOk);
  }

  /**
   * With either edition's registry the loop never reaches the return after
   * the Exit command: Exit's action has already ended the process with
   * status 0, and that is the only way the loop ends before the input does.
   */
  lemma RegisteredLoopNeverReturns(e: Edition, ns: string, steps: seq<Step>)
    ensures CommandLoop(Registry(Table(e)), ns, steps).outcome in {Terminated(0), InputExhausted}
  {
    var commands := Registry(Table(e));
    var r := CommandLoop(commands, ns, steps);
    LoopEvents(commands, ns, steps);
    ExitActionTerminates(e, true);
    ExitActionTerminates(e, false);
    if !r.outcome.InputExhausted? {
      var last := r.trace[|r.trace| - 1];
      assert LoopEvent(commands, ns, last) && Final(last);
      assert last.kind == Exit;
    }
  }

  /**
   * The `shell/podshell` edition registers ten commands and its prompt
   * announces the range 1 to 10, but only the five kinds of the display
   * order can be chosen: numbers 6 to 10 are rejected and the five extra
   * commands never run.
   */
  lemma PodShellExtrasUnreachable(ns: string, steps: seq<Step>, step: Step)
    ensures |Registry(Table(PodShell))| == 10
    ensures 6 <= step.choice <= 10 ==>
      CommandLoop(Registry(Table(PodShell)), ns, [step] + steps) == CommandLoop(Registry(Table(PodShell)), ns, steps)
    ensures forall k :: 0 <= k < |CommandLoop(Registry(Table(PodShell)), ns, steps).trace| ==>
      CommandLoop(Registry(Table(PodShell)), ns, steps).trace[k].Ran? &&
      CommandLoop(Registry(Table(PodShell)), ns, steps).trace[k].kind !in {ShowEnv, AdjustCPU, AdjustMemory, ScaleDeployment, PortForward}
  {
    var commands := Registry(Table(PodShell));
    PodShellRegistry();
    if 6 <= step.choice <= 10 {
      InvalidCommandReprompts(commands, ns, step, steps);
    }
    OnlyDisplayedKindsRun(commands, ns, steps);
  }

  /** Whatever the registry, only the five kinds of the display order ever run. */
  lemma OnlyDisplayedKindsRun(commands: map<CommandType, ShellCommand>, ns: string, steps: seq<Step>)
    ensures forall k :: 0 <= k < |CommandLoop(commands, ns, steps).trace| ==>
      CommandLoop(commands, ns, steps).trace[k].Ran? &&
      CommandLoop(commands, ns, steps).trace[k].kind !in {ShowEnv, AdjustCPU, AdjustMemory, ScaleDeployment, PortForward}
  {
    var trace := CommandLoop(commands, ns, steps).trace;
    LoopEvents(commands, ns, steps);
    forall k | 0 <= k < |trace|
      ensures trace[k].Ran? && trace[k].kind !in {ShowEnv, AdjustCPU, AdjustMemory, ScaleDeployment, PortForward}
    {
      assert LoopEvent(commands, ns, trace[k]);
    }
  }

  /** Go's `AccessPods`: the configuration file's path and the registered commands. */
  class AccessPods {
    var filePath: string
    var commands: map<CommandType, ShellCommand>
    const edition: Edition

    /** `NewAccessPods`: keeps the path as given and registers the edition's commands. */
    constructor(filePath: string, edition: Edition)
      ensures this.filePath == filePath && this.edition == edition
      ensures commands == Registry(Table(edition))
    {
      this.filePath := filePath;
      this.edition := edition;
      commands := map[];
      new;
      RegisterCommands();
    }

    /**
     * `registerCommands`: starts from an empty map and registers the table's
     * rows in order. The new map does not depend on the old one, so
     * registering again changes nothing.
     */
    method RegisterCommands()
      modifies this`commands
      ensures commands == Registry(Table(edition))
    {
      var table := Table(edition);
      commands := map[];
      var i := 0;
      while i < |table|
        invariant 0 <= i <= |table|
        invariant commands == Registry(table[..i])
      {
        var row := table[i];
        assert table[..i + 1][..i] == table[..i];
        commands := commands[row.kind := ShellCommand(row.kind, row.description, row.action)];
        i := i + 1;
      }
      assert table[..i] == table;
    }

    /** `Execute`: one session on the given inputs. */
    method Execute(disk: map<string, FileContents>, envChoice: int, answer: string, connectOk: bool, steps: seq<Step>)
      returns (outcome: Outcome, trace: seq<Event>)
      ensures Report(outcome, trace) == Session(commands, disk, filePath, envChoice, answer, connectOk, steps)
    {
      var loaded := ReadConfigurations(disk, filePath);
      if loaded.Failure? {
        return LoadFailed(loaded.error), [];
      }
      var configs := loaded.value;
      if envChoice < 1 || envChoice > |configs| {
        return InvalidSelection, [];
      }
      var selected := configs[envChoice - 1];
      if ToLower(answer) != "y" {
        return Cancelled, [];
      }
      trace := [Connect(selected)];
      if !connectOk {
        return ConnectFailed, trace;
      }
      var order := CommandOrder;
      var i := 0;
      while i < |steps|
        invariant 0 <= i <= |steps|
        invariant WithEvents(trace, CommandLoop(commands, selected.namespace, steps[i..]))
               == WithEvents([Connect(selected)], CommandLoop(commands, selected.namespace, steps))
      {
        var step := steps[i];
        assert steps[i..][0] == step && steps[i..][1..] == steps[i + 1..];
        i := i + 1;
        if step.choice < 1 || step.choice > |order| {
          continue;
        }
        var kind := order[step.choice - 1];
        if kind in commands {
          var result := Invoke(commands[kind].action, step.handlerOk);
          WithEventsStep(trace, Ran(kind, selected.namespace, result), CommandLoop(commands, selected.namespace, steps[i..]));
          trace := trace + [Ran(kind, selected.namespace, result)];
          if result.Terminate? {
            return Terminated(result.status), trace;
          }
          if kind == Exit {
            return Returned, trace;
          }
        }
      }
      assert trace + [] == trace;
      return InputExhausted, trace;
    }
  }
}
