/**
 * The command registry: the kinds of command the shell offers, the ordered
 * registration table of each edition (the five-command `shell` package and
 * the ten-command `shell/podshell` package), the map built from a table, the
 * fixed display order of the menu, and what running a command's action means.
 */
module Commands {

  /** Every kind of command registered by either edition. */
  datatype CommandType =
    | ShowPods | ConnectPod | ShowLogs | DescribePod | ShowEnv
    | AdjustCPU | AdjustMemory | ScaleDeployment | PortForward | Exit

  /**
   * What a command runs. A handler wraps an external `kubectl` call and is
   * named after its Go method; the Exit action ends the process with status 0.
   */
  datatype Action = Handler(name: string) | ExitProgram

  /** A registered command: Go's `ShellCommand`, whose `Type` field is called `kind` here. */
  datatype ShellCommand = ShellCommand(kind: CommandType, description: string, action: Action)

  /** One row of a registration table. */
  datatype Registration = Registration(kind: CommandType, description: string, action: Action)

  /** The two packages that register commands. */
  datatype Edition = Shell | PodShell

  /** The registration table of each edition, in its listed order. */
  function Table(e: Edition): (t: seq<Registration>)
    ensures |t| == if e == Shell then 5 else 10
    ensures t[|t| - 1] == Registration(Exit, "Exit program", ExitProgram)
    ensures forall i :: 0 <= i < |t| - 1 ==> t[i].kind != Exit && t[i].action.Handler?
  {
    var listPods := Registration(ShowPods, "List all pods", Handler("listPods"));
    var connect := Registration(ConnectPod, "Connect to a pod", Handler("connectToPodShell"));
    var logs := Registration(ShowLogs, "Show pod logs", Handler("showPodLogs"));
    var describe := Registration(DescribePod, "Describe pod", Handler("describePod"));
    var exit := Registration(Exit, "Exit program", ExitProgram);
    if e == Shell then [listPods, connect, logs, describe, exit]
    else [
      listPods, connect, logs, describe,
      Registration(ShowEnv, "Show environment variables", Handler("showPodEnv")),
      Registration(AdjustCPU, "Adjust pod CPU resources", Handler("adjustPodCPU")),
      Registration(AdjustMemory, "Adjust pod memory resources", Handler("adjustPodMemory")),
      Registration(ScaleDeployment, "Scale deployment replicas", Handler("scaleDeployment")),
      Registration(PortForward, "Port forward service to localhost", Handler("portForward")),
      exit]
  }

  /** The menu's display order, the same in both editions. */
  const CommandOrder: seq<CommandType> := [ShowPods, ConnectPod, ShowLogs, DescribePod, Exit]

  /** The kinds a table registers. */
  function Kinds(t: seq<Registration>): set<CommandType> {
    set i | 0 <= i < |t| :: t[i].kind
  }

  /** No kind is registered twice. */
  predicate Distinct(t: seq<Registration>) {
    forall i, j :: 0 <= i < j < |t| ==> t[i].kind != t[j].kind
  }

  /**
   * The map that registering the rows of `t` one after another builds, from
   * an empty map: a later row for a kind replaces an earlier one.
   */
  function Registry(t: seq<Registration>): map<CommandType, ShellCommand>
    decreases |t|
  {
    if t == [] then map[]
    else
      var last := t[|t| - 1];
      Registry(t[..|t| - 1])[last.kind := ShellCommand(last.kind, last.description, last.action)]
  }

  /** The map's keys are exactly the registered kinds, and each entry's kind is its key. */
  lemma {:induction false} RegistryKeys(t: seq<Registration>)
    ensures Registry(t).Keys == Kinds(t)
    ensures forall k :: k in Registry(t) ==> Registry(t)[k].kind == k
    decreases |t|
  {
    if t != [] {
      var init := t[..|t| - 1];
      var last := t[|t| - 1];
      RegistryKeys(init);
      forall k | k in Kinds(t) ensures k in Kinds(init) + {last.kind} {
        var i :| 0 <= i < |t| && t[i].kind == k;
        if i < |t| - 1 {
          assert init[i] == t[i];
        }
      }
      forall k | k in Kinds(init) ensures k in Kinds(t) {
        var i :| 0 <= i < |init| && init[i].kind == k;
        assert t[i] == init[i];
      }
    }
  }

  /** With distinct kinds, each row is registered exactly as listed. */
  lemma {:induction false} RegistryEntry(t: seq<Registration>, i: nat)
    requires Distinct(t) && i < |t|
    ensures t[i].kind in Registry(t)
    ensures Registry(t)[t[i].kind] == ShellCommand(t[i].kind, t[i].description, t[i].action)
    decreases |t|
  {
    if i < |t| - 1 {
      var init := t[..|t| - 1];
      assert init[i] == t[i];
      assert t[i].kind != t[|t| - 1].kind;
      RegistryEntry(init, i);
    }
  }

  /** With distinct kinds, the map has one entry per row. */
  lemma {:induction false} RegistrySize(t: seq<Registration>)
    requires Distinct(t)
    ensures |Registry(t)| == |t|
    decreases |t|
  {
    if t != [] {
      var init := t[..|t| - 1];
      var last := t[|t| - 1];
      RegistrySize(init);
      RegistryKeys(init);
      assert last.kind !in Kinds(init);
    }
  }

  lemma TablesDistinct(e: Edition)
    ensures Distinct(Table(e))
  {
  }

  /** The `shell` package registers exactly its five commands, each with its listed description. */
  lemma ShellRegistry()
    ensures Registry(Table(Shell)).Keys == {ShowPods, ConnectPod, ShowLogs, DescribePod, Exit}
    ensures |Registry(Table(Shell))| == 5
    ensures forall i :: 0 <= i < 5 ==> Registry(Table(Shell))[Table(Shell)[i].kind].description == Table(Shell)[i].description
  {
    var t := Table(Shell);
    TablesDistinct(Shell);
    RegistrySize(t);
    RegistryKeys(t);
    assert Kinds(t) == {ShowPods, ConnectPod, ShowLogs, DescribePod, Exit} by {
      assert t[0].kind == ShowPods && t[1].kind == ConnectPod && t[2].kind == ShowLogs;
      assert t[3].kind == DescribePod && t[4].kind == Exit;
    }
    forall i | 0 <= i < 5
      ensures Registry(t)[t[i].kind].description == t[i].description
    {
      RegistryEntry(t, i);
    }
  }

  /** The `shell/podshell` package registers all ten kinds, one entry each, with the listed descriptions. */
  lemma PodShellRegistry()
    ensures forall k: CommandType :: k in Registry(Table(PodShell))
    ensures |Registry(Table(PodShell))| == 10
    ensures forall i :: 0 <= i < 10 ==> Registry(Table(PodShell))[Table(PodShell)[i].kind].description == Table(PodShell)[i].description
  {
    var t := Table(PodShell);
    TablesDistinct(PodShell);
    RegistrySize(t);
    forall k: CommandType ensures k in Registry(t) {
      var i := IndexIn(t, k);
      RegistryEntry(t, i);
    }
    forall i | 0 <= i < 10
      ensures Registry(t)[t[i].kind].description == t[i].description
    {
      RegistryEntry(t, i);
    }
  }

  /** Where a kind sits in the `shell/podshell` table. */
  function IndexIn(t: seq<Registration>, k: CommandType): (i: nat)
    requires t == Table(PodShell)
    ensures i < |t| && t[i].kind == k
  {
    match k
    case ShowPods => 0 case ConnectPod => 1 case ShowLogs => 2 case DescribePod => 3
    case ShowEnv => 4 case AdjustCPU => 5 case AdjustMemory => 6 case ScaleDeployment => 7
    case PortForward => 8 case Exit => 9
  }

  /** Every kind in the display order has a registered command, in both editions. */
  lemma CommandOrderRegistered(e: Edition)
    ensures forall k :: k in CommandOrder ==> k in Registry(Table(e))
  {
    if e == Shell {
      ShellRegistry();
    } else {
      PodShellRegistry();
    }
  }

  /** What running an action returns: success, a reported error, or termination with a status. */
  datatype HandlerResult = Done | Failed | Terminate(status: int)

  /**
   * Runs an action; `ok` stands for the success of the external call a
   * handler makes. The Exit action terminates with status 0 whatever happens.
   */
  function Invoke(action: Action, ok: bool): (r: HandlerResult)
    ensures r.Terminate? <==> action.ExitProgram?
    ensures action.Handler? ==> (r == Done <==> ok)
  {
    if action.ExitProgram? then Terminate(0) else if ok then Done else Failed
  }

  /** In both editions the Exit command's action ends the process with status 0, and no other command's does. */
  lemma ExitActionTerminates(e: Edition, ok: bool)
    ensures Exit in Registry(Table(e)) && Invoke(Registry(Table(e))[Exit].action, ok) == Terminate(0)
    ensures forall k :: k in Registry(Table(e)) && k != Exit ==> !Invoke(Registry(Table(e))[k].action, ok).Terminate?
  {
    var t := Table(e);
    TablesDistinct(e);
    RegistryKeys(t);
    RegistryEntry(t, |t| - 1);
    forall k | k in Registry(t) && k != Exit
      ensures !Invoke(Registry(t)[k].action, ok).Terminate?
    {
      var i :| 0 <= i < |t| && t[i].kind == k;
      RegistryEntry(t, i);
    }
  }

  /** One numbered menu line. */
  datatype MenuLine = MenuLine(number: int, description: string)

  /**
   * The command menu: for each position of `order` whose kind is
   * registered, its 1-based position and its description.
   */
  function Menu(commands: map<CommandType, ShellCommand>, order: seq<CommandType>): (lines: seq<MenuLine>)
    ensures |lines| <= |order|
    decreases |order|
  {
    if order == [] then []
    else
      var init := Menu(commands, order[..|order| - 1]);
      var last := order[|order| - 1];
      if last in commands then init + [MenuLine(|order|, commands[last].description)] else init
  }

  /** When every kind in the order is registered, line i of the menu is numbered i+1 and shows the i-th kind. */
  lemma {:induction false} MenuFollowsOrder(commands: map<CommandType, ShellCommand>, order: seq<CommandType>)
    requires forall k :: k in order ==> k in commands
    ensures |Menu(commands, order)| == |order|
    ensures forall i :: 0 <= i < |order| ==> Menu(commands, order)[i] == MenuLine(i + 1, commands[order[i]].description)
    decreases |order|
  {
    if order != [] {
      var init := order[..|order| - 1];
      assert forall k :: k in init ==> k in order;
      MenuFollowsOrder(commands, init);
      assert order[|order| - 1] in order;
    }
  }

  /** Both editions show the same five-line menu, whatever the map's iteration order. */
  lemma EditionMenu(e: Edition)
    ensures Menu(Registry(Table(e)), CommandOrder) == [
      MenuLine(1, "List all pods"), MenuLine(2, "Connect to a pod"), MenuLine(3, "Show pod logs"),
      MenuLine(4, "Describe pod"), MenuLine(5, "Exit program")]
  {
    var t := Table(e);
    var m := Registry(t);
    CommandOrderRegistered(e);
    MenuFollowsOrder(m, CommandOrder);
    TablesDistinct(e);
    RegistryEntry(t, 0);
    RegistryEntry(t, 1);
    RegistryEntry(t, 2);
    RegistryEntry(t, 3);
    RegistryEntry(t, |t| - 1);
  }
}
