/**
 * console_connect: the node menu. One pass looks the configured project
 * up, lists its console-capable nodes, reads one choice and acts on it;
 * the `return` at the end of the `while node_menu` body sends control back
 * to the main menu after that single pass.
 */
module NodeMenu {
  import opened Wrappers
  import opened Builtins
  import opened NodeCatalog
  import opened Projects
  import opened Templates
  import opened Session

  // ---------------------------------------------------------------------
  // The numbered menu

  /** What a line of the node menu offers. */
  datatype MenuEntry = NodeEntry(name: string) | OpenAllEntry | ReturnEntry | ExitEntry

  /** A printed line `"%d) %s"`. */
  datatype MenuLine = MenuLine(number: int, entry: MenuEntry)

  /** The node lines, numbered from 1 in catalog order. */
  function NodeLines(nodes: seq<Node>): (lines: seq<MenuLine>)
    ensures |lines| == |nodes|
    ensures forall k | 0 <= k < |nodes| :: lines[k] == MenuLine(k + 1, NodeEntry(nodes[k].name))
  {
    seq(|nodes|, k requires 0 <= k < |nodes| => MenuLine(k + 1, NodeEntry(nodes[k].name)))
  }

  /** The whole menu: the nodes, then "Open all consoles", "Return to main menu" and "Exit". */
  function Menu(nodes: seq<Node>): seq<MenuLine> {
    var n := |nodes|;
    NodeLines(nodes) + [MenuLine(n + 1, OpenAllEntry), MenuLine(n + 2, ReturnEntry), MenuLine(n + 3, ExitEntry)]
  }

  /** The printing loop with its counter `i`: it leaves `i` at the number of the Exit line. */
  method NumberMenu(parsedNodes: seq<Node>) returns (lines: seq<MenuLine>, i: int)
    ensures i == |parsedNodes| + 3
    ensures lines == Menu(parsedNodes)
  {
    lines := [];
    i := 1;
    for k := 0 to |parsedNodes|
      invariant i == k + 1
      invariant lines == NodeLines(parsedNodes)[..k]
    {
      lines := lines + [MenuLine(i, NodeEntry(parsedNodes[k].name))];
      i := i + 1;
    }
    assert NodeLines(parsedNodes)[..|parsedNodes|] == NodeLines(parsedNodes);
    lines := lines + [MenuLine(i, OpenAllEntry)];
    i := i + 1;
    lines := lines + [MenuLine(i, ReturnEntry)];
    i := i + 1;
    lines := lines + [MenuLine(i, ExitEntry)];
  }

  /** How an integer choice is read, for a menu of `n` nodes whose counter ends at `i == n + 3`. */
  datatype Choice = WrongSelection | QuitProgram | ReturnToMain | OpenAllConsoles | OpenNode(index: int)

  function Classify(n: nat, k: int): Choice {
    var i := n + 3;
    if k > i then WrongSelection
    else if k == i then QuitProgram
    else if k == i - 1 then ReturnToMain
    else if k == i - 2 then OpenAllConsoles
    else OpenNode(k - 1)
  }

  /** What picking a menu line with number `k` is meant to do. */
  function Offers(entry: MenuEntry, k: int): Choice {
    match entry
    case NodeEntry(_) => OpenNode(k - 1)
    case OpenAllEntry => OpenAllConsoles
    case ReturnEntry => ReturnToMain
    case ExitEntry => QuitProgram
  }

  /**
   * Every line of the menu is numbered one past its position, and typing
   * its number selects what the line offers; a node line opens that node.
   */
  lemma ClassifyFollowsMenu(nodes: seq<Node>, k: int)
    requires 1 <= k <= |Menu(nodes)|
    ensures |Menu(nodes)| == |nodes| + 3
    ensures Menu(nodes)[k - 1].number == k
    ensures Classify(|nodes|, k) == Offers(Menu(nodes)[k - 1].entry, k)
    ensures k <= |nodes| ==> Menu(nodes)[k - 1].entry == NodeEntry(nodes[k - 1].name)
  {
    var n := |nodes|;
    if k <= n {
      assert Menu(nodes)[k - 1] == NodeLines(nodes)[k - 1];
    }
  }

  /** Numbers past the Exit line are a wrong selection; zero and below fall into the node branch. */
  lemma ClassifyOutsideMenu(n: nat, k: int)
    ensures k > n + 3 <==> Classify(n, k) == WrongSelection
    ensures k <= 0 ==> Classify(n, k) == OpenNode(k - 1) && k - 1 < 0
  {
  }

  // ---------------------------------------------------------------------
  // Opening consoles

  /** A node's console command, if its console type has one, started by `os.system`. */
  function LaunchEffects(cmd: Option<string>): seq<Effect> {
    match cmd
    case None => []
    case Some(c) => [Launch(c)]
  }

  /** What the open-all loop did, and the exception that stopped it, if any. */
  datatype Trace = Trace(effects: seq<Effect>, failure: Option<LaunchError>)

  function After(done: seq<Effect>, t: Trace): Trace {
    Trace(done + t.effects, t.failure)
  }

  /**
   * Opening all consoles: each node in catalog order starts its command
   * and is followed by a sleep; a failing command lookup or substitution
   * raises and ends the loop.
   */
  function OpenAllSpec(tables: Tables, console: ConsoleSettings, nodes: seq<Node>): Trace
    decreases |nodes|
  {
    if nodes == [] then Trace([], None)
    else
      match NodeCommand(tables, console, nodes[0])
      case Err(e) => Trace([], Some(e))
      case Ok(cmd) => After(LaunchEffects(cmd) + [Sleep], OpenAllSpec(tables, console, nodes[1..]))
  }

  /** The open-all loop (`for node in parsed_nodes`). */
  method OpenAll(tables: Tables, console: ConsoleSettings, parsedNodes: seq<Node>) returns (t: Trace)
    ensures t == OpenAllSpec(tables, console, parsedNodes)
  {
    var effects: seq<Effect> := [];
    var i := 0;
    while i < |parsedNodes|
      invariant 0 <= i <= |parsedNodes|
      invariant OpenAllSpec(tables, console, parsedNodes) == After(effects, OpenAllSpec(tables, console, parsedNodes[i..]))
    {
      var node := parsedNodes[i];
      assert parsedNodes[i..][1..] == parsedNodes[i + 1..];
      match NodeCommand(tables, console, node)
      case Err(e) =>
        return Trace(effects, Some(e));
      case Ok(cmd) =>
        effects := effects + LaunchEffects(cmd) + [Sleep];
      i := i + 1;
    }
    assert effects + [] == effects;
    t := Trace(effects, None);
  }

  function CountSleeps(effects: seq<Effect>): nat {
    if effects == [] then 0 else (if effects[0] == Sleep then 1 else 0) + CountSleeps(effects[1..])
  }

  function CountLaunches(effects: seq<Effect>): nat {
    if effects == [] then 0 else (if effects[0].Launch? then 1 else 0) + CountLaunches(effects[1..])
  }

  lemma {:induction false} CountsAppend(a: seq<Effect>, b: seq<Effect>)
    ensures CountSleeps(a + b) == CountSleeps(a) + CountSleeps(b)
    ensures CountLaunches(a + b) == CountLaunches(a) + CountLaunches(b)
  {
    if a == [] {
      assert a + b == b;
    } else {
      assert (a + b)[1..] == a[1..] + b;
      CountsAppend(a[1..], b);
    }
  }

  /** Opening all consoles of `a + b` opens those of `a`, then, unless that raised, those of `b`. */
  lemma {:induction false} OpenAllAppend(tables: Tables, console: ConsoleSettings, a: seq<Node>, b: seq<Node>)
    ensures OpenAllSpec(tables, console, a + b)
            == if OpenAllSpec(tables, console, a).failure.Some? then OpenAllSpec(tables, console, a)
               else After(OpenAllSpec(tables, console, a).effects, OpenAllSpec(tables, console, b))
  {
    if a == [] {
      assert a + b == b;
      assert [] + OpenAllSpec(tables, console, b).effects == OpenAllSpec(tables, console, b).effects;
    } else {
      assert (a + b)[0] == a[0] && (a + b)[1..] == a[1..] + b;
      OpenAllAppend(tables, console, a[1..], b);
    }
  }

  /** For one node, open-all does what selecting that node does, then sleeps. */
  lemma OpenAllSingle(tables: Tables, console: ConsoleSettings, node: Node)
    ensures OpenAllSpec(tables, console, [node])
            == match NodeCommand(tables, console, node)
               case Err(e) => Trace([], Some(e))
               case Ok(cmd) => Trace(LaunchEffects(cmd) + [Sleep], None)
  {
    assert [node][1..] == [];
    match NodeCommand(tables, console, node)
    case Err(_) =>
    case Ok(cmd) =>
      assert LaunchEffects(cmd) + [Sleep] + [] == LaunchEffects(cmd) + [Sleep];
  }

  /** Whether the node has a console type that starts a command. */
  predicate HasLaunch(node: Node) {
    node.consoleType == "telnet" || node.consoleType == "vnc"
  }

  function CountConsoles(nodes: seq<Node>): nat {
    if nodes == [] then 0 else (if HasLaunch(nodes[0]) then 1 else 0) + CountConsoles(nodes[1..])
  }

  /**
   * With built-in clients selected open-all never raises: it sleeps once
   * per node and starts one command per telnet or vnc node.
   */
  lemma {:induction false} OpenAllBuiltins(console: ConsoleSettings, nodes: seq<Node>)
    requires console.telnetSelected in TelnetBuiltins && console.vncSelected in VncBuiltins
    ensures OpenAllSpec(BuildTables(console), console, nodes).failure == None
    ensures CountSleeps(OpenAllSpec(BuildTables(console), console, nodes).effects) == |nodes|
    ensures CountLaunches(OpenAllSpec(BuildTables(console), console, nodes).effects) == CountConsoles(nodes)
  {
    if nodes != [] {
      var tables := BuildTables(console);
      var node := nodes[0];
      if node.consoleType == "telnet" {
        TelnetCommandBuiltin(console, console.telnetSelected, node);
      } else if node.consoleType == "vnc" {
        VncCommandBuiltin(console, console.vncSelected, node);
      }
      var cmd := NodeCommand(tables, console, node);
      assert cmd.Ok?;
      OpenAllBuiltins(console, nodes[1..]);
      var first := LaunchEffects(cmd.value) + [Sleep];
      CountsAppend(first, OpenAllSpec(tables, console, nodes[1..]).effects);
      CountsAppend(LaunchEffects(cmd.value), [Sleep]);
      assert [Sleep][1..] == [];
      if cmd.value.Some? {
        assert [Launch(cmd.value.value)][1..] == [];
      }
    }
  }

  // ---------------------------------------------------------------------
  // One pass of the node menu

  /** After the menu is shown: read the choice and act on it. */
  function Choose(tables: Tables, config: Config, catalog: seq<Node>, inputs: seq<string>): (r: Step)
    ensures IsSuffix(r.rest, inputs) && r.config == config
  {
    if inputs == [] then Ends(inputs, config, [], Crash(EndOfInput))
    else
      var rest := inputs[1..];
      match ParseInt(inputs[0])
      case None => Acknowledge(rest, config)
      case Some(k) =>
        match Classify(|catalog|, k)
        case WrongSelection => Acknowledge(rest, config)
        case QuitProgram => Ends(rest, config, [], QuitByUser)
        case ReturnToMain => Back(rest, config, [])
        case OpenAllConsoles =>
          var t := OpenAllSpec(tables, config.console, catalog);
          if t.failure.Some? then Ends(rest, config, t.effects, Crash(LaunchFailed(t.failure.value)))
          else Back(rest, config, t.effects)
        case OpenNode(j) =>
          match Index(catalog, j)
          case None => Ends(rest, config, [], Crash(NoSuchNode))
          case Some(node) =>
            match NodeCommand(tables, config.console, node)
            case Err(e) => Ends(rest, config, [], Crash(LaunchFailed(e)))
            case Ok(cmd) => Back(rest, config, LaunchEffects(cmd))
  }

  /** One pass of console_connect against given command tables. */
  function ConnectWith(tables: Tables, config: Config, remote: Remote, inputs: seq<string>): (r: Step)
    ensures IsSuffix(r.rest, inputs) && r.config == config
  {
    if config.server !in remote.up then Ends(inputs, config, [], ServerError)
    else
      match ProjectLookup(remote.projects, config.project)
      case Unbound => Ends(inputs, config, [], Crash(UnboundProjectId))
      case UnknownProject => Ends(inputs, config, [], UnknownProjectError)
      case Found(id) =>
        if id !in remote.nodes then Ends(inputs, config, [], ServerError)
        else
          var catalog := Catalog(remote.nodes[id]);
          if catalog == [] then Acknowledge(inputs, config)
          else Choose(tables, config, catalog, inputs)
  }

  /** console_connect with the corrected tables. */
  function ConnectSpec(config: Config, remote: Remote, inputs: seq<string>): (r: Step)
    ensures IsSuffix(r.rest, inputs) && r.config == config
  {
    ConnectWith(BuildTables(config.console), config, remote, inputs)
  }

  /** console_connect as written: the tables are built first, and building them raises. */
  function ConnectAsWritten(config: Config, remote: Remote, inputs: seq<string>): Step {
    match BuildTablesAsWritten(config.console)
    case Err(f) => Ends(inputs, config, [], Crash(BrokenTable(f)))
    case Ok(tables) => ConnectWith(tables, config, remote, inputs)
  }

  /** As written, every entry into the node menu raises before any request or prompt. */
  lemma ConnectAsWrittenCrashes(config: Config, remote: Remote, inputs: seq<string>)
    ensures ConnectAsWritten(config, remote, inputs) == Ends(inputs, config, [], Crash(BrokenTable(NotAllConverted)))
  {
    TablesAsWrittenRaise(config.console);
  }

  /** console_connect itself: the pass through the body of `while node_menu`, ending at its `return`. */
  method ConsoleConnect(config: Config, remote: Remote, inputs: seq<string>) returns (r: Step)
    ensures r == ConnectSpec(config, remote, inputs)
  {
    var tables := BuildTables(config.console);
    if config.server !in remote.up {
      return Ends(inputs, config, [], ServerError);
    }
    var projectId := FindProjectId(remote.projects, config.project);
    match projectId
    case Unbound =>
      return Ends(inputs, config, [], Crash(UnboundProjectId));
    case UnknownProject =>
      return Ends(inputs, config, [], UnknownProjectError);
    case Found(id) =>
      if id !in remote.nodes {
        return Ends(inputs, config, [], ServerError);
      }
      var parsedNodes := ParseNodes(remote.nodes[id]);
      if parsedNodes.None? {
        CatalogEmpty(remote.nodes[id]);
        return Acknowledge(inputs, config);
      }
      var nodes := parsedNodes.value;
      var lines, i := NumberMenu(nodes);
      if inputs == [] {
        return Ends(inputs, config, [], Crash(EndOfInput));
      }
      var rest := inputs[1..];
      var parsedChoice := ParseInt(inputs[0]);
      if parsedChoice.None? {
        return Acknowledge(rest, config);
      }
      var nodeChoice := parsedChoice.value;
      if nodeChoice > i {
        r := Acknowledge(rest, config);
      } else if nodeChoice == i {
        r := Ends(rest, config, [], QuitByUser);
      } else if nodeChoice == i - 1 {
        r := Back(rest, config, []);
      } else if nodeChoice == i - 2 {
        var t := OpenAll(tables, config.console, nodes);
        if t.failure.Some? {
          r := Ends(rest, config, t.effects, Crash(LaunchFailed(t.failure.value)));
        } else {
          r := Back(rest, config, t.effects);
        }
      } else {
        var selectedNode := nodeChoice - 1;
        match Index(nodes, selectedNode)
        case None =>
          r := Ends(rest, config, [], Crash(NoSuchNode));
        case Some(node) =>
          match NodeCommand(tables, config.console, node)
          case Err(e) =>
            r := Ends(rest, config, [], Crash(LaunchFailed(e)));
          case Ok(cmd) =>
            r := Back(rest, config, LaunchEffects(cmd));
      }
  }

  // ---------------------------------------------------------------------
  // What a choice does

  /** The menu of `catalog` is shown: the server answers, the project is found and has console nodes. */
  predicate MenuShown(config: Config, remote: Remote, catalog: seq<Node>) {
    && config.server in remote.up
    && ProjectLookup(remote.projects, config.project).Found?
    && ProjectLookup(remote.projects, config.project).id in remote.nodes
    && catalog == Catalog(remote.nodes[ProjectLookup(remote.projects, config.project).id])
    && catalog != []
  }

  /** Once the menu is shown, the rest of the pass is the reading of one choice. */
  lemma ConnectShowsMenu(config: Config, remote: Remote, catalog: seq<Node>, inputs: seq<string>)
    requires MenuShown(config, remote, catalog)
    ensures ConnectSpec(config, remote, inputs) == Choose(BuildTables(config.console), config, catalog, inputs)
  {
  }

  /**
   * A project without console nodes shows no menu: its acknowledgement
   * line is read and control returns to the main menu with nothing started.
   */
  lemma ConnectWithoutNodes(config: Config, remote: Remote, inputs: seq<string>)
    requires config.server in remote.up && ProjectLookup(remote.projects, config.project).Found?
    requires ProjectLookup(remote.projects, config.project).id in remote.nodes
    requires forall r | r in remote.nodes[ProjectLookup(remote.projects, config.project).id] :: !HasConsole(r)
    ensures ConnectSpec(config, remote, inputs) == Acknowledge(inputs, config)
    ensures ConnectSpec(config, remote, inputs).effects == []
  {
    var raw := remote.nodes[ProjectLookup(remote.projects, config.project).id];
    assert forall j | 0 <= j < |raw| :: !HasConsole(raw[j]) by {
      forall j | 0 <= j < |raw| ensures !HasConsole(raw[j]) {
        assert raw[j] in raw;
      }
    }
    CatalogEmpty(raw);
  }

  /** Without a project of the configured name the pass ends on the unbound `project_id`, not on the message. */
  lemma ConnectUnknownName(config: Config, remote: Remote, inputs: seq<string>)
    requires config.server in remote.up
    requires forall j | 0 <= j < |remote.projects| :: remote.projects[j].name != config.project
    ensures ConnectSpec(config, remote, inputs) == Ends(inputs, config, [], Crash(UnboundProjectId))
  {
    ProjectLookupNoMatch(remote.projects, config.project);
  }

  /**
   * A choice that is not an integer starts nothing, does not quit and does
   * not leave early: only the error prompt reads its line.
   */
  lemma ChooseNonInteger(tables: Tables, config: Config, catalog: seq<Node>, inputs: seq<string>)
    requires inputs != [] && ParseInt(inputs[0]) == None
    ensures Choose(tables, config, catalog, inputs).effects == []
    ensures |inputs| >= 2 ==> Choose(tables, config, catalog, inputs) == Back(inputs[2..], config, [])
    ensures |inputs| == 1 ==> Choose(tables, config, catalog, inputs).stop == Some(Crash(EndOfInput))
  {
    if |inputs| >= 2 {
      assert inputs[1..][1..] == inputs[2..];
    }
  }

  /** An answer that reads as the number of node line `k` (such as "1" or "01" for line 1) starts that node's console, and nothing else. */
  lemma ChooseNode(tables: Tables, config: Config, catalog: seq<Node>, inputs: seq<string>, k: nat)
    requires 1 <= k <= |catalog| && inputs != [] && ParseInt(inputs[0]) == Some(k)
    ensures Choose(tables, config, catalog, inputs)
            == match NodeCommand(tables, config.console, catalog[k - 1])
               case Err(e) => Ends(inputs[1..], config, [], Crash(LaunchFailed(e)))
               case Ok(cmd) => Back(inputs[1..], config, LaunchEffects(cmd))
  {
  }

  /**
   * Zero and negative numbers are not rejected: `parsed_nodes[choice-1]`
   * counts from the end of the catalog, and raises below its start.
   */
  lemma ChooseNonPositive(tables: Tables, config: Config, catalog: seq<Node>, inputs: seq<string>, k: int)
    requires inputs != [] && ParseInt(inputs[0]) == Some(k) && k <= 0
    ensures k - 1 < -|catalog| ==> Choose(tables, config, catalog, inputs) == Ends(inputs[1..], config, [], Crash(NoSuchNode))
    ensures -|catalog| <= k - 1 ==>
              Choose(tables, config, catalog, inputs)
              == match NodeCommand(tables, config.console, catalog[|catalog| + k - 1])
                 case Err(e) => Ends(inputs[1..], config, [], Crash(LaunchFailed(e)))
                 case Ok(cmd) => Back(inputs[1..], config, LaunchEffects(cmd))
  {
  }

  /** The number after the last node opens every console; the launches are those of the open-all loop. */
  lemma ChooseOpenAll(tables: Tables, config: Config, catalog: seq<Node>, inputs: seq<string>)
    requires inputs != [] && ParseInt(inputs[0]) == Some(|catalog| + 1)
    ensures Choose(tables, config, catalog, inputs).effects == OpenAllSpec(tables, config.console, catalog).effects
    ensures Choose(tables, config, catalog, inputs).rest == inputs[1..]
    ensures Choose(tables, config, catalog, inputs).stop == None
            <==> OpenAllSpec(tables, config.console, catalog).failure == None
  {
  }

  /** The two numbers after that return to the main menu and quit, reading only the choice. */
  lemma ChooseReturnOrQuit(tables: Tables, config: Config, catalog: seq<Node>, inputs: seq<string>)
    requires inputs != []
    ensures ParseInt(inputs[0]) == Some(|catalog| + 2) ==> Choose(tables, config, catalog, inputs) == Back(inputs[1..], config, [])
    ensures ParseInt(inputs[0]) == Some(|catalog| + 3) ==> Choose(tables, config, catalog, inputs) == Ends(inputs[1..], config, [], QuitByUser)
  {
  }

  /** A number past the Exit line only prompts, like a non-integer. */
  lemma ChooseTooLarge(tables: Tables, config: Config, catalog: seq<Node>, inputs: seq<string>, k: int)
    requires inputs != [] && ParseInt(inputs[0]) == Some(k) && k > |catalog| + 3
    ensures Choose(tables, config, catalog, inputs) == Acknowledge(inputs[1..], config)
    ensures Choose(tables, config, catalog, inputs).effects == []
  {
  }
}
