/**
 * main: the main menu loop. Each turn reads one choice and runs the
 * matching sub-menu, until "6) Exit" or something ends the script.
 */
module MainMenu {
  import opened Wrappers
  import opened Builtins
  import opened NodeCatalog
  import opened Projects
  import opened Templates
  import opened Session
  import opened NodeMenu
  import opened ProjectMenu
  import opened ServerMenu

  datatype MainChoice = Connect | SwitchProjectChoice | SetServerChoice | SetTelnet | SetVnc | ExitProgram | WrongChoice

  /** The answers are compared as strings, so only the exact lines "1" to "6" select an entry. */
  function MainChoiceOf(answer: string): (c: MainChoice)
    ensures c == WrongChoice <==> answer !in ["1", "2", "3", "4", "5", "6"]
    ensures answer == "1" <==> c == Connect
    ensures answer == "6" <==> c == ExitProgram
  {
    if answer == "1" then Connect
    else if answer == "2" then SwitchProjectChoice
    else if answer == "3" then SetServerChoice
    else if answer == "4" then SetTelnet
    else if answer == "5" then SetVnc
    else if answer == "6" then ExitProgram
    else WrongChoice
  }

  /** One main-menu choice, run on the lines after it. */
  function Dispatch(config: Config, remote: Remote, choice: MainChoice, rest: seq<string>): (r: Step)
    ensures IsSuffix(r.rest, rest)
  {
    match choice
    case Connect => ConnectSpec(config, remote, rest)
    case SwitchProjectChoice => SwitchProject(config, remote, rest)
    case SetServerChoice => SetServerSpec(config, remote, rest)
    case SetTelnet => Back(rest, config, [])  // set_telnet is `pass`
    case SetVnc => Back(rest, config, [])     // set_vnc is `pass`
    case ExitProgram => Ends(rest, config, [], Finished)
    case WrongChoice => Acknowledge(rest, config)
  }

  /** Effects that happened before a step. */
  function Extend(done: seq<Effect>, s: Step): Step {
    Step(s.rest, s.config, done + s.effects, s.stop)
  }

  lemma ExtendTwice(a: seq<Effect>, b: seq<Effect>, s: Step)
    ensures Extend(a, Extend(b, s)) == Extend(a + b, s)
  {
    assert a + (b + s.effects) == (a + b) + s.effects;
  }

  /** The whole run of the script over its input lines; it always ends, at the latest with the input. */
  function RunSpec(config: Config, remote: Remote, inputs: seq<string>): (r: Step)
    ensures r.stop.Some? && IsSuffix(r.rest, inputs)
    decreases |inputs|
  {
    if inputs == [] then Ends([], config, [], Crash(EndOfInput))
    else
      var s := Dispatch(config, remote, MainChoiceOf(inputs[0]), inputs[1..]);
      if s.stop.Some? then
        assert IsSuffix(inputs[1..], inputs);
        IsSuffixTransitive(s.rest, inputs[1..], inputs);
        s
      else
        var r := RunSpec(s.config, remote, s.rest);
        assert IsSuffix(inputs[1..], inputs);
        IsSuffixTransitive(s.rest, inputs[1..], inputs);
        IsSuffixTransitive(r.rest, s.rest, inputs);
        Extend(s.effects, r)
  }

  /** Evaluating the user's choice: the `if main_choice == ...` chain, each branch calling its sub-menu. */
  method Evaluate(config: Config, remote: Remote, mainChoice: string, rest: seq<string>) returns (s: Step)
    ensures s == Dispatch(config, remote, MainChoiceOf(mainChoice), rest)
  {
    if mainChoice == "1" {
      s := ConsoleConnect(config, remote, rest);
    } else if mainChoice == "2" {
      s := SwitchProject(config, remote, rest);
    } else if mainChoice == "3" {
      s := SetServer(config, remote, rest);
    } else if mainChoice == "4" {
      s := Back(rest, config, []);  // set_telnet
    } else if mainChoice == "5" {
      s := Back(rest, config, []);  // set_vnc
    } else if mainChoice == "6" {
      s := Ends(rest, config, [], Finished);
    } else {
      s := Acknowledge(rest, config);
    }
  }

  /** main itself: the `while main_menu` loop over the sub-menus. */
  method Run(config: Config, remote: Remote, inputs: seq<string>) returns (r: Step)
    ensures r == RunSpec(config, remote, inputs)
  {
    var current := config;
    var rest := inputs;
    var effects: seq<Effect> := [];
    var mainMenu := true;
    r := Ends([], config, [], Crash(EndOfInput));
    while mainMenu
      invariant mainMenu ==> RunSpec(config, remote, inputs) == Extend(effects, RunSpec(current, remote, rest))
      invariant !mainMenu ==> r == RunSpec(config, remote, inputs)
      decreases mainMenu, |rest|
    {
      if rest == [] {
        assert effects + [] == effects;
        r := Ends([], current, effects, Crash(EndOfInput));
        mainMenu := false;
      } else {
        var s := Evaluate(current, remote, rest[0], rest[1..]);
        if s.stop.Some? {
          r := Extend(effects, s);
          mainMenu := false;
        } else {
          ghost var next := RunSpec(s.config, remote, s.rest);
          assert RunSpec(current, remote, rest) == Extend(s.effects, next);
          ExtendTwice(effects, s.effects, next);
          effects := effects + s.effects;
          current := s.config;
          rest := s.rest;
        }
      }
    }
  }

  // ---------------------------------------------------------------------
  // Properties of a run

  /** "6" ends the script at once, with nothing started and the configuration untouched. */
  lemma RunExit(config: Config, remote: Remote, rest: seq<string>)
    ensures RunSpec(config, remote, ["6"] + rest) == Ends(rest, config, [], Finished)
  {
    assert (["6"] + rest)[0] == "6" && (["6"] + rest)[1..] == rest;
  }

  /** The telnet and vnc entries do nothing: the menu comes back with the same configuration. */
  lemma RunClientStubs(config: Config, remote: Remote, answer: string, rest: seq<string>)
    requires answer == "4" || answer == "5"
    ensures RunSpec(config, remote, [answer] + rest) == RunSpec(config, remote, rest)
  {
    var inputs := [answer] + rest;
    assert inputs[0] == answer && inputs[1..] == rest;
    var c := MainChoiceOf(answer);
    assert c == SetTelnet || c == SetVnc;
    assert Dispatch(config, remote, c, rest) == Back(rest, config, []);
    var r := RunSpec(config, remote, rest);
    assert RunSpec(config, remote, inputs) == Extend([], r);
    assert [] + r.effects == r.effects;
  }

  /** Any other answer costs an acknowledgement line and changes nothing. */
  lemma RunWrongChoice(config: Config, remote: Remote, answer: string, ack: string, rest: seq<string>)
    requires answer !in ["1", "2", "3", "4", "5", "6"]
    ensures RunSpec(config, remote, [answer, ack] + rest) == RunSpec(config, remote, rest)
  {
    var inputs := [answer, ack] + rest;
    assert inputs[0] == answer && inputs[1..][1..] == rest;
    var r := RunSpec(config, remote, rest);
    assert [] + r.effects == r.effects;
  }

  /**
   * Over a whole run the console settings never change, the project is
   * the configured one or the name of a project of the server, and the
   * server is the configured one or one that answered.
   */
  lemma {:induction false} RunChangesOnlyProjectAndServer(config: Config, remote: Remote, inputs: seq<string>)
    ensures RunSpec(config, remote, inputs).config.console == config.console
    ensures var p := RunSpec(config, remote, inputs).config.project;
            p == config.project || exists j | 0 <= j < |remote.projects| :: remote.projects[j].name == p
    ensures var s := RunSpec(config, remote, inputs).config.server;
            s == config.server || s in remote.up
    decreases |inputs|
  {
    if inputs != [] {
      var s := Dispatch(config, remote, MainChoiceOf(inputs[0]), inputs[1..]);
      assert s.config.console == config.console;
      assert s.config.project == config.project || exists j | 0 <= j < |remote.projects| :: remote.projects[j].name == s.config.project;
      assert s.config.server == config.server || s.config.server in remote.up;
      if s.stop.None? {
        RunChangesOnlyProjectAndServer(s.config, remote, s.rest);
      }
    }
  }

  // ---------------------------------------------------------------------
  // A walk through the menus

  function WalkServer(): Server { Server("192.168.56.1", "3080") }

  function WalkRouter(): RawNode { RawNode("R1", "dynamips", "10.0.0.5", 5001, "telnet") }

  function WalkConfig(console: ConsoleSettings): Config { Config(WalkServer(), "lab", console) }

  /** A server with one project, "lab", holding one telnet router. */
  function WalkRemote(): Remote {
    Remote({WalkServer()}, [Project("p1", "lab")], map["p1" := [WalkRouter()]])
  }

  lemma SmallNumbers()
    ensures Str(1) == "1" && Str(5001) == "5001"
  {
    assert Str(5) == "5";
    assert Str(50) == Str(5) + "0";
    assert Str(500) == Str(50) + "0";
    assert Str(5001) == Str(500) + "1";
  }

  /** The walk server shows a menu holding just the router. */
  lemma WalkMenu(console: ConsoleSettings)
    ensures MenuShown(WalkConfig(console), WalkRemote(), [Reduce(WalkRouter())])
  {
    var raw := WalkRouter();
    ContainsItself("dynamips");
    assert HasConsole(raw);
    assert [raw][..0] == [];
    assert Catalog([raw]) == [Reduce(raw)];
    assert FirstNamed(WalkRemote().projects, "lab") == Some(0);
  }

  /** In the node menu, "1" starts the router's console and control returns to the main menu. */
  lemma WalkConnect(console: ConsoleSettings)
    requires console.telnetSelected in TelnetBuiltins
    ensures TelnetCommand(BuildTables(console), console.telnetSelected, Reduce(WalkRouter())).Ok?
    ensures ConnectSpec(WalkConfig(console), WalkRemote(), ["1", "6"])
            == Back(["6"], WalkConfig(console),
                    [Launch(TelnetCommand(BuildTables(console), console.telnetSelected, Reduce(WalkRouter())).value)])
  {
    var config := WalkConfig(console);
    var node := Reduce(WalkRouter());
    WalkMenu(console);
    ConnectShowsMenu(config, WalkRemote(), [node], ["1", "6"]);
    SmallNumbers();
    ParseIntStr(1);
    ChooseNode(BuildTables(console), config, [node], ["1", "6"], 1);
    TelnetCommandBuiltin(console, console.telnetSelected, node);
  }

  /**
   * Connecting ("1"), opening the only node ("1") and leaving ("6") starts
   * exactly one console: a command with the router's host and port, no `%`
   * left, and the detach suffix at the end.
   */
  lemma WalkOneRouter(console: ConsoleSettings)
    requires console.telnetSelected in TelnetBuiltins
    ensures var r := RunSpec(WalkConfig(console), WalkRemote(), ["1", "1", "6"]);
            && r.stop == Some(Finished) && r.rest == [] && r.config == WalkConfig(console)
            && |r.effects| == 1 && r.effects[0].Launch?
            && Contains(r.effects[0].command, "10.0.0.5") && Contains(r.effects[0].command, "5001")
            && Literal(r.effects[0].command) && EndsWith(r.effects[0].command, Devnull)
  {
    var config := WalkConfig(console);
    var remote := WalkRemote();
    var node := Reduce(WalkRouter());
    WalkConnect(console);
    var cmd := TelnetCommand(BuildTables(console), console.telnetSelected, node).value;
    SmallNumbers();
    assert Literal("R1") && Literal("10.0.0.5");
    TelnetCommandBuiltin(console, console.telnetSelected, node);
    var inputs := ["1", "1", "6"];
    assert inputs[0] == "1" && inputs[1..] == ["1", "6"];
    RunExit(config, remote, []);
    assert ["6"] + [] == ["6"];
    assert RunSpec(config, remote, inputs) == Extend([Launch(cmd)], Ends([], config, [], Finished));
  }
}
