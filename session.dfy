/**
 * What the menus of the script share: the configuration record, the GNS3
 * server as seen through its HTTP API, the effects a menu has on the
 * desktop, and how a menu hands control back.
 */
module Session {
  import opened Wrappers
  import opened Builtins
  import opened NodeCatalog
  import opened Projects
  import opened Templates

  /** `config["server"]`: the address and port are kept as the strings the user typed. */
  datatype Server = Server(ip: string, port: string)

  /** The contents of `config.json`. */
  datatype Config = Config(server: Server, project: string, console: ConsoleSettings)

  /**
   * The GNS3 server behind `urlopen`: the addresses that answer, the
   * project list of `/v2/projects`, and the node list of
   * `/v2/projects/<id>/nodes` for each project id it knows.
   */
  datatype Remote = Remote(up: set<Server>, projects: seq<Project>, nodes: map<string, seq<RawNode>>)

  /** What the script does to the desktop: `os.system(console_cmd)` or `sleep(0.333)`. */
  datatype Effect = Launch(command: string) | Sleep

  /** The exceptions that end the script. */
  datatype Fault =
    | UnboundProjectId          // find_project_id read `project_id` without a matching project
    | NoSuchNode                // IndexError on `parsed_nodes[selected_node]`
    | NoSuchProject             // IndexError on `projects[project_choice-1]`
    | LaunchFailed(e: LaunchError) // KeyError or the `%` raising on a console command
    | BrokenTable(f: FormatError)  // the `%` raising while `telnet_cmd` is built
    | EndOfInput                // EOFError: raw_input found no more lines

  /** How the script ends. */
  datatype Exit =
    | Finished          // "6) Exit" in the main menu
    | QuitByUser        // the Exit entry of the node menu: quit()
    | ServerError       // "Error when connecting to GNS3 server": quit()
    | UnknownProjectError // "Error: Unknown project.": quit()
    | Crash(fault: Fault)

  /**
   * A menu's run over the input lines: the lines it left unread, the
   * configuration afterwards, what it did, and, when the script ends
   * inside it, how; `stop == None` means control returns to the main menu.
   */
  datatype Step = Step(rest: seq<string>, config: Config, effects: seq<Effect>, stop: Option<Exit>)

  /** A menu only ever reads from the front of its input. */
  predicate IsSuffix(rest: seq<string>, inputs: seq<string>) {
    |rest| <= |inputs| && rest == inputs[|inputs| - |rest|..]
  }

  lemma IsSuffixTransitive(a: seq<string>, b: seq<string>, c: seq<string>)
    requires IsSuffix(a, b) && IsSuffix(b, c)
    ensures IsSuffix(a, c)
  {
    assert c[|c| - |b|..][|b| - |a|..] == c[|c| - |a|..];
  }

  /** The program ends inside the menu. */
  function Ends(inputs: seq<string>, config: Config, effects: seq<Effect>, exit: Exit): Step {
    Step(inputs, config, effects, Some(exit))
  }

  /** Back to the main menu. */
  function Back(rest: seq<string>, config: Config, effects: seq<Effect>): Step {
    Step(rest, config, effects, None)
  }

  /**
   * An acknowledgement prompt ("Press Enter to ..."): one line is read and
   * ignored; at the end of input raw_input raises.
   */
  function Acknowledge(inputs: seq<string>, config: Config): (r: Step)
    ensures IsSuffix(r.rest, inputs) && r.config == config && r.effects == []
    ensures inputs == [] <==> r.stop == Some(Crash(EndOfInput))
    ensures inputs != [] ==> r.stop == None && r.rest == inputs[1..]
  {
    if inputs == [] then Ends(inputs, config, [], Crash(EndOfInput)) else Back(inputs[1..], config, [])
  }
}
