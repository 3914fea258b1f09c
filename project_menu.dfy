/**
 * switch_project: lists the server's projects, numbered from 1, and stores
 * the name of the chosen one as the configured project.
 */
module ProjectMenu {
  import opened Wrappers
  import opened Builtins
  import opened Projects
  import opened Session

  /**
   * One run of switch_project. The choice is not range-checked:
   * `projects[project_choice-1]` counts from the end for zero and negative
   * numbers and raises outside the list.
   */
  function SwitchProject(config: Config, remote: Remote, inputs: seq<string>): (r: Step)
    ensures IsSuffix(r.rest, inputs) && r.effects == []
    ensures r.config.server == config.server && r.config.console == config.console
    ensures r.config.project != config.project ==> exists j | 0 <= j < |remote.projects| :: remote.projects[j].name == r.config.project
  {
    if config.server !in remote.up then Ends(inputs, config, [], ServerError)
    else if inputs == [] then Ends(inputs, config, [], Crash(EndOfInput))
    else
      var rest := inputs[1..];
      match ParseInt(inputs[0])
      case None => Acknowledge(rest, config)
      case Some(k) =>
        match Index(remote.projects, k - 1)
        case None => Ends(rest, config, [], Crash(NoSuchProject))
        case Some(p) =>
          assert p.name == remote.projects[if k - 1 < 0 then |remote.projects| + k - 1 else k - 1].name;
          Back(rest, config.(project := p.name), [])
  }

  /** An answer that reads as the number printed next to a project makes it the configured project. */
  lemma SwitchProjectPicks(config: Config, remote: Remote, inputs: seq<string>, k: nat)
    requires config.server in remote.up && 1 <= k <= |remote.projects|
    requires inputs != [] && ParseInt(inputs[0]) == Some(k)
    ensures SwitchProject(config, remote, inputs)
            == Back(inputs[1..], config.(project := remote.projects[k - 1].name), [])
  {
  }

  /** Zero selects the last project; a number past the list raises. */
  lemma SwitchProjectOutOfRange(config: Config, remote: Remote, inputs: seq<string>, k: int)
    requires config.server in remote.up && inputs != [] && ParseInt(inputs[0]) == Some(k)
    ensures k == 0 && remote.projects != [] ==>
              SwitchProject(config, remote, inputs)
              == Back(inputs[1..], config.(project := remote.projects[|remote.projects| - 1].name), [])
    ensures k > |remote.projects| ==>
              SwitchProject(config, remote, inputs) == Ends(inputs[1..], config, [], Crash(NoSuchProject))
  {
  }

  /** A choice that is not an integer leaves the configuration as it was and reads the acknowledgement. */
  lemma SwitchProjectNonInteger(config: Config, remote: Remote, inputs: seq<string>)
    requires config.server in remote.up && inputs != [] && ParseInt(inputs[0]) == None
    ensures SwitchProject(config, remote, inputs) == Acknowledge(inputs[1..], config)
    ensures SwitchProject(config, remote, inputs).config == config
  {
  }
}
