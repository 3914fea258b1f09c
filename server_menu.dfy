/**
 * set_server: asks for a new address and port, keeps the old value for a
 * blank answer, and stores the pair once the server answers at it;
 * otherwise it reports the error and asks again.
 */
module ServerMenu {
  import opened Wrappers
  import opened Session

  /** `if not new_ip: new_ip = old_ip`: a blank answer keeps the old value. */
  function Default(answer: string, previous: string): (r: string)
    ensures answer == "" ==> r == previous
    ensures answer != "" ==> r == answer
  {
    if answer == "" then previous else answer
  }

  /** The address and port typed in one attempt, with blanks replaced. */
  function Candidate(previous: Server, ipAnswer: string, portAnswer: string): Server {
    Server(Default(ipAnswer, previous.ip), Default(portAnswer, previous.port))
  }

  /**
   * set_server over the input lines: each attempt reads two lines; a
   * server that answers is stored, one that does not costs an
   * acknowledgement line and the next attempt starts from the same old
   * values.
   */
  function SetServerSpec(config: Config, remote: Remote, inputs: seq<string>): (r: Step)
    ensures IsSuffix(r.rest, inputs) && r.effects == []
    ensures r.config == config || r.config == config.(server := r.config.server)
    ensures r.stop == None ==> r.config.server in remote.up && |r.rest| + 2 <= |inputs|
    ensures r.stop != None ==> r.stop == Some(Crash(EndOfInput)) && r.rest == [] && r.config == config
    decreases |inputs|
  {
    if |inputs| < 2 then Ends([], config, [], Crash(EndOfInput))
    else
      var server := Candidate(config.server, inputs[0], inputs[1]);
      if server in remote.up then Back(inputs[2..], config.(server := server), [])
      else if |inputs| == 2 then Ends([], config, [], Crash(EndOfInput))
      else
        var r := SetServerSpec(config, remote, inputs[3..]);
        assert inputs[3..][|inputs[3..]| - |r.rest|..] == inputs[|inputs| - |r.rest|..];
        r
  }

  /** The `while server_menu` loop. */
  method SetServer(config: Config, remote: Remote, inputs: seq<string>) returns (r: Step)
    ensures r == SetServerSpec(config, remote, inputs)
  {
    var rest := inputs;
    var serverMenu := true;
    r := Ends([], config, [], Crash(EndOfInput));
    while serverMenu
      invariant serverMenu ==> SetServerSpec(config, remote, rest) == SetServerSpec(config, remote, inputs)
      invariant !serverMenu ==> r == SetServerSpec(config, remote, inputs)
      decreases serverMenu, |rest|
    {
      if |rest| < 2 {
        r := Ends([], config, [], Crash(EndOfInput));
        serverMenu := false;
      } else {
        var newIp := Default(rest[0], config.server.ip);
        var newPort := Default(rest[1], config.server.port);
        if Server(newIp, newPort) in remote.up {
          r := Back(rest[2..], config.(server := Server(newIp, newPort)), []);
          serverMenu := false;
        } else if |rest| == 2 {
          r := Ends([], config, [], Crash(EndOfInput));
          serverMenu := false;
        } else {
          rest := rest[3..];
        }
      }
    }
  }

  /** Two blank answers store the current server again, once it answers. */
  lemma SetServerBlank(config: Config, remote: Remote, rest: seq<string>)
    requires config.server in remote.up
    ensures SetServerSpec(config, remote, ["", ""] + rest) == Back(rest, config, [])
  {
    assert (["", ""] + rest)[2..] == rest;
  }

  /** A server that answers is stored with the blanks filled from the old values; nothing else changes. */
  lemma SetServerAccepts(config: Config, remote: Remote, ipAnswer: string, portAnswer: string, rest: seq<string>)
    requires Candidate(config.server, ipAnswer, portAnswer) in remote.up
    ensures SetServerSpec(config, remote, [ipAnswer, portAnswer] + rest)
            == Back(rest, config.(server := Candidate(config.server, ipAnswer, portAnswer)), [])
    ensures SetServerSpec(config, remote, [ipAnswer, portAnswer] + rest).config.project == config.project
    ensures SetServerSpec(config, remote, [ipAnswer, portAnswer] + rest).config.console == config.console
  {
    assert ([ipAnswer, portAnswer] + rest)[2..] == rest;
  }

  /** A failed validation changes nothing and asks again, with the same old values as defaults. */
  lemma SetServerRetries(config: Config, remote: Remote, ipAnswer: string, portAnswer: string, ack: string, rest: seq<string>)
    requires Candidate(config.server, ipAnswer, portAnswer) !in remote.up
    ensures SetServerSpec(config, remote, [ipAnswer, portAnswer, ack] + rest) == SetServerSpec(config, remote, rest)
  {
    assert ([ipAnswer, portAnswer, ack] + rest)[3..] == rest;
  }
}
