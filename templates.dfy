/**
 * The command tables of console_connect (`telnet_cmd` and `vnc_cmd`) and
 * the `%` substitution that turns a catalog entry into the shell command
 * that opens its console. Every built-in template ends with the suffix
 * that detaches the client and discards its output.
 */
module Templates {
  import opened Wrappers
  import opened Builtins
  import opened NodeCatalog

  /** `devnull`: run in the background, discard both output streams. */
  const Devnull: string := " >/dev/null 2>/dev/null &"

  /** The `console` part of the configuration. */
  datatype ConsoleSettings = ConsoleSettings(
    telnetSelected: string,
    telnetCustom: string,
    vncSelected: string,
    vncCustom: string)

  /** The two dictionaries built at the top of console_connect. */
  datatype Tables = Tables(telnet: map<string, string>, vnc: map<string, string>)

  /** The built-in telnet clients of `telnet_cmd`: title, host and port slots. */
  const TelnetBuiltins: map<string, string> := map[
    "Xterm" := "xterm -T \"%s\" -e \"telnet %s %s\"" + Devnull,
    "Putty" := "putty -title \"%s\" -telnet %s %s -sl 2500 -fg SALMON1 -bg BLACK" + Devnull,
    "Gnome Terminal" := "gnome-terminal -t \"%s\" -e \"telnet %s %s\"" + Devnull,
    "Xfce4 Terminal" := "xfce4-terminal --tab -T \"%s\" -e \"telnet %s %s\"" + Devnull,
    "ROXTerm" := "roxterm -n \"%s\" --tab -e \"telnet %s %s\"" + Devnull,
    "KDE Konsole" := "konsole --new-tab -p tabtitle=\"%s\" -e \"telnet %s %s\"" + Devnull,
    "SecureCRT" := "SecureCRT /T /N \"%s\"  /TELNET %s %s" + Devnull,
    "Mate Terminal" := "mate-terminal --tab -e \"telnet %s %s\" -t \"%s\"" + Devnull
  ]

  /** The built-in vnc clients of `vnc_cmd`: host and port slots. */
  const VncBuiltins: map<string, string> := map[
    "TightVNC" := "vncviewer %s:%s" + Devnull,
    "Vinagre" := "vinagre %s:%s" + Devnull,
    "gvncviewer" := "gvncviewer %s:%s" + Devnull
  ]

  /**
   * The vnc "Custom" entry: the user's template formatted into
   * `'%s >/dev/null 2>/dev/null &'`, which is `"%s" + devnull`.
   */
  function VncCustomEntry(vncCustom: string): (t: string)
    ensures Format("%s" + Devnull, [vncCustom]) == Ok(t)
  {
    DevnullLiteral();
    SlotThenLiteral(Devnull, vncCustom);
    vncCustom + Devnull
  }

  lemma DevnullLiteral()
    ensures Literal(Devnull)
  {
  }

  /**
   * The telnet "Custom" entry as written: `'%s' + devnull % telnet_custom`.
   * `%` binds tighter than `+`, so the suffix, which has no directive, is
   * formatted with the custom string.
   */
  function TelnetCustomAsWritten(telnetCustom: string): Result<string, FormatError> {
    Prepend("%s", Format(Devnull, [telnetCustom]))
  }

  /** The dictionaries as written: building the telnet one evaluates the "Custom" entry. */
  function BuildTablesAsWritten(console: ConsoleSettings): Result<Tables, FormatError> {
    match TelnetCustomAsWritten(console.telnetCustom)
    case Err(e) => Err(e)
    case Ok(custom) =>
      Ok(Tables(TelnetBuiltins["Custom" := custom], VncBuiltins["Custom" := VncCustomEntry(console.vncCustom)]))
  }

  /**
   * As written, the telnet "Custom" entry raises "not all arguments
   * converted" for every custom string, and since the whole dictionary is
   * built before anything else, so does every entry into console_connect.
   */
  lemma TablesAsWrittenRaise(console: ConsoleSettings)
    ensures TelnetCustomAsWritten(console.telnetCustom) == Err(NotAllConverted)
    ensures BuildTablesAsWritten(console) == Err(NotAllConverted)
  {
    FormatLiteral(Devnull, "", [console.telnetCustom]);
    assert Devnull + "" == Devnull;
  }

  /**
   * The dictionaries the rest of the model uses: the eight built-in telnet
   * clients (the telnet "Custom" entry is left out, as its intended form is
   * not recoverable) and the four vnc entries.
   */
  function BuildTables(console: ConsoleSettings): (t: Tables)
    ensures "Custom" !in t.telnet && t.telnet.Keys == TelnetBuiltins.Keys
    ensures forall c | c in TelnetBuiltins :: c in t.telnet && t.telnet[c] == TelnetBuiltins[c]
    ensures t.vnc.Keys == VncBuiltins.Keys + {"Custom"}
    ensures forall c | c in VncBuiltins :: c in t.vnc && t.vnc[c] == VncBuiltins[c]
    ensures "Custom" in t.vnc && t.vnc["Custom"] == VncCustomEntry(console.vncCustom)
  {
    Tables(TelnetBuiltins, VncBuiltins["Custom" := VncCustomEntry(console.vncCustom)])
  }

  /** Why launching a console fails. */
  datatype LaunchError =
    | UnknownClient(client: string) // KeyError: the selected client is not in the dictionary
    | BadTemplate(e: FormatError)   // the `%` substitution raised

  function Fill(template: string, args: seq<string>): Result<string, LaunchError> {
    match Format(template, args)
    case Ok(cmd) => Ok(cmd)
    case Err(e) => Err(BadTemplate(e))
  }

  /** `telnet_cmd[client] % (name, host, port)`. */
  function TelnetCommand(tables: Tables, client: string, node: Node): Result<string, LaunchError> {
    if client in tables.telnet then
      Fill(tables.telnet[client], [node.name, node.consoleHost, Str(node.console)])
    else
      Err(UnknownClient(client))
  }

  /** `vnc_cmd[client] % (host, port)`. */
  function VncCommand(tables: Tables, client: string, node: Node): Result<string, LaunchError> {
    if client in tables.vnc then
      Fill(tables.vnc[client], [node.consoleHost, Str(node.console)])
    else
      Err(UnknownClient(client))
  }

  /**
   * The command a catalog entry starts: a telnet node uses the selected
   * telnet client, a vnc node the selected vnc client, any other console
   * type starts nothing.
   */
  function NodeCommand(tables: Tables, console: ConsoleSettings, node: Node): Result<Option<string>, LaunchError> {
    if node.consoleType == "telnet" then
      match TelnetCommand(tables, console.telnetSelected, node)
      case Ok(cmd) => Ok(Some(cmd))
      case Err(e) => Err(e)
    else if node.consoleType == "vnc" then
      match VncCommand(tables, console.vncSelected, node)
      case Ok(cmd) => Ok(Some(cmd))
      case Err(e) => Err(e)
    else
      Ok(None)
  }

  // ---------------------------------------------------------------------
  // The shape of the built-in templates

  /** The literal text around the three slots of each built-in telnet template, before the suffix. */
  function TelnetChunks(client: string): seq<string> {
    if client == "Xterm" then ["xterm -T \"", "\" -e \"telnet ", " ", "\""]
    else if client == "Putty" then ["putty -title \"", "\" -telnet ", " ", " -sl 2500 -fg SALMON1 -bg BLACK"]
    else if client == "Gnome Terminal" then ["gnome-terminal -t \"", "\" -e \"telnet ", " ", "\""]
    else if client == "Xfce4 Terminal" then ["xfce4-terminal --tab -T \"", "\" -e \"telnet ", " ", "\""]
    else if client == "ROXTerm" then ["roxterm -n \"", "\" --tab -e \"telnet ", " ", "\""]
    else if client == "KDE Konsole" then ["konsole --new-tab -p tabtitle=\"", "\" -e \"telnet ", " ", "\""]
    else if client == "SecureCRT" then ["SecureCRT /T /N \"", "\"  /TELNET ", " ", ""]
    else ["mate-terminal --tab -e \"telnet ", " ", "\" -t \"", "\""]
  }

  /** The literal text around the two slots of each built-in vnc template, before the suffix. */
  function VncChunks(client: string): seq<string> {
    if client == "TightVNC" then ["vncviewer ", ":", ""]
    else if client == "Vinagre" then ["vinagre ", ":", ""]
    else ["gvncviewer ", ":", ""]
  }

  /** Each built-in telnet template is three `%s` slots between literal text, then the suffix. */
  lemma TelnetTemplateShape(client: string)
    requires client in TelnetBuiltins
    ensures |TelnetChunks(client)| == 4 && AllLiteral(TelnetChunks(client))
    ensures TelnetBuiltins[client] == Pattern(TelnetChunks(client)) + Devnull
  {
    if client == "Xterm" {
      XtermShape();
    } else if client == "Putty" {
      PuttyShape();
    } else if client == "Gnome Terminal" {
      GnomeShape();
    } else if client == "Xfce4 Terminal" {
      Xfce4Shape();
    } else if client == "ROXTerm" {
      RoxtermShape();
    } else if client == "KDE Konsole" {
      KonsoleShape();
    } else if client == "SecureCRT" {
      SecureCrtShape();
    } else {
      MateShape();
    }
  }

  lemma XtermShape()
    ensures "Xterm" in TelnetBuiltins && |TelnetChunks("Xterm")| == 4 && AllLiteral(TelnetChunks("Xterm"))
    ensures TelnetBuiltins["Xterm"] == Pattern(TelnetChunks("Xterm")) + Devnull
  {
    XtermPattern();
  }

  lemma XtermPattern()
    ensures var slots := ["xterm -T \"", "\" -e \"telnet ", " ", "\""];
            AllLiteral(slots) && "xterm -T \"%s\" -e \"telnet %s %s\"" == Pattern(slots)
  {
    var a, b, c, d := "xterm -T \"", "\" -e \"telnet ", " ", "\"";
    SlottedFour("xterm -T \"%s\" -e \"telnet %s %s\"", a, b, c, d);
  }

  lemma PuttyShape()
    ensures "Putty" in TelnetBuiltins && |TelnetChunks("Putty")| == 4 && AllLiteral(TelnetChunks("Putty"))
    ensures TelnetBuiltins["Putty"] == Pattern(TelnetChunks("Putty")) + Devnull
  {
    assert "Putty" != "Xterm" by { assert "Putty"[0] != "Xterm"[0]; }
    PuttyPattern();
  }

  /** The Putty template, whose last literal piece carries the window options. */
  lemma PuttyPattern()
    ensures var slots := ["putty -title \"", "\" -telnet ", " ", " -sl 2500 -fg SALMON1 -bg BLACK"];
            AllLiteral(slots) && "putty -title \"%s\" -telnet %s %s -sl 2500 -fg SALMON1 -bg BLACK" == Pattern(slots)
  {
    PuttyOptionsLiteral();
    var a, b, c, d := "putty -title \"", "\" -telnet ", " ", " -sl 2500 -fg SALMON1 -bg BLACK";
    var head := "putty -title \"%s\" -telnet %s %s";
    assert head == a + "%s" + b + "%s" + c + "%s";
    assert head + d == a + "%s" + b + "%s" + c + "%s" + d;
    assert head + d == "putty -title \"%s\" -telnet %s %s -sl 2500 -fg SALMON1 -bg BLACK";
    assert Literal(a) && Literal(b) && Literal(c) && Literal(d);
    SlottedFour(head + d, a, b, c, d);
  }

  lemma PuttyOptionsLiteral()
    ensures Literal(" -sl 2500 -fg SALMON1 -bg BLACK")
  {
    assert " -sl 2500 -fg SALMON1 -bg BLACK" == " -sl 2500" + " -fg SALMON1" + " -bg BLACK";
  }

  lemma GnomeShape()
    ensures "Gnome Terminal" in TelnetBuiltins && |TelnetChunks("Gnome Terminal")| == 4 && AllLiteral(TelnetChunks("Gnome Terminal"))
    ensures TelnetBuiltins["Gnome Terminal"] == Pattern(TelnetChunks("Gnome Terminal")) + Devnull
  {
    GnomePattern();
  }

  lemma GnomePattern()
    ensures var slots := ["gnome-terminal -t \"", "\" -e \"telnet ", " ", "\""];
            AllLiteral(slots) && "gnome-terminal -t \"%s\" -e \"telnet %s %s\"" == Pattern(slots)
  {
    var a, b, c, d := "gnome-terminal -t \"", "\" -e \"telnet ", " ", "\"";
    SlottedFour("gnome-terminal -t \"%s\" -e \"telnet %s %s\"", a, b, c, d);
  }

  lemma Xfce4Shape()
    ensures "Xfce4 Terminal" in TelnetBuiltins && |TelnetChunks("Xfce4 Terminal")| == 4 && AllLiteral(TelnetChunks("Xfce4 Terminal"))
    ensures TelnetBuiltins["Xfce4 Terminal"] == Pattern(TelnetChunks("Xfce4 Terminal")) + Devnull
  {
    Xfce4Pattern();
  }

  lemma Xfce4Pattern()
    ensures var slots := ["xfce4-terminal --tab -T \"", "\" -e \"telnet ", " ", "\""];
            AllLiteral(slots) && "xfce4-terminal --tab -T \"%s\" -e \"telnet %s %s\"" == Pattern(slots)
  {
    var a, b, c, d := "xfce4-terminal --tab -T \"", "\" -e \"telnet ", " ", "\"";
    SlottedFour("xfce4-terminal --tab -T \"%s\" -e \"telnet %s %s\"", a, b, c, d);
  }

  lemma RoxtermShape()
    ensures "ROXTerm" in TelnetBuiltins && |TelnetChunks("ROXTerm")| == 4 && AllLiteral(TelnetChunks("ROXTerm"))
    ensures TelnetBuiltins["ROXTerm"] == Pattern(TelnetChunks("ROXTerm")) + Devnull
  {
    RoxtermPattern();
  }

  lemma RoxtermPattern()
    ensures var slots := ["roxterm -n \"", "\" --tab -e \"telnet ", " ", "\""];
            AllLiteral(slots) && "roxterm -n \"%s\" --tab -e \"telnet %s %s\"" == Pattern(slots)
  {
    var a, b, c, d := "roxterm -n \"", "\" --tab -e \"telnet ", " ", "\"";
    SlottedFour("roxterm -n \"%s\" --tab -e \"telnet %s %s\"", a, b, c, d);
  }

  lemma KonsoleShape()
    ensures "KDE Konsole" in TelnetBuiltins && |TelnetChunks("KDE Konsole")| == 4 && AllLiteral(TelnetChunks("KDE Konsole"))
    ensures TelnetBuiltins["KDE Konsole"] == Pattern(TelnetChunks("KDE Konsole")) + Devnull
  {
    KonsolePattern();
  }

  lemma KonsolePattern()
    ensures var slots := ["konsole --new-tab -p tabtitle=\"", "\" -e \"telnet ", " ", "\""];
            AllLiteral(slots) && "konsole --new-tab -p tabtitle=\"%s\" -e \"telnet %s %s\"" == Pattern(slots)
  {
    var a, b, c, d := "konsole --new-tab -p tabtitle=\"", "\" -e \"telnet ", " ", "\"";
    SlottedFour("konsole --new-tab -p tabtitle=\"%s\" -e \"telnet %s %s\"", a, b, c, d);
  }

  lemma SecureCrtShape()
    ensures "SecureCRT" in TelnetBuiltins && |TelnetChunks("SecureCRT")| == 4 && AllLiteral(TelnetChunks("SecureCRT"))
    ensures TelnetBuiltins["SecureCRT"] == Pattern(TelnetChunks("SecureCRT")) + Devnull
  {
    SecureCrtPattern();
  }

  lemma SecureCrtPattern()
    ensures var slots := ["SecureCRT /T /N \"", "\"  /TELNET ", " ", ""];
            AllLiteral(slots) && "SecureCRT /T /N \"%s\"  /TELNET %s %s" == Pattern(slots)
  {
    var a, b, c, d := "SecureCRT /T /N \"", "\"  /TELNET ", " ", "";
    var head := a + "%s" + b;
    assert head == "SecureCRT /T /N \"%s\"  /TELNET ";
    assert head + "%s" + c + "%s" + d == "SecureCRT /T /N \"%s\"  /TELNET %s %s";
    SlottedFour("SecureCRT /T /N \"%s\"  /TELNET %s %s", a, b, c, d);
  }

  lemma MateShape()
    ensures "Mate Terminal" in TelnetBuiltins && |TelnetChunks("Mate Terminal")| == 4 && AllLiteral(TelnetChunks("Mate Terminal"))
    ensures TelnetBuiltins["Mate Terminal"] == Pattern(TelnetChunks("Mate Terminal")) + Devnull
  {
    MatePattern();
  }

  lemma MatePattern()
    ensures var slots := ["mate-terminal --tab -e \"telnet ", " ", "\" -t \"", "\""];
            AllLiteral(slots) && "mate-terminal --tab -e \"telnet %s %s\" -t \"%s\"" == Pattern(slots)
  {
    var a, b, c, d := "mate-terminal --tab -e \"telnet ", " ", "\" -t \"", "\"";
    SlottedFour("mate-terminal --tab -e \"telnet %s %s\" -t \"%s\"", a, b, c, d);
  }

  /** A template written as three slots between four literal pieces. */
  lemma SlottedFour(t: string, a: string, b: string, c: string, d: string)
    requires t == a + "%s" + b + "%s" + c + "%s" + d
    requires Literal(a) && Literal(b) && Literal(c) && Literal(d)
    ensures AllLiteral([a, b, c, d]) && t == Pattern([a, b, c, d])
  {
    PatternOfFour(a, b, c, d);
  }

  /** Each built-in vnc template is `host:port` slots after the program name, then the suffix. */
  lemma VncTemplateShape(client: string)
    requires client in VncBuiltins
    ensures |VncChunks(client)| == 3 && AllLiteral(VncChunks(client))
    ensures VncChunks(client)[1] == ":" && VncChunks(client)[2] == ""
    ensures VncBuiltins[client] == Pattern(VncChunks(client)) + Devnull
  {
    var c := VncChunks(client);
    assert c == [c[0], c[1], c[2]];
    PatternOfThree(c[0], c[1], c[2]);
    var body := c[0] + "%s" + c[1] + "%s" + c[2];
    if client == "TightVNC" {
      assert "vncviewer %s:%s" == body;
    } else if client == "Vinagre" {
      assert "vinagre %s:%s" == body;
    } else {
      assert client == "gvncviewer";
      assert "gvncviewer %s:%s" == body;
    }
    assert forall k | 0 <= k < 3 :: Literal(c[k]);
  }

  // ---------------------------------------------------------------------
  // What the substituted commands are

  /**
   * A built-in telnet client receives name, host and port in its three
   * slots, in that order, and the suffix follows; so the command holds the
   * host and the decimal port and ends with the suffix.
   */
  lemma TelnetCommandBuiltin(console: ConsoleSettings, client: string, node: Node)
    requires client in TelnetBuiltins
    ensures TelnetCommand(BuildTables(console), client, node)
            == Ok(Render(TelnetChunks(client), [node.name, node.consoleHost, Str(node.console)]) + Devnull)
    ensures EndsWith(TelnetCommand(BuildTables(console), client, node).value, Devnull)
    ensures Contains(TelnetCommand(BuildTables(console), client, node).value, node.consoleHost)
    ensures Contains(TelnetCommand(BuildTables(console), client, node).value, Str(node.console))
    ensures Literal(node.name) && Literal(node.consoleHost) ==> Literal(TelnetCommand(BuildTables(console), client, node).value)
  {
    TelnetTemplateShape(client);
    var slots := TelnetChunks(client);
    var args := [node.name, node.consoleHost, Str(node.console)];
    assert Literal(Devnull);
    FormatPatternSuffix(slots, args, Devnull);
    var r := Render(slots, args);
    assert (r + Devnull)[|r + Devnull| - |Devnull|..] == Devnull;
    RenderContainsArg(slots, args, 1);
    RenderContainsArg(slots, args, 2);
    ContainsBefore(r, Devnull, args[1]);
    ContainsBefore(r, Devnull, args[2]);
    if Literal(node.name) && Literal(node.consoleHost) {
      StrLiteral(node.console);
      RenderLiteral(slots, args);
      LiteralConcat(r, Devnull);
    }
  }

  /**
   * Mate Terminal's template puts the title slot last, so positional
   * substitution hands name and host to telnet and the port to the title.
   */
  lemma MateTerminalSlots(console: ConsoleSettings, node: Node)
    ensures TelnetCommand(BuildTables(console), "Mate Terminal", node)
            == Ok("mate-terminal --tab -e \"telnet " + node.name + " " + node.consoleHost
                  + "\" -t \"" + Str(node.console) + "\"" + Devnull)
  {
    TelnetCommandBuiltin(console, "Mate Terminal", node);
    var c := TelnetChunks("Mate Terminal");
    assert c == [c[0], c[1], c[2], c[3]];
    RenderOfFour(c[0], c[1], c[2], c[3], node.name, node.consoleHost, Str(node.console));
  }

  /** A built-in vnc client is given `host:port` and the suffix follows. */
  lemma VncCommandBuiltin(console: ConsoleSettings, client: string, node: Node)
    requires client in VncBuiltins
    ensures VncCommand(BuildTables(console), client, node)
            == Ok(VncChunks(client)[0] + node.consoleHost + ":" + Str(node.console) + Devnull)
    ensures EndsWith(VncCommand(BuildTables(console), client, node).value, Devnull)
    ensures Literal(node.consoleHost) ==> Literal(VncCommand(BuildTables(console), client, node).value)
  {
    VncTemplateShape(client);
    var slots := VncChunks(client);
    var args := [node.consoleHost, Str(node.console)];
    assert Literal(Devnull);
    FormatPatternSuffix(slots, args, Devnull);
    assert slots == [slots[0], slots[1], slots[2]];
    RenderOfThree(slots[0], slots[1], slots[2], args[0], args[1]);
    var r := Render(slots, args);
    assert r == slots[0] + args[0] + ":" + args[1];
    assert (r + Devnull)[|r + Devnull| - |Devnull|..] == Devnull;
    if Literal(node.consoleHost) {
      StrLiteral(node.console);
      RenderLiteral(slots, args);
      LiteralConcat(r, Devnull);
    }
  }

  /**
   * The vnc "Custom" entry: a custom template with two `%s` slots is filled
   * with host and port, and the suffix follows.
   */
  lemma VncCustomCommand(console: ConsoleSettings, node: Node, chunks: seq<string>)
    requires |chunks| == 3 && AllLiteral(chunks) && console.vncCustom == Pattern(chunks)
    ensures VncCommand(BuildTables(console), "Custom", node)
            == Ok(chunks[0] + node.consoleHost + chunks[1] + Str(node.console) + chunks[2] + Devnull)
  {
    var tables := BuildTables(console);
    var args := [node.consoleHost, Str(node.console)];
    assert tables.vnc["Custom"] == console.vncCustom + Devnull;
    DevnullLiteral();
    FormatPatternSuffix(chunks, args, Devnull);
    assert Format(tables.vnc["Custom"], args) == Ok(Render(chunks, args) + Devnull);
    assert chunks == [chunks[0], chunks[1], chunks[2]];
    RenderOfThree(chunks[0], chunks[1], chunks[2], args[0], args[1]);
    assert Render(chunks, args) == chunks[0] + args[0] + chunks[1] + args[1] + chunks[2];
  }

  /** With the telnet "Custom" entry left out, selecting it is an unknown-client failure, not a command. */
  lemma TelnetCustomUnavailable(console: ConsoleSettings, node: Node)
    ensures TelnetCommand(BuildTables(console), "Custom", node) == Err(UnknownClient("Custom"))
  {
  }
}
