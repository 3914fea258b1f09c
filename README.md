# Remote console for GNS3, modelled in Dafny

`rcon_gns3.py` is a small interactive Python 2 script. It lets a user at a
Linux desktop open telnet and VNC consoles on the devices of a project that
runs on a GNS3 server. The script talks to the server's HTTP API and keeps
its settings in `config.json`. A main menu offers five actions:

- connect to the nodes of the configured project;
- switch project;
- set the server's address and port;
- set the telnet client;
- set the vnc client.

The node menu lists every console-capable device. The user can open one
console, open all of them, go back, or quit.

This project models the decision logic of that script and proves what it
does. The modules follow the script's structure:

| module | file | models |
|---|---|---|
| `Wrappers` | wrappers.dfy | `Option` and `Result` |
| `Builtins` | builtins.dfy | the Python operations the script relies on: substring `in`, indexing with negative indices, `str` of an integer, `int` of a menu answer, and the `%` operator for `%s` and `%%` |
| `NodeCatalog` | catalog.dfy | `parse_nodes`: filtering and reducing the device records |
| `Projects` | projects.dfy | `find_project_id` |
| `Templates` | templates.dfy | the `telnet_cmd` and `vnc_cmd` tables, and the substitution of a node into a template |
| `Session` | session.dfy | the configuration record, the server as a value, effects, and how a menu returns |
| `NodeMenu` | node_menu.dfy | `console_connect`: the numbered menu, classifying a choice, opening one or all consoles |
| `ProjectMenu` | project_menu.dfy | `switch_project` |
| `ServerMenu` | server_menu.dfy | `set_server` |
| `MainMenu` | main_menu.dfy | `main`: the menu loop that runs the others |

Where the script changes state step by step, the model is imperative too.
Each such piece is a Dafny method with its loop, proved equal to a
specification function:

- `parse_nodes` appends in a loop;
- `find_project_id` is a loop with `break`;
- the `i` counter prints the menu;
- open-all loops over the nodes;
- `set_server` and `main` are flag-driven `while` loops.

Lemmas state the properties about those specification functions.

The environment appears only as parameters:

- the user's answers are a sequence of input lines;
- the server is a `Remote` value: the addresses that answer, one project list, and the node list of each project. That one project list and node map are shared by every answering address and fixed for the whole run, so after `set_server` moves to another address, `switch_project` still lists the same projects; in the script it would list the new server's projects;
- the configuration is a `Config` value passed in and returned;
- launching a console and sleeping are recorded as `Effect`s.

Running out of input, where `raw_input` would raise `EOFError`, ends the run
with `Crash(EndOfInput)`. Every menu result says which input lines it left
unread. So the main loop is a function over the input, and it always ends.

Where the script's own docstrings, prompts and messages promise something its code does not do, the model follows the code:

- the node menu's wrong-selection prompts say "Wrong selection. Press Enter to try again." (rcon_gns3.py:180, 183), but the `return` at rcon_gns3.py:216 ends every pass, so no choice shows the node menu again: every choice that neither quits (`quit()` at rcon_gns3.py:185) nor raises (the index at rcon_gns3.py:205, the table lookup or `%` at rcon_gns3.py:192 and 206) returns to the main menu;
- the `parse_nodes` docstring says it returns a list of the nodes (rcon_gns3.py:102), but with no applicable node it gives `None` (rcon_gns3.py:113-116), never an empty list;
- `find_project_id` has an "Error: Unknown project." message (rcon_gns3.py:65), but a name that matches nothing leaves `project_id` unbound at rcon_gns3.py:62, so the script crashes on an `UnboundLocalError` before it reaches the message.

## Model

| member | source | states |
|---|---|---|
| `Builtins.StrIsDecimal` | rcon_gns3.py:192-195 | the port inserted by `%s` is the decimal text of the number: non-empty, digits only, no leading zero, denoting the number |
| `Builtins.ParseIntStr` | rcon_gns3.py:177 | `int` reads back any number printed as a menu index, and its negation |
| `Builtins.ParseIntSpaced` | rcon_gns3.py:177 | `int` ignores whitespace before and after the answer and between its sign and its digits, so " 5 " reads as 5 and "- 1" as -1 |
| `Builtins.FormatLiteral` | rcon_gns3.py:142 | text without directives is copied through by `%` and consumes no argument, so a directive-free template with an argument left over raises "not all arguments converted" |
| `Builtins.FormatPattern` | rcon_gns3.py:192-200 | a template of n `%s` slots between literal pieces is filled positionally when given exactly n arguments; with fewer it raises "not enough arguments", with more "not all arguments converted" |
| `Builtins.FormatPatternSuffix` | rcon_gns3.py:134-147 | a literal suffix after the slots is kept as is, so a filled template keeps the `devnull` suffix |
| `Builtins.RenderContainsArg` | rcon_gns3.py:192-200 | every argument appears, as a substring, in the filled template |
| `Builtins.RenderEndsWithLast` | rcon_gns3.py:192-200 | a filled template ends with its last literal piece |
| `Builtins.RenderLiteral` | rcon_gns3.py:192-200 | filling literal pieces with arguments free of `%` leaves no `%` in the command |
| `NodeCatalog.ParseNodes` | rcon_gns3.py:105-116 | the loop yields the catalog of the node list; it yields nothing exactly when no record has one of the five console kinds, and never an empty list |
| `NodeCatalog.CatalogMembers` | rcon_gns3.py:106-111 | an entry is in the catalog iff some record whose `node_type` contains "dynamips", "docker", "iou", "qemu" or "ethernet_switch" reduces to it |
| `NodeCatalog.CatalogAppend` | rcon_gns3.py:106-111 | the catalog of a concatenation is the concatenation of the catalogs, so the source order is kept |
| `NodeCatalog.CatalogPosition` | rcon_gns3.py:106-111 | a kept record sits at the position given by the number of kept records before it |
| `NodeCatalog.CatalogLength` | rcon_gns3.py:105-111 | the catalog is never longer than the node list |
| `NodeCatalog.CatalogEmpty` | rcon_gns3.py:113-116 | the catalog is empty iff no record has a console kind |
| `Projects.FirstNamed` | rcon_gns3.py:57-60 | the position found is that of the first project with the name, and nothing is found iff no project has it |
| `Projects.FindProjectId` | rcon_gns3.py:52-66 | the search returns the id of the first project with the name; an empty id means "Unknown project"; no match means the unbound `project_id` |
| `Projects.ProjectLookupFirstMatch` | rcon_gns3.py:57-63 | the first project with the name decides the result, whatever follows it |
| `Projects.ProjectLookupNoMatch` | rcon_gns3.py:57-62 | with no project of that name the lookup fails on the unbound name |
| `Templates.VncCustomEntry` | rcon_gns3.py:148 | the vnc "Custom" entry is what `%` makes of the custom template and the suffix |
| `Templates.TablesAsWrittenRaise` | rcon_gns3.py:142 | as written, building the telnet table raises for every custom string, and so does building both tables |
| `Templates.BuildTables` | rcon_gns3.py:134-149 | the telnet table holds exactly the eight built-in clients, with their templates; the vnc table holds exactly the three built-in clients plus "Custom", with their templates, and "Custom" is the custom string followed by the suffix |
| `Templates.TelnetTemplateShape` | rcon_gns3.py:134-141 | each built-in telnet template is three `%s` slots between literal pieces, followed by the suffix |
| `Templates.VncTemplateShape` | rcon_gns3.py:145-147 | each built-in vnc template is the program name, `%s:%s`, and the suffix |
| `Templates.TelnetCommandBuiltin` | rcon_gns3.py:192-196 | a built-in telnet client gets name, host and port in that order; the command holds host and decimal port, ends with the suffix, and has no `%` left when name and host have none |
| `Templates.MateTerminalSlots` | rcon_gns3.py:141 | Mate Terminal's command passes name and host to telnet and puts the port in the title |
| `Templates.VncCommandBuiltin` | rcon_gns3.py:198-201 | a built-in vnc client gets `host:port` and the suffix, with no `%` left when the host has none |
| `Templates.VncCustomCommand` | rcon_gns3.py:148 | a custom vnc template with two slots is filled with host and port, and the suffix follows |
| `Templates.TelnetCustomUnavailable` | rcon_gns3.py:142 | with the broken telnet "Custom" entry left out, selecting it is an unknown-client failure |
| `Session.Acknowledge` | rcon_gns3.py:116 | an acknowledgement prompt reads exactly one line, changes nothing, and raises at the end of input |
| `NodeMenu.NumberMenu` | rcon_gns3.py:166-174 | the printing loop numbers the nodes from 1, then open-all, return and exit, and leaves `i` at N+3 |
| `NodeMenu.ClassifyFollowsMenu` | rcon_gns3.py:166-204 | the number printed on each menu line selects what that line offers |
| `NodeMenu.ClassifyOutsideMenu` | rcon_gns3.py:182-204 | exactly the numbers above N+3 are a wrong selection; zero and below fall into the single-node branch |
| `NodeMenu.OpenAll` | rcon_gns3.py:189-202 | the loop does what the open-all specification says: each node's command in catalog order with a sleep after it, stopping at the first failure |
| `NodeMenu.OpenAllAppend` | rcon_gns3.py:189-202 | opening all of a concatenation opens the first part, then the second unless the first raised |
| `NodeMenu.OpenAllSingle` | rcon_gns3.py:189-215 | for one node, open-all does what selecting that node does, then sleeps |
| `NodeMenu.OpenAllBuiltins` | rcon_gns3.py:189-202 | with built-in clients open-all never raises, sleeps once per node, and launches one command per telnet or vnc node |
| `NodeMenu.Choose` | rcon_gns3.py:175-215 | reading the choice only consumes input and never changes the configuration |
| `NodeMenu.ConnectWith` | rcon_gns3.py:151-216 | one pass of the node menu only consumes input and never changes the configuration |
| `NodeMenu.ConsoleConnect` | rcon_gns3.py:119-216 | the pass, composed of the lookup, the filter, the menu loop and the open-all loop, does what the node-menu specification says, over the tables with line 142 corrected |
| `NodeMenu.ConnectAsWrittenCrashes` | rcon_gns3.py:142 | as written, entering the node menu raises before any request, prompt or launch |
| `NodeMenu.ConnectShowsMenu` | rcon_gns3.py:154-175 | once the project is found and has console nodes, the pass is the reading of one choice over that catalog (tables with line 142 corrected) |
| `NodeMenu.ConnectWithoutNodes` | rcon_gns3.py:113-116 | a project without console nodes reads one acknowledgement line and returns without a launch (tables with line 142 corrected) |
| `NodeMenu.ConnectUnknownName` | rcon_gns3.py:57-62 | an unmatched project name ends the run on the unbound `project_id` (tables with line 142 corrected) |
| `NodeMenu.ChooseNonInteger` | rcon_gns3.py:176-180 | a non-integer choice launches nothing, does not quit, and only reads the error prompt's line |
| `NodeMenu.ChooseNode` | rcon_gns3.py:203-215 | an answer `int` reads as k, for 1 <= k <= N, starts exactly the console of the k-th catalog entry |
| `NodeMenu.ChooseNonPositive` | rcon_gns3.py:203-205 | zero and negative choices count from the end of the catalog, and raise below its start |
| `NodeMenu.ChooseOpenAll` | rcon_gns3.py:188-202 | an answer `int` reads as N+1 performs exactly the open-all launches, and returns iff none raised |
| `NodeMenu.ChooseReturnOrQuit` | rcon_gns3.py:184-187 | an answer `int` reads as N+2 returns without launching; N+3 quits |
| `NodeMenu.ChooseTooLarge` | rcon_gns3.py:182-183 | a number above N+3 only prompts |
| `ProjectMenu.SwitchProject` | rcon_gns3.py:219-243 | switch_project changes only the project, and only to the name of one of the server's projects |
| `ProjectMenu.SwitchProjectPicks` | rcon_gns3.py:231-242 | an answer `int` reads as the number printed next to a project makes it the configured project |
| `ProjectMenu.SwitchProjectOutOfRange` | rcon_gns3.py:241 | 0 selects the last project; a number past the list raises |
| `ProjectMenu.SwitchProjectNonInteger` | rcon_gns3.py:235-238 | a non-integer answer leaves the configuration as it was and reads the acknowledgement line |
| `ServerMenu.SetServerSpec` | rcon_gns3.py:251-279 | set_server changes only the server, to one that answered, having read at least its two lines; it fails only at the end of input (an address either answers or raises `URLError`; other exceptions of the request are not modelled) |
| `ServerMenu.SetServer` | rcon_gns3.py:251-279 | the `while server_menu` loop does what the set_server specification says |
| `ServerMenu.SetServerBlank` | rcon_gns3.py:261-264 | two blank answers keep the current server |
| `ServerMenu.SetServerAccepts` | rcon_gns3.py:261-278 | an answering server is stored with blanks filled from the old values, leaving project and console settings alone |
| `ServerMenu.SetServerRetries` | rcon_gns3.py:269-273 | a failed validation changes nothing and asks again with the same defaults |
| `MainMenu.MainChoiceOf` | rcon_gns3.py:328-341 | only the exact answers "1" to "6" select an entry; "1" connects and "6" exits |
| `MainMenu.RunSpec` | rcon_gns3.py:296-341 | a run always ends and only reads input from the front |
| `MainMenu.Evaluate` | rcon_gns3.py:328-341 | the `if main_choice == ...` chain runs the sub-menu the answer selects; "1" enters the node menu over the tables with line 142 corrected |
| `MainMenu.Run` | rcon_gns3.py:301-341 | the `while main_menu` loop does what the run specification says, over the tables with line 142 corrected |
| `MainMenu.RunExit` | rcon_gns3.py:338-339 | "6" ends the script at once with nothing launched |
| `MainMenu.RunClientStubs` | rcon_gns3.py:282-293 | "4" and "5" change nothing and the menu comes back |
| `MainMenu.RunWrongChoice` | rcon_gns3.py:340-341 | any other answer costs one acknowledgement line and changes nothing |
| `MainMenu.RunChangesOnlyProjectAndServer` | rcon_gns3.py:296-341 | over a whole run, the console settings never change; the project stays or becomes one of the server's projects; the server stays or becomes one that answered ("the server's projects" is the single project list of `Remote`, the same for every address) |
| `MainMenu.WalkConnect` | rcon_gns3.py:154-210 | for a project with one telnet router, the node choice "1" launches that router's console and returns (tables with line 142 corrected; as written this raises) |
| `MainMenu.WalkOneRouter` | rcon_gns3.py:328-329 | the answers "1", "1", "6" launch exactly one console, whose command holds 10.0.0.5 and 5001, has no `%` left, and ends with the suffix (tables with line 142 corrected; as written this raises) |

## Left out

- HTTP: `get_project`, `get_nodes` and the validation request in `set_server` become a `Remote` value. A server address answers or does not. Every answering address serves the same project list and the same nodes, and these do not change during a run; the script asks whichever server is configured at the time, so a server switch followed by a project switch or a node menu is not modelled against the new server's own projects. A missing project id in the node listing is treated like a transport error. Error reasons are not modelled. Every request either answers or raises `URLError`; any other exception, which would end the script, is not modelled.
- Config file I/O: `load_config` and `write_config` become a `Config` value threaded through the menus. The model does not cover out-of-band edits to `config.json`, or fields the file lacks.
- Terminal output: `print` and the screen clearing through `os.system` are not modelled. Neither are the prompt texts or `print(node)` in the open-all loop.
- `os.system(console_cmd)` becomes a `Launch` effect. Its exit status, which the script ignores, is not modelled.
- Text encoding: `json.loads` gives `unicode` names and hosts, so the `%` at rcon_gns3.py:192, 198, 206 and 212 gives a `unicode` command. `os.system` encodes that command as ASCII, so a non-ASCII node name or host raises `UnicodeEncodeError` at rcon_gns3.py:196, 201, 210 or 215. The model, where every string is a sequence of characters, records a `Launch` instead.
- `sleep(0.333)` becomes a `Sleep` effect without its duration.
- JSON: the API records are limited to the fields the script reads. A missing key, which would raise `KeyError`, is not modelled. A node's `console` is taken to be a non-negative integer.
- `Builtins.ParseInt`: the model follows `int` for numbers that fit a 64-bit C `long`. A larger number is read by Python's arbitrary-precision parser instead, and the model gives it the same whitespace rules without checking that parser's own.
- `ServerMenu.SetServerSpec`: an answer that makes the validation request raise something other than `URLError` (such as `httplib.InvalidURL` for a non-numeric port) ends the script in the source; in the model the address simply does not answer and the menu asks again.
- `MainMenu.Run`: uses the tables with line 142 corrected; as written the node menu raises before it is shown (`NodeMenu.ConnectAsWrittenCrashes`).
- `MainMenu.Evaluate`: uses the tables with line 142 corrected; as written the node menu raises before it is shown (`NodeMenu.ConnectAsWrittenCrashes`).
- `NodeMenu.ConsoleConnect`: uses the tables with line 142 corrected; as written the node menu raises before it is shown (`NodeMenu.ConnectAsWrittenCrashes`).
- `NodeMenu.ConnectShowsMenu`: uses the tables with line 142 corrected; as written the node menu raises before it is shown (`NodeMenu.ConnectAsWrittenCrashes`).
- `NodeMenu.ConnectWithoutNodes`: uses the tables with line 142 corrected; as written the pass raises before `parse_nodes` runs, so no acknowledgement line is read (`NodeMenu.ConnectAsWrittenCrashes`).
- `NodeMenu.ConnectUnknownName`: uses the tables with line 142 corrected; as written the pass raises before `find_project_id` runs, so it never reaches the unbound `project_id` (`NodeMenu.ConnectAsWrittenCrashes`).
- `MainMenu.WalkConnect`: uses the tables with line 142 corrected; as written the node menu raises before it is shown (`NodeMenu.ConnectAsWrittenCrashes`).
- `MainMenu.WalkOneRouter`: uses the tables with line 142 corrected; as written the node menu raises before it is shown (`NodeMenu.ConnectAsWrittenCrashes`).
- `Builtins.Format`: only the `%s` and `%%` directives. Any other directive is reported as an unsupported-directive error, not with Python's conversion rules.
- The server port is kept as the string the user types. The script never converts it.
- The telnet "Custom" entry: as written it cannot be built (see Findings). The corrected tables leave it out instead of guessing its form.
- `set_telnet` and `set_vnc` are `pass` and are modelled as doing nothing.
- `console_connect`'s `while node_menu` loop: its body always ends in `return`, so it is modelled as one pass.

## Findings

| source | as written | input that shows it | evidently intended | confidence | as-written member | corrected member |
|---|---|---|---|---|---|---|
| rcon_gns3.py:142 | `%` binds tighter than `+`, so the suffix, which has no directive, is formatted with the custom string; this raises "not all arguments converted" while `telnet_cmd` is built, at the start of every console_connect | any configuration whose `telnet_custom` is a string, e.g. telnet_custom = "" | a telnet table that can be built, so the node menu can be entered; the corrected tables leave the telnet "Custom" entry out, since the intended form of that entry is not certain | not executed | `Templates.TablesAsWrittenRaise` | `Templates.BuildTables` |
