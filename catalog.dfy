/**
 * parse_nodes: turns the node list of a project into the catalog of
 * console-capable devices shown in the node menu. A record is kept when its
 * `node_type` contains one of five substrings, and is reduced to
 * `[name, console_host, console, console_type]`; the catalog keeps the
 * order of the server's list because that order gives the menu numbers.
 */
module NodeCatalog {
  import opened Wrappers
  import opened Builtins

  /** A device record from the GNS3 API, limited to the fields the script reads. */
  datatype RawNode = RawNode(
    name: string,
    nodeType: string,
    consoleHost: string,
    console: nat,
    consoleType: string)

  /** A catalog entry, `[name, console_host, console, console_type]`. */
  datatype Node = Node(name: string, consoleHost: string, console: nat, consoleType: string)

  /** The node kinds that have a console, matched as substrings of `node_type`. */
  predicate HasConsole(r: RawNode) {
    || Contains(r.nodeType, "dynamips")
    || Contains(r.nodeType, "docker")
    || Contains(r.nodeType, "iou")
    || Contains(r.nodeType, "qemu")
    || Contains(r.nodeType, "ethernet_switch")
  }

  function Reduce(r: RawNode): Node {
    Node(r.name, r.consoleHost, r.console, r.consoleType)
  }

  /** What one record contributes to the catalog. */
  function Keep(r: RawNode): seq<Node> {
    if HasConsole(r) then [Reduce(r)] else []
  }

  /** The catalog of a node list: the kept records, reduced, in source order. */
  function Catalog(raw: seq<RawNode>): seq<Node> {
    if raw == [] then [] else Catalog(raw[..|raw| - 1]) + Keep(raw[|raw| - 1])
  }

  /**
   * parse_nodes itself: the loop appends each kept record; an empty
   * result is returned as nothing (the script pauses on an
   * acknowledgement prompt and returns None).
   */
  method ParseNodes(nodesJson: seq<RawNode>) returns (parsed: Option<seq<Node>>)
    ensures parsed.None? <==> forall j | 0 <= j < |nodesJson| :: !HasConsole(nodesJson[j])
    ensures parsed.Some? ==> parsed.value == Catalog(nodesJson) && parsed.value != []
  {
    var parsedNodesList: seq<Node> := [];
    for i := 0 to |nodesJson|
      invariant parsedNodesList == Catalog(nodesJson[..i])
    {
      var node := nodesJson[i];
      if HasConsole(node) {
        parsedNodesList := parsedNodesList + [Reduce(node)];
      }
      assert nodesJson[..i + 1][..i] == nodesJson[..i];
    }
    assert nodesJson[..|nodesJson|] == nodesJson;
    CatalogEmpty(nodesJson);
    if parsedNodesList != [] {
      parsed := Some(parsedNodesList);
    } else {
      parsed := None;
    }
  }

  /** The catalog is never longer than the node list. */
  lemma {:induction false} CatalogLength(raw: seq<RawNode>)
    ensures |Catalog(raw)| <= |raw|
  {
    if raw != [] {
      CatalogLength(raw[..|raw| - 1]);
    }
  }

  /** Filtering commutes with concatenation: the catalog keeps the source order. */
  lemma {:induction false} CatalogAppend(a: seq<RawNode>, b: seq<RawNode>)
    ensures Catalog(a + b) == Catalog(a) + Catalog(b)
  {
    if b == [] {
      assert a + b == a;
    } else {
      var ab := a + b;
      assert ab[..|ab| - 1] == a + b[..|b| - 1];
      assert ab[|ab| - 1] == b[|b| - 1];
      CatalogAppend(a, b[..|b| - 1]);
    }
  }

  /** The catalog is empty exactly when no record has a console kind. */
  lemma {:induction false} CatalogEmpty(raw: seq<RawNode>)
    ensures Catalog(raw) == [] <==> forall j | 0 <= j < |raw| :: !HasConsole(raw[j])
  {
    if raw != [] {
      var init := raw[..|raw| - 1];
      CatalogEmpty(init);
      assert forall j | 0 <= j < |init| :: init[j] == raw[j];
    }
  }

  /** An entry is in the catalog exactly when some kept record reduces to it. */
  lemma {:induction false} CatalogMembers(raw: seq<RawNode>, x: Node)
    ensures x in Catalog(raw) <==> exists j | 0 <= j < |raw| :: HasConsole(raw[j]) && Reduce(raw[j]) == x
  {
    if raw != [] {
      var init := raw[..|raw| - 1];
      CatalogMembers(init, x);
      assert forall j | 0 <= j < |init| :: init[j] == raw[j];
      if x in Catalog(raw) && x !in Catalog(init) {
        assert HasConsole(raw[|raw| - 1]) && Reduce(raw[|raw| - 1]) == x;
      }
    }
  }

  /**
   * A kept record appears in the catalog at the position given by the
   * number of kept records before it, so menu numbers follow source order.
   */
  lemma CatalogPosition(raw: seq<RawNode>, j: nat)
    requires j < |raw| && HasConsole(raw[j])
    ensures |Catalog(raw[..j])| < |Catalog(raw)|
    ensures Catalog(raw)[|Catalog(raw[..j])|] == Reduce(raw[j])
  {
    assert raw == raw[..j] + ([raw[j]] + raw[j + 1..]);
    CatalogAppend(raw[..j], [raw[j]] + raw[j + 1..]);
    CatalogAppend([raw[j]], raw[j + 1..]);
    assert [raw[j]][..0] == [];
  }
}
