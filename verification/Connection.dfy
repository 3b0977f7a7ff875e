/** Pages of a connection, and the rows and ids they hold. */
module Connection {
  import opened Wrappers

  /** A node may lack an id. */
  datatype Node = Node(id: Option<string>, body: string)

  datatype Page = Page(edges: seq<Node>, hasNext: bool, cursor: Option<string>)

  function Flat(pages: seq<Page>): seq<Node> {
    if pages == [] then [] else Flat(pages[..|pages| - 1]) + pages[|pages| - 1].edges
  }

  function Ids(nodes: seq<Node>): set<string> {
    set i | 0 <= i < |nodes| && nodes[i].id.Some? :: nodes[i].id.value
  }

  function IdsOf(pages: seq<Page>): set<string> { Ids(Flat(pages)) }

  /** Each node with an id where it first occurs, and every node without one. */
  function RowsOf(nodes: seq<Node>): (rows: seq<Node>)
    ensures Ids(rows) == Ids(nodes)
  {
    if nodes == [] then []
    else
      var front, last := nodes[..|nodes| - 1], nodes[|nodes| - 1];
      var rows := RowsOf(front);
      IdsOfMore(front, last);
      IdsOfMore(rows, last);
      assert front + [last] == nodes;
      if last.id.None? || last.id.value !in Ids(front) then rows + [last] else rows
  }

  lemma IdsOfMore(nodes: seq<Node>, node: Node)
    ensures Ids(nodes + [node]) == Ids(nodes) + if node.id.Some? then {node.id.value} else {}
  {
    var more := nodes + [node];
    assert more[|nodes|] == node;
    assert forall i :: 0 <= i < |nodes| ==> more[i] == nodes[i];
  }

  predicate DistinctIds(nodes: seq<Node>) {
    forall i, j :: 0 <= i < j < |nodes| && nodes[i].id.Some? ==> nodes[i].id != nodes[j].id
  }

  /** No id is listed twice. */
  lemma {:induction false} RowsDistinct(nodes: seq<Node>)
    ensures DistinctIds(RowsOf(nodes))
  {
    if nodes != [] {
      var front, last := nodes[..|nodes| - 1], nodes[|nodes| - 1];
      var rows := RowsOf(front);
      RowsDistinct(front);
      if last.id.None? || last.id.value !in Ids(front) {
        forall i | 0 <= i < |rows| && rows[i].id.Some? ensures rows[i].id != last.id {
          assert rows[i].id.value in Ids(rows);
        }
      }
    }
  }

  /** Rows already distinct are listed as they are. */
  lemma {:induction false} RowsAsTheyAre(nodes: seq<Node>)
    requires DistinctIds(nodes)
    ensures RowsOf(nodes) == nodes
  {
    if nodes != [] {
      var front, last := nodes[..|nodes| - 1], nodes[|nodes| - 1];
      RowsAsTheyAre(front);
      assert last.id.Some? ==> last.id.value !in Ids(front);
      assert front + [last] == nodes;
    }
  }

  /** A row is listed exactly when the pages hold it first among its id, or it has none. */
  lemma {:induction false} RowsFirst(nodes: seq<Node>, row: Node)
    ensures row in RowsOf(nodes) <==>
      exists i :: 0 <= i < |nodes| && nodes[i] == row && (row.id.None? || row.id.value !in Ids(nodes[..i]))
  {
    if nodes != [] {
      var n := |nodes| - 1;
      var front, last := nodes[..n], nodes[n];
      hide Ids;
      RowsFirst(front, row);
      assert forall i :: 0 <= i < n ==> front[i] == nodes[i] && front[..i] == nodes[..i];
      assert nodes[..n] == front;
    }
  }

  /** What the screen lists of these pages. */
  method Rows(pages: seq<Page>) returns (rows: seq<Node>)
    ensures rows == RowsOf(Flat(pages))
  {
    var nodes := Flatten(pages);
    var seen: set<string> := {};
    rows := [];
    for at := 0 to |nodes|
      invariant rows == RowsOf(nodes[..at]) && seen == Ids(nodes[..at])
    {
      var node := nodes[at];
      assert nodes[..at + 1][..at] == nodes[..at] && nodes[..at] + [node] == nodes[..at + 1];
      IdsOfMore(nodes[..at], node);
      if node.id.None? || node.id.value !in seen {
        if node.id.Some? {
          seen := seen + {node.id.value};
        }
        rows := rows + [node];
      }
    }
    assert nodes[..|nodes|] == nodes;
  }

  method Flatten(pages: seq<Page>) returns (nodes: seq<Node>)
    ensures nodes == Flat(pages)
  {
    nodes := [];
    for at := 0 to |pages|
      invariant nodes == Flat(pages[..at])
    {
      assert pages[..at + 1][..at] == pages[..at];
      nodes := nodes + pages[at].edges;
    }
    assert pages[..|pages|] == pages;
  }
}
