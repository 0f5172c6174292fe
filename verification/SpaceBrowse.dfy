/**
 * Browsing the Nodes of a Space page by page (space.ts): the paged listing of one directory, the
 * recursive walk with its visited set, and what both give on a real tree.
 */
module SpaceBrowse {
  import opened Wrappers
  import opened Sequences

  /** The resource of a Node, as far as a filter looks at it. */
  datatype Content = Univer(unitType: string) | Blob

  datatype Node = Node(nodeId: string, resource: Option<Content>, hasChildren: bool)

  /** `metadata` stands for the breadcrumbs, roots and space that must not change between pages. */
  datatype Page = Page(nodes: seq<Node>, nextCursor: Option<string>, metadata: string)

  datatype Error = Refused | MetadataChanged | RepeatedCursor | RepeatedNode

  /** The server: its answer may depend on when it is asked. Nothing stands for a failed request. */
  type Server = (nat, Option<string>, Option<string>) -> Option<Page>

  datatype Filter = Filter(resourceKind: Option<string>, unitType: Option<string>)

  const UNIVER := "univer"
  const BLOB := "blob"
  const NO_RESOURCE := "none"

  function KindOf(content: Content): string {
    match content
    case Univer(_) => UNIVER
    case Blob => BLOB
  }

  predicate Matches(node: Node, filter: Filter) {
    if filter.resourceKind == Some(NO_RESOURCE) then node.resource.None? && filter.unitType.None?
    else if node.resource.None? then filter.resourceKind.None? && filter.unitType.None?
    else if filter.resourceKind.Some? && KindOf(node.resource.value) != filter.resourceKind.value
    then false
    else filter.unitType.None? || node.resource == Some(Univer(filter.unitType.value))
  }

  // ---------- One directory ----------

  /** The server has finitely many Node ids and cursors; its answers may change all the same. */
  ghost predicate Bounded(server: Server, ids: set<string>, cursors: set<string>) {
    forall time, parent, cursor | server(time, parent, cursor).Some? ::
      var page := server(time, parent, cursor).value;
      && (forall node | node in page.nodes :: node.nodeId in ids)
      && (page.nextCursor.Some? ==> page.nextCursor.value in cursors)
  }

  /** The Nodes listed from a cursor on, and when the next request may be sent. */
  ghost function Follow(server: Server, ids: set<string>, cursors: set<string>, time: nat,
                        parent: Option<string>, cursor: Option<string>, seen: set<string>,
                        metadata: Option<string>): (Result<seq<Node>, Error>, nat)
    requires Bounded(server, ids, cursors)
    decreases cursors - seen
  {
    match server(time, parent, cursor)
    case None => (Failure(Refused), time + 1)
    case Some(page) =>
      if metadata.Some? && metadata.value != page.metadata then (Failure(MetadataChanged), time + 1)
      else if page.nextCursor.None? then (Success(page.nodes), time + 1)
      else if page.nextCursor.value in seen then (Failure(RepeatedCursor), time + 1)
      else
        var (rest, end) := Follow(server, ids, cursors, time + 1, parent, page.nextCursor,
                                  seen + {page.nextCursor.value}, Some(page.metadata));
        (Prepend(page.nodes, rest), end)
  }

  function Prepend(nodes: seq<Node>, rest: Result<seq<Node>, Error>): Result<seq<Node>, Error> {
    if rest.Success? then Success(nodes + rest.value) else rest
  }

  /** Pages as they were answered one after the other, each under the cursor of the one before. */
  ghost predicate Chain(server: Server, time: nat, parent: Option<string>, cursor: Option<string>,
                        pages: seq<Page>)
    decreases |pages|
  {
    && pages != [] && server(time, parent, cursor) == Some(pages[0])
    && (|pages| == 1 <==> pages[0].nextCursor.None?)
    && (|pages| > 1 ==> Chain(server, time + 1, parent, pages[0].nextCursor, pages[1..]))
  }

  function NodesOf(pages: seq<Page>): seq<Node> {
    if pages == [] then [] else pages[0].nodes + NodesOf(pages[1..])
  }

  /** The cursors that lead from page to page differ, from each other and from those seen before. */
  predicate NewCursors(pages: seq<Page>, seen: set<string>)
    decreases |pages|
  {
    |pages| > 1 ==>
      && pages[0].nextCursor.Some? && pages[0].nextCursor.value !in seen
      && NewCursors(pages[1..], seen + {pages[0].nextCursor.value})
  }

  /** Whatever the server, a listing is all the pages of one chain, and these agree on the metadata. */
  lemma {:induction false} ListedPagesAgree(server: Server, ids: set<string>, cursors: set<string>,
                                            time: nat, parent: Option<string>, cursor: Option<string>,
                                            seen: set<string>, metadata: Option<string>)
    returns (pages: seq<Page>)
    requires Bounded(server, ids, cursors)
    requires Follow(server, ids, cursors, time, parent, cursor, seen, metadata).0.Success?
    ensures Chain(server, time, parent, cursor, pages) && NewCursors(pages, seen)
    ensures Follow(server, ids, cursors, time, parent, cursor, seen, metadata)
            == (Success(NodesOf(pages)), time + |pages|)
    ensures forall page | page in pages :: page.metadata == pages[0].metadata
    ensures metadata.Some? ==> metadata.value == pages[0].metadata
    decreases cursors - seen
  {
    var page := server(time, parent, cursor).value;
    if page.nextCursor.None? {
      pages := [page];
      assert pages[1..] == [] && page.nodes + NodesOf(pages[1..]) == page.nodes;
    } else {
      var rest := ListedPagesAgree(server, ids, cursors, time + 1, parent, page.nextCursor,
                                   seen + {page.nextCursor.value}, Some(page.metadata));
      pages := [page] + rest;
      assert pages[1..] == rest;
    }
  }

  lemma PrependTwice(a: seq<Node>, b: seq<Node>, rest: Result<seq<Node>, Error>)
    ensures Prepend(a, Prepend(b, rest)) == Prepend(a + b, rest)
  {
    if rest.Success? {
      assert a + (b + rest.value) == a + b + rest.value;
    }
  }

  // ---------- A real tree ----------

  datatype Tree = Tree(node: Node, children: seq<Tree>)

  function Roots(forest: seq<Tree>): (nodes: seq<Node>)
    ensures |nodes| == |forest|
    ensures forall i | 0 <= i < |forest| :: nodes[i] == forest[i].node
  {
    if forest == [] then [] else [forest[0].node] + Roots(forest[1..])
  }

  /** Every Node before those below it, and these before its next sibling. */
  function Preorder(forest: seq<Tree>): seq<Node> {
    if forest == [] then []
    else [forest[0].node] + Preorder(forest[0].children) + Preorder(forest[1..])
  }

  function Keep(nodes: seq<Node>, filter: Filter): seq<Node> {
    if nodes == [] then []
    else (if Matches(nodes[0], filter) then [nodes[0]] else []) + Keep(nodes[1..], filter)
  }

  lemma PrependNothing(rest: Result<seq<Node>, Error>)
    ensures Prepend([], rest) == rest
  {
    if rest.Success? {
      assert [] + rest.value == rest.value;
    }
  }

  /**
   * How a server lays out its answers: which page a cursor stands for, the position of its first
   * Node, and the metadata.
   */
  datatype Layout = Layout(page: (Option<string>, Option<string>) -> nat,
                           position: (Option<string>, Option<string>) -> nat,
                           metadata: Option<string> -> string)

  /** The page under a cursor, whatever its size, empty ones included: the next one is a later page. */
  predicate IsPageOf(page: Page, layout: Layout, parent: Option<string>, nodes: seq<Node>,
                     cursor: Option<string>) {
    var from := layout.position(parent, cursor);
    && from + |page.nodes| <= |nodes|
    && page.nodes == nodes[from..from + |page.nodes|]
    && page.metadata == layout.metadata(parent)
    && match page.nextCursor
       case None => from + |page.nodes| == |nodes|
       case Some(_) =>
         && layout.page(parent, page.nextCursor) > layout.page(parent, cursor)
         && layout.position(parent, page.nextCursor) == from + |page.nodes|
  }

  /** At any time the server lists `nodes` below `parent`, split into pages in any way. */
  ghost predicate Lists(server: Server, layout: Layout, parent: Option<string>, nodes: seq<Node>) {
    && layout.position(parent, None) == 0
    && forall time, cursor | layout.position(parent, cursor) <= |nodes| ::
         && server(time, parent, cursor).Some?
         && IsPageOf(server(time, parent, cursor).value, layout, parent, nodes, cursor)
  }

  /** The server serves the forest below `parent`. */
  ghost predicate Serves(server: Server, layout: Layout, parent: Option<string>, forest: seq<Tree>)
    decreases forest
  {
    && Lists(server, layout, parent, Roots(forest))
    && forall i | 0 <= i < |forest| ::
         if forest[i].node.hasChildren
         then Serves(server, layout, Some(forest[i].node.nodeId), forest[i].children)
         else forest[i].children == []
  }

  lemma PageAt(server: Server, layout: Layout, parent: Option<string>, nodes: seq<Node>, time: nat,
               cursor: Option<string>)
    requires Lists(server, layout, parent, nodes) && layout.position(parent, cursor) <= |nodes|
    ensures server(time, parent, cursor).Some?
    ensures IsPageOf(server(time, parent, cursor).value, layout, parent, nodes, cursor)
  {
    hide IsPageOf;
  }

  lemma FollowStep(server: Server, ids: set<string>, cursors: set<string>, time: nat,
                   parent: Option<string>, cursor: Option<string>, seen: set<string>,
                   metadata: Option<string>)
    requires Bounded(server, ids, cursors) && server(time, parent, cursor).Some?
    requires metadata.Some? ==> metadata.value == server(time, parent, cursor).value.metadata
    ensures
      var page := server(time, parent, cursor).value;
      Follow(server, ids, cursors, time, parent, cursor, seen, metadata).0
      == if page.nextCursor.None? then Success(page.nodes)
         else if page.nextCursor.value in seen then Failure(RepeatedCursor)
         else Prepend(page.nodes,
                      Follow(server, ids, cursors, time + 1, parent, page.nextCursor,
                             seen + {page.nextCursor.value}, Some(page.metadata)).0)
    ensures server(time, parent, cursor).value.nextCursor.Some? ==>
              server(time, parent, cursor).value.nextCursor.value in cursors
  {}

  /** The cursors behind this one stand for later pages, so none of them has been seen. */
  lemma {:induction false} FollowLists(server: Server, ids: set<string>, cursors: set<string>,
                                       time: nat, layout: Layout, parent: Option<string>,
                                       nodes: seq<Node>, cursor: Option<string>, seen: set<string>,
                                       metadata: Option<string>)
    requires Bounded(server, ids, cursors) && Lists(server, layout, parent, nodes)
    requires layout.position(parent, cursor) <= |nodes|
    requires metadata.Some? ==> metadata.value == layout.metadata(parent)
    requires forall c | c in seen :: layout.page(parent, Some(c)) <= layout.page(parent, cursor)
    ensures Follow(server, ids, cursors, time, parent, cursor, seen, metadata).0
            == Success(nodes[layout.position(parent, cursor)..])
    decreases cursors - seen
  {
    hide Bounded, Lists, Follow;
    PageAt(server, layout, parent, nodes, time, cursor);
    FollowStep(server, ids, cursors, time, parent, cursor, seen, metadata);
    var from := layout.position(parent, cursor);
    var page := server(time, parent, cursor).value;
    var next := page.nextCursor;
    if next.Some? {
      assert next.value !in seen;
      FollowLists(server, ids, cursors, time + 1, layout, parent, nodes, next, seen + {next.value},
                  Some(page.metadata));
      assert nodes[from..] == page.nodes + nodes[from + |page.nodes|..];
    } else {
      assert nodes[from..] == nodes[from..from + |page.nodes|];
    }
  }

  /** Whatever the page splits, a served directory is listed in full and in order. */
  lemma ListingIsRoots(server: Server, ids: set<string>, cursors: set<string>, time: nat,
                       layout: Layout, parent: Option<string>, forest: seq<Tree>)
    requires Bounded(server, ids, cursors) && Serves(server, layout, parent, forest)
    ensures Follow(server, ids, cursors, time, parent, None, {}, None).0 == Success(Roots(forest))
  {
    FollowLists(server, ids, cursors, time, layout, parent, Roots(forest), None, {}, None);
    assert Roots(forest)[0..] == Roots(forest);
  }

  // ---------- Distinct ids ----------

  predicate Distinct(nodes: seq<Node>) {
    forall i, j | 0 <= i < j < |nodes| :: nodes[i].nodeId != nodes[j].nodeId
  }

  function IdsOf(nodes: seq<Node>): set<string> {
    set node | node in nodes :: node.nodeId
  }

  /** What a walk shows before filtering. */
  function Shown(forest: seq<Tree>, recursive: bool): seq<Node> {
    if recursive then Preorder(forest) else Roots(forest)
  }

  lemma {:induction false} PreorderConcat(a: seq<Tree>, b: seq<Tree>)
    ensures Preorder(a + b) == Preorder(a) + Preorder(b)
    decreases |a|
  {
    if a == [] {
      assert a + b == b;
    } else {
      hide *;
      PreorderConcat(a[1..], b);
      PreorderStep(a);
      PreorderStep(a + b);
      FirstOfConcat(a, b);
      Associates([a[0].node] + Preorder(a[0].children), Preorder(a[1..]), Preorder(b));
    }
  }

  lemma PreorderStep(forest: seq<Tree>)
    requires forest != []
    ensures Preorder(forest) == [forest[0].node] + Preorder(forest[0].children) + Preorder(forest[1..])
  {
  }

  lemma {:induction false} RootsConcat(a: seq<Tree>, b: seq<Tree>)
    ensures Roots(a + b) == Roots(a) + Roots(b)
  {
    hide Roots;
    assert forall i | 0 <= i < |a + b| :: Roots(a + b)[i] == (Roots(a) + Roots(b))[i];
  }

  lemma {:induction false} KeepConcat(a: seq<Node>, b: seq<Node>, filter: Filter)
    ensures Keep(a + b, filter) == Keep(a, filter) + Keep(b, filter)
  {
    if a == [] {
      assert a + b == b;
    } else {
      hide *;
      KeepConcat(a[1..], b, filter);
      KeepStep(a, filter);
      KeepStep(a + b, filter);
      FirstOfConcat(a, b);
      Associates(if Matches(a[0], filter) then [a[0]] else [], Keep(a[1..], filter), Keep(b, filter));
    }
  }

  lemma KeepStep(nodes: seq<Node>, filter: Filter)
    requires nodes != []
    ensures Keep(nodes, filter)
            == (if Matches(nodes[0], filter) then [nodes[0]] else []) + Keep(nodes[1..], filter)
  {
  }

  lemma {:induction false} KeepKeepsIds(nodes: seq<Node>, filter: Filter)
    ensures forall node | node in Keep(nodes, filter) :: node in nodes && Matches(node, filter)
  {
    if nodes != [] {
      KeepKeepsIds(nodes[1..], filter);
      assert forall node | node in nodes[1..] :: node in nodes;
    }
  }

  /** The Nodes that a filter asks for, case by case; a kind that no resource has asks for none. */
  predicate Wanted(node: Node, filter: Filter) {
    match filter.unitType
    case Some(unitType) =>
      (filter.resourceKind == None || filter.resourceKind == Some("univer"))
      && node.resource == Some(Univer(unitType))
    case None =>
      match filter.resourceKind
      case None => true
      case Some(kind) =>
        match node.resource
        case None => kind == "none"
        case Some(Univer(_)) => kind == "univer"
        case Some(Blob) => kind == "blob"
  }

  lemma MatchesWanted(node: Node, filter: Filter)
    ensures Matches(node, filter) <==> Wanted(node, filter)
  {
    assert "univer" != "blob" && "univer" != "none" && "blob" != "none" by {
      assert "univer"[0] == 'u' && "blob"[0] == 'b' && "none"[0] == 'n';
    }
  }

  /** Where in the listing the Nodes that are asked for stand, from the first to the last. */
  predicate Picks(nodes: seq<Node>, filter: Filter, places: seq<nat>) {
    && (forall i | 0 <= i < |places| :: places[i] < |nodes| && Wanted(nodes[places[i]], filter))
    && (forall i, j | 0 <= i < j < |places| :: places[i] < places[j])
    && (forall k | 0 <= k < |nodes| && Wanted(nodes[k], filter) ::
          exists i :: 0 <= i < |places| && places[i] == k)
  }

  /** The Nodes at these places. */
  function At(nodes: seq<Node>, places: seq<nat>): (picked: seq<Node>)
    requires forall i | 0 <= i < |places| :: places[i] < |nodes|
    ensures |picked| == |places| && forall i | 0 <= i < |places| :: picked[i] == nodes[places[i]]
  {
    seq(|places|, i requires 0 <= i < |places| => nodes[places[i]])
  }

  /** Filtering keeps exactly the Nodes that are asked for, each as often as it is listed, in order. */
  lemma {:induction false} KeepsWanted(nodes: seq<Node>, filter: Filter) returns (places: seq<nat>)
    ensures Picks(nodes, filter, places) && Keep(nodes, filter) == At(nodes, places)
  {
    if nodes == [] {
      places := [];
    } else {
      hide Keep, Wanted, Matches;
      var last := |nodes| - 1;
      var before := KeepsWanted(nodes[..last], filter);
      KeepLast(nodes, filter);
      MatchesWanted(nodes[last], filter);
      places := if Matches(nodes[last], filter) then before + [last] else before;
      PicksNext(nodes, filter, before, places);
      hide Picks;
      assert At(nodes, places)
             == At(nodes[..last], before) + if Matches(nodes[last], filter) then [nodes[last]] else [];
    }
  }

  lemma KeptIsWanted(nodes: seq<Node>, filter: Filter, node: Node)
    ensures node in Keep(nodes, filter) <==> node in nodes && Wanted(node, filter)
  {
    var places := KeepsWanted(nodes, filter);
    hide Keep, Wanted;
    if node in nodes && Wanted(node, filter) {
      var k :| 0 <= k < |nodes| && nodes[k] == node;
      var i :| 0 <= i < |places| && places[i] == k;
      assert Keep(nodes, filter)[i] == node;
    }
    if i :| 0 <= i < |Keep(nodes, filter)| && Keep(nodes, filter)[i] == node {
      assert node == nodes[places[i]];
    }
  }

  lemma KeepLast(nodes: seq<Node>, filter: Filter)
    requires nodes != []
    ensures
      var last := |nodes| - 1;
      Keep(nodes, filter)
      == Keep(nodes[..last], filter) + if Matches(nodes[last], filter) then [nodes[last]] else []
  {
    hide Keep, Matches;
    var last := |nodes| - 1;
    assert nodes == nodes[..last] + [nodes[last]];
    KeepConcat(nodes[..last], [nodes[last]], filter);
    KeepOne(nodes[last], filter);
  }

  lemma PicksNext(nodes: seq<Node>, filter: Filter, before: seq<nat>, places: seq<nat>)
    requires nodes != [] && Picks(nodes[..|nodes| - 1], filter, before)
    requires places == if Wanted(nodes[|nodes| - 1], filter) then before + [|nodes| - 1] else before
    ensures Picks(nodes, filter, places)
  {
    hide Wanted;
    var last := |nodes| - 1;
    forall k | 0 <= k < |nodes| && Wanted(nodes[k], filter)
      ensures exists i :: 0 <= i < |places| && places[i] == k
    {
      if k < last {
        assert Wanted(nodes[..last][k], filter);
        var i :| 0 <= i < |before| && before[i] == k;
        assert places[i] == k;
      } else {
        assert places[|before|] == k;
      }
    }
  }

  lemma OneTree(tree: Tree)
    ensures Preorder([tree]) == [tree.node] + Preorder(tree.children)
  {
    assert [tree][1..] == [];
  }

  /** The tree at `i` between the trees before and behind it. */
  lemma ShownSplit(forest: seq<Tree>, i: nat, recursive: bool)
    requires i < |forest|
    ensures
      var below := if recursive then Preorder(forest[i].children) else [];
      && Shown(forest[..i + 1], recursive) == Shown(forest[..i], recursive) + [forest[i].node] + below
      && Shown(forest, recursive)
         == Shown(forest[..i], recursive) + [forest[i].node] + below + Shown(forest[i + 1..], recursive)
  {
    hide Preorder, Roots;
    assert forest[..i + 1] == forest[..i] + [forest[i]];
    assert forest == forest[..i + 1] + forest[i + 1..];
    if recursive {
      OneTree(forest[i]);
      PreorderConcat(forest[..i], [forest[i]]);
      PreorderConcat(forest[..i + 1], forest[i + 1..]);
    } else {
      assert Roots([forest[i]]) == [forest[i].node];
      RootsConcat(forest[..i], [forest[i]]);
      RootsConcat(forest[..i + 1], forest[i + 1..]);
    }
  }

  lemma DistinctParts(before: seq<Node>, node: Node, below: seq<Node>, behind: seq<Node>)
    requires Distinct(before + [node] + below + behind)
    ensures node.nodeId !in IdsOf(before)
    ensures Distinct(below) && IdsOf(below) !! IdsOf(before) && node.nodeId !in IdsOf(below)
  {
    DistinctHalves(before + [node] + below, behind);
    DistinctHalves(before + [node], below);
    DistinctHalves(before, [node]);
    IdsOfConcat(before, [node]);
    hide Distinct;
    assert node.nodeId in IdsOf([node]);
  }

  lemma DistinctHalves(a: seq<Node>, b: seq<Node>)
    requires Distinct(a + b)
    ensures Distinct(a) && Distinct(b) && IdsOf(a) !! IdsOf(b)
  {
    forall i, j | 0 <= i < j < |a| ensures a[i].nodeId != a[j].nodeId {
      assert (a + b)[i] == a[i] && (a + b)[j] == a[j];
    }
    forall i, j | 0 <= i < j < |b| ensures b[i].nodeId != b[j].nodeId {
      assert (a + b)[|a| + i] == b[i] && (a + b)[|a| + j] == b[j];
    }
    forall i, j | 0 <= i < |a| && 0 <= j < |b| ensures a[i].nodeId != b[j].nodeId {
      assert (a + b)[i] == a[i] && (a + b)[|a| + j] == b[j];
    }
  }

  lemma IdsOfConcat(a: seq<Node>, b: seq<Node>)
    ensures IdsOf(a + b) == IdsOf(a) + IdsOf(b)
  {
  }

  /** The walk of a forest with distinct ids meets no Node twice. */
  predicate Fresh(forest: seq<Tree>, recursive: bool, visited: set<string>) {
    Distinct(Shown(forest, recursive)) && IdsOf(Shown(forest, recursive)) !! visited
  }

  lemma NextIsFresh(forest: seq<Tree>, i: nat, recursive: bool, visited: set<string>)
    requires i < |forest| && Fresh(forest, recursive, visited)
    ensures
      var now := visited + IdsOf(Shown(forest[..i], recursive));
      && forest[i].node.nodeId !in now
      && (recursive ==> Fresh(forest[i].children, true, now + {forest[i].node.nodeId}))
  {
    ShownSplit(forest, i, recursive);
    var before := Shown(forest[..i], recursive);
    var below := if recursive then Preorder(forest[i].children) else [];
    var behind := Shown(forest[i + 1..], recursive);
    DistinctParts(before, forest[i].node, below, behind);
    IdsOfConcat(before + [forest[i].node] + below, behind);
    IdsOfConcat(before + [forest[i].node], below);
    IdsOfConcat(before, [forest[i].node]);
    hide Shown, Distinct;
    assert forest[i].node.nodeId in IdsOf([forest[i].node]);
  }

  /** One more tree, none of whose Nodes has been met, keeps the walk fresh. */
  lemma StaysFresh(forest: seq<Tree>, i: nat, recursive: bool, visited: set<string>)
    requires i < |forest| && Fresh(forest[..i], recursive, visited)
    requires
      var now := visited + IdsOf(Shown(forest[..i], recursive));
      && forest[i].node.nodeId !in now
      && (recursive ==> Fresh(forest[i].children, true, now + {forest[i].node.nodeId}))
    ensures Fresh(forest[..i + 1], recursive, visited)
    ensures
      IdsOf(Shown(forest[..i + 1], recursive))
      == IdsOf(Shown(forest[..i], recursive)) + {forest[i].node.nodeId}
         + (if recursive then IdsOf(Preorder(forest[i].children)) else {})
  {
    ShownSplit(forest, i, recursive);
    var before := Shown(forest[..i], recursive);
    var below := if recursive then Preorder(forest[i].children) else [];
    assert Distinct(below) && (recursive ==> Shown(forest[i].children, true) == below);
    hide Preorder, Roots, Shown, Distinct;
    OneId(forest[i].node);
    IdsOfConcat(before, [forest[i].node]);
    IdsOfConcat(before + [forest[i].node], below);
    hide IdsOf;
    DistinctJoin(before, [forest[i].node]);
    DistinctJoin(before + [forest[i].node], below);
  }

  lemma OneId(node: Node)
    ensures IdsOf([node]) == {node.nodeId} && Distinct([node]) && IdsOf([]) == {}
  {
  }

  lemma DistinctJoin(a: seq<Node>, b: seq<Node>)
    requires Distinct(a) && Distinct(b) && IdsOf(a) !! IdsOf(b)
    ensures Distinct(a + b)
  {
    forall i, j | 0 <= i < j < |a + b| ensures (a + b)[i].nodeId != (a + b)[j].nodeId {
      assert i < |a| ==> a[i].nodeId in IdsOf(a);
      assert j >= |a| ==> b[j - |a|].nodeId in IdsOf(b);
    }
  }

  lemma KeepNext(forest: seq<Tree>, i: nat, recursive: bool, filter: Filter)
    requires i < |forest|
    ensures
      Keep(Shown(forest[..i + 1], recursive), filter)
      == Keep(Shown(forest[..i], recursive), filter)
         + (if Matches(forest[i].node, filter) then [forest[i].node] else [])
         + (if recursive then Keep(Preorder(forest[i].children), filter) else [])
  {
    hide Preorder, Roots, Matches, Shown, Keep;
    ShownSplit(forest, i, recursive);
    var before := Shown(forest[..i], recursive);
    var below := if recursive then Preorder(forest[i].children) else [];
    KeepConcat(before + [forest[i].node], below, filter);
    KeepConcat(before, [forest[i].node], filter);
    KeepOne(forest[i].node, filter);
  }

  lemma KeepOne(node: Node, filter: Filter)
    ensures Keep([node], filter) == if Matches(node, filter) then [node] else []
    ensures Keep([], filter) == []
  {
    hide Matches;
    assert [node][1..] == [];
  }

  /** What a walk gives on a server that serves the forest. */
  function Expected(forest: seq<Tree>, recursive: bool, visited: set<string>, filter: Filter):
    Result<seq<Node>, Error>
  {
    if Fresh(forest, recursive, visited) then Success(Keep(Shown(forest, recursive), filter))
    else Failure(RepeatedNode)
  }

  /** Nodes found by a walk: pairwise distinct, matching, and met for the first time. */
  ghost predicate Collected(nodes: seq<Node>, filter: Filter, met: set<string>) {
    && Distinct(nodes) && IdsOf(nodes) <= met
    && forall node | node in nodes :: Matches(node, filter)
  }

  /** The walk of a served forest before its tree `i`. */
  ghost predicate Met(forest: seq<Tree>, i: nat, recursive: bool, filter: Filter, first: set<string>,
                      visited: set<string>, discovered: seq<Node>) {
    && i <= |forest|
    && Fresh(forest[..i], recursive, first)
    && visited == first + IdsOf(Shown(forest[..i], recursive))
    && discovered == Keep(Shown(forest[..i], recursive), filter)
  }

  // ---------- The walk ----------

  class Browser {
    const server: Server
    const spaceFilter: Filter
    const recursive: bool
    var requests: nat
    var visited: set<string>

    constructor (server: Server, filter: Filter, recursive: bool)
      ensures this.server == server && spaceFilter == filter && this.recursive == recursive
      ensures requests == 0 && visited == {}
    {
      this.server, spaceFilter, this.recursive := server, filter, recursive;
      requests, visited := 0, {};
    }

    /** `listDirectory` */
    method ListDirectory(parent: Option<string>, ghost ids: set<string>, ghost cursors: set<string>)
      returns (listed: Result<seq<Node>, Error>)
      requires Bounded(server, ids, cursors)
      modifies this`requests
      ensures (listed, requests)
              == Follow(server, ids, cursors, old(requests), parent, None, {}, None)
      ensures listed.Success? ==> forall node | node in listed.value :: node.nodeId in ids
    {
      var nodes: seq<Node> := [];
      var seen: set<string> := {};
      var cursor: Option<string> := None;
      var metadata: Option<string> := None;
      var more := true;
      ghost var whole := Follow(server, ids, cursors, requests, parent, None, {}, None);
      PrependNothing(whole.0);
      while more
        invariant more ==>
          var (rest, end) := Follow(server, ids, cursors, requests, parent, cursor, seen, metadata);
          whole == (Prepend(nodes, rest), end)
        invariant !more ==> whole == (Success(nodes), requests)
        invariant forall node | node in nodes :: node.nodeId in ids
        decreases more, cursors - seen
      {
        var answer := server(requests, parent, cursor);
        requests := requests + 1;
        if answer.None? {
          return Failure(Refused);
        }
        var page := answer.value;
        if metadata.Some? && metadata.value != page.metadata {
          return Failure(MetadataChanged);
        }
        metadata := Some(page.metadata);
        if page.nextCursor.Some? && page.nextCursor.value !in seen {
          var (rest, _) := Follow(server, ids, cursors, requests, parent, page.nextCursor,
                                  seen + {page.nextCursor.value}, metadata);
          PrependTwice(nodes, page.nodes, rest);
        }
        nodes := nodes + page.nodes;
        cursor := page.nextCursor;
        if cursor.Some? && cursor.value in seen {
          return Failure(RepeatedCursor);
        }
        if cursor.Some? {
          seen := seen + {cursor.value};
        } else {
          more := false;
        }
      }
      return Success(nodes);
    }

    /** The recursive `visit`; `forest` is what a server may serve below `parent`. */
    method Visit(parent: Option<string>, ghost ids: set<string>, ghost cursors: set<string>,
                 ghost layout: Layout, ghost forest: seq<Tree>)
      returns (found: Result<seq<Node>, Error>)
      requires Bounded(server, ids, cursors)
      modifies this`requests, this`visited
      ensures old(visited) <= visited
      ensures found.Success? ==> Collected(found.value, spaceFilter, visited - old(visited))
      ensures Serves(server, layout, parent, forest) ==>
                && found == Expected(forest, recursive, old(visited), spaceFilter)
                && (found.Success? ==> visited == old(visited) + IdsOf(Shown(forest, recursive)))
      decreases ids - visited
    {
      hide *;
      ghost var first := visited;
      ghost var serves := Serves(server, layout, parent, forest);
      if serves {
        ListingIsRoots(server, ids, cursors, requests, layout, parent, forest);
      }
      var listed := ListDirectory(parent, ids, cursors);
      if listed.Failure? {
        return Failure(listed.error);
      }
      var nodes := listed.value;
      var discovered: seq<Node> := [];
      var i := 0;
      NothingCollected(spaceFilter, first);
      if serves {
        StartsMet(forest, recursive, spaceFilter, first);
      }
      while i < |nodes|
        invariant i <= |nodes| && first <= visited
        invariant Collected(discovered, spaceFilter, visited - first)
        invariant serves ==> nodes == Roots(forest) && i <= |forest|
        invariant serves ==> Met(forest, i, recursive, spaceFilter, first, visited, discovered)
      {
        var node := nodes[i];
        ghost var now := visited;
        ghost var kept := discovered;
        assert node.nodeId in ids;
        if node.nodeId in visited {
          if serves {
            MetAgain(forest, i, recursive, spaceFilter, first, visited, discovered);
          }
          return Failure(RepeatedNode);
        }
        visited := visited + {node.nodeId};
        if Matches(node, spaceFilter) {
          discovered := discovered + [node];
        }
        CollectOne(kept, node, spaceFilter, now - first);
        assert now - first + {node.nodeId} == visited - first;
        ghost var below: seq<Node> := [];
        assert discovered + below == discovered;
        if recursive && node.hasChildren {
          ghost var children := [];
          if serves {
            ChildIsServed(server, layout, parent, forest, i);
            children := forest[i].children;
          }
          ghost var before := visited;
          var under := Visit(Some(node.nodeId), ids, cursors, layout, children);
          ExpectedBelow(children, before, spaceFilter);
          if under.Failure? {
            if serves {
              BelowMetAgain(forest, i, recursive, spaceFilter, first, now, kept);
            }
            return under;
          }
          below := under.value;
          assert visited - before == visited - first - (before - first);
          CollectAll(discovered, under.value, spaceFilter, before - first, visited - first);
          discovered := discovered + under.value;
        }
        if serves {
          ChildIsServed(server, layout, parent, forest, i);
          MetNext(forest, i, recursive, spaceFilter, first, now, kept, visited, below);
        }
        i := i + 1;
      }
      if serves {
        MetAll(forest, recursive, spaceFilter, first, visited, discovered);
      }
      return Success(discovered);
    }

    /** `browse` */
    method Browse(parent: Option<string>, ghost ids: set<string>, ghost cursors: set<string>,
                  ghost layout: Layout, ghost forest: seq<Tree>)
      returns (found: Result<seq<Node>, Error>)
      requires Bounded(server, ids, cursors)
      modifies this`requests, this`visited
      ensures found.Success? ==>
                && Distinct(found.value)
                && (parent.Some? ==> parent.value !in IdsOf(found.value))
                && forall node | node in found.value :: Wanted(node, spaceFilter)
      ensures Serves(server, layout, parent, forest) ==>
                found == Expected(forest, recursive,
                                  if parent.Some? then {parent.value} else {}, spaceFilter)
      ensures Serves(server, layout, parent, forest) && found.Success? ==>
                forall node :: node in found.value
                               <==> node in Shown(forest, recursive) && Wanted(node, spaceFilter)
    {
      hide Matches, Wanted, Serves, Shown, Keep, Fresh, Follow, Bounded;
      forall node
        ensures Matches(node, spaceFilter) <==> Wanted(node, spaceFilter)
        ensures node in Keep(Shown(forest, recursive), spaceFilter)
                <==> node in Shown(forest, recursive) && Wanted(node, spaceFilter)
      {
        MatchesWanted(node, spaceFilter);
        KeptIsWanted(Shown(forest, recursive), spaceFilter, node);
      }
      visited := if parent.Some? then {parent.value} else {};
      found := Visit(parent, ids, cursors, layout, forest);
    }
  }

  // ---------- The steps of the walk ----------

  lemma NothingCollected(filter: Filter, visited: set<string>)
    ensures Collected([], filter, visited - visited)
  {
  }

  lemma CollectOne(nodes: seq<Node>, node: Node, filter: Filter, known: set<string>)
    requires Collected(nodes, filter, known) && node.nodeId !in known
    ensures Collected(if Matches(node, filter) then nodes + [node] else nodes, filter,
                      known + {node.nodeId})
  {
    assert IdsOf([node]) == {node.nodeId};
    IdsOfConcat(nodes, [node]);
    DistinctJoin(nodes, [node]);
    hide Matches;
  }

  lemma CollectAll(nodes: seq<Node>, more: seq<Node>, filter: Filter, known: set<string>,
                   now: set<string>)
    requires Collected(nodes, filter, known) && Collected(more, filter, now - known) && known <= now
    ensures Collected(nodes + more, filter, now)
  {
    IdsOfConcat(nodes, more);
    DistinctJoin(nodes, more);
    hide Matches;
  }

  lemma StartsMet(forest: seq<Tree>, recursive: bool, filter: Filter, first: set<string>)
    ensures Met(forest, 0, recursive, filter, first, first, [])
  {
  }

  /** A Node that was met before is one too many: the forest is not fresh. */
  lemma MetAgain(forest: seq<Tree>, i: nat, recursive: bool, filter: Filter, first: set<string>,
                 visited: set<string>, discovered: seq<Node>)
    requires i < |forest| && Met(forest, i, recursive, filter, first, visited, discovered)
    requires forest[i].node.nodeId in visited
    ensures Expected(forest, recursive, first, filter) == Failure(RepeatedNode)
  {
    if Fresh(forest, recursive, first) {
      NextIsFresh(forest, i, recursive, first);
    }
    hide Fresh, Shown, Keep;
  }

  lemma BelowMetAgain(forest: seq<Tree>, i: nat, recursive: bool, filter: Filter, first: set<string>,
                      visited: set<string>, discovered: seq<Node>)
    requires i < |forest| && Met(forest, i, recursive, filter, first, visited, discovered)
    requires recursive && !Fresh(forest[i].children, true, visited + {forest[i].node.nodeId})
    ensures Expected(forest, recursive, first, filter) == Failure(RepeatedNode)
  {
    if Fresh(forest, recursive, first) {
      NextIsFresh(forest, i, recursive, first);
    }
    hide Fresh, Shown, Keep;
  }

  lemma ChildIsServed(server: Server, layout: Layout, parent: Option<string>, forest: seq<Tree>, i: nat)
    requires Serves(server, layout, parent, forest) && i < |forest|
    ensures forest[i].node.hasChildren ==>
              Serves(server, layout, Some(forest[i].node.nodeId), forest[i].children)
    ensures !forest[i].node.hasChildren ==> forest[i].children == []
    ensures Roots(forest)[i] == forest[i].node && |Roots(forest)| == |forest|
  {
    hide Lists;
  }

  lemma MetNext(forest: seq<Tree>, i: nat, recursive: bool, filter: Filter, first: set<string>,
                now: set<string>, kept: seq<Node>, visited: set<string>, below: seq<Node>)
    requires i < |forest| && Met(forest, i, recursive, filter, first, now, kept)
    requires forest[i].node.nodeId !in now
    requires
      var children := forest[i].children;
      if recursive && forest[i].node.hasChildren then
        && Fresh(children, true, now + {forest[i].node.nodeId})
        && below == Keep(Preorder(children), filter)
        && visited == now + {forest[i].node.nodeId} + IdsOf(Preorder(children))
      else
        && below == [] && visited == now + {forest[i].node.nodeId}
        && (!forest[i].node.hasChildren ==> children == [])
    ensures
      var discovered := (if Matches(forest[i].node, filter) then kept + [forest[i].node] else kept);
      Met(forest, i + 1, recursive, filter, first, visited, discovered + below)
  {
    hide Fresh, Shown, Keep, Matches, Preorder, IdsOf;
    NoChildren(forest[i].children, now + {forest[i].node.nodeId}, filter);
    StaysFresh(forest, i, recursive, first);
    KeepNext(forest, i, recursive, filter);
  }

  lemma ExpectedBelow(children: seq<Tree>, visited: set<string>, filter: Filter)
    ensures Expected(children, true, visited, filter)
            == if Fresh(children, true, visited) then Success(Keep(Preorder(children), filter))
               else Failure(RepeatedNode)
    ensures Shown(children, true) == Preorder(children)
  {
    hide Fresh, Keep, Preorder;
  }

  lemma MetAll(forest: seq<Tree>, recursive: bool, filter: Filter, first: set<string>,
               visited: set<string>, discovered: seq<Node>)
    requires Met(forest, |forest|, recursive, filter, first, visited, discovered)
    ensures Expected(forest, recursive, first, filter) == Success(discovered)
    ensures visited == first + IdsOf(Shown(forest, recursive))
  {
    assert forest[..|forest|] == forest;
    hide Fresh, Shown, Keep;
  }

  lemma NoChildren(children: seq<Tree>, visited: set<string>, filter: Filter)
    ensures children == [] ==>
              && Fresh(children, true, visited)
              && Preorder(children) == [] && IdsOf(Preorder(children)) == {}
              && Keep(Preorder(children), filter) == []
  {
  }
}
