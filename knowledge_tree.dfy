/**
 * The client's in-memory mirror of the graph: the `nodes` and `edges` lists
 * the canvas renders, and how each handler changes them once its server call
 * has succeeded or failed. A handler that calls the server takes the call's
 * outcome as a parameter and returns the request it sends, so the model also
 * states what reaches the server (except `LoadData`, whose two GET requests
 * carry no body). The outcome is the reply, or `None` when the
 * call failed, where the handler uses the reply, and a `bool` where it only
 * needs to know whether the call succeeded. Opening the edit or delete dialog
 * makes no call.
 */
module KnowledgeTree {
  import opened Wrappers
  import opened NoteSchema
  import opened NoteRoutes

  /** The `data` of a canvas node; `kind` is the node's data type ("subtopic"). */
  datatype NodeData = NodeData(
    labelText: string,
    description: string,
    color: string,
    tag: string,
    imageUrl: string,
    kind: string)

  datatype FlowNode = FlowNode(id: string, nodeType: string, position: Position, data: NodeData)

  datatype FlowEdge = FlowEdge(
    id: string,
    source: string,
    target: string,
    style: Style,
    edgeType: string,
    animated: bool)

  /** A position object as received; a coordinate that is not a number is `None`. */
  datatype RawPosition = RawPosition(x: Option<int>, y: Option<int>)

  /** A note as the API returns it. */
  datatype WireNote = WireNote(
    id: string,
    name: string,
    content: string,
    color: string,
    tag: string,
    imageUrl: string,
    position: Option<RawPosition>)

  /** What the add and edit forms submit. */
  datatype NoteForm = NoteForm(name: string, content: string, color: string, tag: string, imageUrl: Option<string>)

  const SubNodeType: string := "sub"
  const SubtopicKind: string := "subtopic"
  const LoadFailed: string := "Failed to load notes and connections"
  const AddFailed: string := "Failed to add note"
  const UpdateFailed: string := "Failed to update note"
  const DeleteFailed: string := "Failed to delete note"
  const PositionUpdateFailed: string := "Position update failed"
  const EdgeDeleteFailed: string := "Delete failed"

  /** The place of a note that has none: a column at x = 400, one row of 60 per note before it. */
  function DefaultPosition(count: nat): (p: Position)
    ensures p.x == 400 && p.y >= 350
    ensures p.y - 350 == 60 * count
  {
    Position(400, 350 + count * 60)
  }

  /** Default positions share one column and are spaced at least one row apart. */
  lemma DefaultPositionsStack(i: nat, j: nat)
    requires i < j
    ensures DefaultPosition(i).x == DefaultPosition(j).x
    ensures DefaultPosition(j).y >= DefaultPosition(i).y + 60
  {
  }

  /** The position object when both of its coordinates are numbers. */
  function NumericPosition(p: Option<RawPosition>): (r: Option<Position>)
    ensures r.Some? <==> p.Some? && p.value.x.Some? && p.value.y.Some?
    ensures r.Some? ==> r.value == Position(p.value.x.value, p.value.y.value)
  {
    if p.Some? && p.value.x.Some? && p.value.y.Some? then Some(Position(p.value.x.value, p.value.y.value))
    else None
  }

  /** The canvas node for a note at `pos`: a "sub" node whose data copies the note's fields. */
  function NodeOf(note: WireNote, pos: Position): (n: FlowNode)
    ensures n.id == note.id && n.position == pos && n.nodeType == SubNodeType
    ensures n.data == NodeData(note.name, note.content, note.color, note.tag, note.imageUrl, SubtopicKind)
  {
    FlowNode(note.id, SubNodeType, pos,
      NodeData(note.name, note.content, note.color, note.tag, note.imageUrl, SubtopicKind))
  }

  /** The canvas edge for an edge as received: its six rendered fields, the label dropped. */
  function FlowEdgeOf(w: WireEdge): (e: FlowEdge)
    ensures e.id == w.id && e.source == w.source && e.target == w.target
    ensures e.style == w.style && e.edgeType == w.edgeType && e.animated == w.animated
  {
    FlowEdge(w.id, w.source, w.target, w.style, w.edgeType, w.animated)
  }

  /** The initial load of notes: one node per note, in order, with the fallback layout by index. */
  function LoadNodes(notes: seq<WireNote>): (r: seq<FlowNode>)
    ensures |r| == |notes|
    ensures forall i | 0 <= i < |notes| ::
      && r[i].id == notes[i].id && r[i].nodeType == SubNodeType
      && r[i].data == NodeData(notes[i].name, notes[i].content, notes[i].color, notes[i].tag, notes[i].imageUrl, SubtopicKind)
    ensures forall i | 0 <= i < |notes| && NumericPosition(notes[i].position).Some? ::
      r[i].position == NumericPosition(notes[i].position).value
    ensures forall i | 0 <= i < |notes| && NumericPosition(notes[i].position).None? ::
      r[i].position == DefaultPosition(i)
  {
    seq(|notes|, i requires 0 <= i < |notes| =>
      NodeOf(notes[i], NumericPosition(notes[i].position).GetOr(DefaultPosition(i))))
  }

  /** No two notes placed by the fallback layout land on the same point. */
  lemma FallbackPositionsDistinct(notes: seq<WireNote>, i: nat, j: nat)
    requires i < j < |notes|
    requires NumericPosition(notes[i].position).None? && NumericPosition(notes[j].position).None?
    ensures LoadNodes(notes)[i].position != LoadNodes(notes)[j].position
  {
  }

  /** The initial load of edges: one canvas edge per wire edge, in order, `label` not carried over. */
  function LoadEdges(edges: seq<WireEdge>): (r: seq<FlowEdge>)
    ensures |r| == |edges|
    ensures forall i | 0 <= i < |edges| ::
      && r[i].id == edges[i].id && r[i].source == edges[i].source && r[i].target == edges[i].target
      && r[i].style == edges[i].style && r[i].edgeType == edges[i].edgeType && r[i].animated == edges[i].animated
  {
    seq(|edges|, i requires 0 <= i < |edges| => FlowEdgeOf(edges[i]))
  }

  function NodeIds(nodes: seq<FlowNode>): set<string> {
    set n | n in nodes :: n.id
  }

  /** Every canvas edge joins two nodes on the canvas. */
  ghost predicate NoDangling(nodes: seq<FlowNode>, edges: seq<FlowEdge>) {
    forall e | e in edges :: e.source in NodeIds(nodes) && e.target in NodeIds(nodes)
  }

  /** Loading a listing whose edges join listed notes gives a canvas without dangling edges. */
  lemma LoadKeepsEndpoints(notes: seq<WireNote>, edges: seq<WireEdge>)
    requires forall e | e in edges :: e.source in (set n | n in notes :: n.id) && e.target in (set n | n in notes :: n.id)
    ensures NoDangling(LoadNodes(notes), LoadEdges(edges))
  {
  }

  /** The elements of `s` that `keep` accepts, in their original order (Array.prototype.filter). */
  function Filter<T>(s: seq<T>, keep: T -> bool): (r: seq<T>)
    ensures forall i | 0 <= i < |r| :: r[i] in s && keep(r[i])
    ensures forall i | 0 <= i < |s| && keep(s[i]) :: s[i] in r
    ensures |r| <= |s|
    ensures (forall i | 0 <= i < |s| :: keep(s[i])) ==> r == s
  {
    if s == [] then []
    else (if keep(s[0]) then [s[0]] else []) + Filter(s[1..], keep)
  }

  /** The nodes after deleting note `id`. */
  function RemoveNode(nodes: seq<FlowNode>, id: string): (r: seq<FlowNode>)
    ensures forall n :: n in r <==> n in nodes && n.id != id
    ensures id !in NodeIds(r)
  {
    Filter(nodes, (n: FlowNode) => n.id != id)
  }

  /** Filtering a concatenation filters each part and keeps the parts in order. */
  lemma {:induction false} FilterAppend<T>(a: seq<T>, b: seq<T>, keep: T -> bool)
    ensures Filter(a + b, keep) == Filter(a, keep) + Filter(b, keep)
  {
    if a == [] {
      assert a + b == b;
    } else {
      assert (a + b)[0] == a[0];
      assert (a + b)[1..] == a[1..] + b;
      FilterAppend(a[1..], b, keep);
    }
  }

  /** A single element is kept exactly when it is accepted. */
  lemma FilterSingleton<T>(x: T, keep: T -> bool)
    ensures Filter([x], keep) == if keep(x) then [x] else []
  {
    assert [x][1..] == [];
  }

  /** A filter keeps every accepted element as many times as it occurs, and drops every other. */
  lemma {:induction false} FilterCounts<T>(s: seq<T>, keep: T -> bool, x: T)
    ensures multiset(Filter(s, keep))[x] == if keep(x) then multiset(s)[x] else 0
  {
    if s != [] {
      assert s == [s[0]] + s[1..];
      FilterCounts(s[1..], keep, x);
    }
  }

  /** Deleting a node keeps the other nodes in their order: the removal works piecewise on the list. */
  lemma RemoveNodeKeepsOrder(a: seq<FlowNode>, b: seq<FlowNode>, id: string)
    ensures RemoveNode(a + b, id) == RemoveNode(a, id) + RemoveNode(b, id)
  {
    FilterAppend(a, b, (n: FlowNode) => n.id != id);
  }

  /** The edges after deleting note `id`: those with `id` at neither end. */
  function RemoveIncident(edges: seq<FlowEdge>, id: string): (r: seq<FlowEdge>)
    ensures forall e :: e in r <==> e in edges && e.source != id && e.target != id
  {
    Filter(edges, (e: FlowEdge) => e.source != id && e.target != id)
  }

  /** Deleting a node keeps the surviving edges in their order: the removal works piecewise on the list. */
  lemma RemoveIncidentKeepsOrder(a: seq<FlowEdge>, b: seq<FlowEdge>, id: string)
    ensures RemoveIncident(a + b, id) == RemoveIncident(a, id) + RemoveIncident(b, id)
  {
    FilterAppend(a, b, (e: FlowEdge) => e.source != id && e.target != id);
  }

  /** The local cascade keeps the canvas free of dangling edges. */
  lemma DeleteKeepsNoDangling(nodes: seq<FlowNode>, edges: seq<FlowEdge>, id: string)
    requires NoDangling(nodes, edges)
    ensures NoDangling(RemoveNode(nodes, id), RemoveIncident(edges, id))
  {
  }

  /** Deleting only the node would leave every edge that touched it dangling. */
  lemma NodeOnlyDeleteDangles(nodes: seq<FlowNode>, edges: seq<FlowEdge>, id: string, e: FlowEdge)
    requires e in edges && (e.source == id || e.target == id)
    ensures !NoDangling(RemoveNode(nodes, id), edges)
  {
  }

  /** The nodes after a successful edit of node `id` with the server's reply. */
  function MergeEdit(nodes: seq<FlowNode>, id: string, note: WireNote): (r: seq<FlowNode>)
    ensures |r| == |nodes|
    ensures forall i | 0 <= i < |nodes| ::
      r[i].id == nodes[i].id && r[i].nodeType == nodes[i].nodeType && r[i].position == nodes[i].position
    ensures forall i | 0 <= i < |nodes| && nodes[i].id != id :: r[i] == nodes[i]
    ensures forall i | 0 <= i < |nodes| && nodes[i].id == id ::
      r[i].data == NodeData(note.name, note.content, note.color, note.tag, note.imageUrl, nodes[i].data.kind)
  {
    seq(|nodes|, i requires 0 <= i < |nodes| =>
      if nodes[i].id == id then
        nodes[i].(data := nodes[i].data.(
          labelText := note.name, description := note.content, color := note.color,
          tag := note.tag, imageUrl := note.imageUrl))
      else nodes[i])
  }

  /** Editing never changes which nodes are on the canvas, so no edge starts dangling. */
  lemma EditKeepsNoDangling(nodes: seq<FlowNode>, edges: seq<FlowEdge>, id: string, note: WireNote)
    requires NoDangling(nodes, edges)
    ensures NodeIds(MergeEdit(nodes, id, note)) == NodeIds(nodes)
    ensures NoDangling(MergeEdit(nodes, id, note), edges)
  {
  }

  /** The first node with that id (Array.prototype.find). */
  function FindNode(nodes: seq<FlowNode>, id: string): (r: Option<FlowNode>)
    ensures r.None? <==> id !in NodeIds(nodes)
    ensures r.Some? ==> r.value in nodes && r.value.id == id
    ensures r.Some? ==> r.value == nodes[FirstIndexOf(nodes, id)]
  {
    if nodes == [] then None
    else if nodes[0].id == id then Some(nodes[0])
    else FindNode(nodes[1..], id)
  }

  function FirstIndexOf(nodes: seq<FlowNode>, id: string): (i: nat)
    requires id in NodeIds(nodes)
    ensures i < |nodes| && nodes[i].id == id
    ensures forall j | 0 <= j < i :: nodes[j].id != id
  {
    if nodes[0].id == id then 0
    else
      assert id in NodeIds(nodes[1..]) by {
        var n :| n in nodes && n.id == id;
        assert n in nodes[1..];
      }
      1 + FirstIndexOf(nodes[1..], id)
  }

  /** The request body the connect gesture sends: the two ends and the default look. */
  function ConnectRequest(source: string, target: string): (r: EdgeRequest)
    ensures r.source == Some(source) && r.target == Some(target)
    ensures r.style == Some(StyleInput(Some(DefaultStroke), Some(DefaultStrokeWidth)))
    ensures r.edgeType == Some(DefaultEdgeType) && r.animated == Some(false) && r.edgeLabel == Some("")
  {
    EdgeRequest(Some(source), Some(target),
      Some(StyleInput(Some(DefaultStroke), Some(DefaultStrokeWidth))),
      Some(DefaultEdgeType), Some(false), Some(""))
  }

  /**
   * The styling a connect sends spells out the server's own defaults: the
   * stored edge is the one a bare `{source, target}` request would create.
   */
  lemma ConnectSendsServerDefaults(source: string, target: string, now: int)
    requires source != "" && target != ""
    ensures EdgeFromRequest(ConnectRequest(source, target), now)
         == EdgeFromRequest(EdgeRequest(Some(source), Some(target), None, None, None, None), now)
  {
  }

  /** Edges listed by the server load onto the canvas one-to-one and in order, with their keys as ids. */
  lemma LoadListedEdges(es: seq<Edge>)
    ensures |LoadEdges(FormatEdges(es))| == |es|
    ensures forall i | 0 <= i < |es| ::
      LoadEdges(FormatEdges(es))[i] == FlowEdge(es[i].edgeId, es[i].source, es[i].target, es[i].style, es[i].edgeType, es[i].animated)
  {
  }

  /** The request body a drag sends: the position and no other field. */
  function DragPatch(position: Position): (p: NotePatch)
    ensures p.name.None? && p.content.None? && p.color.None? && p.tag.None? && p.imageUrl.None?
    ensures p.position == Some(position)
  {
    NotePatch(None, None, None, None, None, Some(position))
  }

  class KnowledgeTree {
    var nodes: seq<FlowNode>
    var edges: seq<FlowEdge>
    var editingNode: Option<FlowNode>
    var deletingNode: Option<FlowNode>
    var loading: bool
    var error: Option<string>
    var addNoteOpen: bool
    var editNoteOpen: bool
    var deleteDialogOpen: bool

    constructor ()
      ensures nodes == [] && edges == []
      ensures editingNode.None? && deletingNode.None?
      ensures !loading && error.None?
      ensures !addNoteOpen && !editNoteOpen && !deleteDialogOpen
    {
      nodes, edges := [], [];
      editingNode, deletingNode := None, None;
      loading, error := false, None;
      addNoteOpen, editNoteOpen, deleteDialogOpen := false, false, false;
    }

    /** loadData: replace both lists with the transformed listings, or record the failure. */
    method LoadData(reply: Option<(seq<WireNote>, seq<WireEdge>)>)
      modifies this`nodes, this`edges, this`loading, this`error
      ensures !loading
      ensures reply.Some? ==> nodes == LoadNodes(reply.value.0) && edges == LoadEdges(reply.value.1) && error.None?
      ensures reply.None? ==> nodes == old(nodes) && edges == old(edges) && error == Some(LoadFailed)
    {
      loading := true;
      error := None;
      if reply.Some? {
        var (notes, wireEdges) := reply.value;
        nodes := LoadNodes(notes);
        edges := LoadEdges(wireEdges);
      } else {
        error := Some(LoadFailed);
      }
      loading := false;
    }

    /**
     * onConnect: nothing without both ends; otherwise create the edge on the
     * server and add it locally, with the server's id, only once accepted.
     */
    method OnConnect(source: Option<string>, target: Option<string>, reply: Option<WireEdge>)
      returns (sent: Option<EdgeRequest>)
      modifies this`edges
      ensures Blank(source) || Blank(target) ==> sent.None? && edges == old(edges)
      ensures !Blank(source) && !Blank(target) ==> sent == Some(ConnectRequest(source.value, target.value))
      ensures sent.Some? && reply.Some? ==> edges == old(edges) + [FlowEdgeOf(reply.value)]
      ensures reply.None? ==> edges == old(edges)
    {
      if Blank(source) || Blank(target) {
        return None;
      }
      sent := Some(ConnectRequest(source.value, target.value));
      if reply.Some? {
        edges := edges + [FlowEdgeOf(reply.value)];
      }
    }

    /**
     * onEdgesDelete: ask the server to delete each removed edge. The handler
     * itself leaves the local lists alone; `allDeleted` is whether every call succeeded.
     */
    method OnEdgesDelete(removed: seq<FlowEdge>, allDeleted: bool) returns (sent: seq<string>, notice: Option<string>)
      ensures |sent| == |removed|
      ensures forall i | 0 <= i < |removed| :: sent[i] == removed[i].id
      ensures notice.Some? <==> !allDeleted
      ensures notice.Some? ==> notice.value == EdgeDeleteFailed
    {
      sent := seq(|removed|, i requires 0 <= i < |removed| => removed[i].id);
      notice := if allDeleted then None else Some(EdgeDeleteFailed);
    }

    /**
     * handleAddNoteSubmit: send the form with the default position for the
     * current number of nodes; on success append exactly one node, placed
     * where the server says or else at that default.
     */
    method HandleAddNoteSubmit(form: NoteForm, reply: Option<WireNote>) returns (sent: NoteInput)
      modifies this`nodes, this`loading, this`error, this`addNoteOpen
      ensures !loading
      ensures sent == NoteInput(Some(form.name), Some(form.content), Some(form.color), Some(form.tag), form.imageUrl,
        Some(DefaultPosition(|old(nodes)|).x), Some(DefaultPosition(|old(nodes)|).y))
      ensures reply.Some? ==>
        && nodes == old(nodes) + [NodeOf(reply.value, NumericPosition(reply.value.position).GetOr(DefaultPosition(|old(nodes)|)))]
        && !addNoteOpen && error.None?
      ensures reply.None? ==> nodes == old(nodes) && addNoteOpen == old(addNoteOpen) && error == Some(AddFailed)
    {
      loading := true;
      error := None;
      var newPosition := DefaultPosition(|nodes|);
      sent := NoteInput(Some(form.name), Some(form.content), Some(form.color), Some(form.tag), form.imageUrl,
        Some(newPosition.x), Some(newPosition.y));
      if reply.Some? {
        var note := reply.value;
        var finalPosition := NumericPosition(note.position).GetOr(newPosition);
        nodes := nodes + [NodeOf(note, finalPosition)];
        addNoteOpen := false;
      } else {
        error := Some(AddFailed);
      }
      loading := false;
    }

    /** handleEditNode: open the edit dialog for the first node with that id, if there is one. */
    method HandleEditNode(nodeId: string)
      modifies this`editingNode, this`editNoteOpen
      ensures FindNode(nodes, nodeId).Some? ==> editingNode == FindNode(nodes, nodeId) && editNoteOpen
      ensures FindNode(nodes, nodeId).None? ==> editingNode == old(editingNode) && editNoteOpen == old(editNoteOpen)
    {
      var node := FindNode(nodes, nodeId);
      if node.Some? {
        editingNode := node;
        editNoteOpen := true;
      }
    }

    /**
     * handleEditNoteSubmit: a no-op without a node being edited; otherwise send
     * the form with the node's position and, on success, merge the reply into
     * that node only and close the dialog.
     */
    method HandleEditNoteSubmit(form: NoteForm, reply: Option<WireNote>) returns (sent: Option<(string, NotePatch)>)
      modifies this`nodes, this`loading, this`error, this`editNoteOpen, this`editingNode
      ensures old(editingNode).None? ==>
        && sent.None? && nodes == old(nodes) && editingNode == old(editingNode)
        && loading == old(loading) && error == old(error) && editNoteOpen == old(editNoteOpen)
      ensures old(editingNode).Some? ==>
        var node := old(editingNode).value;
        && !loading
        && sent == Some((node.id, NotePatch(Some(form.name), Some(form.content), Some(form.color), Some(form.tag),
                                          form.imageUrl, Some(node.position))))
      ensures old(editingNode).Some? && reply.Some? ==>
        && nodes == MergeEdit(old(nodes), old(editingNode).value.id, reply.value)
        && editingNode.None? && !editNoteOpen && error.None?
      ensures old(editingNode).Some? && reply.None? ==>
        && nodes == old(nodes) && editingNode == old(editingNode)
        && editNoteOpen == old(editNoteOpen) && error == Some(UpdateFailed)
    {
      if editingNode.None? {
        return None;
      }
      var node := editingNode.value;
      loading := true;
      error := None;
      sent := Some((node.id, NotePatch(Some(form.name), Some(form.content), Some(form.color), Some(form.tag),
                                      form.imageUrl, Some(node.position))));
      if reply.Some? {
        nodes := MergeEdit(nodes, node.id, reply.value);
        editNoteOpen := false;
        editingNode := None;
      } else {
        error := Some(UpdateFailed);
      }
      loading := false;
    }

    /**
     * onNodeDragStop: send only the new position. Local state is never touched,
     * so a failed save is reported but not rolled back.
     */
    method OnNodeDragStop(nodeId: string, position: Position, saved: bool) returns (sent: (string, NotePatch), notice: Option<string>)
      ensures sent.0 == nodeId && sent.1 == DragPatch(position)
      ensures notice.Some? <==> !saved
      ensures notice.Some? ==> notice.value == PositionUpdateFailed
    {
      sent := (nodeId, DragPatch(position));
      notice := if saved then None else Some(PositionUpdateFailed);
    }

    /** handleDeleteNode: open the delete dialog for the first node with that id, if there is one. */
    method HandleDeleteNode(nodeId: string)
      modifies this`deletingNode, this`deleteDialogOpen
      ensures FindNode(nodes, nodeId).Some? ==> deletingNode == FindNode(nodes, nodeId) && deleteDialogOpen
      ensures FindNode(nodes, nodeId).None? ==> deletingNode == old(deletingNode) && deleteDialogOpen == old(deleteDialogOpen)
    {
      var node := FindNode(nodes, nodeId);
      if node.Some? {
        deletingNode := node;
        deleteDialogOpen := true;
      }
    }

    /**
     * handleConfirmDelete: a no-op without a node being deleted; otherwise
     * delete it on the server and, on success, drop the node and every edge
     * touching it, keeping the rest in order.
     */
    method HandleConfirmDelete(deleted: bool) returns (sent: Option<string>)
      modifies this`nodes, this`edges, this`loading, this`error, this`deleteDialogOpen, this`deletingNode
      ensures old(deletingNode).None? ==>
        && sent.None? && nodes == old(nodes) && edges == old(edges) && deletingNode == old(deletingNode)
        && loading == old(loading) && error == old(error) && deleteDialogOpen == old(deleteDialogOpen)
      ensures old(deletingNode).Some? ==> sent == Some(old(deletingNode).value.id) && !loading
      ensures old(deletingNode).Some? && deleted ==>
        var id := old(deletingNode).value.id;
        && nodes == RemoveNode(old(nodes), id)
        && edges == RemoveIncident(old(edges), id)
        && (forall e | e in edges :: e.source != id && e.target != id)
        && (NoDangling(old(nodes), old(edges)) ==> NoDangling(nodes, edges))
        && deletingNode.None? && !deleteDialogOpen && error.None?
      ensures old(deletingNode).Some? && !deleted ==>
        && nodes == old(nodes) && edges == old(edges) && deletingNode == old(deletingNode)
        && deleteDialogOpen == old(deleteDialogOpen) && error == Some(DeleteFailed)
    {
      if deletingNode.None? {
        return None;
      }
      var id := deletingNode.value.id;
      loading := true;
      error := None;
      sent := Some(id);
      if deleted {
        if NoDangling(nodes, edges) {
          DeleteKeepsNoDangling(nodes, edges, id);
        }
        nodes := RemoveNode(nodes, id);
        edges := RemoveIncident(edges, id);
        deleteDialogOpen := false;
        deletingNode := None;
      } else {
        error := Some(DeleteFailed);
      }
      loading := false;
    }
  }
}
