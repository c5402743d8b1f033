/**
 * The Express router for notes and edges over the two Mongo collections,
 * modelled as a store object holding two maps: notes by id, and edges by
 * their deterministic key. Each HTTP handler is a method. The handlers that
 * write return the response status and make their early-return error checks
 * in the order the router does; the listing handlers return what they list.
 * Every handler keeps the store consistent: no dangling edge, every edge
 * stored under its own key, at most one edge per ordered pair.
 */
module NoteRoutes {
  import opened Wrappers
  import opened NoteSchema
  import opened EdgeKeys

  /** The response statuses the handlers send: 201, 200, 400, 404 and 409. */
  datatype Status = Created | Ok | BadRequest | NotFound | Conflict

  /** The body of PUT /:id. A given field replaces the stored one; `position` is replaced as a whole. */
  datatype NotePatch = NotePatch(
    name: Option<string>,
    content: Option<string>,
    color: Option<string>,
    tag: Option<string>,
    imageUrl: Option<string>,
    position: Option<Position>)

  /** The body of POST /edges. */
  datatype EdgeRequest = EdgeRequest(
    source: Option<string>,
    target: Option<string>,
    style: Option<StyleInput>,
    edgeType: Option<string>,
    animated: Option<bool>,
    edgeLabel: Option<string>)

  /** An edge as the API returns it: `id` is the stored key, endpoints are plain id strings. */
  datatype WireEdge = WireEdge(
    id: string,
    source: string,
    target: string,
    style: Style,
    edgeType: string,
    animated: bool,
    edgeLabel: string)

  /** The wire form of a stored edge: its key as `id`, plain endpoint ids, timestamps dropped. */
  function ToWire(e: Edge): (w: WireEdge)
    ensures w.id == e.edgeId && w.source == e.source && w.target == e.target
    ensures w.style == e.style && w.edgeType == e.edgeType && w.animated == e.animated && w.edgeLabel == e.edgeLabel
  {
    WireEdge(e.edgeId, e.source, e.target, e.style, e.edgeType, e.animated, e.edgeLabel)
  }

  /** A listing of stored edges in wire form, one per edge, in order. */
  function FormatEdges(es: seq<Edge>): (r: seq<WireEdge>)
    ensures |r| == |es|
    ensures forall i | 0 <= i < |es| :: r[i] == ToWire(es[i])
  {
    seq(|es|, i requires 0 <= i < |es| => ToWire(es[i]))
  }

  predicate Touches(e: Edge, id: string) {
    e.source == id || e.target == id
  }

  /**
   * The store invariant: every note is stored under its own ObjectId, every
   * edge under the key of its own endpoints, and no edge refers to a missing note.
   */
  ghost predicate Consistent(notes: map<string, Note>, edges: map<string, Edge>) {
    && (forall id | id in notes :: notes[id].id == id && IsObjectId(id))
    && (forall k | k in edges :: edges[k].edgeId == k && k == EdgeKey(edges[k].source, edges[k].target))
    && (forall k | k in edges :: edges[k].source in notes && edges[k].target in notes)
  }

  /** The key determines the pair: two stored edges with the same endpoints are the same edge. */
  lemma AtMostOneEdgePerPair(notes: map<string, Note>, edges: map<string, Edge>, k1: string, k2: string)
    requires Consistent(notes, edges)
    requires k1 in edges && k2 in edges
    requires edges[k1].source == edges[k2].source && edges[k1].target == edges[k2].target
    ensures k1 == k2
  {
  }

  /**
   * The lookup by key agrees with the unique (source, target) index: the edge
   * stored under EdgeKey(s, t) is exactly the edge from s to t.
   */
  lemma KeyedEdgeHasPair(notes: map<string, Note>, edges: map<string, Edge>, s: string, t: string)
    requires Consistent(notes, edges)
    requires s in notes
    ensures EdgeKey(s, t) in edges <==> exists k | k in edges :: edges[k].source == s && edges[k].target == t
    ensures EdgeKey(s, t) in edges ==> edges[EdgeKey(s, t)].source == s && edges[EdgeKey(s, t)].target == t
  {
    var key := EdgeKey(s, t);
    if key in edges {
      var e := edges[key];
      ObjectIdIsHyphenFree(s);
      ObjectIdIsHyphenFree(e.source);
      EdgeKeyInjective(s, t, e.source, e.target);
    }
  }

  /** A note after PUT /:id: given fields replace the stored ones and `updatedAt` is refreshed. */
  function Patched(n: Note, p: NotePatch, now: int): (r: Note)
    ensures r.id == n.id && r.createdAt == n.createdAt && r.updatedAt == now
    ensures (p.name.Some? ==> r.name == p.name.value) && (p.name.None? ==> r.name == n.name)
    ensures (p.content.Some? ==> r.content == p.content.value) && (p.content.None? ==> r.content == n.content)
    ensures (p.color.Some? ==> r.color == p.color.value) && (p.color.None? ==> r.color == n.color)
    ensures (p.tag.Some? ==> r.tag == p.tag.value) && (p.tag.None? ==> r.tag == n.tag)
    ensures (p.imageUrl.Some? ==> r.imageUrl == p.imageUrl.value) && (p.imageUrl.None? ==> r.imageUrl == n.imageUrl)
    ensures (p.position.Some? ==> r.position == p.position.value) && (p.position.None? ==> r.position == n.position)
  {
    n.(name := p.name.GetOr(n.name),
       content := p.content.GetOr(n.content),
       color := p.color.GetOr(n.color),
       tag := p.tag.GetOr(n.tag),
       imageUrl := p.imageUrl.GetOr(n.imageUrl),
       position := p.position.GetOr(n.position),
       updatedAt := now)
  }

  /** A position-only update (a drag) changes the position and `updatedAt` and nothing else. */
  lemma PositionOnlyPatch(n: Note, pos: Position, now: int)
    ensures Patched(n, NotePatch(None, None, None, None, None, Some(pos)), now)
         == n.(position := pos, updatedAt := now)
  {
  }

  /** Repeating the same update gives the same note. */
  lemma PatchIdempotent(n: Note, p: NotePatch, now: int)
    ensures Patched(Patched(n, p, now), p, now) == Patched(n, p, now)
  {
  }

  /** The edge collection after deleteMany({$or: [{source: id}, {target: id}]}). */
  function Cascade(edges: map<string, Edge>, id: string): (r: map<string, Edge>)
    ensures forall k :: k in r <==> k in edges && !Touches(edges[k], id)
    ensures forall k | k in r :: r[k] == edges[k]
  {
    map k | k in edges && !Touches(edges[k], id) :: edges[k]
  }

  /** Removing a note together with its incident edges keeps the store consistent. */
  lemma CascadeKeepsConsistent(notes: map<string, Note>, edges: map<string, Edge>, id: string)
    requires Consistent(notes, edges)
    ensures Consistent(notes - {id}, Cascade(edges, id))
  {
  }

  /** Removing a note without the cascade leaves a dangling edge whenever one touches it. */
  lemma NoteRemovalWithoutCascadeDangles(notes: map<string, Note>, edges: map<string, Edge>, id: string, k: string)
    requires k in edges && Touches(edges[k], id)
    ensures !Consistent(notes - {id}, edges)
  {
  }

  /**
   * The edge document built by POST /edges: the route's own fallbacks
   * (`style ||`, `type ||`, `animated ||`, `label ||`) then the schema defaults.
   */
  function EdgeFromRequest(req: EdgeRequest, now: int): (r: Option<Edge>)
    requires !Blank(req.source) && !Blank(req.target)
    ensures r.Some?
    ensures r.value.edgeId == EdgeKey(req.source.value, req.target.value)
    ensures r.value.source == req.source.value && r.value.target == req.target.value
    ensures req.style.None? ==> r.value.style == Style(DefaultStroke, DefaultStrokeWidth)
    ensures req.style.Some? ==> r.value.style == StyleOf(req.style.value)
    ensures Blank(req.edgeType) ==> r.value.edgeType == DefaultEdgeType
    ensures !Blank(req.edgeType) ==> r.value.edgeType == req.edgeType.value
    ensures req.animated.None? ==> !r.value.animated
    ensures req.animated.Some? ==> r.value.animated == req.animated.value
    ensures r.value.edgeLabel == req.edgeLabel.GetOr("")
    ensures r.value.createdAt == r.value.updatedAt == now
  {
    var s, t := req.source.value, req.target.value;
    NewEdge(
      EdgeKey(s, t), s, t,
      req.style.GetOr(StyleInput(Some(DefaultStroke), Some(DefaultStrokeWidth))),
      Some(if Blank(req.edgeType) then DefaultEdgeType else req.edgeType.value),
      Some(req.animated.GetOr(false)),
      Some(req.edgeLabel.GetOr("")),
      now)
  }

  /**
   * The keys of `m` whose values satisfy `keep`, each once, in the order the
   * collection's cursor yields them (left unspecified).
   */
  method CollectKeys<V>(m: map<string, V>, keep: V -> bool) returns (ks: seq<string>)
    ensures forall i | 0 <= i < |ks| :: ks[i] in m && keep(m[ks[i]])
    ensures forall k | k in m && keep(m[k]) :: k in ks
    ensures forall i, j | 0 <= i < j < |ks| :: ks[i] != ks[j]
  {
    var rest := m.Keys;
    ks := [];
    while rest != {}
      invariant rest <= m.Keys
      invariant forall i | 0 <= i < |ks| :: ks[i] in m && ks[i] !in rest && keep(m[ks[i]])
      invariant forall k | k in m && k !in rest && keep(m[k]) :: k in ks
      invariant forall i, j | 0 <= i < j < |ks| :: ks[i] != ks[j]
      decreases rest
    {
      var k :| k in rest;
      if keep(m[k]) {
        ks := ks + [k];
      }
      rest := rest - {k};
    }
  }

  class GraphStore {
    var notes: map<string, Note>
    var edges: map<string, Edge>

    ghost predicate Valid()
      reads this
    {
      Consistent(notes, edges)
    }

    constructor ()
      ensures Valid()
      ensures notes == map[] && edges == map[]
    {
      notes := map[];
      edges := map[];
    }

    /** GET / : every stored note, once each. */
    method ListNotes() returns (r: seq<Note>)
      requires Valid()
      ensures forall i | 0 <= i < |r| :: r[i].id in notes && notes[r[i].id] == r[i]
      ensures forall id | id in notes :: notes[id] in r
      ensures forall i, j | 0 <= i < j < |r| :: r[i].id != r[j].id
    {
      var m := notes;
      var ids := CollectKeys(m, (n: Note) => true);
      r := seq(|ids|, i requires 0 <= i < |ids| => m[ids[i]]);
      forall id | id in m
        ensures m[id] in r
      {
        var i :| 0 <= i < |ids| && ids[i] == id;
        assert r[i] == m[id];
      }
    }

    /**
     * POST / : `id` is the ObjectId the driver generates. A note missing
     * `name` or `content` fails validation (400); otherwise it is saved (201).
     */
    method CreateNote(id: string, input: NoteInput, now: int) returns (status: Status, reply: Option<Note>)
      requires Valid()
      requires IsObjectId(id) && id !in notes
      modifies this
      ensures Valid()
      ensures edges == old(edges)
      ensures status == BadRequest <==> Blank(input.name) || Blank(input.content)
      ensures status == BadRequest ==> notes == old(notes) && reply.None?
      ensures status != BadRequest ==> status == Created && reply == NewNote(id, input, now)
      ensures status == Created ==> notes == old(notes)[id := reply.value]
    {
      var note := NewNote(id, input, now);
      if note.None? {
        return BadRequest, None;
      }
      notes := notes[id := note.value];
      return Created, note;
    }

    /** PUT /:id : 404 for an unknown id, otherwise the patched note (no validators run on update). */
    method UpdateNote(id: string, patch: NotePatch, now: int) returns (status: Status, reply: Option<Note>)
      requires Valid()
      modifies this
      ensures Valid()
      ensures edges == old(edges)
      ensures status == NotFound <==> id !in old(notes)
      ensures status == NotFound ==> notes == old(notes) && reply.None?
      ensures status != NotFound ==> status == Ok
      ensures status == Ok ==> reply == Some(Patched(old(notes)[id], patch, now))
      ensures status == Ok ==> notes == old(notes)[id := reply.value]
    {
      if id !in notes {
        return NotFound, None;
      }
      var note := Patched(notes[id], patch, now);
      notes := notes[id := note];
      return Ok, Some(note);
    }

    /** DELETE /:id : 404 for an unknown id; otherwise the note goes, then every edge touching it. */
    method DeleteNote(id: string) returns (status: Status)
      requires Valid()
      modifies this
      ensures Valid()
      ensures status == NotFound <==> id !in old(notes)
      ensures status == NotFound ==> notes == old(notes) && edges == old(edges)
      ensures status != NotFound ==> status == Ok
      ensures status == Ok ==> notes == old(notes) - {id} && edges == Cascade(old(edges), id)
      ensures forall k | k in edges :: !Touches(edges[k], id)
    {
      if id !in notes {
        return NotFound;
      }
      notes := notes - {id};
      edges := Cascade(edges, id);
      CascadeKeepsConsistent(old(notes), old(edges), id);
      return Ok;
    }

    /** GET /edges : every stored edge in wire form, once each. */
    method ListEdges() returns (r: seq<WireEdge>)
      requires Valid()
      ensures forall i | 0 <= i < |r| :: r[i].id in edges && r[i] == ToWire(edges[r[i].id])
      ensures forall k | k in edges :: ToWire(edges[k]) in r
      ensures forall i, j | 0 <= i < j < |r| :: r[i].id != r[j].id
    {
      var m := edges;
      var keys := CollectKeys(m, (e: Edge) => true);
      r := FormatEdges(seq(|keys|, i requires 0 <= i < |keys| => m[keys[i]]));
      forall k | k in m
        ensures ToWire(m[k]) in r
      {
        var i :| 0 <= i < |keys| && keys[i] == k;
        assert r[i] == ToWire(m[k]);
      }
    }

    /**
     * POST /edges : 400 when source or target is missing, 404 when either note
     * does not exist, 409 when the key is taken, else the edge is saved (201).
     * Self-loops are not rejected.
     */
    method CreateEdge(req: EdgeRequest, now: int) returns (status: Status, reply: Option<WireEdge>)
      requires Valid()
      modifies this
      ensures Valid()
      ensures notes == old(notes)
      ensures !status.Ok?
      ensures status == BadRequest <==> Blank(req.source) || Blank(req.target)
      ensures status == NotFound <==>
        !Blank(req.source) && !Blank(req.target) &&
        (req.source.value !in old(notes) || req.target.value !in old(notes))
      ensures status == Conflict <==>
        !Blank(req.source) && !Blank(req.target) &&
        req.source.value in old(notes) && req.target.value in old(notes) &&
        EdgeKey(req.source.value, req.target.value) in old(edges)
      ensures status != Created ==> edges == old(edges) && reply.None?
      ensures status == Conflict ==>
        old(edges)[EdgeKey(req.source.value, req.target.value)].source == req.source.value &&
        old(edges)[EdgeKey(req.source.value, req.target.value)].target == req.target.value
      ensures status == Created ==>
        var e := EdgeFromRequest(req, now).value;
        && edges == old(edges)[e.edgeId := e]
        && reply == Some(ToWire(e))
        && (forall k | k in old(edges) :: !(old(edges)[k].source == e.source && old(edges)[k].target == e.target))
    {
      if Blank(req.source) || Blank(req.target) {
        return BadRequest, None;
      }
      var source, target := req.source.value, req.target.value;
      if source !in notes || target !in notes {
        return NotFound, None;
      }
      var key := EdgeKey(source, target);
      KeyedEdgeHasPair(notes, edges, source, target);
      if key in edges {
        return Conflict, None;
      }
      var edge := EdgeFromRequest(req, now).value;
      edges := edges[key := edge];
      return Created, Some(ToWire(edge));
    }

    /** DELETE /edges/:edgeId : removes exactly that edge, or 404 when there is none. */
    method DeleteEdge(edgeId: string) returns (status: Status)
      requires Valid()
      modifies this
      ensures Valid()
      ensures notes == old(notes)
      ensures status == NotFound <==> edgeId !in old(edges)
      ensures status != NotFound ==> status == Ok
      ensures edges == old(edges) - {edgeId}
    {
      if edgeId !in edges {
        return NotFound;
      }
      edges := edges - {edgeId};
      return Ok;
    }

    /** GET /edges/note/:noteId : exactly the stored edges with that note as source or target. */
    method EdgesForNote(noteId: string) returns (r: seq<WireEdge>)
      requires Valid()
      ensures forall i | 0 <= i < |r| ::
        r[i].id in edges && r[i] == ToWire(edges[r[i].id]) && (r[i].source == noteId || r[i].target == noteId)
      ensures forall k | k in edges && Touches(edges[k], noteId) :: ToWire(edges[k]) in r
      ensures forall i, j | 0 <= i < j < |r| :: r[i].id != r[j].id
      ensures noteId !in notes ==> r == []
    {
      var m := edges;
      var keys := CollectKeys(m, (e: Edge) => Touches(e, noteId));
      r := FormatEdges(seq(|keys|, i requires 0 <= i < |keys| => m[keys[i]]));
      forall k | k in m && Touches(m[k], noteId)
        ensures ToWire(m[k]) in r
      {
        var i :| 0 <= i < |keys| && keys[i] == k;
        assert r[i] == ToWire(m[k]);
      }
      if |keys| > 0 {
        var e := m[keys[0]];
        assert e.source in notes && e.target in notes;
        assert noteId in notes;
      }
    }
  }

  /** Create A and B, then connect A to B twice and B to A once: only the duplicate conflicts. */
  method DirectionalityScenario(a: string, b: string, input: NoteInput)
    returns (first: Status, duplicate: Status, reverse: Status)
    requires IsObjectId(a) && IsObjectId(b) && a != b
    requires !Blank(input.name) && !Blank(input.content)
    ensures first == Created && duplicate == Conflict && reverse == Created
  {
    var store := new GraphStore();
    var s, n := store.CreateNote(a, input, 1);
    s, n := store.CreateNote(b, input, 2);
    var ab := EdgeRequest(Some(a), Some(b), None, None, None, None);
    var w;
    first, w := store.CreateEdge(ab, 3);
    duplicate, w := store.CreateEdge(ab, 4);
    ReverseKeyDistinct(b, a);
    reverse, w := store.CreateEdge(EdgeRequest(Some(b), Some(a), None, None, None, None), 5);
  }

  /** Create A and B, connect A to B and A to itself, delete A: only B remains, with no edges. */
  method CascadeScenario(a: string, b: string, input: NoteInput)
    returns (selfLoop: Status, deleted: Status, remaining: set<string>, edgesLeft: nat)
    requires IsObjectId(a) && IsObjectId(b) && a != b
    requires !Blank(input.name) && !Blank(input.content)
    ensures selfLoop == Created && deleted == Ok && remaining == {b} && edgesLeft == 0
  {
    var store := new GraphStore();
    var s, n := store.CreateNote(a, input, 1);
    s, n := store.CreateNote(b, input, 2);
    var w;
    s, w := store.CreateEdge(EdgeRequest(Some(a), Some(b), None, None, None, None), 3);
    selfLoop, w := store.CreateEdge(EdgeRequest(Some(a), Some(a), None, None, None, None), 4);
    assert selfLoop == Created;
    deleted := store.DeleteNote(a);
    assert deleted == Ok;
    remaining := store.notes.Keys;
    assert remaining == {b};
    assert store.edges == map[];
    edgesLeft := |store.edges|;
  }
}
