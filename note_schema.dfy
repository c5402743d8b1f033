/**
 * The two Mongoose schemas of the graph store: a Note (vertex) and an Edge
 * (directed, styled connection). Required fields are validated and absent
 * fields receive their schema defaults when a document is constructed.
 * JavaScript numbers are modelled as `int`; timestamps as integer milliseconds.
 */
module NoteSchema {
  import opened Wrappers

  datatype Position = Position(x: int, y: int)

  datatype Style = Style(stroke: string, strokeWidth: int)

  /** A stored note; `createdAt`/`updatedAt` are maintained by the schema's timestamps option. */
  datatype Note = Note(
    id: string,
    name: string,
    content: string,
    color: string,
    tag: string,
    imageUrl: string,
    position: Position,
    createdAt: int,
    updatedAt: int)

  /** A stored edge; `edgeType` is the schema's `type` field. */
  datatype Edge = Edge(
    edgeId: string,
    source: string,
    target: string,
    style: Style,
    edgeType: string,
    animated: bool,
    edgeLabel: string,
    createdAt: int,
    updatedAt: int)

  /** The fields a request body may carry for a new note; `None` is an absent field. */
  datatype NoteInput = NoteInput(
    name: Option<string>,
    content: Option<string>,
    color: Option<string>,
    tag: Option<string>,
    imageUrl: Option<string>,
    x: Option<int>,
    y: Option<int>)

  /** A style object as given, each sub-field possibly absent. */
  datatype StyleInput = StyleInput(stroke: Option<string>, strokeWidth: Option<int>)

  const DefaultColor: string := "blue"
  const DefaultStroke: string := "hsl(var(--tree-connection))"
  const DefaultStrokeWidth: int := 2
  const DefaultEdgeType: string := "default"

  /**
   * An absent or empty string. This is what a `required` String path rejects,
   * and also what JavaScript treats as falsy.
   */
  predicate Blank(s: Option<string>) {
    s.None? || s.value == ""
  }

  /**
   * Construct and validate a note document with a freshly generated id.
   * Fails (a validation error) exactly when `name` or `content` is missing or empty.
   */
  function NewNote(id: string, input: NoteInput, now: int): (r: Option<Note>)
    ensures r.None? <==> Blank(input.name) || Blank(input.content)
    ensures r.Some? ==> r.value.id == id && r.value.name != "" && r.value.content != ""
    ensures r.Some? ==> r.value.createdAt == r.value.updatedAt == now
  {
    if Blank(input.name) || Blank(input.content) then None
    else Some(Note(
      id,
      input.name.value,
      input.content.value,
      input.color.GetOr(DefaultColor),
      input.tag.GetOr(""),
      input.imageUrl.GetOr(""),
      Position(input.x.GetOr(0), input.y.GetOr(0)),
      now,
      now))
  }

  /** Absent fields of a new note take the schema defaults; given fields are kept as given. */
  lemma NewNoteDefaults(id: string, input: NoteInput, now: int)
    requires !Blank(input.name) && !Blank(input.content)
    ensures NewNote(id, input, now).Some?
    ensures var n := NewNote(id, input, now).value;
      && n.name == input.name.value && n.content == input.content.value
      && (input.color.None? ==> n.color == DefaultColor)
      && (input.color.Some? ==> n.color == input.color.value)
      && (input.tag.None? ==> n.tag == "")
      && (input.imageUrl.None? ==> n.imageUrl == "")
      && (input.tag.Some? ==> n.tag == input.tag.value)
      && (input.imageUrl.Some? ==> n.imageUrl == input.imageUrl.value)
      && (input.x.None? ==> n.position.x == 0)
      && (input.y.None? ==> n.position.y == 0)
      && (input.x.Some? ==> n.position.x == input.x.value)
      && (input.y.Some? ==> n.position.y == input.y.value)
  {
  }

  /** The style a new edge stores: each absent sub-field takes its schema default. */
  function StyleOf(s: StyleInput): (r: Style)
    ensures s.stroke.None? ==> r.stroke == DefaultStroke
    ensures s.strokeWidth.None? ==> r.strokeWidth == DefaultStrokeWidth
    ensures s.stroke.Some? ==> r.stroke == s.stroke.value
    ensures s.strokeWidth.Some? ==> r.strokeWidth == s.strokeWidth.value
  {
    Style(s.stroke.GetOr(DefaultStroke), s.strokeWidth.GetOr(DefaultStrokeWidth))
  }

  /**
   * Construct and validate an edge document. `edgeId`, `source` and `target`
   * are required; every other field falls back to its schema default when absent.
   */
  function NewEdge(
    edgeId: string, source: string, target: string,
    style: StyleInput, edgeType: Option<string>, animated: Option<bool>, edgeLabel: Option<string>,
    now: int): (r: Option<Edge>)
    ensures r.None? <==> edgeId == "" || source == "" || target == ""
    ensures r.Some? ==> r.value.edgeId == edgeId && r.value.source == source && r.value.target == target
    ensures r.Some? ==> r.value.createdAt == r.value.updatedAt == now
    ensures r.Some? && edgeType.None? ==> r.value.edgeType == DefaultEdgeType
    ensures r.Some? && animated.None? ==> !r.value.animated
    ensures r.Some? && edgeLabel.None? ==> r.value.edgeLabel == ""
    ensures r.Some? ==> r.value.style == StyleOf(style)
    ensures r.Some? && edgeType.Some? ==> r.value.edgeType == edgeType.value
    ensures r.Some? && animated.Some? ==> r.value.animated == animated.value
    ensures r.Some? && edgeLabel.Some? ==> r.value.edgeLabel == edgeLabel.value
  {
    if edgeId == "" || source == "" || target == "" then None
    else Some(Edge(
      edgeId, source, target,
      StyleOf(style),
      edgeType.GetOr(DefaultEdgeType),
      animated.GetOr(false),
      edgeLabel.GetOr(""),
      now,
      now))
  }
}
