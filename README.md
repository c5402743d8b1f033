# Knowledge-graph consistency model

A Dafny model of the graph consistency layer of a personal knowledge-graph
note tool. Notes are graph vertices. Edges are directed, styled connections
between notes. The model has three parts:

- **The server graph store** (`note_schema.dfy`, `edge_keys.dfy`, `note_routes.dfy`).
  The Mongo `Note` and `Edge` collections become two maps inside a `GraphStore`
  object. Notes are keyed by ObjectId. Edges are keyed by the deterministic key
  `"e" + source + "-" + target`. Each Express handler is a method. The handlers
  that write return their HTTP status (`Created`, `Ok`, `BadRequest`, `NotFound`,
  `Conflict`), with the error checks in the order the router makes them. The
  listing handlers return what they list. Every handler keeps the
  store invariant `Consistent`:
  - no edge refers to a missing note;
  - every edge is stored under the key of its own endpoints, which is also its `edgeId`;
  - every note is stored under its own ObjectId.

  Because ObjectIds contain no hyphen, the key is injective. So the key
  lookup before an insert agrees with the unique `(source, target)` index.
  There is at most one edge per ordered pair, and both directions of a pair
  can coexist.
- **The search-index synchronizer** (`search_sync.dfy`). A note is projected
  to a flat search document. The index is a map from document id to document,
  with upsert and delete.
- **The client graph mirror** (`knowledge_tree.dfy`). A `KnowledgeTree` object
  holds the canvas `nodes` and `edges` lists plus the dialog, loading and
  error state. A handler that calls the server takes the call's outcome as a
  parameter and returns the request it sends (except `LoadData`, whose two GET
  requests carry no body). The outcome is the reply, or
  `None` for a failed call, when the handler uses the reply. It is a `bool`
  when the handler only needs to know whether the call succeeded
  (`OnEdgesDelete`, `OnNodeDragStop`, `HandleConfirmDelete`). `HandleEditNode`
  and `HandleDeleteNode` make no call and only open a dialog.
  The pure transforms are functions: the initial load, the fallback layout,
  the edit merge, and the delete filters.

Behaviour of the code that the model keeps as written:

- Create-edge does not reject self-loops. `CascadeScenario` creates one.
- An update runs no validators, because Mongoose's `findByIdAndUpdate`
  skips them by default. So an update may set `name` or `content` to the
  empty string.
- The synchronizer is never called by the note routes. The store methods
  therefore do not touch the index. `UpsertKeepsMirror` and
  `RemoveKeepsMirror` state what a caller that did wire it would keep.
- Connect, add and delete on the client are not optimistic. Local state
  changes only after the server call succeeds.

## Model

| member | source | states |
|---|---|---|
| `NoteSchema.NewNote` | backend/models/Note.js:4-37 | A new note fails validation exactly when `name` or `content` is missing or empty. On success it carries the generated id, non-empty name and content, and `createdAt == updatedAt`. |
| `NoteSchema.NewNoteDefaults` | backend/models/Note.js:13-34 | Absent `color` becomes `"blue"`. Absent `tag` and `imageUrl` become `""`. Absent `x` and `y` become 0. A given color, tag, image URL, `x` or `y` is kept as given. |
| `NoteSchema.StyleOf` | backend/models/Note.js:55-64 | Each absent style sub-field takes its default: stroke `hsl(var(--tree-connection))` and width 2. Given sub-fields are kept. |
| `NoteSchema.NewEdge` | backend/models/Note.js:39-79 | An edge is rejected exactly when `edgeId`, `source` or `target` is empty. Otherwise it keeps those three. Its style is the defaulted style (`StyleOf`), so an absent stroke or width takes the schema default. Absent type, animated and label become `"default"`, `false` and `""`, and given ones are kept. Its timestamps are equal. |
| `EdgeKeys.EdgeKey` | backend/routes/notes.js:137 | The key is `"e"`, the source, a hyphen and the target, so it is two characters longer than the two ids together. |
| `EdgeKeys.EdgeKeyLayout` | backend/routes/notes.js:137 | The source sits right after the leading `e`, the hyphen follows it, and the rest of the key is the target. |
| `EdgeKeys.ObjectIdIsHyphenFree` | backend/models/Note.js:45-54 | An ObjectId's text form contains no hyphen. |
| `EdgeKeys.FirstIndex` | backend/routes/notes.js:137 | The index found is the first occurrence of the character, and none is found exactly when the character is absent. This is the helper for reading keys back. |
| `EdgeKeys.SplitKey` | backend/routes/notes.js:137 | A key is read back as a pair whose source contains no hyphen. |
| `EdgeKeys.FirstHyphenAfterHyphenFree` | backend/routes/notes.js:137 | In `source + "-" + target` with a hyphen-free source, the first hyphen is the separator. |
| `EdgeKeys.SplitKeyRoundTrip` | backend/routes/notes.js:137 | Splitting `EdgeKey(s, t)` gives back `(s, t)` whenever `s` is hyphen-free. |
| `EdgeKeys.EdgeKeyInjective` | backend/routes/notes.js:137 | For hyphen-free sources, two keys are equal if and only if the ordered pairs are equal. |
| `EdgeKeys.ReverseKeyDistinct` | backend/routes/notes.js:137 | For two different ObjectIds A and B, (A,B) and (B,A) get different keys, so both directions can be stored. |
| `EdgeKeys.KeyCollidesWithHyphens` | backend/routes/notes.js:137 | With hyphens allowed, two different pairs share one key. Injectivity depends on hyphen-free ids. |
| `NoteRoutes.ToWire` | backend/routes/notes.js:100-108 | The wire form of an edge has its stored key as `id`, the endpoints as plain ids, and the style, type, animated flag and label of the stored edge. The timestamps are not sent. |
| `NoteRoutes.FormatEdges` | backend/routes/notes.js:100-108 | A listing has one wire edge per stored edge, in the same order. The same mapping serves notes.js:208-216, and notes.js:161-169 sends one edge in that form. |
| `NoteRoutes.AtMostOneEdgePerPair` | backend/models/Note.js:81 | In a consistent store, two edges with the same source and target are the same edge. |
| `NoteRoutes.KeyedEdgeHasPair` | backend/routes/notes.js:137-143 | In a consistent store, the key `EdgeKey(s, t)` is taken if and only if some edge goes from s to t, and the edge under that key is that edge. So the 409 key check agrees with the unique `(source, target)` index. |
| `NoteRoutes.Patched` | backend/routes/notes.js:58-66 | An update keeps the note's id and `createdAt` and sets `updatedAt` to the update time. Each of name, content, color, tag, image URL and position is replaced when the body gives it and kept when it does not. |
| `NoteRoutes.PositionOnlyPatch` | backend/routes/notes.js:58-66 | A position-only update changes the position and `updatedAt`, and nothing else. |
| `NoteRoutes.PatchIdempotent` | backend/routes/notes.js:58-66 | Applying the same update twice gives the same note as applying it once. |
| `NoteRoutes.Cascade` | backend/routes/notes.js:77-83 | The edges left after the cascade are exactly the stored edges that do not touch the note, and each is unchanged. |
| `NoteRoutes.CascadeKeepsConsistent` | backend/routes/notes.js:69-89 | Removing a note together with the cascade keeps the store consistent. |
| `NoteRoutes.NoteRemovalWithoutCascadeDangles` | backend/routes/notes.js:77-83 | Removing a note without the cascade breaks consistency whenever an edge touches it. |
| `NoteRoutes.EdgeFromRequest` | backend/routes/notes.js:137-158 | The saved edge has `edgeId = EdgeKey(source, target)` and the requested endpoints. It passes the schema's required checks. Absent style gives the default stroke and width 2. A given style is stored with each missing sub-field defaulted (`StyleOf`). Absent or empty type gives `"default"`. Absent animated gives `false`, and a given flag is kept. Label is the given one or `""`. Both timestamps are the creation time. |
| `NoteRoutes.CollectKeys` | backend/routes/notes.js:96 | The query returns exactly the keys whose values match the filter, each once. |
| `NoteRoutes.GraphStore.constructor` | backend/models/Note.js:86-87 | An empty store is consistent. |
| `NoteRoutes.GraphStore.ListNotes` | backend/routes/notes.js:37-44 | GET / returns every stored note exactly once and nothing else. |
| `NoteRoutes.GraphStore.CreateNote` | backend/routes/notes.js:47-55 | POST / returns 400 exactly when name or content is missing or empty, and then nothing changes. Otherwise it returns 201, the validated note is stored under its new id, edges are untouched, and consistency is kept. |
| `NoteRoutes.GraphStore.UpdateNote` | backend/routes/notes.js:58-66 | PUT /:id returns 404 exactly for an unknown id, and then nothing changes. Otherwise it returns 200 and only that note is replaced by its patched form. |
| `NoteRoutes.GraphStore.DeleteNote` | backend/routes/notes.js:69-89 | DELETE /:id returns 404 exactly for an unknown id, and then nothing changes. Otherwise the note is removed and the edges become the cascade: no remaining edge touches it, and every other edge is unchanged. |
| `NoteRoutes.GraphStore.ListEdges` | backend/routes/notes.js:94-115 | GET /edges returns every stored edge exactly once, in wire form (id = key, endpoint ids, style, type, animated, label). |
| `NoteRoutes.GraphStore.CreateEdge` | backend/routes/notes.js:118-177 | POST /edges returns 400 if and only if source or target is missing. Otherwise 404 if and only if either note is absent. Otherwise 409 if and only if the key is taken, and then the stored edge under that key has the same pair. On any error the edges are unchanged. On 201 exactly the defaulted edge is added under its key, no earlier edge had that pair, its wire form is returned, and notes are untouched. |
| `NoteRoutes.GraphStore.DeleteEdge` | backend/routes/notes.js:180-194 | DELETE /edges/:edgeId returns 404 if and only if the key is absent. In every case the edges afterwards are the old edges minus that key, and notes are untouched. |
| `NoteRoutes.GraphStore.EdgesForNote` | backend/routes/notes.js:197-223 | Returns exactly the stored edges with the note as source or target, each once, in wire form. For an id that is not a note it returns nothing. |
| `NoteRoutes.DirectionalityScenario` | backend/routes/notes.js:118-177 | With two notes A and B, creating A→B answers 201, creating A→B again answers 409, and creating B→A answers 201. |
| `NoteRoutes.CascadeScenario` | backend/routes/notes.js:69-89 | With two notes A and B, the self-loop A→A is created (201). Deleting A answers 200, leaves only B, and removes both A→B and A→A. |
| `SearchSync.ToDocument` | backend/typesense/sync.js:4-14 | The document id is the note's id. Name, content, color and tag are copied. `position_x`/`position_y` are the note's coordinates. The timestamps are copied. |
| `SearchSync.DocumentIgnoresImage` | backend/typesense/sync.js:4-14 | The image URL does not appear in the document. |
| `SearchSync.Upserted` | backend/typesense/sync.js:15 | After an upsert there is exactly one document for that id, the latest. Every other document is unchanged, and documents stay keyed by their id. |
| `SearchSync.Removed` | backend/typesense/sync.js:19 | A delete removes exactly the document with that id and keeps the rest. |
| `SearchSync.LastUpsertWins` | backend/typesense/sync.js:15 | Two upserts of the same id leave only the later document. |
| `SearchSync.UpsertKeepsMirror` | backend/typesense/sync.js:3-16 | Upserting a created or updated note keeps an index that mirrors the notes in step with them. |
| `SearchSync.RemoveKeepsMirror` | backend/typesense/sync.js:18-20 | Removing a deleted note's document keeps a mirroring index in step. |
| `SearchSync.MirrorIsKeyedById` | backend/typesense/sync.js:4-15 | An index that mirrors notes stored under their own ids holds each document under that document's id, and the document found under a note's id is that note's document. |
| `SearchSync.SearchIndex.constructor` | backend/typesense/sync.js:15 | A new index is empty and keyed by id. |
| `SearchSync.SearchIndex.AddOrUpdateNote` | backend/typesense/sync.js:3-16 | The index becomes the upsert of the note's document. |
| `SearchSync.SearchIndex.DeleteNote` | backend/typesense/sync.js:18-20 | The index loses exactly that id. The call reports whether a document existed; a missing one is a not-found error of the index. |
| `KnowledgeTree.DefaultPosition` | src/components/tree/KnowledgeTree.tsx:53-56 | The default position for a canvas holding `count` nodes is at x = 400, and its y is 350 plus 60 per existing node. |
| `KnowledgeTree.DefaultPositionsStack` | src/components/tree/KnowledgeTree.tsx:53-56 | Default positions share the column x = 400, and each later count lies at least 60 lower. |
| `KnowledgeTree.NumericPosition` | src/components/tree/KnowledgeTree.tsx:91-93 | A received position is used if and only if it is present with both coordinates numeric, and then it is exactly those coordinates. |
| `KnowledgeTree.NodeOf` | src/components/tree/KnowledgeTree.tsx:88-104 | A note becomes a `"sub"` node with the note's id, the given position, and data holding the note's name, content, color, tag and image URL with data type `"subtopic"`. The same node shape is built at lines 223-235. |
| `KnowledgeTree.FlowEdgeOf` | src/components/tree/KnowledgeTree.tsx:107-114 | A received edge becomes a canvas edge with the same id, endpoints, style, type and animated flag. The label is not carried. The same shape is built at lines 153-160. |
| `KnowledgeTree.LoadNodes` | src/components/tree/KnowledgeTree.tsx:88-104 | Loading maps notes one-to-one and in order. The node id is the note id, the node type is `"sub"`, and the data is copied. The position is the note's own when both coordinates are numbers, otherwise (400, 350 + 60·index). |
| `KnowledgeTree.FallbackPositionsDistinct` | src/components/tree/KnowledgeTree.tsx:91-95 | Two loaded notes that both fall back to the default layout never share a position. |
| `KnowledgeTree.LoadEdges` | src/components/tree/KnowledgeTree.tsx:107-114 | Loading maps edges one-to-one and in order, keeping id, source, target, style, type and animated. |
| `KnowledgeTree.LoadListedEdges` | src/components/tree/KnowledgeTree.tsx:107-114 | The edges the server lists load onto the canvas one-to-one and in order, each with the stored key as id and the stored endpoints, style, type and animated flag. |
| `KnowledgeTree.LoadKeepsEndpoints` | src/components/tree/KnowledgeTree.tsx:88-117 | If every listed edge joins listed notes, the loaded canvas has no dangling edge. |
| `KnowledgeTree.Filter` | src/components/tree/KnowledgeTree.tsx:377-382 | A filter keeps exactly the accepted elements of the input and is never longer. When every element is accepted it returns the input unchanged. |
| `KnowledgeTree.FilterAppend` | src/components/tree/KnowledgeTree.tsx:377-382 | Filtering a concatenation gives the filtered parts in the same order. |
| `KnowledgeTree.FilterSingleton` | src/components/tree/KnowledgeTree.tsx:377-382 | A one-element list keeps its element exactly when it is accepted. With `FilterAppend`, this fixes the result as the accepted elements in their original order. |
| `KnowledgeTree.FilterCounts` | src/components/tree/KnowledgeTree.tsx:377-382 | Every accepted value occurs in the result as often as in the input, and rejected values do not occur. |
| `KnowledgeTree.RemoveNode` | src/components/tree/KnowledgeTree.tsx:377 | Exactly the nodes with a different id remain, and none has the deleted id. |
| `KnowledgeTree.RemoveNodeKeepsOrder` | src/components/tree/KnowledgeTree.tsx:377 | Removing a node from a list works piece by piece, so the remaining nodes keep their order. |
| `KnowledgeTree.RemoveIncident` | src/components/tree/KnowledgeTree.tsx:380-382 | Exactly the edges with the deleted id at neither end remain. |
| `KnowledgeTree.RemoveIncidentKeepsOrder` | src/components/tree/KnowledgeTree.tsx:380-382 | Removing a node's edges works piece by piece, so the remaining edges keep their order. |
| `KnowledgeTree.DeleteKeepsNoDangling` | src/components/tree/KnowledgeTree.tsx:374-382 | Deleting a node together with its incident edges keeps the canvas free of dangling edges. |
| `KnowledgeTree.NodeOnlyDeleteDangles` | src/components/tree/KnowledgeTree.tsx:379-382 | Without the local edge filter, any edge that touched the deleted node would dangle. |
| `KnowledgeTree.MergeEdit` | src/components/tree/KnowledgeTree.tsx:280-294 | The list keeps its length, and every node keeps its id, type and position. Nodes with another id are unchanged. The edited node's label, description, color, tag and image come from the reply, and its data type is kept. |
| `KnowledgeTree.EditKeepsNoDangling` | src/components/tree/KnowledgeTree.tsx:280-294 | An edit keeps the set of node ids, so no edge starts dangling. |
| `KnowledgeTree.FindNode` | src/components/tree/KnowledgeTree.tsx:349 | The result is none if and only if no node has the id. Otherwise it is the first node with that id. |
| `KnowledgeTree.FirstIndexOf` | src/components/tree/KnowledgeTree.tsx:349 | The index of the first node with a given id. |
| `KnowledgeTree.ConnectRequest` | src/components/tree/KnowledgeTree.tsx:140-150 | The connect request carries the two ends of the new connection, with the default stroke, width 2, type `"default"`, not animated and an empty label. |
| `KnowledgeTree.ConnectSendsServerDefaults` | src/components/tree/KnowledgeTree.tsx:140-150 | The styling a connect sends is the server's own default, so the server stores the edge that a request with only the two ends would create. |
| `KnowledgeTree.DragPatch` | src/components/tree/KnowledgeTree.tsx:319-321 | A drag's update body carries the position and no other field. |
| `KnowledgeTree.KnowledgeTree.constructor` | src/components/tree/KnowledgeTree.tsx:59-69 | The mirror starts empty: no nodes or edges, no dialogs, not loading, no error. |
| `KnowledgeTree.KnowledgeTree.LoadData` | src/components/tree/KnowledgeTree.tsx:73-129 | On success both lists are replaced by the transformed listings and the error is cleared. On failure both lists are kept and the load error is recorded. Loading ends false. |
| `KnowledgeTree.KnowledgeTree.OnConnect` | src/components/tree/KnowledgeTree.tsx:135-174 | Nothing is sent or changed without both ends. Otherwise the default-styled create request is sent. The server's edge (with its id) is appended only on success; on failure the edges are unchanged. |
| `KnowledgeTree.KnowledgeTree.OnEdgesDelete` | src/components/tree/KnowledgeTree.tsx:177-196 | One delete is sent per removed edge id, in order. Local state is not modified. A failure is reported. |
| `KnowledgeTree.KnowledgeTree.HandleAddNoteSubmit` | src/components/tree/KnowledgeTree.tsx:199-255 | Sends the form with the default position for the current node count. On success it appends exactly one node, with the server id and the server position or else that default, and closes the dialog. On failure the nodes are unchanged and the error is recorded. |
| `KnowledgeTree.KnowledgeTree.HandleEditNode` | src/components/tree/KnowledgeTree.tsx:347-355 | Opens the edit dialog on the first node with that id, or does nothing if there is none. |
| `KnowledgeTree.KnowledgeTree.HandleEditNoteSubmit` | src/components/tree/KnowledgeTree.tsx:258-314 | A no-op without an edited node. Otherwise it sends the form with that node's position. On success only the matching node's data is merged and the dialog closes. On failure nodes and the edited node are unchanged and the error is recorded. |
| `KnowledgeTree.KnowledgeTree.OnNodeDragStop` | src/components/tree/KnowledgeTree.tsx:317-331 | Sends only `{position}`, and the saved note's position is that position (`PositionOnlyPatch`). It has no write access to local state, so a failed save does not roll anything back. A failure is reported. |
| `KnowledgeTree.KnowledgeTree.HandleDeleteNode` | src/components/tree/KnowledgeTree.tsx:357-365 | Opens the delete dialog on the first node with that id, or does nothing if there is none. |
| `KnowledgeTree.KnowledgeTree.HandleConfirmDelete` | src/components/tree/KnowledgeTree.tsx:367-402 | A no-op without a node to delete. On success the node and every edge touching it are removed, the rest is kept in order (`RemoveNodeKeepsOrder`, `RemoveIncidentKeepsOrder`), and no remaining edge touches the id. A canvas without dangling edges stays so. On failure nodes and edges are untouched and the error is recorded. |

## Left out

- The upload route (backend/routes/notes.js:18-32) and the image upload in the note forms. They hand a file to an external object store.
- Process wiring: server start-up, the database and search-client connections, and creating the search collection from its schema. These are I/O and static configuration.
- The HTTP wrappers of the client and the network. Every server call is a parameter holding the reply, or `None` for a failure. src/api/notes.ts defines the note wrappers only. `fetchEdges`, `createEdge` and `deleteEdge`, which src/components/tree/KnowledgeTree.tsx:29-31 imports, are not part of this model. The model assumes that they call `GET /edges`, `POST /edges` and `DELETE /edges/:edgeId` and return the parsed reply.
- Concurrency. Notes and edges are loaded in parallel, and both endpoint notes are looked up in parallel. The cascade is not atomic: the note is deleted before its edges. Two creates of the same edge can race, and the duplicate-key error (code 11000) then answers 409. The model is sequential. In it, `KeyedEdgeHasPair` shows that the unique index can never fire after the key check.
- ObjectId casting. A malformed id makes Mongoose throw, which answers 400 on note routes and 500 on edge routes. The model compares ids as exact strings and answers 404 for an unknown one. Mongoose casts an id written in upper-case hex to the same ObjectId, but the key is built from the raw string (backend/routes/notes.js:137). Such a request would find its notes, miss the 409 key check, and store an edge whose `edgeId` is not the key of its stored endpoints. `KeyedEdgeHasPair` and `Consistent` assume canonical lower-case ids. In the same way, a 500 from a failing database call is not modelled.
- Populating edge endpoints when listing edges. A dangling endpoint would make the listing throw (500), but `Consistent` excludes dangling edges.
- Mongoose update semantics for a partial `position` object. An update's `position` replaces the stored one as a whole, with both coordinates given.
- `width`/`height` and other fields the schemas do not declare. Mongoose's strict mode drops them.
- Floating-point coordinates. Positions are integers.
- Dates. Timestamps are integer milliseconds passed in as `now`, so the `new Date(...).getTime()` conversion is the identity.
- `SearchSync.ToDocument`: the `|| 0` fallback for a missing position is not modelled. Every stored note carries the schema's default position, and a coordinate of 0 maps to 0 either way.
- Failures of the search service itself, such as an unreachable index. The synchronizer is not called from the routes, so those failures never reach the store.
- `KnowledgeTree.KnowledgeTree.HandleAddNoteSubmit`: a reply whose position object lacks a numeric coordinate is treated like a reply without a position. The code would keep the malformed object.
- `KnowledgeTree.KnowledgeTree.OnConnect`: the canvas library's `addEdge` is treated as an append. Its own duplicate check is not shown.
- The position the canvas library writes into `nodes` while a node is dragged, through `onNodesChange` (src/components/tree/KnowledgeTree.tsx:492). In the model a drag never changes `nodes`, so `OnNodeDragStop` only states what is sent. That the dragged position stays on the canvas after a failed save is not captured.
- The local removal of edges after `onEdgesDelete`. The canvas library does it through its change handler, which is not shown.
- Toast notifications, the search box, and the presentational components. Only the two handlers whose failure has no other visible effect (drag-stop and edge delete) return their notice.
