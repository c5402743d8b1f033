/**
 * The search-index synchronizer: a note is projected to a flat search
 * document and upserted into the `notes` collection of the index under its
 * id; deleting removes the document with that id. The index is modelled as a
 * map from document id to document.
 */
module SearchSync {
  import opened NoteSchema

  datatype SearchDocument = SearchDocument(
    id: string,
    name: string,
    content: string,
    color: string,
    tag: string,
    positionX: int,
    positionY: int,
    createdAt: int,
    updatedAt: int)

  /** The document for a note: its searchable fields, position flattened, `imageUrl` dropped. */
  function ToDocument(n: Note): (d: SearchDocument)
    ensures d.id == n.id
    ensures d.name == n.name && d.content == n.content && d.color == n.color && d.tag == n.tag
    ensures d.positionX == n.position.x && d.positionY == n.position.y
    ensures d.createdAt == n.createdAt && d.updatedAt == n.updatedAt
  {
    SearchDocument(n.id, n.name, n.content, n.color, n.tag,
      n.position.x, n.position.y, n.createdAt, n.updatedAt)
  }

  /** The image URL is not searchable: changing it does not change the document. */
  lemma DocumentIgnoresImage(n: Note, url: string)
    ensures ToDocument(n.(imageUrl := url)) == ToDocument(n)
  {
  }

  /** Every document is stored under its own id. */
  predicate KeyedById(docs: map<string, SearchDocument>) {
    forall id | id in docs :: docs[id].id == id
  }

  /** The index after an upsert: exactly one document for `d.id`, the latest; every other document as before. */
  function Upserted(docs: map<string, SearchDocument>, d: SearchDocument): (r: map<string, SearchDocument>)
    ensures r.Keys == docs.Keys + {d.id}
    ensures r[d.id] == d
    ensures forall id | id in docs && id != d.id :: r[id] == docs[id]
    ensures KeyedById(docs) ==> KeyedById(r)
  {
    docs[d.id := d]
  }

  /** The index after a delete: the document with that id is gone, every other one is kept. */
  function Removed(docs: map<string, SearchDocument>, id: string): (r: map<string, SearchDocument>)
    ensures r.Keys == docs.Keys - {id}
    ensures forall k | k in r :: r[k] == docs[k]
    ensures KeyedById(docs) ==> KeyedById(r)
  {
    docs - {id}
  }

  /** A later upsert of the same id replaces an earlier one: the last write wins. */
  lemma LastUpsertWins(docs: map<string, SearchDocument>, d1: SearchDocument, d2: SearchDocument)
    requires d1.id == d2.id
    ensures Upserted(Upserted(docs, d1), d2) == Upserted(docs, d2)
  {
  }

  /** The index mirrors a set of notes when it holds exactly their documents. */
  ghost predicate Mirrors(docs: map<string, SearchDocument>, notes: map<string, Note>) {
    && docs.Keys == notes.Keys
    && forall id | id in notes :: docs[id] == ToDocument(notes[id])
  }

  /** Upserting a created or updated note keeps a mirror in step with the store. */
  lemma UpsertKeepsMirror(docs: map<string, SearchDocument>, notes: map<string, Note>, n: Note)
    requires Mirrors(docs, notes)
    ensures Mirrors(Upserted(docs, ToDocument(n)), notes[n.id := n])
  {
  }

  /** Removing a deleted note's document keeps a mirror in step with the store. */
  lemma RemoveKeepsMirror(docs: map<string, SearchDocument>, notes: map<string, Note>, id: string)
    requires Mirrors(docs, notes)
    ensures Mirrors(Removed(docs, id), notes - {id})
  {
  }

  /**
   * An index that mirrors notes stored under their own ids is keyed by id, so
   * looking up a note's id finds that note's document.
   */
  lemma MirrorIsKeyedById(docs: map<string, SearchDocument>, notes: map<string, Note>)
    requires Mirrors(docs, notes)
    requires forall id | id in notes :: notes[id].id == id
    ensures KeyedById(docs)
    ensures forall id | id in notes :: id in docs && docs[id] == ToDocument(notes[id])
  {
  }

  class SearchIndex {
    var documents: map<string, SearchDocument>

    ghost predicate Valid()
      reads this
    {
      KeyedById(documents)
    }

    constructor ()
      ensures Valid() && documents == map[]
    {
      documents := map[];
    }

    /** addOrUpdateNote: upsert the note's document. */
    method AddOrUpdateNote(n: Note)
      requires Valid()
      modifies this
      ensures Valid()
      ensures documents == Upserted(old(documents), ToDocument(n))
    {
      var doc := ToDocument(n);
      documents := documents[doc.id := doc];
    }

    /** deleteNote: remove the document with that id; the index reports a missing one as not found. */
    method DeleteNote(noteId: string) returns (found: bool)
      requires Valid()
      modifies this
      ensures Valid()
      ensures found <==> noteId in old(documents)
      ensures documents == Removed(old(documents), noteId)
    {
      found := noteId in documents;
      if found {
        documents := documents - {noteId};
      }
    }
  }
}
