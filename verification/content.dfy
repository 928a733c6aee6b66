/** The `content` collection: one document per submission, keyed by id, and
    the storage bucket holding the uploaded files. */
module Content {
  import opened Wrappers
  import opened Text

  type Id = Str

  /** The status value the archive action writes and the owner's list
      filters out. */
  const ArchivedStatus: Str := "archived"

  /** The fields of a content document that the components read or write.
      `fileUrl` and `fileType` may be missing from a document. */
  datatype Record = Record(
    ownerId: Str,
    title: Str,
    description: Str,
    isPaid: bool,
    tags: seq<Str>,
    status: Str,
    fileUrl: Option<Str>,
    fileType: Option<Str>)

  /** The document store and the set of object URLs present in storage. */
  datatype Store = Store(docs: map<Id, Record>, blobs: set<Str>)

  /** JavaScript truthiness of an optional string: present and non-empty. */
  predicate Truthy(s: Option<Str>)
  {
    s.Some? && s.value != []
  }

  /** Every document except the one under `id` is the same in both maps. */
  predicate OthersUnchanged(before: map<Id, Record>, after: map<Id, Record>, id: Id)
  {
    && (forall k :: k in before && k != id ==> k in after && after[k] == before[k])
    && (forall k :: k in after && k != id ==> k in before)
  }

  const ContentPathPrefix: Str := "/content/"

  /** The page of one content item, `/content/${id}`, which cards, the owner's
      list and the edit form's redirect all link to. The id can be read back
      from the path. */
  function ContentPath(id: Id): (p: Str)
    ensures StartsWith(p, ContentPathPrefix)
    ensures p[|ContentPathPrefix|..] == id
  {
    ContentPathPrefix + id
  }

  /** Different items link to different pages. */
  lemma ContentPathInjective(a: Id, b: Id)
    requires ContentPath(a) == ContentPath(b)
    ensures a == b
  {
    assert a == ContentPath(a)[|ContentPathPrefix|..];
  }
}
