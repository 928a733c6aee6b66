/** The signed-in user's list of their own content: a live query for their
    documents that are not archived, and the snapshot handler that turns the
    delivered documents into `{id, title}` items. */
module ContentList {
  import opened Wrappers
  import opened Text
  import opened Content
  import ContentActions

  /** One line of the list. */
  datatype Item = Item(id: Id, title: Str)

  /** A document as a query snapshot delivers it. */
  datatype Doc = Doc(id: Id, data: Record)

  /** The listener's query: `ownerId == uid` and `status != excludedStatus`. */
  datatype Query = Query(ownerId: Str, excludedStatus: Str)

  predicate Matches(q: Query, r: Record)
  {
    r.ownerId == q.ownerId && r.status != q.excludedStatus
  }

  /** The effect queries only when a user is signed in, for that user's
      documents that are not archived. */
  function QueryOf(user: Option<Str>): (q: Option<Query>)
    ensures q.Some? <==> user.Some?
    ensures q.Some? ==> q.value.ownerId == user.value && q.value.excludedStatus == ArchivedStatus
  {
    if user.Some? then Some(Query(user.value, ArchivedStatus)) else None
  }

  /** The documents of `coll` that match `q`, in the order of `coll`. The
      sequence given is taken to be already in the order Firestore delivers
      the query's results. */
  function Select(q: Query, coll: seq<Doc>): (r: seq<Doc>)
    ensures forall d :: d in r <==> d in coll && Matches(q, d.data)
    ensures |r| <= |coll|
  {
    if coll == [] then []
    else (if Matches(q, coll[0].data) then [coll[0]] else []) + Select(q, coll[1..])
  }

  /** The filter keeps the order of the sequence it is given: it works piece
      by piece on any split of it. */
  lemma {:induction false} SelectKeepsOrder(q: Query, a: seq<Doc>, b: seq<Doc>)
    ensures Select(q, a + b) == Select(q, a) + Select(q, b)
  {
    if a == [] {
      assert a + b == b;
    } else {
      assert (a + b)[0] == a[0];
      assert (a + b)[1..] == a[1..] + b;
      SelectKeepsOrder(q, a[1..], b);
    }
  }

  /** The snapshot handler: one item per delivered document, in delivery
      order, holding nothing but the document's id and title. */
  function Project(docs: seq<Doc>): (r: seq<Item>)
    ensures |r| == |docs|
    ensures forall k :: 0 <= k < |r| ==> r[k] == Item(docs[k].id, docs[k].data.title)
  {
    if docs == [] then [] else [Item(docs[0].id, docs[0].data.title)] + Project(docs[1..])
  }

  /** What the list shows for `uid` when the collection is `coll`. */
  function Listing(uid: Str, coll: seq<Doc>): seq<Item>
  {
    Project(Select(Query(uid, ArchivedStatus), coll))
  }

  /** The list's state. */
  datatype View = View(loading: bool, items: seq<Item>)

  /** What reaches the effect: no user signed in, a snapshot of the
      collection, or a listener error. */
  datatype Event = SignedOut | Snapshot(coll: seq<Doc>) | ListenError

  /** Every event ends the loading state; only a snapshot replaces the items
      (signing out does not clear them, and an error keeps them). */
  function OnEvent(v: View, uid: Str, e: Event): (r: View)
    ensures !r.loading
    ensures e.Snapshot? ==> r.items == Listing(uid, e.coll)
    ensures !e.Snapshot? ==> r.items == v.items
  {
    match e
    case SignedOut => v.(loading := false)
    case Snapshot(coll) => View(false, Listing(uid, coll))
    case ListenError => v.(loading := false)
  }

  /** No id is delivered twice. */
  predicate DistinctIds(coll: seq<Doc>)
  {
    forall i, j :: 0 <= i < j < |coll| ==> coll[i].id != coll[j].id
  }

  /** `coll` lists the documents of `docs`, each id once. */
  predicate Enumerates(coll: seq<Doc>, docs: map<Id, Record>)
  {
    && DistinctIds(coll)
    && (forall d :: d in coll ==> d.id in docs && docs[d.id] == d.data)
    && (forall id :: id in docs ==> Doc(id, docs[id]) in coll)
  }

  /** The ids on the list. */
  function ListedIds(items: seq<Item>): set<Id>
  {
    set it | it in items :: it.id
  }

  /** Every document of the user that is not archived is on the list. */
  lemma ListingComplete(uid: Str, coll: seq<Doc>, docs: map<Id, Record>, id: Id)
    requires Enumerates(coll, docs)
    requires id in docs && docs[id].ownerId == uid && docs[id].status != ArchivedStatus
    ensures id in ListedIds(Listing(uid, coll))
  {
    var sel := Select(Query(uid, ArchivedStatus), coll);
    var items := Project(sel);
    assert Doc(id, docs[id]) in sel;
    var k :| 0 <= k < |sel| && sel[k] == Doc(id, docs[id]);
    assert items[k] in items;
  }

  /** Every item on the list is a document of the user that is not archived,
      shown with its stored title. */
  lemma ListingSound(uid: Str, coll: seq<Doc>, docs: map<Id, Record>, it: Item)
    requires Enumerates(coll, docs)
    requires it in Listing(uid, coll)
    ensures it.id in docs && docs[it.id].ownerId == uid && docs[it.id].status != ArchivedStatus
    ensures it.title == docs[it.id].title
  {
    var sel := Select(Query(uid, ArchivedStatus), coll);
    var items := Project(sel);
    var k :| 0 <= k < |items| && items[k] == it;
    assert sel[k] in sel;
  }

  /** No document appears twice on the list. */
  lemma ListingOncePerDocument(uid: Str, coll: seq<Doc>)
    requires DistinctIds(coll)
    ensures |Listing(uid, coll)| == |ListedIds(Listing(uid, coll))|
  {
    var sel := Select(Query(uid, ArchivedStatus), coll);
    var items := Project(sel);
    SelectDistinctIds(Query(uid, ArchivedStatus), coll);
    forall i, j | 0 <= i < j < |items| ensures items[i].id != items[j].id {
      assert items[i].id == sel[i].id && items[j].id == sel[j].id;
    }
    DistinctIdsCount(items);
  }

  /** The list names exactly the user's documents that are not archived. */
  lemma ListingExact(uid: Str, coll: seq<Doc>, docs: map<Id, Record>)
    requires Enumerates(coll, docs)
    ensures ListedIds(Listing(uid, coll)) ==
      set id | id in docs && docs[id].ownerId == uid && docs[id].status != ArchivedStatus
  {
    var items := Listing(uid, coll);
    forall id | id in docs && docs[id].ownerId == uid && docs[id].status != ArchivedStatus
      ensures id in ListedIds(items)
    {
      ListingComplete(uid, coll, docs, id);
    }
    forall id | id in ListedIds(items)
      ensures id in docs && docs[id].ownerId == uid && docs[id].status != ArchivedStatus
    {
      var it :| it in items && it.id == id;
      ListingSound(uid, coll, docs, it);
    }
  }

  /** The delivered documents inherit the collection's distinct ids. */
  lemma {:induction false} SelectDistinctIds(q: Query, coll: seq<Doc>)
    requires DistinctIds(coll)
    ensures DistinctIds(Select(q, coll))
  {
    if coll != [] {
      var rest := Select(q, coll[1..]);
      SelectDistinctIds(q, coll[1..]);
      forall d | d in rest ensures d.id != coll[0].id {
        var k :| 0 <= k < |coll| - 1 && coll[1..][k] == d;
        assert coll[k + 1] == d;
      }
      var sel := Select(q, coll);
      if Matches(q, coll[0].data) {
        assert sel == [coll[0]] + rest;
        forall i, j | 0 <= i < j < |sel| ensures sel[i].id != sel[j].id {
          assert sel[j] == rest[j - 1] && rest[j - 1] in rest;
          if i > 0 {
            assert sel[i] == rest[i - 1];
            assert DistinctIds(rest);
          } else {
            assert sel[0] == coll[0];
          }
        }
      } else {
        assert sel == rest;
      }
    }
  }

  /** A list whose ids are distinct has as many entries as ids. */
  lemma {:induction false} DistinctIdsCount(items: seq<Item>)
    requires forall i, j :: 0 <= i < j < |items| ==> items[i].id != items[j].id
    ensures |items| == |ListedIds(items)|
  {
    if items != [] {
      DistinctIdsCount(items[1..]);
      assert ListedIds(items) == {items[0].id} + ListedIds(items[1..]);
      assert items[0].id !in ListedIds(items[1..]);
    }
  }

  /** Once archived, a document is off its owner's list. */
  lemma ArchivedIsUnlisted(s: Store, id: Id, ui: ContentActions.Ui, writeOk: bool, uid: Str, coll: seq<Doc>)
    requires ContentActions.Archive(s, id, ui, writeOk).outcome == ContentActions.Done
    requires Enumerates(coll, ContentActions.Archive(s, id, ui, writeOk).store.docs)
    ensures id !in ListedIds(Listing(uid, coll))
  {
    ListingExact(uid, coll, ContentActions.Archive(s, id, ui, writeOk).store.docs);
  }
}
