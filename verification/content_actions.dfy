/** The archive and delete actions of the owner's content menu, as
    transitions of the document store and the storage bucket. Each call into
    Firestore or Storage either succeeds or throws; whether it would fail for
    reasons outside the store (network, access rules) is a parameter. */
module ContentActions {
  import opened Wrappers
  import opened Text
  import opened Content

  /** The menu's state: the busy flag and the two confirmation dialogs. */
  datatype Ui = Ui(isProcessing: bool, archiveOpen: bool, deleteOpen: bool)

  /** One call into Firestore or Storage, in the order it was made. */
  datatype Call =
    | GetDoc(id: Id)
    | UpdateStatus(id: Id, status: Str)
    | DeleteObject(url: Str)
    | DeleteDoc(id: Id)

  datatype Outcome = Done | Failed

  /** The stores after an action, the calls it made, how it ended, and the menu. */
  datatype Step = Step(store: Store, calls: seq<Call>, outcome: Outcome, ui: Ui)

  /** `handleArchive`: one `updateDoc` setting the status to "archived". The
      update throws when the document does not exist or is refused. Either
      way the busy flag is cleared and the archive dialog closed. */
  function Archive(s: Store, id: Id, ui: Ui, writeOk: bool): (r: Step)
    ensures r.calls == [UpdateStatus(id, ArchivedStatus)]
    ensures r.outcome == Done <==> id in s.docs && writeOk
    ensures r.outcome == Failed ==> r.store == s
    ensures r.outcome == Done ==>
      && r.store.docs.Keys == s.docs.Keys
      && r.store.docs[id] == s.docs[id].(status := ArchivedStatus)
    ensures r.store.blobs == s.blobs
    ensures OthersUnchanged(s.docs, r.store.docs, id)
    ensures r.ui == Ui(false, false, ui.deleteOpen)
  {
    var calls := [UpdateStatus(id, ArchivedStatus)];
    var closed := ui.(isProcessing := false, archiveOpen := false);
    if id in s.docs && writeOk then
      Step(Store(s.docs[id := s.docs[id].(status := ArchivedStatus)], s.blobs), calls, Done, closed)
    else Step(s, calls, Failed, closed)
  }

  /** The calls a complete delete of `id` makes, in order: read the document,
      remove its file when it names one, remove the document. */
  function DeletePlan(s: Store, id: Id): seq<Call>
    requires id in s.docs
  {
    var url := s.docs[id].fileUrl;
    [GetDoc(id)] + (if Truthy(url) then [DeleteObject(url.value)] else []) + [DeleteDoc(id)]
  }

  predicate IsPrefix(p: seq<Call>, s: seq<Call>)
  {
    |p| <= |s| && s[..|p|] == p
  }

  /** `handleDelete`. The document is read (`getOk` false: the read throws); a
      missing document throws. When its `fileUrl` is truthy the file is
      removed first; `deleteObject` throws when the object is not in the
      bucket or the call is refused (`objectOk` false), and then the document
      stays. Last the document is removed (`deleteOk` false: refused). The
      busy flag is cleared and the delete dialog closed however it ends. */
  function Delete(s: Store, id: Id, ui: Ui, getOk: bool, objectOk: bool, deleteOk: bool): (r: Step)
    ensures r.outcome == Done <==>
      && getOk && id in s.docs
      && (Truthy(s.docs[id].fileUrl) ==> objectOk && s.docs[id].fileUrl.value in s.blobs)
      && deleteOk
    ensures r.calls != [] && r.calls[0] == GetDoc(id)
    ensures id in s.docs ==> IsPrefix(r.calls, DeletePlan(s, id))
    ensures getOk && id in s.docs ==>
      |r.calls| == (if Truthy(s.docs[id].fileUrl)
                       && (!objectOk || s.docs[id].fileUrl.value !in s.blobs)
                    then 2 else |DeletePlan(s, id)|)
    ensures id !in s.docs ==> r.store == s && r.outcome == Failed && r.calls == [GetDoc(id)]
    ensures r.outcome == Done ==>
      && r.store.docs == s.docs - {id}
      && r.store.blobs == s.blobs - (if Truthy(s.docs[id].fileUrl) then {s.docs[id].fileUrl.value} else {})
    ensures id !in r.store.docs ==> r.outcome == Done || id !in s.docs
    ensures r.store.docs.Keys <= s.docs.Keys
    ensures OthersUnchanged(s.docs, r.store.docs, id)
    ensures r.store.blobs <= s.blobs
    ensures !getOk ==> r.calls == [GetDoc(id)] && r.store == s && r.outcome == Failed
    ensures r.outcome == Failed ==> r.store.docs == s.docs
    ensures r.store.blobs != s.blobs ==>
      && id in s.docs && Truthy(s.docs[id].fileUrl)
      && r.calls == DeletePlan(s, id)
      && r.store.blobs == s.blobs - {s.docs[id].fileUrl.value}
    ensures r.ui == Ui(false, ui.archiveOpen, false)
  {
    var closed := ui.(isProcessing := false, deleteOpen := false);
    if !getOk || id !in s.docs then Step(s, [GetDoc(id)], Failed, closed)
    else
      var url := s.docs[id].fileUrl;
      if Truthy(url) && (!objectOk || url.value !in s.blobs) then
        Step(s, [GetDoc(id), DeleteObject(url.value)], Failed, closed)
      else
        var blobs := if Truthy(url) then s.blobs - {url.value} else s.blobs;
        var calls := DeletePlan(s, id);
        if !deleteOk then Step(Store(s.docs, blobs), calls, Failed, closed)
        else Step(Store(s.docs - {id}, blobs), calls, Done, closed)
  }

  /** Archiving never removes a document or a file: every id and every object
      is still there afterwards, and the document keeps naming its file. */
  lemma ArchiveKeepsEverything(s: Store, id: Id, ui: Ui, writeOk: bool)
    ensures var r := Archive(s, id, ui, writeOk);
      && r.store.docs.Keys == s.docs.Keys
      && r.store.blobs == s.blobs
      && (id in s.docs ==> r.store.docs[id].fileUrl == s.docs[id].fileUrl)
  {
  }

  /** When the document names a file, the file is removed before the document:
      a `DeleteDoc` call is always preceded by the `DeleteObject` call. */
  lemma FileRemovedBeforeDocument(s: Store, id: Id, ui: Ui, getOk: bool, objectOk: bool, deleteOk: bool)
    requires id in s.docs && Truthy(s.docs[id].fileUrl)
    ensures var r := Delete(s, id, ui, getOk, objectOk, deleteOk);
      forall k :: 0 <= k < |r.calls| && r.calls[k] == DeleteDoc(id) ==>
        k == 2 && r.calls[1] == DeleteObject(s.docs[id].fileUrl.value)
  {
  }

  /** Without a file name no Storage call is made. */
  lemma NoFileNoStorageCall(s: Store, id: Id, ui: Ui, getOk: bool, objectOk: bool, deleteOk: bool)
    requires id in s.docs && !Truthy(s.docs[id].fileUrl)
    ensures var r := Delete(s, id, ui, getOk, objectOk, deleteOk);
      && (forall k :: 0 <= k < |r.calls| ==> !r.calls[k].DeleteObject?)
      && r.store.blobs == s.blobs
  {
  }

  /** Removing the file is not best-effort: when it fails the document stays
      and the action ends in the error branch. */
  lemma FileFailureKeepsDocument(s: Store, id: Id, ui: Ui, getOk: bool, deleteOk: bool)
    requires id in s.docs && Truthy(s.docs[id].fileUrl)
    ensures var r := Delete(s, id, ui, getOk, false, deleteOk);
      && r.outcome == Failed
      && r.store == s
      && (forall k :: 0 <= k < |r.calls| ==> !r.calls[k].DeleteDoc?)
  {
  }

  /** The two calls are not atomic: when the file goes but the document
      removal is refused, the document remains and names a file that is gone. */
  lemma DanglingFileAfterPartialDelete(s: Store, id: Id, ui: Ui)
    requires id in s.docs && Truthy(s.docs[id].fileUrl) && s.docs[id].fileUrl.value in s.blobs
    ensures var r := Delete(s, id, ui, true, true, false);
      && r.outcome == Failed
      && id in r.store.docs
      && s.docs[id].fileUrl.value !in r.store.blobs
  {
  }
}
