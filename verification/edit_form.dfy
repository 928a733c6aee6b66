/** The edit form of one content item: the tag editor beside the form, the
    form's schema, and the update `onSubmit` sends to the document. */
module EditForm {
  import opened Wrappers
  import opened Text
  import opened Content
  import opened Validation

  /** No tag occurs twice (exact, case-sensitive comparison). */
  predicate Distinct(tags: seq<Str>)
  {
    forall i, j :: 0 <= i < j < |tags| ==> tags[i] != tags[j]
  }

  /** What the editor keeps true of its list: at most five tags, none twice. */
  predicate WellFormed(tags: seq<Str>)
  {
    |tags| <= MaxTags && Distinct(tags)
  }

  /** The tag editor's local state: the chosen tags and the tag box's text. */
  datatype Editor = Editor(tags: seq<Str>, input: Str)

  /** The editor as the form opens: the document's tags (none when the
      document has no `tags` field) and an empty box. */
  function Open(initialTags: Option<seq<Str>>): (e: Editor)
    ensures e.input == []
    ensures initialTags.Some? ==> e.tags == initialTags.value
    ensures initialTags.None? ==> e.tags == []
  {
    Editor(if initialTags.Some? then initialTags.value else [], [])
  }

  /** The add-tag rule: the trimmed box text joins the end of the list exactly
      when it is non-empty, not already listed and the list is not full. */
  function AddTag(tags: seq<Str>, raw: Str): (r: seq<Str>)
    ensures r == tags || r == tags + [Trim(raw)]
    ensures r != tags <==> Trim(raw) != [] && Trim(raw) !in tags && |tags| < MaxTags
  {
    var tag := Trim(raw);
    if tag != [] && tag !in tags && |tags| < MaxTags then tags + [tag] else tags
  }

  /** A key press in the tag box. Only Enter does anything: it adds the box's
      text as a tag, and the box is emptied exactly when a tag was added. */
  function KeyDown(e: Editor, key: Str): (r: Editor)
    ensures key != "Enter" ==> r == e
    ensures key == "Enter" ==> r.tags == AddTag(e.tags, e.input)
    ensures r.input == (if r.tags == e.tags then e.input else [])
  {
    if key == "Enter" then
      var tags := AddTag(e.tags, e.input);
      if tags != e.tags then Editor(tags, []) else e
    else e
  }

  /** The remove button of one badge: every occurrence of `t` goes, every
      other tag stays, as often as it was there. */
  function RemoveTag(tags: seq<Str>, t: Str): (r: seq<Str>)
    ensures forall x :: x in r <==> x in tags && x != t
    ensures multiset(r) == multiset(tags)[t := 0]
    ensures t !in tags ==> r == tags
    ensures |r| <= |tags|
  {
    if tags == [] then []
    else
      assert tags == [tags[0]] + tags[1..];
      (if tags[0] == t then [] else [tags[0]]) + RemoveTag(tags[1..], t)
  }

  /** Removal keeps the remaining tags in their order: it works piece by
      piece on any split of the list. */
  lemma {:induction false} RemoveTagKeepsOrder(a: seq<Str>, b: seq<Str>, t: Str)
    ensures RemoveTag(a + b, t) == RemoveTag(a, t) + RemoveTag(b, t)
  {
    if a == [] {
      assert a + b == b;
    } else {
      assert (a + b)[0] == a[0];
      assert (a + b)[1..] == a[1..] + b;
      RemoveTagKeepsOrder(a[1..], b, t);
    }
  }

  /** Removal keeps a duplicate-free list duplicate-free. */
  lemma {:induction false} RemoveTagDistinct(tags: seq<Str>, t: Str)
    requires Distinct(tags)
    ensures Distinct(RemoveTag(tags, t))
  {
    if tags != [] {
      var rest := RemoveTag(tags[1..], t);
      RemoveTagDistinct(tags[1..], t);
      assert tags[0] !in tags[1..];
      assert tags[0] !in rest;
    }
  }

  /** The editor's invariant survives every key press and every removal. */
  lemma EditorInvariant(e: Editor, key: Str, t: Str)
    requires WellFormed(e.tags)
    ensures WellFormed(KeyDown(e, key).tags)
    ensures WellFormed(RemoveTag(e.tags, t))
  {
    RemoveTagDistinct(e.tags, t);
  }

  /** What the user does in the tag editor: type into the box, press a key in
      it, or click a badge's remove button. */
  datatype Action = Type(text: Str) | Press(key: Str) | Remove(tag: Str)

  function Apply(e: Editor, a: Action): Editor
  {
    match a
    case Type(text) => e.(input := text)
    case Press(key) => KeyDown(e, key)
    case Remove(t) => e.(tags := RemoveTag(e.tags, t))
  }

  /** The editor after a sequence of actions, first to last. */
  function Replay(e: Editor, actions: seq<Action>): Editor
    decreases |actions|
  {
    if actions == [] then e else Replay(Apply(e, actions[0]), actions[1..])
  }

  /** Over any sequence of actions the list never grows past the larger of
      its starting length and five, and a well-formed list stays well-formed. */
  lemma {:induction false} ReplayBounded(e: Editor, actions: seq<Action>)
    ensures var f := Replay(e, actions);
      && |f.tags| <= (if |e.tags| < MaxTags then MaxTags else |e.tags|)
      && (WellFormed(e.tags) ==> WellFormed(f.tags))
    decreases |actions|
  {
    if actions != [] {
      var next := Apply(e, actions[0]);
      if WellFormed(e.tags) {
        EditorInvariant(e, if actions[0].Press? then actions[0].key else [],
                        if actions[0].Remove? then actions[0].tag else []);
      }
      assert |next.tags| <= (if |e.tags| < MaxTags then MaxTags else |e.tags|);
      ReplayBounded(next, actions[1..]);
    }
  }

  /** An editing session from the form's opening state: tags loaded from a
      document with at most five distinct tags stay that way, and a document
      that already has more never gains one. */
  lemma EditingSessionBounded(initialTags: Option<seq<Str>>, actions: seq<Action>)
    ensures var f := Replay(Open(initialTags), actions);
      && (initialTags.None? ==> WellFormed(f.tags))
      && (initialTags.Some? && WellFormed(initialTags.value) ==> WellFormed(f.tags))
      && (initialTags.Some? && |initialTags.value| >= MaxTags ==> |f.tags| <= |initialTags.value|)
  {
    ReplayBounded(Open(initialTags), actions);
  }

  /** Adding the same text again changes nothing. */
  lemma AddTagIdempotent(tags: seq<Str>, raw: Str)
    ensures AddTag(AddTag(tags, raw), raw) == AddTag(tags, raw)
  {
    var r := AddTag(tags, raw);
    if r != tags {
      assert Trim(raw) == r[|r| - 1];
    }
  }

  /** Removing a tag right after adding it restores the list. */
  lemma {:induction false} RemoveUndoesAdd(tags: seq<Str>, raw: Str)
    requires AddTag(tags, raw) != tags
    ensures RemoveTag(AddTag(tags, raw), Trim(raw)) == tags
  {
    RemoveTagKeepsOrder(tags, [Trim(raw)], Trim(raw));
  }

  /** The duplicate check is exact: a tag differing only in case is added. */
  lemma DuplicateCheckIsCaseSensitive()
    ensures AddTag(["Math"], "math") == ["Math", "math"]
  {
    assert !IsSpace('m') && !IsSpace('h');
    assert Trim("math") == "math";
    assert "math" != "Math" by { assert "math"[0] != "Math"[0]; }
  }

  /** The values the form's schema checks. `tags` is the form field, which
      holds the document's original tags: the editor never writes it. */
  datatype EditValues = EditValues(title: Str, description: Str, isPaid: bool, tags: Option<seq<Str>>)

  /** The edit schema: title and description lengths, and at most five tags
      when the field is present. */
  function ValidateEdit(v: EditValues): (r: seq<Issue>)
    ensures r == [] <==>
      && |v.title| >= MinTitle
      && |v.description| >= MinDescription
      && (v.tags.None? || |v.tags.value| <= MaxTags)
    ensures TooManyTags in r <==> v.tags.Some? && |v.tags.value| > MaxTags
    ensures UnknownFileType !in r
  {
    TextIssues(v.title, v.description)
    + (if v.tags.Some? && |v.tags.value| > MaxTags then [TooManyTags] else [])
  }

  datatype EditOutcome = Invalid(issues: seq<Issue>) | Saved(redirect: Str) | Failed

  /** The store after a submission, what the user saw, and the save button's
      `isSubmitting` flag. */
  datatype EditResult = EditResult(store: Store, outcome: EditOutcome, isSubmitting: bool)

  /** Submitting the form. Invalid values never reach `onSubmit`. Otherwise
      `updateDoc` writes title, description and isPaid from the form and the
      editor's tags; it fails when the document is missing or the write is
      refused (`writeOk` false). */
  function Submit(s: Store, id: Id, v: EditValues, editorTags: seq<Str>,
                  submitting: bool, writeOk: bool): (r: EditResult)
    ensures r.outcome.Invalid? <==> ValidateEdit(v) != []
    ensures r.outcome.Invalid? ==> r.outcome.issues == ValidateEdit(v) && r.isSubmitting == submitting
    ensures r.outcome.Saved? <==> ValidateEdit(v) == [] && id in s.docs && writeOk
    ensures !r.outcome.Saved? ==> r.store == s
    ensures r.outcome.Saved? ==>
      && r.store.docs.Keys == s.docs.Keys
      && r.store.docs[id] == s.docs[id].(title := v.title, description := v.description,
                                          isPaid := v.isPaid, tags := editorTags)
      && r.outcome.redirect == ContentPath(id)
    ensures r.store.blobs == s.blobs
    ensures OthersUnchanged(s.docs, r.store.docs, id)
    ensures !r.outcome.Invalid? ==> !r.isSubmitting
  {
    var issues := ValidateEdit(v);
    if issues != [] then EditResult(s, Invalid(issues), submitting)
    else if id !in s.docs || !writeOk then EditResult(s, Failed, false)
    else
      var current := s.docs[id];
      var updated := current.(title := v.title, description := v.description,
                          isPaid := v.isPaid, tags := editorTags);
      EditResult(Store(s.docs[id := updated], s.blobs), Saved(ContentPath(id)), false)
  }

  /** A save keeps the owner, status, file and file type of the document,
      and the stored tags inherit the editor's invariant. */
  lemma SubmitKeepsIdentity(s: Store, id: Id, v: EditValues, editorTags: seq<Str>,
                            submitting: bool, writeOk: bool)
    requires id in s.docs
    requires WellFormed(editorTags)
    ensures var r := Submit(s, id, v, editorTags, submitting, writeOk);
      && id in r.store.docs
      && r.store.docs[id].ownerId == s.docs[id].ownerId
      && r.store.docs[id].status == s.docs[id].status
      && r.store.docs[id].fileUrl == s.docs[id].fileUrl
      && r.store.docs[id].fileType == s.docs[id].fileType
      && (r.outcome.Saved? ==> WellFormed(r.store.docs[id].tags))
  {
  }
}
