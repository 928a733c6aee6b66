# Eduverse content rules, modelled in Dafny

Eduverse is a web application where users upload educational content, an AI
classifier decides whether it is educational, an AI tagger proposes tags, and
owners edit, archive and delete what they uploaded. Almost all of it is UI and
Firebase plumbing. This project lifts the small rules hidden in its event
handlers out as pure functions and transitions over a map-based store, and
proves what they guarantee:

- the edit form's tag editor (add with trim, no duplicates, at most five;
  remove), its schema, and the update it writes (`EditForm`);
- the upload form's schema and its moderate-then-tag handler, with the two AI
  services as replies given to the model (`UploadForm`);
- archive and delete on the `content` collection and the storage bucket
  (`ContentActions`);
- the owner's list: the live query and the `{id, title}` projection
  (`ContentList`);
- the feed card's preview choice and its first-three-tags rule (`ContentCard`);
- the sample catalogue's sorted, de-duplicated tag index (`TagCatalogue`);
- the idempotent user-provisioning endpoint (`UserRoute`).

Shared pieces: `Wrappers` (`Option`, `Result`, and `Reply`, the outcome of an
awaited outside call), `Text` (strings and JavaScript's `trim`/`startsWith`),
`Order` (the default `sort()` order and an insertion sort), `Content` (the
content document, the store, the `/content/{id}` path) and `Validation` (the
title and description rules both schemas share).

Modelling conventions:

- A string is `seq<char>` and each element stands for one UTF-16 code unit, so
  `|s|` is JavaScript's `.length` (which is what zod's `min`/`max` count) and
  `<` on elements is the code-unit order the default `sort()` uses. This holds
  only for text within the Basic Multilingual Plane (see "Left out").
- `trim` strips the ECMAScript WhiteSpace and LineTerminator code points
  (`Text.IsSpace`).
- Firestore, Storage and the AI flows are not modelled. Whether one of their
  calls throws is a boolean or `Reply` parameter, and its effect on the stored
  data is a pure transition. Failures that follow from the data itself are
  modelled directly: `updateDoc` on a missing document, `deleteObject` on an
  object that is not in the bucket.
- A JavaScript-falsy optional string (`undefined`, `null` or `""`) is
  `!Content.Truthy(s)`.

Behaviour worth knowing:

- The upload handler never uploads a file and never creates a document. It
  validates, classifies and tags, and shows the tagger's tags exactly as
  returned: they are not lower-cased, merged with user tags or de-duplicated.
  There is no record status lifecycle on this path.
- The upload schema's file type is one of `text`, `image`, `video`, `pdf`.
  There is no file size or MIME allow-list.
- Deleting content is not best-effort. If removing the file throws, the
  document is not deleted. If the file is removed but removing the document
  throws, the document stays and points at a file that is gone
  (`ContentActions.DanglingFileAfterPartialDelete`).
- The edit schema's tag bound checks the form's `tags` field. That field keeps
  the document's original tags, because the tag editor never writes it. The
  update writes the editor's tags, and the editor keeps its own bound of five
  (`EditForm.EditorInvariant`, `EditForm.EditingSessionBounded`,
  `EditForm.SubmitKeepsIdentity`).
- Neither archive nor delete checks who owns the document. The only ownership
  check is in the edit page, on the client, before the edit form is shown.
- With no user signed in, the owner's list stops loading but keeps the items
  it already had (`ContentList.OnEvent`).

## Model

| member | source | states |
|---|---|---|
| Text.Trim | src/components/edit-form.tsx:71 | the trimmed text is the input with a whitespace-only prefix and a whitespace-only suffix cut off; it is empty exactly when the input is all whitespace, never starts or ends with whitespace, and text without surrounding whitespace is kept as is |
| Text.TrimUnique | src/components/edit-form.tsx:71 | for any input made of a whitespace prefix, a middle that is empty or neither starts nor ends with whitespace, and a whitespace suffix, the trimmed text is exactly that middle |
| Validation.TextIssues | src/components/upload-form.tsx:33-39 | a title issue is reported exactly when the title is shorter than 5 code units, a description issue exactly when the description is shorter than 20 |
| EditForm.Open | src/components/edit-form.tsx:55-56 | the editor opens with the document's tags, or no tags when the document has no `tags` field, and an empty tag box |
| EditForm.AddTag | src/components/edit-form.tsx:71-75 | the list either stays as it is or gains the trimmed input at its end, and it changes exactly when that input is non-empty, not already listed (case-sensitive) and fewer than 5 tags are listed |
| EditForm.KeyDown | src/components/edit-form.tsx:68-77 | keys other than Enter change nothing; Enter applies the add rule to the box's text; the box is cleared exactly when a tag was added |
| EditForm.RemoveTag | src/components/edit-form.tsx:79-81 | every occurrence of the tag is gone, every other tag keeps its multiplicity, and removing an absent tag changes nothing |
| EditForm.RemoveTagKeepsOrder | src/components/edit-form.tsx:80 | removal distributes over concatenation, so the remaining tags keep their original order |
| EditForm.EditorInvariant | src/components/edit-form.tsx:72 | a list of at most 5 distinct tags stays so after any key press and any removal |
| EditForm.ReplayBounded | src/components/edit-form.tsx:68-81 | over any sequence of typing, key presses and removals, the list never grows past the larger of its starting length and 5, and a list of at most 5 distinct tags stays so |
| EditForm.EditingSessionBounded | src/components/edit-form.tsx:55-81 | from the form's opening state, a document with at most 5 distinct tags (or none) keeps the editor's list that way for the whole session, and a document with 5 or more tags never gains one |
| EditForm.AddTagIdempotent | src/components/edit-form.tsx:72-73 | adding the same text twice gives the same list as adding it once |
| EditForm.RemoveUndoesAdd | src/components/edit-form.tsx:73-80 | removing a tag right after it was added restores the previous list |
| EditForm.DuplicateCheckIsCaseSensitive | src/components/edit-form.tsx:72 | "math" is added next to "Math": the duplicate check is exact |
| EditForm.ValidateEdit | src/components/edit-form.tsx:28-37 | accepts exactly when the title has at least 5 code units, the description at least 20, and the tags field, if present, at most 5 entries; too many tags is reported exactly then |
| EditForm.Submit | src/components/edit-form.tsx:83-107 | invalid values write nothing; a save happens exactly for valid values, an existing document and an accepted write; it replaces title, description, isPaid and tags (the editor's) and nothing else in that document, touches no other document or file, and redirects to the item's page; the busy flag ends false |
| EditForm.SubmitKeepsIdentity | src/components/edit-form.tsx:86-90 | owner, status, file URL and file type of the edited document are unchanged, and saved tags keep the editor's bound and distinctness |
| UploadForm.ParseFileType | src/components/upload-form.tsx:40 | a file type is accepted exactly when it is one of text, image, video, pdf, and it reads back to its own spelling |
| UploadForm.FileTypeRoundTrip | src/components/upload-form.tsx:40 | every enum value is recognised from its spelling |
| UploadForm.ValidateUpload | src/components/upload-form.tsx:33-41 | accepts exactly when the title has at least 5 code units, the description at least 20 and the file type is in the enum; accepted values are the input; each rejected rule is reported |
| UploadForm.Submit | src/components/upload-form.tsx:60-109 | invalid input calls nothing and changes nothing; otherwise the classifier is called first, once, with the submitted values; the tagger is called once, with title, description and the file type as content type, exactly when the classifier approved; afterwards loading is off, success holds exactly when both calls answered and the content was approved, the shown tags are the tagger's answer unchanged on success and empty otherwise |
| UploadForm.TagPanelShown | src/components/upload-form.tsx:184 | the tag panel shows after a valid submission exactly when the content was approved and the tagger returned at least one tag |
| UploadForm.ApprovedExample | src/components/upload-form.tsx:85-92 | an approved submission shows the tagger's tags as returned, duplicates and capitals included |
| UploadForm.RejectedExample | src/components/upload-form.tsx:61-77 | a rejected submission never calls the tagger and clears the tags a previous submission showed |
| ContentActions.Archive | src/components/my-content-actions.tsx:40-60 | one status update; it succeeds exactly for an existing document and an accepted write, then sets only that document's status to "archived"; nothing is removed, no other document or file changes; a failure changes nothing; the busy flag ends false and the archive dialog closed |
| ContentActions.Delete | src/components/my-content-actions.tsx:62-99 | the calls follow read, remove file (only when the URL is truthy), remove document: each call that succeeds is followed by the next, and the first throw stops the rest; success needs the read, the file removal and the document removal to succeed, and then exactly that document and its file are gone; a failed read or a missing document makes only the read and changes nothing; any failure keeps every document; a file is removed only after all three calls were made, and only the document's own file; the busy flag ends false and the delete dialog closed |
| ContentActions.ArchiveKeepsEverything | src/components/my-content-actions.tsx:43-44 | archiving keeps every document id, every file, and the archived document's file URL |
| ContentActions.FileRemovedBeforeDocument | src/components/my-content-actions.tsx:76-82 | with a file URL, the document removal is the third call and the file removal precedes it |
| ContentActions.NoFileNoStorageCall | src/components/my-content-actions.tsx:76-82 | without a truthy file URL, no storage call is made and no file is removed |
| ContentActions.FileFailureKeepsDocument | src/components/my-content-actions.tsx:76-94 | when the file removal fails, the action ends in the error branch, the store is unchanged, and the document removal is never called |
| ContentActions.DanglingFileAfterPartialDelete | src/components/my-content-actions.tsx:76-82 | when the file is removed but the document removal fails, the document remains and its file is gone |
| ContentList.QueryOf | src/components/my-content-list.tsx:22-32 | a query is made exactly when a user is signed in, for that user's documents with status other than "archived" |
| ContentList.Select | src/components/my-content-list.tsx:28-32 | the delivered documents are exactly the collection's documents that match the query |
| ContentList.SelectKeepsOrder | src/components/my-content-list.tsx:28-32 | the filter keeps the order of the sequence it is given, working piece by piece on any split of it; that sequence is taken to be in the order Firestore delivers (see "Left out") |
| ContentList.Project | src/components/my-content-list.tsx:34-43 | one item per delivered document, in delivery order, carrying that document's id and title |
| ContentList.OnEvent | src/components/my-content-list.tsx:22-48 | every event ends loading; a snapshot replaces the items with the listing, while signing out and a listener error keep the items |
| ContentList.ListingExact | src/components/my-content-list.tsx:28-43 | the listed ids are exactly the ids of the user's documents whose status is not "archived" |
| ContentList.ListingSound | src/components/my-content-list.tsx:28-43 | each listed item belongs to the user, is not archived, and shows the stored title |
| ContentList.ListingComplete | src/components/my-content-list.tsx:28-43 | each of the user's documents that is not archived is listed |
| ContentList.ListingOncePerDocument | src/components/my-content-list.tsx:35-43 | the list has exactly one entry per listed document |
| ContentList.ArchivedIsUnlisted | src/components/my-content-list.tsx:31 | after a successful archive the document is no longer on its owner's list |
| Content.ContentPath | src/components/content-card.tsx:60 | the card's link starts with "/content/" and the id can be read back from the rest |
| ContentCard.PreviewOf | src/components/content-card.tsx:13-57 | a missing or empty file type or URL gives the placeholder; otherwise an "image/" prefix gives an image of the URL, else a "video/" prefix a video of the URL, else exactly "application/pdf" the PDF icon |
| ContentCard.PlaceholderOtherwise | src/components/content-card.tsx:13-57 | the placeholder is chosen exactly when none of the image, video and PDF cases applies |
| ContentCard.PdfNeedsExactType | src/components/content-card.tsx:45 | "application/pdf" gets the PDF icon, and "application/pdfx" gets the placeholder |
| ContentCard.Badges | src/components/content-card.tsx:72 | at most three badges, which are the first tags in their original order |
| Order.Sort | src/lib/data.ts:54 | the sorted array is in ascending code-unit order and is a permutation of its input |
| Order.StrictlySortedUnique | src/lib/data.ts:54 | two strictly ascending arrays holding the same strings are equal |
| TagCatalogue.FlatTags | src/lib/data.ts:54 | the flattened array holds exactly the tags some item carries |
| TagCatalogue.Unique | src/lib/data.ts:54 | the set's array holds the same strings as its input, with no duplicates |
| TagCatalogue.AllTags | src/lib/data.ts:54 | a string is in `allTags` exactly when some item carries it, and `allTags` is strictly ascending in code-unit order, so it has no duplicates |
| TagCatalogue.SortKeepsMembers | src/lib/data.ts:54 | sorting keeps exactly the strings it was given |
| TagCatalogue.SortDistinct | src/lib/data.ts:54 | sorting the set's duplicate-free array gives a strictly ascending array |
| TagCatalogue.SampleCatalogue | src/lib/data.ts:9-54 | for the sample data, `allTags` is the 17 listed tags in order, with "Creativity" once |
| UserRoute.NewProfile | src/app/api/user/route.ts:22-27 | a new profile stores the email, the display name only when it is non-empty (otherwise null), and no followed topics |
| UserRoute.Post | src/app/api/user/route.ts:5-35 | 400 is answered exactly when the uid or the email is falsy; an existing profile answers 200; a new one is written and answers 201; unreadable input, a thrown read and a thrown write all answer 500; only 201 changes the store, adding exactly the new profile |
| UserRoute.PostTouchesOnlyItsUser | src/app/api/user/route.ts:13-22 | no profile other than the request's uid is created, changed or removed |
| UserRoute.PostIdempotent | src/app/api/user/route.ts:13-29 | after a request that found or created the profile, a repeat for the same uid answers 200 (500 if the read fails), changes nothing, and exactly one profile exists for the uid |

## Left out

- The AI flows (`src/ai/flows/content-moderation.ts`, `src/ai/flows/auto-tagging.ts`) are prompt definitions. Only their input and output shapes appear, as `UploadForm.Verdict`, `UploadForm.Call` and the tagger's `seq<Str>` reply. The tagger's "3-5 tags" is prompt wording, not a checked bound, so no bound is assumed.
- `functions/src/index.ts` (an unconditional profile `set` on account creation), `auth-button.tsx`, `page-header.tsx` and `logo.tsx` are SDK calls or rendering, and are not part of this model.
- Toasts, router navigation other than the edit redirect, JSX rendering, `form.reset()` after a successful upload, and the intermediate `isLoading = true` states while a call is awaited are not modelled. Only the state each handler leaves behind is modelled.
- Server timestamps (`createdAt` of a profile) are not modelled: the profile has no timestamp field.
- `UserRoute.Post`: request fields are modelled as optional strings. JSON values of other types (numbers, booleans, objects) are not modelled, and neither are document-path errors for a uid containing "/". Those paths throw and answer 500 in the code, and the model covers them only through `getOk`/`setOk`.
- ContentList.SelectKeepsOrder: a query with a `!=` filter comes back ordered by the filtered field (`status`) and then by document id, not in collection order. For example, "a" with status "pending" and "b" with status "approved" come back as b, a. This reordering is not modelled: the input sequence is assumed to be already in delivery order, so the listed order is not promised.
- `ContentList.Select`: Firestore's `!=` filter also drops documents that have no `status` field. The model's documents always have a status, so this case is not modelled. `Select` keeps the order of the sequence it is given, and that sequence is assumed to be in the order Firestore delivers (see the `ContentList.SelectKeepsOrder` line above).
- The `onSnapshot` subscription lifecycle (unsubscribe on unmount, repeated snapshots), concurrent edits and async interleaving are not modelled.
- Ownership is not checked by the modelled actions, because the code does not check it: `my-content-actions.tsx` archives or deletes whatever id it is given. The only ownership check is client-side, in `src/app/(main)/my-content/[contentId]/edit/page.tsx` (line 49), before the edit form is shown. No security rules file is part of this model.
- The edit page's loading and permission check (`src/app/(main)/my-content/[contentId]/edit/page.tsx`) is context only and is not modelled.
- Text outside the Basic Multilingual Plane is not modelled. A Dafny `char` cannot be a lone surrogate (U+D800 to U+DFFF), so a character such as an emoji, which is two UTF-16 code units and counts 2 in JavaScript's `.length`, can only be one element here. For such text the model's length checks (`Validation.TextIssues`, minimums 5 and 20) and the sort order of `Order.Below` can differ from the code's.
