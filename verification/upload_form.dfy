/** The upload form: its schema, and the submission handler that asks the
    classifier whether the content is educational and, if it is, asks the
    tagger for tags. The two AI calls are outside services; their replies
    are parameters. */
module UploadForm {
  import opened Wrappers
  import opened Text
  import opened Validation

  /** The schema's `fileType` enum, which is also the tagger's `contentType`. */
  datatype FileType = TextFile | ImageFile | VideoFile | PdfFile

  /** The enum value as the form and the AI prompts spell it. */
  function FileTypeName(t: FileType): Str
  {
    match t
    case TextFile => "text"
    case ImageFile => "image"
    case VideoFile => "video"
    case PdfFile => "pdf"
  }

  /** Reads the form's content-type field: one of the four enum spellings. */
  function ParseFileType(s: Str): (r: Option<FileType>)
    ensures r.Some? <==> s in {"text", "image", "video", "pdf"}
    ensures r.Some? ==> FileTypeName(r.value) == s
  {
    if s == "text" then Some(TextFile)
    else if s == "image" then Some(ImageFile)
    else if s == "video" then Some(VideoFile)
    else if s == "pdf" then Some(PdfFile)
    else None
  }

  /** Every enum value is read back from its own spelling. */
  lemma FileTypeRoundTrip(t: FileType)
    ensures ParseFileType(FileTypeName(t)) == Some(t)
  {
  }

  /** The raw form fields. */
  datatype UploadInput = UploadInput(title: Str, description: Str, fileType: Str)

  /** The fields after the schema accepted them. */
  datatype UploadValues = UploadValues(title: Str, description: Str, fileType: FileType)

  /** The upload schema: title and description lengths, and a known file type.
      Accepted values carry the input unchanged. */
  function ValidateUpload(i: UploadInput): (r: Result<UploadValues, seq<Issue>>)
    ensures r.Success? <==>
      && |i.title| >= MinTitle
      && |i.description| >= MinDescription
      && i.fileType in {"text", "image", "video", "pdf"}
    ensures r.Success? ==>
      && r.value.title == i.title
      && r.value.description == i.description
      && FileTypeName(r.value.fileType) == i.fileType
    ensures r.Failure? ==>
      && (TitleTooShort in r.error <==> |i.title| < MinTitle)
      && (DescriptionTooShort in r.error <==> |i.description| < MinDescription)
      && (UnknownFileType in r.error <==> i.fileType !in {"text", "image", "video", "pdf"})
  {
    var parsed := ParseFileType(i.fileType);
    var issues := TextIssues(i.title, i.description)
                  + (if parsed.None? then [UnknownFileType] else []);
    if issues == [] then Success(UploadValues(i.title, i.description, parsed.value))
    else Failure(issues)
  }

  /** The classifier's answer. */
  datatype Verdict = Verdict(isEducational: bool, reason: Str)

  /** One call into an AI service, with the arguments it was given. */
  datatype Call =
    | Classify(title: Str, description: Str, fileType: FileType)
    | GenerateTags(title: Str, description: Str, contentType: FileType)

  /** The form's state that the page shows. */
  datatype Ui = Ui(isLoading: bool, isSuccess: bool, generatedTags: seq<Str>)

  /** One submission: the AI calls made, in order, and the state left behind. */
  datatype Run = Run(calls: seq<Call>, ui: Ui)

  /** Whether the classifier let the content through. */
  predicate Approved(classify: Reply<Verdict>)
  {
    classify.Ok? && classify.value.isEducational
  }

  /** Submitting the form from state `prev`, with `classify` and `tag` the
      replies the two services would give. Invalid input never reaches the
      handler. A valid submission clears the success flag and the tags, calls
      the classifier, stops if the content is not educational, and otherwise
      calls the tagger and shows its tags as they are. A failed call ends in
      the error branch. Loading is off whenever the handler ends. */
  function Submit(prev: Ui, i: UploadInput, classify: Reply<Verdict>, tag: Reply<seq<Str>>): (r: Run)
    // the handler runs exactly for valid input; a refused form changes nothing
    ensures r.calls == [] <==> ValidateUpload(i).Failure?
    ensures r.calls == [] ==> r.ui == prev
    // the classifier is called once, first, with the submitted values
    ensures r.calls != [] ==>
      r.calls[0] == Classify(i.title, i.description, ValidateUpload(i).value.fileType)
    // the tagger is called at most once, and only when the content was approved,
    // with title, description and the form's file type as content type
    ensures |r.calls| <= 2
    ensures |r.calls| == 2 <==> ValidateUpload(i).Success? && Approved(classify)
    ensures |r.calls| == 2 ==> r.calls[1] == GenerateTags(i.title, i.description, r.calls[0].fileType)
    // every run of the handler ends with loading off; success shows the
    // tagger's answer unchanged, any other ending shows no tags
    ensures r.calls != [] ==>
      && !r.ui.isLoading
      && (r.ui.isSuccess <==> Approved(classify) && tag.Ok?)
      && (r.ui.isSuccess ==> r.ui.generatedTags == tag.value)
      && (!r.ui.isSuccess ==> r.ui.generatedTags == [])
  {
    match ValidateUpload(i)
    case Failure(_) => Run([], prev)
    case Success(v) =>
      var asked := [Classify(v.title, v.description, v.fileType)];
      var cleared := Ui(false, false, []);
      if classify.Fail? || !classify.value.isEducational then Run(asked, cleared)
      else
        var calls := asked + [GenerateTags(v.title, v.description, v.fileType)];
        if tag.Fail? then Run(calls, cleared)
        else Run(calls, Ui(false, true, tag.value))
  }

  /** The success panel with the generated tags. */
  predicate ShowsTagPanel(ui: Ui)
  {
    ui.isSuccess && |ui.generatedTags| > 0
  }

  /** The panel appears after a submission exactly when the classifier
      approved and the tagger returned at least one tag. */
  lemma TagPanelShown(prev: Ui, i: UploadInput, classify: Reply<Verdict>, tag: Reply<seq<Str>>)
    requires ValidateUpload(i).Success?
    ensures ShowsTagPanel(Submit(prev, i, classify, tag).ui) <==>
      Approved(classify) && tag.Ok? && |tag.value| > 0
  {
  }

  /** A worked submission: the tagger's answer is shown as returned, neither
      lower-cased nor merged with anything else. */
  lemma ApprovedExample()
    ensures var i := UploadInput("Intro to Quantum Physics", "An overview of quantum states.", "image");
      var r := Submit(Ui(false, false, []), i,
                      Ok(Verdict(true, "educational")), Ok(["Physics", "science", "science"]));
      && r.calls == [Classify(i.title, i.description, ImageFile),
                     GenerateTags(i.title, i.description, ImageFile)]
      && r.ui == Ui(false, true, ["Physics", "science", "science"])
  {
    var i := UploadInput("Intro to Quantum Physics", "An overview of quantum states.", "image");
    assert ParseFileType(i.fileType) == Some(ImageFile);
  }

  /** The same submission when the classifier says no: the tagger is never
      asked and nothing is shown. */
  lemma RejectedExample()
    ensures var i := UploadInput("Intro to Quantum Physics", "An overview of quantum states.", "image");
      var r := Submit(Ui(false, true, ["old"]), i,
                      Ok(Verdict(false, "promotional content")), Ok(["physics"]));
      && r.calls == [Classify(i.title, i.description, ImageFile)]
      && r.ui == Ui(false, false, [])
  {
    var i := UploadInput("Intro to Quantum Physics", "An overview of quantum states.", "image");
    assert ParseFileType(i.fileType) == Some(ImageFile);
  }
}
