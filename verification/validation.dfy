/** The field rules shared by the upload form's and the edit form's schemas:
    zod's `min` compares `.length`, so the bounds count code units and do not
    trim. */
module Validation {
  import opened Text

  const MinTitle := 5
  const MinDescription := 20
  const MaxTags := 5

  /** One failed schema rule, as the form reports it beside the field. */
  datatype Issue = TitleTooShort | DescriptionTooShort | TooManyTags | UnknownFileType

  /** The issues of the title and description rules, in schema order. */
  function TextIssues(title: Str, description: Str): (r: seq<Issue>)
    ensures TitleTooShort in r <==> |title| < MinTitle
    ensures DescriptionTooShort in r <==> |description| < MinDescription
    ensures TooManyTags !in r && UnknownFileType !in r
  {
    (if |title| < MinTitle then [TitleTooShort] else [])
    + (if |description| < MinDescription then [DescriptionTooShort] else [])
  }
}
