/** A feed card: its preview area, chosen from the file's type and URL, and
    the tag badges under the description. */
module ContentCard {
  import opened Wrappers
  import opened Text
  import opened Content

  /** What the preview area shows. */
  datatype Preview =
    | Placeholder
    | ImagePreview(src: Str)
    | VideoPreview(src: Str)
    | PdfIcon

  const ImagePrefix: Str := "image/"
  const VideoPrefix: Str := "video/"
  const PdfType: Str := "application/pdf"

  /** `renderPreview`, its tests in order: a missing or empty type or URL, an
      image type, a video type, exactly the PDF type, anything else. Exactly
      one preview comes out; image and video previews load the file's URL. */
  function PreviewOf(fileType: Option<Str>, fileUrl: Option<Str>): (p: Preview)
    ensures !Truthy(fileType) || !Truthy(fileUrl) ==> p == Placeholder
    ensures p.ImagePreview? <==>
      Truthy(fileType) && Truthy(fileUrl) && StartsWith(fileType.value, ImagePrefix)
    ensures p.VideoPreview? <==>
      && Truthy(fileType) && Truthy(fileUrl)
      && !StartsWith(fileType.value, ImagePrefix) && StartsWith(fileType.value, VideoPrefix)
    ensures p == PdfIcon <==> Truthy(fileType) && Truthy(fileUrl) && fileType.value == PdfType
    ensures p.ImagePreview? || p.VideoPreview? ==> p.src == fileUrl.value
  {
    assert PdfType[0] != ImagePrefix[0] && PdfType[0] != VideoPrefix[0];
    if !Truthy(fileType) || !Truthy(fileUrl) then Placeholder
    else if StartsWith(fileType.value, ImagePrefix) then ImagePreview(fileUrl.value)
    else if StartsWith(fileType.value, VideoPrefix) then VideoPreview(fileUrl.value)
    else if fileType.value == PdfType then PdfIcon
    else Placeholder
  }

  /** The placeholder is shown exactly when none of the three file kinds
      applies. */
  lemma PlaceholderOtherwise(fileType: Option<Str>, fileUrl: Option<Str>)
    ensures PreviewOf(fileType, fileUrl) == Placeholder <==>
      || !Truthy(fileType) || !Truthy(fileUrl)
      || (&& !StartsWith(fileType.value, ImagePrefix)
          && !StartsWith(fileType.value, VideoPrefix)
          && fileType.value != PdfType)
  {
  }

  /** Only the exact PDF type gets the PDF icon: a type that merely starts
      with it gets the placeholder. */
  lemma PdfNeedsExactType()
    ensures PreviewOf(Some("application/pdf"), Some("u")) == PdfIcon
    ensures PreviewOf(Some("application/pdfx"), Some("u")) == Placeholder
  {
    assert !StartsWith("application/pdfx", ImagePrefix) by {
      assert "application/pdfx"[0] != ImagePrefix[0];
    }
    assert !StartsWith("application/pdfx", VideoPrefix) by {
      assert "application/pdfx"[0] != VideoPrefix[0];
    }
    assert "application/pdfx" != PdfType by {
      assert |"application/pdfx"| != |PdfType|;
    }
    assert !StartsWith(PdfType, ImagePrefix) by {
      assert PdfType[0] != ImagePrefix[0];
    }
    assert !StartsWith(PdfType, VideoPrefix) by {
      assert PdfType[0] != VideoPrefix[0];
    }
  }

  const MaxBadges := 3

  /** `tags.slice(0, 3)`: the first three tags, or all of them when there
      are fewer, in their order. */
  function Badges(tags: seq<Str>): (r: seq<Str>)
    ensures |r| == if |tags| < MaxBadges then |tags| else MaxBadges
    ensures forall k :: 0 <= k < |r| ==> r[k] == tags[k]
  {
    if |tags| <= MaxBadges then tags else tags[..MaxBadges]
  }
}
