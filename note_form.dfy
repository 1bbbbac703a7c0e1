/** The listing form (src/pages/CreateNote.tsx): choosing preview images (at most five),
    removing one, uploading them on submit and choosing the note's preview_url. */
module NoteForm {
  import opened Wrappers

  /** A chosen image file, reduced to its name. */
  datatype PreviewFile = PreviewFile(name: string)

  /** The part of the form state the preview handlers touch: the chosen files and the error shown. */
  datatype PreviewState = PreviewState(images: seq<PreviewFile>, error: Option<string>)

  const MaxPreviews := 5
  const TooManyPreviewsMessage := "プレビュー画像は最大5枚までアップロードできます。"
  const PreviewUploadFailedMessage := "プレビュー画像のアップロードに失敗しました。"

  function Min(a: int, b: int): int {
    if a <= b then a else b
  }

  /** handlePreviewImages: more than five files in one selection are refused with a message and the
      list kept; otherwise the files are appended and the list cut to its first five. */
  function AddPreviews(state: PreviewState, files: seq<PreviewFile>): (r: PreviewState)
    ensures |files| > MaxPreviews ==> r == state.(error := Some(TooManyPreviewsMessage))
    ensures |files| <= MaxPreviews ==> r.error == state.error
    ensures |files| <= MaxPreviews ==> |r.images| == Min(MaxPreviews, |state.images| + |files|)
    ensures |files| <= MaxPreviews ==> r.images == (state.images + files)[..|r.images|]
    ensures |files| <= MaxPreviews && |state.images| <= MaxPreviews ==> r.images[..|state.images|] == state.images
  {
    if |files| > MaxPreviews then state.(error := Some(TooManyPreviewsMessage))
    else
      var all := state.images + files;
      var kept := all[..Min(MaxPreviews, |all|)];
      assert |state.images| <= |kept| ==> kept[..|state.images|] == all[..|state.images|] == state.images;
      state.(images := kept)
  }

  /** However the files are chosen, the list never holds more than five. */
  lemma {:induction false} AtMostFive(state: PreviewState, selections: seq<seq<PreviewFile>>)
    requires |state.images| <= MaxPreviews
    ensures |AddAll(state, selections).images| <= MaxPreviews
    decreases |selections|
  {
    if |selections| > 0 {
      AtMostFive(AddPreviews(state, selections[0]), selections[1..]);
    }
  }

  /** The state after several selections in turn. */
  function AddAll(state: PreviewState, selections: seq<seq<PreviewFile>>): PreviewState
    decreases |selections|
  {
    if |selections| == 0 then state else AddAll(AddPreviews(state, selections[0]), selections[1..])
  }

  /** The `filter((_, i) => i !== index)` callback run from position `from` of the list on. */
  function FilterIndex(images: seq<PreviewFile>, index: int, from: nat): (r: seq<PreviewFile>)
    decreases |images|
  {
    if |images| == 0 then []
    else (if from == index then [] else [images[0]]) + FilterIndex(images[1..], index, from + 1)
  }

  /** removePreviewImage(index) */
  function RemovePreview(images: seq<PreviewFile>, index: int): seq<PreviewFile> {
    FilterIndex(images, index, 0)
  }

  lemma {:induction false} FilterIndexOutside(images: seq<PreviewFile>, index: int, from: nat)
    requires index < from || index >= from + |images|
    ensures FilterIndex(images, index, from) == images
    decreases |images|
  {
    if |images| > 0 {
      FilterIndexOutside(images[1..], index, from + 1);
      assert [images[0]] + images[1..] == images;
    }
  }

  lemma {:induction false} FilterIndexInside(images: seq<PreviewFile>, index: int, from: nat)
    requires from <= index < from + |images|
    ensures FilterIndex(images, index, from) == images[..index - from] + images[index - from + 1..]
    decreases |images|
  {
    if index == from {
      FilterIndexOutside(images[1..], index, from + 1);
    } else {
      FilterIndexInside(images[1..], index, from + 1);
      assert images[1..][..index - from - 1] == images[1..index - from];
      assert images[1..][index - from..] == images[index - from + 1..];
      assert [images[0]] + images[1..index - from] == images[..index - from];
    }
  }

  /** A valid index removes exactly that image and keeps the others in order; any other index
      changes nothing. */
  lemma RemovePreviewSpec(images: seq<PreviewFile>, index: int)
    ensures 0 <= index < |images| ==> RemovePreview(images, index) == images[..index] + images[index + 1..]
    ensures !(0 <= index < |images|) ==> RemovePreview(images, index) == images
  {
    if 0 <= index < |images| {
      FilterIndexInside(images, index, 0);
    } else {
      FilterIndexOutside(images, index, 0);
    }
  }

  /** The preview upload loop of handleSubmit: `upload(i)` is the storage reply (the public URL, or
      the upload's error) for the i-th file. The first failure throws; otherwise every URL is
      collected in order. */
  method UploadPreviews(previews: seq<PreviewFile>, upload: nat -> Result<string>) returns (r: Result<seq<string>>)
    ensures r.Ok? <==> forall i :: 0 <= i < |previews| ==> upload(i).Ok?
    ensures r.Ok? ==> |r.value| == |previews| && forall i :: 0 <= i < |previews| ==> r.value[i] == upload(i).value
    ensures r.Err? ==> r.message == PreviewUploadFailedMessage
  {
    var urls: seq<string> := [];
    var i := 0;
    while i < |previews|
      invariant 0 <= i <= |previews|
      invariant |urls| == i
      invariant forall j :: 0 <= j < i ==> upload(j).Ok? && urls[j] == upload(j).value
    {
      var reply := upload(i);
      if reply.Err? {
        return Err(PreviewUploadFailedMessage);
      }
      urls := urls + [reply.value];
      i := i + 1;
    }
    return Ok(urls);
  }

  /** `previewUrls[0] || null`: the first uploaded URL, unless there is none (or it is empty). */
  function PreviewUrl(urls: seq<string>): (r: Option<string>)
    ensures r.Some? <==> |urls| > 0 && urls[0] != ""
    ensures r.Some? ==> r.value == urls[0]
  {
    if |urls| > 0 && urls[0] != "" then Some(urls[0]) else None
  }
}
