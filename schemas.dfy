/** The API enumerations and records the core passes around (app/schemas.py:178-226). */
module Schemas {
  import opened Wrappers

  datatype ImageType = Front | Back | Spine | Staples | InteriorFrontCover | InteriorBackCover | Misc

  /** `image_type.value`. */
  function TypeValue(t: ImageType): string {
    match t
    case Front => "front"
    case Back => "back"
    case Spine => "spine"
    case Staples => "staples"
    case InteriorFrontCover => "interior_front_cover"
    case InteriorBackCover => "interior_back_cover"
    case Misc => "misc"
  }

  /** `ImageType(value)`: the member with that value, or None where Python raises `ValueError`. */
  function ImageTypeOf(value: string): (r: Option<ImageType>)
    ensures r.Some? ==> TypeValue(r.value) == value
  {
    if value == "front" then Some(Front)
    else if value == "back" then Some(Back)
    else if value == "spine" then Some(Spine)
    else if value == "staples" then Some(Staples)
    else if value == "interior_front_cover" then Some(InteriorFrontCover)
    else if value == "interior_back_cover" then Some(InteriorBackCover)
    else if value == "misc" then Some(Misc)
    else None
  }

  /** Every member is found again from its value. */
  lemma ImageTypeOfValue(t: ImageType)
    ensures ImageTypeOf(TypeValue(t)) == Some(t)
  {
  }

  /** The two interior cover values are the only ones containing `_`. */
  lemma TypeValueUnderscore(t: ImageType)
    ensures '_' in TypeValue(t) <==> t == InteriorFrontCover || t == InteriorBackCover
  {
    if t == InteriorFrontCover {
      assert TypeValue(t)[8] == '_';
    } else if t == InteriorBackCover {
      assert TypeValue(t)[8] == '_';
    }
  }

  datatype JobStatus = Pending | InProgress | Completed | Failed

  /** Metadata of a saved image. */
  datatype ComicImage = ComicImage(seriesId: int, issueId: int, copyId: int, imageType: ImageType,
                                   fileName: string, relativePath: string)

  /** An upload job: the fields of a tracked record and of the snapshot handed out. */
  datatype ImageUploadJob = ImageUploadJob(jobId: string, seriesId: int, issueId: int, copyId: int, imageType: ImageType,
                                           status: JobStatus, detail: Option<string>, result: Option<ComicImage>)
}
