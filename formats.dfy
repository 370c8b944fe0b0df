/**
 * The closed set of target formats (`TransformType`, `transformTypeList`) and
 * the per-format encoder table `transformFnMap`, looked up by the configured key.
 */
module Formats {
  import opened Wrappers

  datatype TransformType = Jpeg | Png | Gif | Webp | Avif | Heif

  /** The key naming a format in configuration, in `transformFnMap` and in sharp's API. */
  function Name(t: TransformType): string
  {
    match t
    case Jpeg => "jpeg"
    case Png => "png"
    case Gif => "gif"
    case Webp => "webp"
    case Avif => "avif"
    case Heif => "heif"
  }

  /** Distinct formats have distinct keys, so each selects its own encoder. */
  lemma NameInjective(a: TransformType, b: TransformType)
    ensures Name(a) == Name(b) <==> a == b
  {
  }

  /** `transformTypeList`, in the order the source lists it. */
  const TransformTypeList: seq<TransformType> := [Jpeg, Png, Gif, Webp, Avif, Heif]

  /** The list holds every format exactly once. */
  lemma TransformTypeListComplete()
    ensures |TransformTypeList| == 6
    ensures forall t :: t in TransformTypeList
    ensures forall i, j :: 0 <= i < j < |TransformTypeList| ==> TransformTypeList[i] != TransformTypeList[j]
  {
    forall t ensures t in TransformTypeList {
      match t
      case Jpeg => assert TransformTypeList[0] == t;
      case Png => assert TransformTypeList[1] == t;
      case Gif => assert TransformTypeList[2] == t;
      case Webp => assert TransformTypeList[3] == t;
      case Avif => assert TransformTypeList[4] == t;
      case Heif => assert TransformTypeList[5] == t;
    }
  }

  /**
   * `transformFnMap[key]`: the format whose encoder is stored under `key`, or
   * `None` (the lookup yields `undefined`) for any other string.
   */
  function Dispatch(key: string): (r: Option<TransformType>)
    ensures forall t :: r == Some(t) <==> Name(t) == key
  {
    if key == "jpeg" then Some(Jpeg)
    else if key == "png" then Some(Png)
    else if key == "gif" then Some(Gif)
    else if key == "webp" then Some(Webp)
    else if key == "avif" then Some(Avif)
    else if key == "heif" then Some(Heif)
    else None
  }
}
