/** components/ImageWithFallback.tsx: an image that switches to a
    placeholder when its source is missing or fails to load, until the
    source changes. */
module ImageWithFallback {
  import opened Wrappers

  /** What the component renders. */
  datatype View = Placeholder | Image(src: string)

  /** JavaScript falsiness of the source: null, undefined or the empty string. */
  predicate Missing(src: Option<string>) {
    src.None? || src.value == ""
  }

  class FallbackImage {
    /** The `src` property last rendered with. */
    var src: Option<string>
    var imgSrc: Option<string>
    var hasError: bool

    /** The two `useState`s (ImageWithFallback.tsx:12-13). */
    constructor (initial: Option<string>)
      ensures src == initial && imgSrc == initial && !hasError
    {
      src := initial;
      imgSrc := initial;
      hasError := false;
    }

    /** A render with property `newSrc`: the effect (ImageWithFallback.tsx:15-18)
        runs only when the source changed, and then resets the image and the
        error flag; otherwise the state, error included, is kept. */
    method Rerender(newSrc: Option<string>)
      modifies this
      ensures src == newSrc
      ensures newSrc != old(src) ==> imgSrc == newSrc && !hasError
      ensures newSrc == old(src) ==> imgSrc == old(imgSrc) && hasError == old(hasError)
    {
      if newSrc != src {
        src := newSrc;
        imgSrc := newSrc;
        hasError := false;
      }
    }

    /** `handleError` (ImageWithFallback.tsx:20-23). */
    method HandleError()
      modifies this
      ensures hasError && src == old(src) && imgSrc == old(imgSrc)
      ensures Render() == Placeholder
    {
      hasError := true;
    }

    /** The render decision (ImageWithFallback.tsx:25-39): the placeholder iff
        the image failed or its source is missing, and otherwise the image
        with `imgSrc` as its source. */
    function Render(): (v: View)
      reads this
      ensures v == Placeholder <==> hasError || Missing(imgSrc)
      ensures v.Image? ==> imgSrc == Some(v.src) && v.src != ""
    {
      if hasError || Missing(imgSrc) then Placeholder else Image(imgSrc.value)
    }
  }
}
