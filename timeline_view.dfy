/** The step viewer components/Timeline.tsx: a row of numbered buttons, one
    per step, and the media of the active step, shown as a YouTube embed, a
    video or an image. */
module TimelineView {
  import opened Wrappers
  import opened Strings
  import Youtube

  datatype MediaKind = FileKind | UrlKind

  /** A step's `media`: a bare path, or an object with `type`, `src?` and `href?`. */
  datatype StepMedia =
    | PlainPath(path: string)
    | MediaObject(kind: MediaKind, src: Option<string>, href: Option<string>)

  /** A step as the viewer receives it. */
  datatype ViewStep = ViewStep(n: int, title: Option<string>, note: Option<string>, media: StepMedia)

  /** What `renderMedia` returns: an iframe, a `<video>`, an `<img>` for a
      link, or the framework's optimised image for a local file. */
  datatype MediaView =
    | Iframe(src: string)
    | VideoTag(src: string)
    | LinkImage(src: string)
    | LocalImage(src: string)

  /** `currentMedia`: a bare path becomes `{type: 'file', src: path}`. */
  function NormalizeMedia(media: StepMedia): (m: StepMedia)
    ensures m.MediaObject?
    ensures media.PlainPath? ==> m == MediaObject(FileKind, Some(media.path), None)
    ensures media.MediaObject? ==> m == media
  {
    match media
    case PlainPath(path) => MediaObject(FileKind, Some(path), None)
    case MediaObject(_, _, _) => media
  }

  predicate IsVideoLink(s: string) {
    Contains(s, ".mp4") || Contains(s, ".webm")
  }

  /** `renderMedia`. */
  function RenderMedia(media: StepMedia): MediaView {
    var current := NormalizeMedia(media);
    if current.kind == UrlKind && Truthy(current.href) then
      var href := current.href.value;
      var videoId := if Contains(href, "youtu") then Youtube.VideoId(href) else None;
      if videoId.Some? && videoId.value != "" then Iframe("https://www.youtube.com/embed/" + videoId.value)
      else if IsVideoLink(href) then VideoTag(href)
      else LinkImage(href)
    else
      var src := if Truthy(current.src) then current.src.value
                 else if media.PlainPath? then media.path else "";
      if IsVideoLink(src) then VideoTag(src) else LocalImage(src)
  }

  /** A link is embedded exactly when the YouTube pattern finds an id in it,
      and that id is what is embedded; the embed check comes before the
      extension check, so a YouTube link ending in ".mp4" is still embedded. */
  lemma LinkMedia(src: Option<string>, href: string)
    requires href != ""
    ensures var v := RenderMedia(MediaObject(UrlKind, src, Some(href)));
      && (v.Iframe? <==> Youtube.VideoId(href).Some?)
      && (v.Iframe? ==> v.src == "https://www.youtube.com/embed/" + Youtube.VideoId(href).value)
      && (v.VideoTag? <==> Youtube.VideoId(href).None? && IsVideoLink(href))
      && (v.LinkImage? <==> Youtube.VideoId(href).None? && !IsVideoLink(href))
      && (!v.Iframe? ==> v.src == href)
  {
    Youtube.VideoIdSound(href);
  }

  /** A file, or a link without `href`, plays as a video exactly when its
      source names a ".mp4" or ".webm" file, and is an image otherwise; a bare
      path is its own source. */
  lemma FileMedia(media: StepMedia)
    requires !(media.MediaObject? && media.kind == UrlKind && Truthy(media.href))
    ensures var v := RenderMedia(media);
      var src := if media.PlainPath? then media.path
                 else if Truthy(media.src) then media.src.value else "";
      && (v.VideoTag? <==> IsVideoLink(src))
      && (v.LocalImage? <==> !IsVideoLink(src))
      && v.src == src
  {
  }

  /** A bare path and the file object holding it render alike. */
  lemma PlainPathIsFile(path: string)
    ensures RenderMedia(PlainPath(path)) == RenderMedia(MediaObject(FileKind, Some(path), None))
  {
  }

  class TimelineViewer {
    /** `steps`. */
    const steps: seq<ViewStep>
    /** `activeStep`. */
    var activeStep: int

    /** The viewer shows something only when there are steps. */
    predicate Renders()
      reads this
    {
      |steps| > 0
    }

    /** The active step is one of the steps. */
    predicate Valid()
      reads this
    {
      Renders() ==> 0 <= activeStep < |steps|
    }

    /** `useState(0)`. */
    constructor(steps: seq<ViewStep>)
      ensures this.steps == steps && activeStep == 0
      ensures Valid()
    {
      this.steps := steps;
      activeStep := 0;
    }

    /** The button of step `index`: `setActiveStep(index)`. */
    method Click(index: int)
      requires 0 <= index < |steps|
      modifies this
      ensures activeStep == index
      ensures Valid()
    {
      activeStep := index;
    }

    /** `currentStep`. */
    function CurrentStep(): (s: ViewStep)
      reads this
      requires Renders() && Valid()
      ensures s in steps
    {
      steps[activeStep]
    }

    /** What the media area shows. */
    function CurrentView(): MediaView
      reads this
      requires Renders() && Valid()
    {
      RenderMedia(CurrentStep().media)
    }

    /** The highlighted button. */
    predicate ButtonActive(index: int)
      reads this
    {
      index == activeStep
    }

    /** The connector after button `index` is drawn only between two buttons,
      and is lit when it lies before the active step. */
    predicate ConnectorShown(index: int)
      reads this
    {
      index < |steps| - 1
    }

    predicate ConnectorLit(index: int)
      reads this
    {
      index < activeStep
    }
  }

  /** Exactly one button is highlighted, and every lit connector is drawn
      and lies before it. */
  lemma OneActiveButton(viewer: TimelineViewer)
    requires viewer.Renders() && viewer.Valid()
    ensures exists i :: 0 <= i < |viewer.steps| && viewer.ButtonActive(i)
    ensures forall i, j ::
      (0 <= i < |viewer.steps| && 0 <= j < |viewer.steps| && viewer.ButtonActive(i) && viewer.ButtonActive(j))
      ==> i == j
    ensures forall i :: viewer.ConnectorLit(i) ==> viewer.ConnectorShown(i)
  {
    assert viewer.ButtonActive(viewer.activeStep);
  }
}
