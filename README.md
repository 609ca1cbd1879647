# A model of the portfolio site's content pipeline and media components

The site shows photo restorations, photo edits, portraits and videos. An
offline builder, `scripts/scan.mjs`, walks `public/content/<category>/<project>/`
and writes a manifest: one record per project folder, holding its category,
slug, title, cover, category-specific media (a before/after pair, sources and
finals, or a video), an optional numbered process timeline and the sidecar
`info.yml`. Records are sorted newest first. The client components then turn
records into views:

- `UniversalVideoPlayer` picks a YouTube embed, a local player or a fallback;
- `Lightbox` steps through a gallery one image at a time;
- `VideoSection` picks at most two videos of each sub-category;
- `Timeline` shows the media of the step the user clicked.

This Dafny project models that core and proves what it promises. It is laid
out as follows:

- `scan.dfy` (module `Scan`) holds the builder. A project folder is a value:
  its parent folder, its name, its file listing, the texts of its readable
  files, the parsed `info.yml`, its modification time, and the error a
  file-system call throws while it is processed. `processProject` and
  `scanContent` are methods that build the record and the manifest step by
  step, as the source does. Each is proved equal to a declarative
  specification (`ProjectRecord`, and `Processed` + `SortBy` + `StripModTimes`).
- `scan_properties.dfy` (module `ScanProperties`) proves the builder's promises
  about those specifications.
- `youtube.dfy` holds the YouTube link pattern `(?:youtube\.com\/watch\?v=|youtu\.be\/)([^&\n?#]+)`,
  shared by the builder and the timeline, written out as string functions.
- `strings.dfy` and `lists.dfy` hold the JavaScript string and array
  operations the code relies on, with JavaScript's meaning:
  - `includes`, `indexOf`, `trim`, `split(sep)[k]`, `toLowerCase`;
  - `filter`, `slice`;
  - the stable `sort` with a numeric comparator.
- `universal_video_player.dfy`, `lightbox.dfy`, `video_section.dfy` and
  `timeline_view.dfy` hold the four components. The lightbox and the timeline's
  active step are classes, because their index is state changed by events.

## Model

Functions that only compute are stated by the lemmas about them:
`CategorizeVideo` by `CategorizeVideoOrder` and the three examples;
`DetectProjectType` by `DetectProjectTypeRules`; `GetMediaObject` by
`GetMediaObjectBranches`; `ProcessTimeline` by `TimelineSteps`,
`TimelineThreeFilesExample` and the `ToSteps*` lemmas; `Youtube.VideoId` by
`VideoIdSound` and `VideoIdOfLink`; `ExtractVideoId` by `ExtractVideoIdSound`,
`WatchLinkId`, `ShortLinkId` and `ShortsLinkId`; `DisplayProjects` by `DisplayBounds`,
`PickIsFirstTwo` and `RowsSplitDisplay`; `RenderMedia` by `LinkMedia` and
`FileMedia`.

| member | source | states |
|---|---|---|
| `Scan.CategorizeVideoOrder` | scripts/scan.mjs:10-26 | any of the words promo/trailer/teaser in the lower-cased folder name gives `promo`, even when a shorts word is present; otherwise any of short/reel/tiktok/story/vertical gives `shorts`; the result is `longform` exactly when neither word list matches |
| `Scan.PromoBeatsShortsExample` | scripts/scan.mjs:14-16 | the folder `reel-promo` is a `promo`, although it also holds the shorts word `reel` |
| `Scan.ShortsExample` | scripts/scan.mjs:19-21 | the folder `shorts-edit` is `shorts` |
| `Scan.LongformExample` | scripts/scan.mjs:24-25 | the folder `Wedding Film` holds no word of either list and is `longform` |
| `Scan.CategorizeVideoIgnoresCase` | scripts/scan.mjs:10-11 | the decision depends only on the lower-cased folder name: lower-casing it first, or passing any other file name, gives the same category |
| `Scan.DetectProjectTypeRules` | scripts/scan.mjs:37-57 | first match wins: `restores` iff some `before.*` and some `after.*`; `edits`/`portraits` iff not that and both `sources/` and `final/` files exist, `portraits` only under a parent folder literally named `portraits`; `unknown` iff no rule applies |
| `Scan.DetectProjectTypeMonotone` | scripts/scan.mjs:44-54 | adding files to a folder can move it only to an earlier rule, never a later one |
| `Scan.DetectProjectTypeOrderFree` | scripts/scan.mjs:44-47 | two listings with the same files give the same category, whatever their order |
| `Scan.GetMediaObjectBranches` | scripts/scan.mjs:72-98 | a `.url` path gives `{type:'url', href}` with the trimmed file text, or null when the file cannot be read; any other path gives a `file` object whose src starts with `/content/`, has no backslash, and is `/content/<parent>/<project>/<path>` when no part holds a backslash |
| `Scan.AddRestore` | scripts/scan.mjs:152-162 | the restores branch sets exactly the restore payload and its cover on a record that has none yet |
| `Scan.AddEdit` | scripts/scan.mjs:163-182 | the edits/portraits branch sets exactly the edit or portrait payload and its cover |
| `Scan.AddUrlVideo` | scripts/scan.mjs:189-204 | the `final.url` case sets the video to the link file, the cover to `UrlVideoCover` of it (a YouTube thumbnail or nothing), and the sub-category to the truthy `info.videoCategory` or nothing |
| `Scan.AddVideo` | scripts/scan.mjs:183-220 | the videos branch sets exactly the video payload, its cover and its sub-category |
| `Scan.ProcessProject` | scripts/scan.mjs:129-230 | the record built step by step equals the declarative record: the error when a file-system call throws, otherwise identity fields, the payload of the detected category, and the timeline only when it is non-empty |
| `Scan.Processed` | scripts/scan.mjs:248-258 | the loop keeps at most one record per folder, and every kept record carries its sort key |
| `Scan.ScanContent` | scripts/scan.mjs:232-271 | a missing content root gives `{projects: []}`; otherwise the manifest is the processed records, stably sorted by the newest-first key, each with `modTime` removed |
| `ScanProperties.RecordIdentity` | scripts/scan.mjs:129-149 | a folder whose processing throws yields no record; otherwise slug = category + "-" + lower-cased folder name, title = the raw folder name, and `modTime` and `info` are taken from the folder |
| `ScanProperties.SlugIgnoresCase` | scripts/scan.mjs:139 | two folders of the same category whose names differ only in letter case get the same slug: nothing keeps slugs unique |
| `ScanProperties.OnePayload` | scripts/scan.mjs:151-221 | at most one of restore/edit/portrait/video is set, only the one matching the category; a record without one keeps a null cover; `unknown` gets nothing |
| `ScanProperties.RestoreRecord` | scripts/scan.mjs:152-162 | a restore is set iff top-level `before.*` and `after.*` files exist; its paths are `/content/restores/<name>/` followed by the first listed `before.*` and the first listed `after.*` file; the cover is `restore.after`, and stays null otherwise |
| `ScanProperties.EditRecord` | scripts/scan.mjs:163-182 | an edit/portrait is set iff `sources/` and `final/` both hold files; the i-th source path is `/content/<category>/<name>/` followed by the i-th file under `sources/`, in listing order; `final` is a single path iff there is exactly one file under `final/`, and otherwise the list of all their paths in the same form and order; the cover is the path of the first final |
| `ScanProperties.UrlVideoCoverMeaning` | scripts/scan.mjs:193-199 | a `final.url` video gets a thumbnail cover iff the link pattern finds an id, and the cover names that id; the `includes('youtu')` guard never changes the outcome |
| `ScanProperties.YoutubeLinkCover` | scripts/scan.mjs:193-198 | a standard watch or short link gets `https://img.youtube.com/vi/<id>/maxresdefault.jpg` for the id it names |
| `ScanProperties.VideoRecord` | scripts/scan.mjs:183-220 | `final.url` wins, with the link cover and the sub-category from `info.yml` only; next a non-`.url` `final.*` file, which is its own cover and sets no sub-category; next the first top-level video, with `/thumbnails/<name>.jpg` and the sub-category `categorizeVideo(<name>, <first video>)`, which is one of the three; otherwise no video and no cover |
| `ScanProperties.StepOfFields` | scripts/scan.mjs:113-125 | a step's `n` is the number its file name starts with; its label is the rest after the digits and `_`, cut at its last `.` when that dot has something after it, and left whole when it has no `.` or ends in one, with every `_` turned into a space, so no `_` remains |
| `ScanProperties.StepOfName` | scripts/scan.mjs:113-125 | the file `<digits>_<stem>.<ext>` (one line, `ext` without a dot) makes the step with `n` = the digits' value, the label = `stem` with each `_` replaced by a space, and the media of `timeline/<file>` |
| `ScanProperties.ToStepsSorted` | scripts/scan.mjs:113-126 | mapping names sorted by number to steps (dropping names the step pattern rejects) yields steps in ascending `n` |
| `ScanProperties.ToStepsLabels` | scripts/scan.mjs:113-126 | no label holds `_`, and there are no more steps than names |
| `ScanProperties.ToStepsAllNames` | scripts/scan.mjs:113-126 | when every name makes a step, nothing is dropped: the k-th step is the step of the k-th name |
| `ScanProperties.ToStepsMembers` | scripts/scan.mjs:113-126 | the step of any name that makes one is among the steps |
| `ScanProperties.ToStepsSources` | scripts/scan.mjs:113-126 | every step is the step of one of the names |
| `ScanProperties.TimelineEntriesExactly` | scripts/scan.mjs:104 | a name is listed iff some file is `timeline/<name>` with no further `/`: only files directly inside `timeline/` |
| `ScanProperties.TimelineOrderCorrect` | scripts/scan.mjs:104-111 | the kept names (digits, then `_`) are sorted by their numeric prefix, are a permutation of the names kept, and names with equal numbers keep the listing order |
| `ScanProperties.TimelineSteps` | scripts/scan.mjs:100-127 | the timeline's steps are in ascending `n`, their labels have no `_`, and there are no more of them than files directly in `timeline/`; every such file that makes a step has its step in the timeline, and every step is the step of such a file |
| `ScanProperties.NoTimelineFolder` | scripts/scan.mjs:100-102 | without a `timeline/` folder there are no steps, and the record has no `timeline` property |
| `ScanProperties.TimelineNumericExample` | scripts/scan.mjs:104-111 | `10_end.jpg` and `2_mid.jpg` come out as 2 then 10, numeric and not textual order, and files outside `timeline/` are ignored |
| `ScanProperties.TimelineThreeFilesExample` | scripts/scan.mjs:100-127 | the files `timeline/2_retouch.jpg`, `timeline/10_final.jpg` and `timeline/1_intake.jpg` give the steps 1 "intake", 2 "retouch" and 10 "final", in that order, each with the media of its file |
| `ScanProperties.ProcessedAppend` | scripts/scan.mjs:250-258 | the records of two runs of folders are the records of each, in order |
| `ScanProperties.FailureIsolated` | scripts/scan.mjs:250-258 | a folder whose processing throws is skipped and the records of the folders around it are kept, in order |
| `ScanProperties.ProcessedRecords` | scripts/scan.mjs:248-258 | the records are exactly those of the folders that do not throw, one each, in listing order |
| `ScanProperties.ManifestNewestFirst` | scripts/scan.mjs:260-266 | the manifest is a permutation of the records, in non-increasing `modTime`, stable on equal times, each with `modTime` removed |
| `Lists.SortByCorrect` | scripts/scan.mjs:107-111 | the stable sort orders by key, is a permutation, and keeps the input order among equal keys |
| `Youtube.MatchFromSound` | scripts/scan.mjs:195 | the leftmost match from any start captures a non-empty run of id characters that follows one of the two link prefixes |
| `Youtube.VideoIdSound` | scripts/scan.mjs:194-196 | the id the pattern extracts is non-empty, free of `&`, `?`, `#` and newlines, follows `youtube.com/watch?v=` or `youtu.be/`, and the link contains "youtu" |
| `Youtube.VideoIdOfLink` | scripts/scan.mjs:195 | a link made of a host without `y`, a link prefix, an id and a character that stops the id gives back exactly that id |
| `UniversalVideoPlayer.Between` | components/UniversalVideoPlayer.tsx:36-40 | `split(sep)[1]?.split(stop)[0] \|\| ''` is empty when `sep` is absent, and otherwise a prefix of the text after the first `sep`, ended by the end, by `stop` or by `sep`, containing neither |
| `UniversalVideoPlayer.ExtractVideoIdSound` | components/UniversalVideoPlayer.tsx:34-41 | an extracted id follows the first separator of its branch (`v=` for watch links, `youtu.be/` for short links, `shorts/` for Shorts links, tried in that order) and holds no `&` (watch) or `?` (others) |
| `UniversalVideoPlayer.WatchLinkId` | components/UniversalVideoPlayer.tsx:35-36 | `https://www.youtube.com/watch?v=<id>` followed by nothing or `&` parameters gives its id |
| `UniversalVideoPlayer.ShortLinkId` | components/UniversalVideoPlayer.tsx:37-38 | `https://youtu.be/<id>` followed by nothing or a query gives its id, unless the link also holds a watch link |
| `UniversalVideoPlayer.ShortsLinkId` | components/UniversalVideoPlayer.tsx:39-40 | `https://www.youtube.com/shorts/<id>` followed by nothing or a query gives its id, unless the link also holds a watch link or a short link |
| `UniversalVideoPlayer.Render` | components/UniversalVideoPlayer.tsx:29-78 | an embed iff the media is a url with an `href` that yields an id, with src `https://www.youtube.com/embed/<id>?rel=0&modestbranding=1&controls=1` and aspect "9/16" iff `objectFit` is `cover`; otherwise the local player iff `src` is set; otherwise "Video not available" |
| `UniversalVideoPlayer.EmbedRoundTrip` | components/UniversalVideoPlayer.tsx:47 | the id can be read back from the embed address |
| `UniversalVideoPlayer.ExtractorsDisagreeOnFragment` | components/UniversalVideoPlayer.tsx:37-38 | for `https://youtu.be/abc#t` the player extracts `abc#t` while the builder's and the timeline's pattern extracts `abc` |
| `Lightbox.KeyStep` | components/Lightbox.tsx:24-37 | ArrowLeft moves down by one exactly when the index is above 0, else stays; ArrowRight moves up by one exactly when below the last image, else stays; Escape and other keys never move |
| `Lightbox.RunStaysInRange` | components/Lightbox.tsx:28-37 | from a valid index, any sequence of key presses keeps the index within the gallery |
| `Lightbox.RunDistance` | components/Lightbox.tsx:28-37 | `n` key presses move the index by at most `n` |
| `Lightbox.RunRight` | components/Lightbox.tsx:33-37 | pressing right `n` times reaches `index + n`, or stops at the last image |
| `Lightbox.LightboxState.constructor` | components/Lightbox.tsx:14 | the viewer opens on the images and index it is given, with no close request |
| `Lightbox.LightboxState.HandleClose` | components/Lightbox.tsx:17-20 | closing calls `onClose` once and leaves the index alone |
| `Lightbox.LightboxState.GoToPrevious` | components/Lightbox.tsx:50-54 | the left button moves as ArrowLeft does and keeps a valid index valid |
| `Lightbox.LightboxState.GoToNext` | components/Lightbox.tsx:56-60 | the right button moves as ArrowRight does and keeps a valid index valid |
| `Lightbox.LightboxState.HandleKeyDown` | components/Lightbox.tsx:23-39 | a key press moves the index by `KeyStep`, keeps a valid index valid, and calls `onClose` exactly on Escape |
| `Lightbox.LightboxState.Counter` | components/Lightbox.tsx:124-130 | the counter reads `index + 1` of `images.length`, between 1 and the count |
| `Lightbox.LightboxState.CurrentImage` | components/Lightbox.tsx:113-115 | the image shown is one of the gallery's images |
| `Lightbox.DisabledMeansNoMove` | components/Lightbox.tsx:84-108 | the previous arrow is disabled iff index = 0, exactly when its click would change nothing; the next arrow is disabled iff index = count - 1, likewise |
| `Lightbox.SingleImage` | components/Lightbox.tsx:82 | with one image the arrows and counter are hidden, and both arrows would be disabled |
| `VideoSection.Pick` | components/VideoSection.tsx:33-35 | each group holds at most two records, all of its sub-category |
| `VideoSection.PickIsFirstTwo` | components/VideoSection.tsx:33-35 | each group is the first records of its sub-category in input order, two or all of them if fewer |
| `VideoSection.DisplayBounds` | components/VideoSection.tsx:33-37 | at most six records are displayed, each a short, a long-form video or a promo, with the shorts first, then the long-form videos, then the promos |
| `VideoSection.OthersNeverDisplayed` | components/VideoSection.tsx:33-37 | a record whose sub-category is missing or unknown is never displayed |
| `VideoSection.DisplayedComeFromInput` | components/VideoSection.tsx:33-37 | every displayed record is an input record |
| `VideoSection.RowsSplitDisplay` | components/VideoSection.tsx:72-73 | the vertical row is exactly the shorts followed by the promos, the horizontal grid exactly the long-form videos, and together they hold every displayed record |
| `VideoSection.EmptyNoticeExactly` | components/VideoSection.tsx:65-68 | "No video projects available" is shown iff no record is a short, a long-form video or a promo |
| `TimelineView.NormalizeMedia` | components/Timeline.tsx:29-31 | a bare string becomes `{type: 'file', src: string}`; a media object is kept |
| `TimelineView.LinkMedia` | components/Timeline.tsx:34-68 | link media with an `href` is embedded iff the YouTube pattern finds an id, as `https://www.youtube.com/embed/<id>`, before the extension check; otherwise a `.mp4`/`.webm` link plays as video and anything else is an image of that link |
| `TimelineView.FileMedia` | components/Timeline.tsx:71-92 | other media plays as a video iff its source contains `.mp4` or `.webm`, else is an image; the source is `src`, else the bare string, else "" |
| `TimelineView.PlainPathIsFile` | components/Timeline.tsx:29-31 | a bare path renders as the file object holding it |
| `TimelineView.TimelineViewer.constructor` | components/Timeline.tsx:24 | the first step is active at the start |
| `TimelineView.TimelineViewer.Click` | components/Timeline.tsx:108 | clicking button `i` makes step `i` the active one |
| `TimelineView.TimelineViewer.CurrentStep` | components/Timeline.tsx:26-28 | with steps present, the step shown is one of the steps |
| `TimelineView.OneActiveButton` | components/Timeline.tsx:105-121 | exactly one button is highlighted, and a lit connector is always one that is drawn |

## Left out

- File-system and library calls are not modelled; they become inputs:
  - `globby` listings are a `seq<string>` of '/'-separated relative paths, in the listing's order, without dot-files;
  - `existsSync` and `readFileSync` become the listing and a map of readable texts;
  - `statSync` becomes an integer modification time in milliseconds;
  - the YAML parse of `info.yml` becomes an optional value of which only `videoCategory` is read;
  - `writeFileSync`, `mkdirSync`, `JSON.stringify` and the console messages are left out.
- An error a file-system call throws while a folder is processed is an input of that folder (`ProjectDir.error`).
- The project-folder globbing of `scanContent` and the path joins are replaced by the folder values themselves. Folder names are taken to hold no `/` or `\`, which the source's path splitting would treat as separators.
- `existsSync(final.url)` is modelled as `final.url` appearing in the listing; a directory of that name is not considered.
- `toLowerCase` is modelled on ASCII letters only; other letters keep their case.
- Strings are sequences of Unicode characters, not UTF-16 code units.
- `parseInt` is modelled exactly; JavaScript numbers lose precision above 2^53, and the model does not.
- `info.videoCategory` is modelled as a string; the source copies any truthy YAML value.
- In the Lightbox, the parent is taken to answer `onIndexChange(i)` by storing `i`. The document listener registration, `body.style.overflow`, the router, click propagation and the image markup are left out.
- In the Timeline, the step titles and notes, the "Step n" heading and the markup are left out. So are two things the source does not guard against: a step whose `media` is null (an unreadable `.url` file in the manifest), on which the component would throw, and a change of `steps` while a later `activeStep` is kept.
- In the UniversalVideoPlayer, `title`, `poster`, `className`, `showFullscreenButton` and the `VideoPlayer` it delegates to are left out. The default `objectFit` of `contain` is the caller's choice of argument.
- In the VideoSection, the markup and the non-null assertion `project.video!` are left out.
- A video record whose `final.url` cannot be read is written as `video: {final: null}` (scripts/scan.mjs:191). The VideoSection hands `project.video!` to the player (components/VideoSection.tsx:84, 109), and the player reads `video.final.type` without a null check (components/UniversalVideoPlayer.tsx:30), so it would throw. The player's `FinalMedia` is never null in the model, so this crash is not represented; the builder side does model the null `final`.
- Not part of this model:
  - scripts/generate-thumbnails.mjs (external encoder processes);
  - components/ImageCarousel.tsx, components/BeforeAfter.tsx and the theme scripts (floating-point drag and slider positions, timers, DOM updates);
  - components/VideoPlayer.tsx, components/LongFormVideo.tsx, components/StatsCounter.tsx and components/ScrollReveal.tsx (media elements, timers, observers);
  - the remaining page, layout and gallery components, which only render.

Three facts about the code are easy to assume otherwise:

- Slugs are not made unique. Two folders of one category whose names differ only in letter case get the same slug (`ScanProperties.SlugIgnoresCase`).
- Timeline step numbers are only non-decreasing. The sort is stable by number, so steps with equal numbers keep their listing order.
- There is no explicit-thumbnail rule for videos. The cover comes from the `final.url` link, then from the `final.*` file, then from `/thumbnails/<name>.jpg`, in that order.
