/** The offline manifest builder (scripts/scan.mjs). It reads the content tree
    `public/content/<category folder>/<project folder>/...`, turns every project
    folder into one record, sorts the records newest first and writes them out as
    `{ "projects": [...] }`.

    The file system is an input here: a project folder is a `ProjectDir` value
    holding its listing, the texts of the files that can be read, the parsed
    `info.yml`, its modification time, and the error a file-system call throws
    while the folder is processed, if one does. */
module Scan {
  import opened Wrappers
  import opened Strings
  import Youtube
  import Lists

  // ---------------------------------------------------------------- data model

  datatype Category = Restores | Edits | Portraits | Videos | Unknown

  function CategoryName(c: Category): string {
    match c
    case Restores => "restores"
    case Edits => "edits"
    case Portraits => "portraits"
    case Videos => "videos"
    case Unknown => "unknown"
  }

  datatype VideoCategory = Promo | Shorts | Longform

  function VideoCategoryName(v: VideoCategory): string {
    match v
    case Promo => "promo"
    case Shorts => "shorts"
    case Longform => "longform"
  }

  /** The parsed `info.yml`, when it exists, parses and is truthy. It is passed
      through to the record unread, except for its `videoCategory` field. */
  datatype Info = Info(videoCategory: Option<string>)

  /** One project folder `<parent>/<name>` under the content root.
      `files` is the recursive listing globby gives (paths relative to the
      folder, '/'-separated, files only, no dot-files), in its order; `texts`
      maps the relative path of each file that can be read to its text;
      `error` is the message of an exception a file-system call throws while
      the folder is processed. */
  datatype ProjectDir = ProjectDir(
    parent: string,
    name: string,
    files: seq<string>,
    texts: map<string, string>,
    info: Option<Info>,
    mtime: int,
    error: Option<string>)

  /** A media object: `{type: 'file', src}` or `{type: 'url', href}`. */
  datatype MediaRef = FileRef(src: string) | UrlRef(href: string)

  /** A timeline step; `labelText` is the `label` property (a reserved word in Dafny). */
  datatype Step = Step(n: nat, labelText: string, media: Option<MediaRef>)

  datatype Restore = Restore(before: string, after: string)

  /** `final` of an edit or portrait: one path when there is exactly one final
      file, otherwise the array of paths. */
  datatype Final = OneFinal(path: string) | ManyFinals(paths: seq<string>)

  datatype EditData = EditData(sources: seq<string>, final: Final)

  /** `video.final` may be null when `final.url` cannot be read. */
  datatype Video = Video(final: Option<MediaRef>)

  /** A manifest record. An absent JavaScript property is `None`; `modTime` is
      the sort key the builder deletes before writing. */
  datatype Project = Project(
    slug: string,
    category: Category,
    title: string,
    cover: Option<string>,
    modTime: Option<int>,
    info: Option<Info>,
    restore: Option<Restore>,
    edit: Option<EditData>,
    portrait: Option<EditData>,
    video: Option<Video>,
    videoCategory: Option<string>,
    timeline: Option<seq<Step>>)

  datatype Manifest = Manifest(projects: seq<Project>)

  // ------------------------------------------------------ video sub-category

  /** The words that make a video a promo, and those that make it a short. */
  const PromoWords: seq<string> := ["promo", "trailer", "teaser"]
  const ShortsWords: seq<string> := ["short", "reel", "tiktok", "story", "vertical"]

  /** One of `words` occurs in the lower-cased `name`. */
  predicate MentionsAny(name: string, words: seq<string>) {
    exists i :: 0 <= i < |words| && Contains(ToLower(name), words[i])
  }

  /** `categorizeVideo(projectName, fileName)`: a keyword test on the lower-cased
      folder name; the file name is not looked at. */
  function CategorizeVideo(projectName: string, fileName: string): VideoCategory {
    if MentionsAny(projectName, PromoWords) then Promo
    else if MentionsAny(projectName, ShortsWords) then Shorts
    else Longform
  }

  /** The promo words win over the shorts words, and everything else is long
      form: one word of a list is enough. */
  lemma CategorizeVideoOrder(projectName: string, fileName: string)
    ensures forall i :: 0 <= i < |PromoWords| && Contains(ToLower(projectName), PromoWords[i])
              ==> CategorizeVideo(projectName, fileName) == Promo
    ensures !MentionsAny(projectName, PromoWords) ==>
              forall i :: 0 <= i < |ShortsWords| && Contains(ToLower(projectName), ShortsWords[i])
                ==> CategorizeVideo(projectName, fileName) == Shorts
    ensures CategorizeVideo(projectName, fileName) == Longform
            <==> !MentionsAny(projectName, PromoWords) && !MentionsAny(projectName, ShortsWords)
  {
  }

  lemma ToLowerIdempotent(s: string)
    ensures ToLower(ToLower(s)) == ToLower(s)
  {
    assert forall i :: 0 <= i < |s| ==> LowerChar(LowerChar(s[i])) == LowerChar(s[i]);
  }

  /** The test ignores letter case and the file name. */
  lemma CategorizeVideoIgnoresCase(projectName: string, fileName: string, otherFile: string)
    ensures CategorizeVideo(ToLower(projectName), otherFile) == CategorizeVideo(projectName, fileName)
  {
    ToLowerIdempotent(projectName);
  }

  lemma ToLowerOfLower(s: string)
    requires forall i :: 0 <= i < |s| ==> !('A' <= s[i] <= 'Z')
    ensures ToLower(s) == s
  {
  }

  /** A folder named with both a shorts word and a promo word is a promo. */
  lemma PromoBeatsShortsExample()
    ensures CategorizeVideo("reel-promo", "clip.mp4") == Promo
  {
    ToLowerOfLower("reel-promo");
    assert OccursAt("reel-promo", "promo", 5);
    ContainsAt("reel-promo", "promo", 5);
    assert PromoWords[0] == "promo";
  }

  /** `s` lacks the character `c`, so no word holding `c` occurs in it. */
  lemma Lacks(s: string, p: string, c: char)
    requires c in p && c !in s
    ensures !Contains(s, p)
  {
    var k :| 0 <= k < |p| && p[k] == c;
    MissingChar(s, p, k);
  }

  lemma ShortsExampleLower()
    ensures ToLower("shorts-edit") == "shorts-edit"
  {
    ToLowerOfLower("shorts-edit");
  }

  /** No word is mentioned when each lacks a character the name lacks. */
  lemma NoneMentioned(name: string, words: seq<string>, missing: seq<char>)
    requires |missing| == |words|
    requires forall i :: 0 <= i < |words| ==> missing[i] in words[i] && missing[i] !in ToLower(name)
    ensures !MentionsAny(name, words)
  {
    forall i | 0 <= i < |words|
      ensures !Contains(ToLower(name), words[i])
    {
      Lacks(ToLower(name), words[i], missing[i]);
    }
  }

  lemma ShortsExampleNoPromo()
    ensures !MentionsAny("shorts-edit", PromoWords)
  {
    ShortsExampleLower();
    NoneMentioned("shorts-edit", PromoWords, "paa");
  }

  /** "short" alone makes a short. */
  lemma ShortsExample()
    ensures CategorizeVideo("shorts-edit", "clip.mp4") == Shorts
  {
    ShortsExampleNoPromo();
    ShortsExampleLower();
    assert OccursAt("shorts-edit", "short", 0);
    ContainsAt("shorts-edit", "short", 0);
    assert ShortsWords[0] == "short";
  }

  lemma LongformExampleLower()
    ensures ToLower("Wedding Film") == "wedding film"
  {
  }

  lemma LongformExampleNoPromo()
    ensures !MentionsAny("Wedding Film", PromoWords)
  {
    LongformExampleLower();
    NoneMentioned("Wedding Film", PromoWords, "ptt");
  }

  lemma LongformExampleNoShorts()
    ensures !MentionsAny("Wedding Film", ShortsWords)
  {
    LongformExampleLower();
    NoneMentioned("Wedding Film", ShortsWords, "srtsv");
  }

  /** A folder name with none of the words, in any letter case, is long form. */
  lemma LongformExample()
    ensures CategorizeVideo("Wedding Film", "clip.mp4") == Longform
  {
    LongformExampleNoPromo();
    LongformExampleNoShorts();
  }

  // ------------------------------------------------------------ classification

  predicate IsVideoFile(f: string) {
    EndsWith(f, ".mp4") || EndsWith(f, ".webm") || EndsWith(f, ".mov") || EndsWith(f, ".avi")
  }

  /** Some listed file starts with `p`. */
  predicate SomeStartsWith(files: seq<string>, p: string) {
    exists i :: 0 <= i < |files| && StartsWith(files[i], p)
  }

  predicate SomeVideoFinal(files: seq<string>) {
    exists i :: 0 <= i < |files| && (files[i] == "final.url" || IsVideoFile(files[i]))
  }

  /** `detectProjectType`: the first rule that matches the listing decides. */
  function DetectProjectType(parent: string, files: seq<string>): Category {
    var hasBeforeAfter := SomeStartsWith(files, "before.") && SomeStartsWith(files, "after.");
    var hasSources := SomeStartsWith(files, "sources/");
    var hasFinal := SomeStartsWith(files, "final/");
    if hasBeforeAfter then Restores
    else if hasSources && hasFinal then (if parent == "portraits" then Portraits else Edits)
    else if SomeVideoFinal(files) then Videos
    else Unknown
  }

  /** The four rules in their order, each one only when the earlier ones fail. */
  lemma DetectProjectTypeRules(parent: string, files: seq<string>)
    ensures DetectProjectType(parent, files) == Restores
            <==> SomeStartsWith(files, "before.") && SomeStartsWith(files, "after.")
    ensures DetectProjectType(parent, files) in {Edits, Portraits}
            <==> !(SomeStartsWith(files, "before.") && SomeStartsWith(files, "after."))
                 && SomeStartsWith(files, "sources/") && SomeStartsWith(files, "final/")
    ensures DetectProjectType(parent, files) == Portraits
            ==> parent == "portraits"
    ensures DetectProjectType(parent, files) == Edits
            ==> parent != "portraits"
    ensures DetectProjectType(parent, files) == Unknown
            <==> !(SomeStartsWith(files, "before.") && SomeStartsWith(files, "after."))
                 && !(SomeStartsWith(files, "sources/") && SomeStartsWith(files, "final/"))
                 && !SomeVideoFinal(files)
  {
  }

  /** Precedence rank of a category: the earlier its rule, the smaller. */
  function Rank(c: Category): nat {
    match c
    case Restores => 0
    case Edits => 1
    case Portraits => 1
    case Videos => 2
    case Unknown => 3
  }

  /** Every rule asks whether some file exists, so adding files to a folder can
      only move it to an earlier rule, never to a later one. */
  lemma {:induction false} DetectProjectTypeMonotone(parent: string, files: seq<string>, more: seq<string>)
    ensures Rank(DetectProjectType(parent, files + more)) <= Rank(DetectProjectType(parent, files))
  {
    var all := files + more;
    forall p: string | SomeStartsWith(files, p)
      ensures SomeStartsWith(all, p)
    {
      var i :| 0 <= i < |files| && StartsWith(files[i], p);
      assert all[i] == files[i];
    }
    if SomeVideoFinal(files) {
      var i :| 0 <= i < |files| && (files[i] == "final.url" || IsVideoFile(files[i]));
      assert all[i] == files[i];
    }
  }

  /** Only which files exist matters, not the order of the listing. */
  lemma DetectProjectTypeOrderFree(parent: string, files: seq<string>, other: seq<string>)
    requires multiset(files) == multiset(other)
    ensures DetectProjectType(parent, files) == DetectProjectType(parent, other)
  {
    forall p: string
      ensures SomeStartsWith(files, p) <==> SomeStartsWith(other, p)
    {
      if SomeStartsWith(files, p) {
        var i :| 0 <= i < |files| && StartsWith(files[i], p);
        assert files[i] in multiset(other);
      }
      if SomeStartsWith(other, p) {
        var i :| 0 <= i < |other| && StartsWith(other[i], p);
        assert other[i] in multiset(files);
      }
    }
    if SomeVideoFinal(files) {
      var i :| 0 <= i < |files| && (files[i] == "final.url" || IsVideoFile(files[i]));
      assert files[i] in multiset(other);
    }
    if SomeVideoFinal(other) {
      var i :| 0 <= i < |other| && (other[i] == "final.url" || IsVideoFile(other[i]));
      assert other[i] in multiset(files);
    }
  }

  // ------------------------------------------------------------- media objects

  /** `processUrlFile`: the trimmed text of a readable `.url` file, or null. */
  function ProcessUrlFile(dir: ProjectDir, path: string): Option<MediaRef> {
    if path in dir.texts then Some(UrlRef(Trim(dir.texts[path]))) else None
  }

  /** `getMediaObject(filePath, projectPath)`. The local path is built from the
      parent folder's name (not from the detected category). */
  function GetMediaObject(dir: ProjectDir, filePath: string): Option<MediaRef> {
    if EndsWith(filePath, ".url") then ProcessUrlFile(dir, filePath)
    else Some(FileRef("/content/" + ReplaceAll(dir.parent + "/" + dir.name + "/" + filePath, '\\', '/')))
  }

  lemma GetMediaObjectBranches(dir: ProjectDir, filePath: string)
    ensures EndsWith(filePath, ".url") ==>
      match GetMediaObject(dir, filePath)
      case Some(m) =>
        && filePath in dir.texts
        && m == UrlRef(Trim(dir.texts[filePath]))
      case None => filePath !in dir.texts
    ensures !EndsWith(filePath, ".url") ==>
      && GetMediaObject(dir, filePath).Some?
      && GetMediaObject(dir, filePath).value.FileRef?
      && var src := GetMediaObject(dir, filePath).value.src;
      && StartsWith(src, "/content/")
      && '\\' !in src
      && ('\\' !in dir.parent + dir.name + filePath
          ==> src == "/content/" + dir.parent + "/" + dir.name + "/" + filePath)
  {
    if !EndsWith(filePath, ".url") {
      var joined := dir.parent + "/" + dir.name + "/" + filePath;
      var src := GetMediaObject(dir, filePath).value.src;
      assert src == "/content/" + ReplaceAll(joined, '\\', '/');
      assert src[..9] == "/content/";
      ReplaceAllRemoves(joined, '\\', '/');
      assert src[9..] == ReplaceAll(joined, '\\', '/');
      if '\\' !in dir.parent + dir.name + filePath {
        JoinedPlain(dir.parent, dir.name, filePath);
        ReplaceAllAbsent(joined, '\\', '/');
        assert src == "/content/" + dir.parent + "/" + dir.name + "/" + filePath;
      }
    }
  }

  /** Joining with '/' adds no backslash. */
  lemma JoinedPlain(parent: string, name: string, path: string)
    requires '\\' !in parent + name + path
    ensures '\\' !in parent + "/" + name + "/" + path
  {
    var all := parent + name + path;
    var joined := parent + "/" + name + "/" + path;
    forall i | 0 <= i < |joined|
      ensures joined[i] != '\\'
    {
      if i < |parent| {
        assert joined[i] == all[i];
      } else if |parent| < i < |parent| + 1 + |name| {
        assert joined[i] == all[i - 1];
      } else if |parent| + 1 + |name| + 1 <= i {
        assert joined[i] == all[i - 2];
      }
    }
  }

  // ------------------------------------------------------------------ timeline

  predicate IsDigit(c: char) {
    '0' <= c <= '9'
  }

  /** `parseInt` of a string of decimal digits. */
  function DigitsValue(d: string): nat {
    if d == [] then 0
    else DigitsValue(d[..|d| - 1]) * 10 + (if IsDigit(d[|d| - 1]) then d[|d| - 1] as int - '0' as int else 0)
  }

  /** The characters `.` does not match. */
  predicate IsLineTerminator(c: char) {
    c == '\n' || c == '\r' || c == '\U{2028}' || c == '\U{2029}'
  }

  predicate IsNotLineTerminator(c: char) {
    !IsLineTerminator(c)
  }

  /** The names of the files directly inside `timeline/`: `globby('*', {cwd: 'timeline'})`. */
  function TimelineEntries(files: seq<string>): (r: seq<string>)
    ensures |r| <= |files|
  {
    if files == [] then []
    else
      var f := files[0];
      (if StartsWith(f, "timeline/") && '/' !in f[9..] then [f[9..]] else [])
      + TimelineEntries(files[1..])
  }

  /** `/^\d+_/.test(name)`. */
  predicate HasStepPrefix(name: string) {
    var digits := TakeWhile(name, IsDigit);
    digits != [] && |digits| < |name| && name[|digits|] == '_'
  }

  /** `parseInt(name.match(/^(\d+)_/)[1])`, the sort key. */
  function StepNumber(name: string): int {
    DigitsValue(TakeWhile(name, IsDigit))
  }

  /** `name.match(/^(\d+)_(.+)/)`: the digits and the rest of the line. */
  function StepParts(name: string): Option<(string, string)> {
    if HasStepPrefix(name) then
      var digits := TakeWhile(name, IsDigit);
      var rest := TakeWhile(name[|digits| + 1..], IsNotLineTerminator);
      if rest != [] then Some((digits, rest)) else None
    else None
  }

  /** The index of the last `c` in `s`. */
  function LastIndexOf(s: string, c: char): (r: Option<nat>)
    ensures r.Some? ==> r.value < |s| && s[r.value] == c
    ensures r.Some? ==> forall j :: r.value < j < |s| ==> s[j] != c
    ensures r.None? ==> forall j :: 0 <= j < |s| ==> s[j] != c
  {
    if s == [] then None
    else if s[|s| - 1] == c then Some(|s| - 1)
    else LastIndexOf(s[..|s| - 1], c)
  }

  /** `rest.replace(/\.[^.]+$/, '')`: drop the last extension, if the name has
      a dot followed by at least one more character. */
  function StripExtension(rest: string): string {
    match LastIndexOf(rest, '.')
    case Some(i) => if i + 1 < |rest| then rest[..i] else rest
    case None => rest
  }

  /** `label`: the name without its extension, '_' turned into ' '. */
  function StepLabel(rest: string): string {
    ReplaceAll(StripExtension(rest), '_', ' ')
  }

  /** The step the `map` callback builds from one file name, or null. */
  function StepOf(dir: ProjectDir, name: string): Option<Step> {
    match StepParts(name)
    case Some((digits, rest)) =>
      Some(Step(DigitsValue(digits), StepLabel(rest), GetMediaObject(dir, "timeline/" + name)))
    case None => None
  }

  /** The `map(...).filter(Boolean)` over the sorted names. */
  function ToSteps(dir: ProjectDir, names: seq<string>): seq<Step> {
    if names == [] then []
    else
      (match StepOf(dir, names[0]) case Some(step) => [step] case None => [])
      + ToSteps(dir, names[1..])
  }

  /** The file names of the timeline, filtered and sorted by step number. */
  function TimelineOrder(files: seq<string>): seq<string> {
    Lists.SortBy(Lists.Filter(TimelineEntries(files), HasStepPrefix), StepNumber)
  }

  /** `processTimeline`. */
  function ProcessTimeline(dir: ProjectDir): seq<Step> {
    ToSteps(dir, TimelineOrder(dir.files))
  }

  // --------------------------------------------------------------- the payload

  predicate IsTopLevel(f: string) {
    '/' !in f
  }

  /** `globby('before.*')` */
  predicate IsBeforeFile(f: string) { IsTopLevel(f) && StartsWith(f, "before.") }
  /** `globby('after.*')` */
  predicate IsAfterFile(f: string) { IsTopLevel(f) && StartsWith(f, "after.") }
  /** The files directly in `sources/` (globby's pattern `sources/` + `*`). */
  predicate IsSourceFile(f: string) { StartsWith(f, "sources/") && '/' !in f[8..] }
  /** The files directly in `final/` (globby's pattern `final/` + `*`). */
  predicate IsFinalFolderFile(f: string) { StartsWith(f, "final/") && '/' !in f[6..] }
  /** `globby('*.{mp4,webm,mov,avi}')` */
  predicate IsTopLevelVideo(f: string) { IsTopLevel(f) && IsVideoFile(f) }
  /** `globby('final.*')` without the `.url` file */
  predicate IsFinalFile(f: string) { IsTopLevel(f) && StartsWith(f, "final.") && !EndsWith(f, ".url") }

  /** `/content/${category}/${projectName}/${f}`, with the detected category. */
  function ContentPath(c: Category, name: string, f: string): string {
    "/content/" + CategoryName(c) + "/" + name + "/" + f
  }

  function ContentPaths(c: Category, name: string, fs: seq<string>): (r: seq<string>)
    ensures |r| == |fs|
  {
    seq(|fs|, i requires 0 <= i < |fs| => ContentPath(c, name, fs[i]))
  }

  function YoutubeThumbnail(id: string): string {
    "https://img.youtube.com/vi/" + id + "/maxresdefault.jpg"
  }

  /** The cover of a `final.url` video: a YouTube thumbnail when the link
      contains "youtu" and the id pattern matches. */
  function UrlVideoCover(final: Option<MediaRef>): Option<string> {
    match final
    case Some(UrlRef(href)) =>
      if Contains(href, "youtu") then
        match Youtube.VideoId(href)
        case Some(id) => Some(YoutubeThumbnail(id))
        case None => None
      else None
    case _ => None
  }

  /** The `videoCategory` of `info.yml`, when it is present and not empty. */
  function InfoVideoCategory(info: Option<Info>): Option<string> {
    match info
    case Some(Info(Some(v))) => if v != "" then Some(v) else None
    case _ => None
  }

  /** The category-specific part of a record, one alternative per branch of the
      if / else-if on the category. */
  datatype Payload =
    | NoPayload
    | RestorePayload(restore: Restore)
    | EditPayload(edit: EditData)
    | PortraitPayload(portrait: EditData)
    | VideoPayload(video: Video, cover: Option<string>, videoCategory: Option<string>)

  function FinalCover(f: Final): Option<string> {
    match f
    case OneFinal(p) => Some(p)
    case ManyFinals(ps) => if ps != [] then Some(ps[0]) else None
  }

  function EditDataOf(c: Category, dir: ProjectDir): Option<EditData> {
    var sources := Lists.Filter(dir.files, IsSourceFile);
    var finals := Lists.Filter(dir.files, IsFinalFolderFile);
    if |sources| > 0 && |finals| > 0 then
      Some(EditData(
        ContentPaths(c, dir.name, sources),
        if |finals| == 1 then OneFinal(ContentPath(c, dir.name, finals[0]))
        else ManyFinals(ContentPaths(c, dir.name, finals))))
    else None
  }

  function VideoPayloadOf(dir: ProjectDir): Payload {
    var videos := Lists.Filter(dir.files, IsTopLevelVideo);
    var finals := Lists.Filter(dir.files, IsFinalFile);
    if "final.url" in dir.files then
      var final := ProcessUrlFile(dir, "final.url");
      VideoPayload(Video(final), UrlVideoCover(final), InfoVideoCategory(dir.info))
    else if |finals| > 0 then
      var src := ContentPath(Videos, dir.name, finals[0]);
      VideoPayload(Video(Some(FileRef(src))), Some(src), None)
    else if |videos| > 0 then
      VideoPayload(
        Video(Some(FileRef(ContentPath(Videos, dir.name, videos[0])))),
        Some("/thumbnails/" + dir.name + ".jpg"),
        Some(VideoCategoryName(CategorizeVideo(dir.name, videos[0]))))
    else NoPayload
  }

  function PayloadOf(c: Category, dir: ProjectDir): Payload {
    match c
    case Restores =>
      var before := Lists.Filter(dir.files, IsBeforeFile);
      var after := Lists.Filter(dir.files, IsAfterFile);
      if |before| > 0 && |after| > 0 then
        RestorePayload(Restore(ContentPath(c, dir.name, before[0]), ContentPath(c, dir.name, after[0])))
      else NoPayload
    case Edits =>
      (match EditDataOf(c, dir)
       case Some(d) => EditPayload(d)
       case None => NoPayload)
    case Portraits =>
      (match EditDataOf(c, dir)
       case Some(d) => PortraitPayload(d)
       case None => NoPayload)
    case Videos => VideoPayloadOf(dir)
    case Unknown => NoPayload
  }

  function PayloadCover(p: Payload): Option<string> {
    match p
    case NoPayload => None
    case RestorePayload(r) => Some(r.after)
    case EditPayload(d) => FinalCover(d.final)
    case PortraitPayload(d) => FinalCover(d.final)
    case VideoPayload(_, cover, _) => cover
  }

  /** The record with the payload's fields set; every other field is kept. */
  function WithPayload(p: Project, payload: Payload): Project {
    p.(cover := PayloadCover(payload),
       restore := if payload.RestorePayload? then Some(payload.restore) else None,
       edit := if payload.EditPayload? then Some(payload.edit) else None,
       portrait := if payload.PortraitPayload? then Some(payload.portrait) else None,
       video := if payload.VideoPayload? then Some(payload.video) else None,
       videoCategory := if payload.VideoPayload? then payload.videoCategory else None)
  }

  /** The record before the category-specific step: identity fields, a null
      cover, the sort key and the sidecar data. */
  function BaseRecord(dir: ProjectDir, c: Category): Project {
    Project(
      slug := CategoryName(c) + "-" + ToLower(dir.name),
      category := c,
      title := dir.name,
      cover := None,
      modTime := Some(dir.mtime),
      info := dir.info,
      restore := None, edit := None, portrait := None, video := None,
      videoCategory := None, timeline := None)
  }

  /** The record `processProject` returns for a folder, or the exception it throws. */
  function ProjectRecord(dir: ProjectDir): Result<Project> {
    if dir.error.Some? then Failure(dir.error.value)
    else
      var c := DetectProjectType(dir.parent, dir.files);
      var timeline := ProcessTimeline(dir);
      Success(WithPayload(BaseRecord(dir, c), PayloadOf(c, dir))
                .(timeline := if |timeline| > 0 then Some(timeline) else None))
  }

  /** The record has no payload and a null cover yet. */
  predicate NoPayloadYet(p: Project) {
    p.cover.None? && p.restore.None? && p.edit.None? && p.portrait.None?
    && p.video.None? && p.videoCategory.None?
  }

  /** The `restores` branch of `processProject`. */
  method AddRestore(project: Project, dir: ProjectDir) returns (r: Project)
    requires NoPayloadYet(project)
    ensures r == WithPayload(project, PayloadOf(Restores, dir))
  {
    r := project;
    var beforeFiles := Lists.Filter(dir.files, IsBeforeFile);
    var afterFiles := Lists.Filter(dir.files, IsAfterFile);
    if |beforeFiles| > 0 && |afterFiles| > 0 {
      r := r.(restore := Some(Restore(
        ContentPath(Restores, dir.name, beforeFiles[0]),
        ContentPath(Restores, dir.name, afterFiles[0]))));
      r := r.(cover := Some(r.restore.value.after));
    }
  }

  /** The `edits` / `portraits` branch of `processProject`. */
  method AddEdit(project: Project, dir: ProjectDir, category: Category) returns (r: Project)
    requires NoPayloadYet(project)
    requires category == Edits || category == Portraits
    ensures r == WithPayload(project, PayloadOf(category, dir))
  {
    r := project;
    var sourceFiles := Lists.Filter(dir.files, IsSourceFile);
    var finalFiles := Lists.Filter(dir.files, IsFinalFolderFile);
    if |sourceFiles| > 0 && |finalFiles| > 0 {
      var editData := EditData(
        ContentPaths(category, dir.name, sourceFiles),
        if |finalFiles| == 1 then OneFinal(ContentPath(category, dir.name, finalFiles[0]))
        else ManyFinals(ContentPaths(category, dir.name, finalFiles)));
      if category == Portraits {
        r := r.(portrait := Some(editData));
      } else {
        r := r.(edit := Some(editData));
      }
      // The cover is the first final, whether there is one or several.
      r := r.(cover := match editData.final
                       case ManyFinals(paths) => if paths != [] then Some(paths[0]) else None
                       case OneFinal(path) => Some(path));
    }
  }

  /** The `final.url` case of the `videos` branch: the link file becomes the
      video, a YouTube link gives the cover, and `info.yml` the sub-category. */
  method AddUrlVideo(project: Project, dir: ProjectDir) returns (r: Project)
    requires NoPayloadYet(project)
    ensures var final := ProcessUrlFile(dir, "final.url");
      r == project.(video := Some(Video(final)), cover := UrlVideoCover(final),
                    videoCategory := InfoVideoCategory(dir.info))
  {
    r := project.(video := Some(Video(ProcessUrlFile(dir, "final.url"))));
    var final := r.video.value.final;
    if final.Some? && final.value.UrlRef? && Contains(final.value.href, "youtu") {
      var videoId := Youtube.VideoId(final.value.href);
      if videoId.Some? {
        r := r.(cover := Some(YoutubeThumbnail(videoId.value)));
      }
    }
    assert r.cover == UrlVideoCover(final);
    var info := dir.info;
    if info.Some? && info.value.videoCategory.Some? && info.value.videoCategory.value != "" {
      r := r.(videoCategory := info.value.videoCategory);
    }
    assert r.videoCategory == InfoVideoCategory(dir.info);
  }

  /** The `videos` branch of `processProject`: `final.url` first, then a
      `final.*` file, then the first video file at the top level. */
  method AddVideo(project: Project, dir: ProjectDir) returns (r: Project)
    requires NoPayloadYet(project)
    ensures r == WithPayload(project, PayloadOf(Videos, dir))
  {
    assert PayloadOf(Videos, dir) == VideoPayloadOf(dir);
    var allVideoFiles := Lists.Filter(dir.files, IsTopLevelVideo);
    var finalFiles := Lists.Filter(dir.files, IsFinalFile);
    if "final.url" in dir.files {
      r := AddUrlVideo(project, dir);
    } else if |finalFiles| > 0 {
      r := project.(video := Some(Video(Some(FileRef(ContentPath(Videos, dir.name, finalFiles[0]))))));
      r := r.(cover := Some(r.video.value.final.value.src));
    } else if |allVideoFiles| > 0 {
      r := project.(video := Some(Video(Some(FileRef(ContentPath(Videos, dir.name, allVideoFiles[0]))))));
      r := r.(cover := Some("/thumbnails/" + dir.name + ".jpg"));
      r := r.(videoCategory := Some(VideoCategoryName(CategorizeVideo(dir.name, allVideoFiles[0]))));
    } else {
      r := project;
    }
  }

  /** `processProject`: builds the record field by field, as the source does. */
  method ProcessProject(dir: ProjectDir) returns (r: Result<Project>)
    ensures r == ProjectRecord(dir)
  {
    if dir.error.Some? {
      return Failure(dir.error.value);
    }
    var projectName := dir.name;
    var category := DetectProjectType(dir.parent, dir.files);
    var info := dir.info;
    var project := Project(
      slug := CategoryName(category) + "-" + ToLower(projectName),
      category := category,
      title := projectName,
      cover := None,
      modTime := Some(dir.mtime),
      info := None, restore := None, edit := None, portrait := None, video := None,
      videoCategory := None, timeline := None);

    if info.Some? {
      project := project.(info := info);
    }
    assert project == BaseRecord(dir, category);

    if category == Restores {
      project := AddRestore(project, dir);
    } else if category == Edits || category == Portraits {
      project := AddEdit(project, dir, category);
    } else if category == Videos {
      project := AddVideo(project, dir);
    }

    var timeline := ProcessTimeline(dir);
    if |timeline| > 0 {
      project := project.(timeline := Some(timeline));
    }
    return Success(project);
  }

  // --------------------------------------------------------------- aggregation

  /** The records of the folders, in listing order; a folder whose processing
      throws contributes nothing. */
  function Processed(dirs: seq<ProjectDir>): (r: seq<Project>)
    ensures |r| <= |dirs|
    ensures forall i :: 0 <= i < |r| ==> r[i].modTime.Some?
  {
    if dirs == [] then []
    else
      Processed(dirs[..|dirs| - 1])
      + match ProjectRecord(dirs[|dirs| - 1])
        case Success(p) => [p]
        case Failure(_) => []
  }

  /** The newest-first comparator on modification times, as an ascending key. */
  function NewestFirstKey(p: Project): int {
    match p.modTime
    case Some(t) => -t
    case None => 0
  }

  function StripModTimes(ps: seq<Project>): (r: seq<Project>)
    ensures |r| == |ps|
  {
    seq(|ps|, i requires 0 <= i < |ps| => ps[i].(modTime := None))
  }

  /** `scanContent`. `root` is `None` when the content directory does not
      exist, otherwise the project folders globby lists, in its order. */
  method ScanContent(root: Option<seq<ProjectDir>>) returns (manifest: Manifest)
    ensures root.None? ==> manifest.projects == []
    ensures root.Some? ==>
      manifest.projects == StripModTimes(Lists.SortBy(Processed(root.value), NewestFirstKey))
  {
    if root.None? {
      return Manifest([]);
    }
    var projectPaths := root.value;
    var projects: seq<Project> := [];
    for i := 0 to |projectPaths|
      invariant projects == Processed(projectPaths[..i])
    {
      // A folder whose processing throws is logged and skipped.
      var r := ProcessProject(projectPaths[i]);
      assert projectPaths[..i + 1][..i] == projectPaths[..i];
      if r.Success? {
        projects := projects + [r.value];
      }
    }
    assert projectPaths[..|projectPaths|] == projectPaths;

    projects := Lists.SortBy(projects, NewestFirstKey);

    // Drop the sort key from every record.
    ghost var sorted := projects;
    for i := 0 to |projects|
      invariant |projects| == |sorted|
      invariant forall k :: 0 <= k < i ==> projects[k] == sorted[k].(modTime := None)
      invariant forall k :: i <= k < |projects| ==> projects[k] == sorted[k]
    {
      projects := projects[i := projects[i].(modTime := None)];
    }
    manifest := Manifest(projects);
  }
}
