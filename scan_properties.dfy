/** What the manifest builder (scripts/scan.mjs) promises about the records it
    writes, stated over the model in module Scan. */
module ScanProperties {
  import opened Wrappers
  import opened Strings
  import opened Scan
  import Lists
  import Youtube

  // ------------------------------------------------------------ one record

  /** A folder whose processing throws gives no record; every other folder
      gives a record named after it, with the slug built from the detected
      category and the lower-cased folder name. */
  lemma RecordIdentity(dir: ProjectDir)
    ensures ProjectRecord(dir).Failure? <==> dir.error.Some?
    ensures ProjectRecord(dir).Success? ==>
      var p := ProjectRecord(dir).value;
      var c := DetectProjectType(dir.parent, dir.files);
      && p.slug == CategoryName(c) + "-" + ToLower(dir.name)
      && p.category == c
      && p.title == dir.name
      && p.modTime == Some(dir.mtime)
      && p.info == dir.info
  {
  }

  /** The slug does not tell folders apart that differ only in letter case:
      nothing in the builder keeps slugs unique. */
  lemma SlugIgnoresCase(d1: ProjectDir, d2: ProjectDir)
    requires d1.error.None? && d2.error.None?
    requires DetectProjectType(d1.parent, d1.files) == DetectProjectType(d2.parent, d2.files)
    requires d2.name == ToLower(d1.name)
    ensures ProjectRecord(d1).value.slug == ProjectRecord(d2).value.slug
  {
    ToLowerIdempotent(d1.name);
  }

  /** The record carries the payload of its detected category: a proof
      helper that unfolds the record builder for the lemmas below. */
  lemma RecordPayload(dir: ProjectDir)
    requires dir.error.None?
    ensures var p := ProjectRecord(dir).value;
      var payload := PayloadOf(DetectProjectType(dir.parent, dir.files), dir);
      && p.cover == PayloadCover(payload)
      && p.restore == (if payload.RestorePayload? then Some(payload.restore) else None)
      && p.edit == (if payload.EditPayload? then Some(payload.edit) else None)
      && p.portrait == (if payload.PortraitPayload? then Some(payload.portrait) else None)
      && p.video == (if payload.VideoPayload? then Some(payload.video) else None)
      && p.videoCategory == (if payload.VideoPayload? then payload.videoCategory else None)
  {
  }

  /** At most one of `restore`, `edit`, `portrait` and `video` is set, and only
      the one that belongs to the detected category; a record without any of
      them keeps its null cover and has no `videoCategory`. */
  lemma OnePayload(dir: ProjectDir)
    requires dir.error.None?
    ensures var p := ProjectRecord(dir).value;
      && (p.restore.Some? ==> p.category == Restores && p.edit.None? && p.portrait.None? && p.video.None?)
      && (p.edit.Some? ==> p.category == Edits && p.restore.None? && p.portrait.None? && p.video.None?)
      && (p.portrait.Some? ==> p.category == Portraits && p.restore.None? && p.edit.None? && p.video.None?)
      && (p.video.Some? ==> p.category == Videos && p.restore.None? && p.edit.None? && p.portrait.None?)
      && (p.videoCategory.Some? ==> p.video.Some?)
      && (p.cover.Some? ==> p.restore.Some? || p.edit.Some? || p.portrait.Some? || p.video.Some?)
      && (p.category == Unknown ==> p.cover.None? && p.video.None? && p.restore.None?)
  {
    RecordPayload(dir);
    PayloadShape(DetectProjectType(dir.parent, dir.files), dir);
  }

  /** Each category yields only its own kind of payload, and no payload
      means no cover. */
  lemma PayloadShape(c: Category, dir: ProjectDir)
    ensures var payload := PayloadOf(c, dir);
      && (payload.RestorePayload? ==> c == Restores)
      && (payload.EditPayload? ==> c == Edits)
      && (payload.PortraitPayload? ==> c == Portraits)
      && (payload.VideoPayload? ==> c == Videos)
      && (payload.NoPayload? ==> PayloadCover(payload).None?)
      && (c == Unknown ==> payload.NoPayload?)
  {
  }

  lemma StartsWithPrefixed(pre: string, s: string, q: string)
    requires StartsWith(s, q)
    ensures StartsWith(pre + s, pre + q)
  {
    assert (pre + s)[..|pre + q|] == pre + s[..|q|];
  }

  /** A restore is set exactly when both a top-level `before.*` and `after.*`
      file exist; its paths are those of the first listed such files, under
      the detected category, and the cover is the after image. */
  lemma RestoreRecord(dir: ProjectDir)
    requires dir.error.None?
    requires DetectProjectType(dir.parent, dir.files) == Restores
    ensures var p := ProjectRecord(dir).value;
      var before := Lists.Filter(dir.files, IsBeforeFile);
      var after := Lists.Filter(dir.files, IsAfterFile);
      && (p.restore.Some? <==> |before| > 0 && |after| > 0)
      && (p.restore.Some? ==>
            && p.cover == Some(p.restore.value.after)
            && p.restore.value == Restore(ContentPath(Restores, dir.name, before[0]),
                                          ContentPath(Restores, dir.name, after[0]))
            && StartsWith(p.restore.value.before, "/content/restores/" + dir.name + "/before.")
            && StartsWith(p.restore.value.after, "/content/restores/" + dir.name + "/after."))
      && (p.restore.None? ==> p.cover.None?)
  {
    RecordPayload(dir);
    RestorePayloadOf(dir);
  }

  /** The payload of the `restores` branch, apart from the record. */
  lemma RestorePayloadOf(dir: ProjectDir)
    ensures var payload := PayloadOf(Restores, dir);
      var before := Lists.Filter(dir.files, IsBeforeFile);
      var after := Lists.Filter(dir.files, IsAfterFile);
      && (payload.RestorePayload? <==> |before| > 0 && |after| > 0)
      && (payload.RestorePayload? ==>
            && payload.restore == Restore(ContentPath(Restores, dir.name, before[0]),
                                          ContentPath(Restores, dir.name, after[0]))
            && StartsWith(payload.restore.before, "/content/restores/" + dir.name + "/before.")
            && StartsWith(payload.restore.after, "/content/restores/" + dir.name + "/after."))
      && (!payload.RestorePayload? ==> payload == NoPayload)
  {
    var before := Lists.Filter(dir.files, IsBeforeFile);
    var after := Lists.Filter(dir.files, IsAfterFile);
    if |before| > 0 && |after| > 0 {
      RestorePath(dir.name, before[0], "before.");
      RestorePath(dir.name, after[0], "after.");
      assert "/content/restores/" + dir.name + "/" + "before." == "/content/restores/" + dir.name + "/before.";
      assert "/content/restores/" + dir.name + "/" + "after." == "/content/restores/" + dir.name + "/after.";
    }
  }

  /** A restores file that starts with `stem` gets a path that starts with
      `/content/restores/<name>/<stem>`. */
  lemma RestorePath(name: string, f: string, stem: string)
    requires StartsWith(f, stem)
    ensures StartsWith(ContentPath(Restores, name, f), "/content/restores/" + name + "/" + stem)
  {
    var pre := "/content/restores/" + name + "/";
    assert ContentPath(Restores, name, f) == pre + f;
    StartsWithPrefixed(pre, f, stem);
  }

  /** An edit or portrait is set exactly when `sources/` and `final/` both
      hold files; `final` is a single path exactly when there is one final
      file, every source file gets a path, and the cover is the first final. */
  lemma EditRecord(dir: ProjectDir)
    requires dir.error.None?
    requires DetectProjectType(dir.parent, dir.files) in {Edits, Portraits}
    ensures var p := ProjectRecord(dir).value;
      var d := if p.category == Edits then p.edit else p.portrait;
      var sources := Lists.Filter(dir.files, IsSourceFile);
      var finals := Lists.Filter(dir.files, IsFinalFolderFile);
      && (d.Some? <==> |sources| > 0 && |finals| > 0)
      && (d.Some? ==>
            && |d.value.sources| == |sources|
            && (forall i :: 0 <= i < |sources| ==>
                  d.value.sources[i] == ContentPath(p.category, dir.name, sources[i]))
            && (d.value.final.OneFinal? <==> |finals| == 1)
            && (d.value.final.OneFinal? ==>
                  d.value.final.path == ContentPath(p.category, dir.name, finals[0]))
            && (d.value.final.ManyFinals? ==>
                  && |d.value.final.paths| == |finals|
                  && forall i :: 0 <= i < |finals| ==>
                       d.value.final.paths[i] == ContentPath(p.category, dir.name, finals[i]))
            && p.cover == Some(ContentPath(p.category, dir.name, finals[0])))
      && (d.None? ==> p.cover.None?)
  {
    var p := ProjectRecord(dir).value;
    var finals := Lists.Filter(dir.files, IsFinalFolderFile);
    var sources := Lists.Filter(dir.files, IsSourceFile);
    if |sources| > 0 && |finals| > 1 {
      var paths := ContentPaths(p.category, dir.name, finals);
      assert paths[0] == ContentPath(p.category, dir.name, finals[0]);
    }
  }

  /** The cover of a `final.url` video is a thumbnail exactly when the id
      pattern matches the link: the `includes('youtu')` test in front of the
      match never changes the outcome. */
  lemma UrlVideoCoverMeaning(final: Option<MediaRef>)
    ensures UrlVideoCover(final).Some? <==>
      final.Some? && final.value.UrlRef? && Youtube.VideoId(final.value.href).Some?
    ensures UrlVideoCover(final).Some? ==>
      UrlVideoCover(final).value == YoutubeThumbnail(Youtube.VideoId(final.value.href).value)
  {
    if final.Some? && final.value.UrlRef? {
      Youtube.VideoIdSound(final.value.href);
    }
  }

  /** A `final.url` holding a standard watch or short link gets the thumbnail
      of the video the link names. */
  lemma YoutubeLinkCover(host: string, prefix: string, id: string, rest: string)
    requires forall k :: 0 <= k < |host| ==> host[k] != 'y'
    requires prefix == Youtube.WatchPrefix || prefix == Youtube.ShortLinkPrefix
    requires id != [] && forall k :: 0 <= k < |id| ==> Youtube.IsIdChar(id[k])
    requires rest == [] || !Youtube.IsIdChar(rest[0])
    ensures UrlVideoCover(Some(UrlRef(host + prefix + id + rest))) == Some(YoutubeThumbnail(id))
  {
    Youtube.VideoIdOfLink(host, prefix, id, rest);
    UrlVideoCoverMeaning(Some(UrlRef(host + prefix + id + rest)));
  }

  /** The three sources of a video in their order of precedence: `final.url`,
      then a `final.*` file, then the first video file at the top level. Only
      the last one sets the sub-category from the folder name; the first takes
      it from `info.yml`. */
  lemma VideoRecord(dir: ProjectDir)
    requires dir.error.None?
    requires DetectProjectType(dir.parent, dir.files) == Videos
    ensures var p := ProjectRecord(dir).value;
      var finals := Lists.Filter(dir.files, IsFinalFile);
      var videos := Lists.Filter(dir.files, IsTopLevelVideo);
      && ("final.url" in dir.files ==>
            && p.video == Some(Video(ProcessUrlFile(dir, "final.url")))
            && p.cover == UrlVideoCover(ProcessUrlFile(dir, "final.url"))
            && p.videoCategory == InfoVideoCategory(dir.info))
      && ("final.url" !in dir.files && |finals| > 0 ==>
            && p.video.Some? && p.video.value.final.Some?
            && p.video.value.final.value == FileRef(ContentPath(Videos, dir.name, finals[0]))
            && p.cover == Some(p.video.value.final.value.src)
            && p.videoCategory.None?)
      && ("final.url" !in dir.files && |finals| == 0 && |videos| > 0 ==>
            && p.video == Some(Video(Some(FileRef(ContentPath(Videos, dir.name, videos[0])))))
            && p.cover == Some("/thumbnails/" + dir.name + ".jpg")
            && p.videoCategory == Some(VideoCategoryName(CategorizeVideo(dir.name, videos[0])))
            && p.videoCategory.value in {"promo", "shorts", "longform"})
      && ("final.url" !in dir.files && |finals| == 0 && |videos| == 0 ==>
            p.video.None? && p.cover.None?)
  {
    RecordPayload(dir);
    assert PayloadOf(Videos, dir) == VideoPayloadOf(dir);
  }

  // ----------------------------------------------------------------- timeline

  /** A step's `n` is the number its file name starts with, and its label
      has no '_' left: it is the rest of the name after the digits and '_',
      cut at its last '.' when a character follows that dot and uncut when
      there is no '.' or the name ends in one, with every '_' turned into a
      space. */
  lemma StepOfFields(dir: ProjectDir, name: string)
    requires StepOf(dir, name).Some?
    ensures StepOf(dir, name).value.n == StepNumber(name)
    ensures '_' !in StepOf(dir, name).value.labelText
    ensures var rest := StepParts(name).value.1;
      var text := StepOf(dir, name).value.labelText;
      && ('.' !in rest ==> text == ReplaceAll(rest, '_', ' '))
      && (forall i :: 0 <= i < |rest| - 1 && rest[i] == '.' && '.' !in rest[i + 1..]
            ==> text == ReplaceAll(rest[..i], '_', ' '))
      && (|rest| > 0 && rest[|rest| - 1] == '.' ==> text == ReplaceAll(rest, '_', ' '))
  {
    var (digits, rest) := StepParts(name).value;
    var text := StepLabel(rest);
    StepNumberAndUnderscores(dir, name);
    forall i | 0 <= i < |rest| - 1 && rest[i] == '.' && '.' !in rest[i + 1..]
      ensures text == ReplaceAll(rest[..i], '_', ' ')
    {
      LastDotAt(rest, i);
    }
    if '.' !in rest {
      assert LastIndexOf(rest, '.').None?;
    }
    if |rest| > 0 && rest[|rest| - 1] == '.' {
      assert LastIndexOf(rest, '.') == Some(|rest| - 1);
    }
  }

  lemma StepNumberAndUnderscores(dir: ProjectDir, name: string)
    requires StepOf(dir, name).Some?
    ensures StepOf(dir, name).value.n == StepNumber(name)
    ensures '_' !in StepOf(dir, name).value.labelText
  {
    var text := StepOf(dir, name).value.labelText;
    assert forall k :: 0 <= k < |text| ==> text[k] != '_';
  }

  /** The last '.' of `s` is at `i` when none follows it. */
  lemma LastDotAt(s: string, i: nat)
    requires i < |s| && s[i] == '.' && '.' !in s[i + 1..]
    ensures LastIndexOf(s, '.') == Some(i)
  {
    forall j | i < j < |s|
      ensures s[j] != '.'
    {
      assert s[j] == s[i + 1..][j - i - 1];
    }
    var r := LastIndexOf(s, '.');
    assert r.Some?;
    assert i <= r.value;
  }

  /** A file `<digits>_<stem>.<ext>` of `timeline/` becomes the step numbered
      `parseInt(digits)` and labelled by the stem with '_' turned into spaces,
      whose media is that file. */
  lemma StepOfName(dir: ProjectDir, digits: string, stem: string, ext: string)
    requires digits != [] && forall k :: 0 <= k < |digits| ==> IsDigit(digits[k])
    requires forall k :: 0 <= k < |stem| ==> IsNotLineTerminator(stem[k])
    requires ext != [] && '.' !in ext
    requires forall k :: 0 <= k < |ext| ==> IsNotLineTerminator(ext[k])
    ensures var name := digits + "_" + (stem + "." + ext);
      StepOf(dir, name) == Some(Step(DigitsValue(digits), ReplaceAll(stem, '_', ' '),
                                     GetMediaObject(dir, "timeline/" + name)))
  {
    var rest := stem + "." + ext;
    OneLine(stem, ext);
    StepPartsOfName(digits, rest);
    StepLabelOfExtension(stem, ext);
    StepOfParts(dir, digits + "_" + rest, digits, rest);
  }

  lemma StepOfParts(dir: ProjectDir, name: string, digits: string, rest: string)
    requires StepParts(name) == Some((digits, rest))
    ensures StepOf(dir, name) == Some(Step(DigitsValue(digits), StepLabel(rest),
                                           GetMediaObject(dir, "timeline/" + name)))
  {
  }

  lemma OneLine(stem: string, ext: string)
    requires forall k :: 0 <= k < |stem| ==> IsNotLineTerminator(stem[k])
    requires forall k :: 0 <= k < |ext| ==> IsNotLineTerminator(ext[k])
    ensures forall k :: 0 <= k < |stem + "." + ext| ==> IsNotLineTerminator((stem + "." + ext)[k])
  {
    var rest := stem + "." + ext;
    forall k | 0 <= k < |rest|
      ensures IsNotLineTerminator(rest[k])
    {
      if k < |stem| {
        assert rest[k] == stem[k];
      } else if k > |stem| {
        assert rest[k] == ext[k - |stem| - 1];
      }
    }
  }

  lemma StepPartsOfName(digits: string, rest: string)
    requires digits != [] && forall k :: 0 <= k < |digits| ==> IsDigit(digits[k])
    requires rest != [] && forall k :: 0 <= k < |rest| ==> IsNotLineTerminator(rest[k])
    ensures StepParts(digits + "_" + rest) == Some((digits, rest))
  {
    var name := digits + "_" + rest;
    assert name == digits + ("_" + rest);
    TakeWhileOfRun(digits, "_" + rest, IsDigit);
    assert name[|digits|] == '_';
    assert name[|digits| + 1..] == rest;
    TakeWhileOfRun(rest, [], IsNotLineTerminator);
    assert rest + [] == rest;
  }

  lemma StepLabelOfExtension(stem: string, ext: string)
    requires ext != [] && '.' !in ext
    ensures StepLabel(stem + "." + ext) == ReplaceAll(stem, '_', ' ')
  {
    var rest := stem + "." + ext;
    assert rest[|stem| + 1..] == ext;
    LastDotAt(rest, |stem|);
    assert rest[..|stem|] == stem;
  }

  lemma ToStepsCons(dir: ProjectDir, names: seq<string>)
    requires names != []
    ensures StepOf(dir, names[0]).Some? ==>
      ToSteps(dir, names) == [StepOf(dir, names[0]).value] + ToSteps(dir, names[1..])
    ensures StepOf(dir, names[0]).None? ==> ToSteps(dir, names) == ToSteps(dir, names[1..])
  {
  }

  lemma SortedCons(first: Step, rest: seq<Step>, low: int)
    requires first.n == low
    requires forall i :: 0 <= i < |rest| ==> low <= rest[i].n
    requires forall i, j :: 0 <= i < j < |rest| ==> rest[i].n <= rest[j].n
    ensures var steps := [first] + rest;
      && (forall i :: 0 <= i < |steps| ==> low <= steps[i].n)
      && (forall i, j :: 0 <= i < j < |steps| ==> steps[i].n <= steps[j].n)
  {
    var steps := [first] + rest;
    forall i, j | 0 <= i < j < |steps|
      ensures steps[i].n <= steps[j].n
    {
      assert steps[j] == rest[j - 1];
      if i > 0 {
        assert steps[i] == rest[i - 1];
      }
    }
  }

  /** Steps built from names sorted by their number come out in ascending
      `n`, none below the number of the first name. */
  lemma {:induction false} ToStepsSorted(dir: ProjectDir, names: seq<string>)
    requires Lists.SortedBy(names, StepNumber)
    ensures var steps := ToSteps(dir, names);
      forall i, j :: 0 <= i < j < |steps| ==> steps[i].n <= steps[j].n
    ensures names != [] ==> var steps := ToSteps(dir, names);
      forall i :: 0 <= i < |steps| ==> StepNumber(names[0]) <= steps[i].n
  {
    if names != [] {
      var tail := names[1..];
      var low := StepNumber(names[0]);
      Lists.SortedTail(names, StepNumber);
      ToStepsSorted(dir, tail);
      ToStepsCons(dir, names);
      var rest := ToSteps(dir, tail);
      if tail != [] {
        assert low <= StepNumber(tail[0]) by { assert tail[0] == names[1]; }
      } else {
        assert rest == [];
      }
      if StepOf(dir, names[0]).Some? {
        StepNumberAndUnderscores(dir, names[0]);
        SortedCons(StepOf(dir, names[0]).value, rest, low);
      }
    }
  }

  /** Every label is free of '_': they all became spaces. */
  lemma {:induction false} ToStepsLabels(dir: ProjectDir, names: seq<string>)
    ensures forall i :: 0 <= i < |ToSteps(dir, names)| ==> '_' !in ToSteps(dir, names)[i].labelText
    ensures |ToSteps(dir, names)| <= |names|
  {
    if names != [] {
      ToStepsLabels(dir, names[1..]);
      ToStepsCons(dir, names);
      if StepOf(dir, names[0]).Some? {
        StepNumberAndUnderscores(dir, names[0]);
        LabelsCons(StepOf(dir, names[0]).value, ToSteps(dir, names[1..]));
      }
    }
  }

  lemma LabelsCons(first: Step, rest: seq<Step>)
    requires '_' !in first.labelText
    requires forall i :: 0 <= i < |rest| ==> '_' !in rest[i].labelText
    ensures forall i :: 0 <= i < |[first] + rest| ==> '_' !in ([first] + rest)[i].labelText
  {
    var steps := [first] + rest;
    forall i | 0 < i < |steps|
      ensures '_' !in steps[i].labelText
    {
      assert steps[i] == rest[i - 1];
    }
  }

  /** The timeline files are ordered by their numeric prefix (so 2 comes
      before 10), files with the same number keep the listing order, and the
      order holds exactly the files whose names start with digits and '_'. */
  lemma TimelineOrderCorrect(files: seq<string>)
    ensures Lists.SortedBy(TimelineOrder(files), StepNumber)
    ensures multiset(TimelineOrder(files)) == multiset(Lists.Filter(TimelineEntries(files), HasStepPrefix))
    ensures forall k :: Lists.WithKey(TimelineOrder(files), StepNumber, k)
                     == Lists.WithKey(Lists.Filter(TimelineEntries(files), HasStepPrefix), StepNumber, k)
  {
    Lists.SortByCorrect(Lists.Filter(TimelineEntries(files), HasStepPrefix), StepNumber);
  }

  /** When every name yields a step, the steps are those of the names, one
      for one and in the same order. */
  lemma {:induction false} ToStepsAllNames(dir: ProjectDir, names: seq<string>)
    requires forall k :: 0 <= k < |names| ==> StepOf(dir, names[k]).Some?
    ensures |ToSteps(dir, names)| == |names|
    ensures forall k :: 0 <= k < |names| ==> ToSteps(dir, names)[k] == StepOf(dir, names[k]).value
  {
    if names != [] {
      var tail := names[1..];
      forall k | 0 <= k < |tail|
        ensures StepOf(dir, tail[k]).Some?
      {
        assert tail[k] == names[k + 1];
      }
      ToStepsAllNames(dir, tail);
      ToStepsCons(dir, names);
      var steps := ToSteps(dir, names);
      forall k | 0 < k < |names|
        ensures steps[k] == StepOf(dir, names[k]).value
      {
        assert tail[k - 1] == names[k];
      }
    }
  }

  /** No name that yields a step is dropped. */
  lemma {:induction false} ToStepsMembers(dir: ProjectDir, names: seq<string>, k: nat)
    requires k < |names| && StepOf(dir, names[k]).Some?
    ensures StepOf(dir, names[k]).value in ToSteps(dir, names)
  {
    ToStepsCons(dir, names);
    var tail := names[1..];
    var head := if StepOf(dir, names[0]).Some? then [StepOf(dir, names[0]).value] else [];
    assert ToSteps(dir, names) == head + ToSteps(dir, tail);
    if k > 0 {
      TailIndex(names, k);
      ToStepsMembers(dir, tail, k - 1);
    }
    InAppend(head, ToSteps(dir, tail), StepOf(dir, names[k]).value);
  }

  lemma TailIndex<T>(s: seq<T>, k: nat)
    requires 0 < k < |s|
    ensures s[1..][k - 1] == s[k]
  {
  }

  lemma InAppend<T>(a: seq<T>, b: seq<T>, x: T)
    requires x in a || x in b
    ensures x in a + b
  {
    if x in a {
      var i :| 0 <= i < |a| && a[i] == x;
      assert (a + b)[i] == x;
    } else {
      var i :| 0 <= i < |b| && b[i] == x;
      assert (a + b)[|a| + i] == x;
    }
  }

  /** Every step is the step of one of the names. */
  lemma ToStepsSources(dir: ProjectDir, names: seq<string>)
    ensures forall i :: 0 <= i < |ToSteps(dir, names)| ==> StepFrom(dir, names, ToSteps(dir, names)[i])
  {
    forall i | 0 <= i < |ToSteps(dir, names)|
      ensures StepFrom(dir, names, ToSteps(dir, names)[i])
    {
      StepSource(dir, names, i);
    }
  }

  /** `step` is the step of one of `names`. */
  predicate StepFrom(dir: ProjectDir, names: seq<string>, step: Step) {
    exists k :: 0 <= k < |names| && StepOf(dir, names[k]) == Some(step)
  }

  /** The step at index `i` is the step of one of the names. */
  lemma {:induction false} StepSource(dir: ProjectDir, names: seq<string>, i: nat)
    requires i < |ToSteps(dir, names)|
    ensures StepFrom(dir, names, ToSteps(dir, names)[i])
  {
    assert names != [];
    if StepOf(dir, names[0]).None? {
      SkipHead(dir, names, i);
      StepSource(dir, names[1..], i);
      StepFromTail(dir, names, ToSteps(dir, names[1..])[i]);
    } else if i == 0 {
      HeadSource(dir, names);
    } else {
      KeepHead(dir, names, i);
      StepSource(dir, names[1..], i - 1);
      StepFromTail(dir, names, ToSteps(dir, names[1..])[i - 1]);
    }
  }

  lemma SkipHead(dir: ProjectDir, names: seq<string>, i: nat)
    requires names != [] && StepOf(dir, names[0]).None? && i < |ToSteps(dir, names)|
    ensures i < |ToSteps(dir, names[1..])| && ToSteps(dir, names)[i] == ToSteps(dir, names[1..])[i]
  {
    ToStepsCons(dir, names);
  }

  lemma HeadSource(dir: ProjectDir, names: seq<string>)
    requires names != [] && StepOf(dir, names[0]).Some?
    ensures StepFrom(dir, names, ToSteps(dir, names)[0])
  {
    ToStepsCons(dir, names);
    assert StepOf(dir, names[0]) == Some(ToSteps(dir, names)[0]);
  }

  lemma KeepHead(dir: ProjectDir, names: seq<string>, i: nat)
    requires names != [] && StepOf(dir, names[0]).Some? && 0 < i < |ToSteps(dir, names)|
    ensures i - 1 < |ToSteps(dir, names[1..])| && ToSteps(dir, names)[i] == ToSteps(dir, names[1..])[i - 1]
  {
    ToStepsCons(dir, names);
  }

  lemma StepFromTail(dir: ProjectDir, names: seq<string>, step: Step)
    requires names != [] && StepFrom(dir, names[1..], step)
    ensures StepFrom(dir, names, step)
  {
    var k :| 0 <= k < |names[1..]| && StepOf(dir, names[1..][k]) == Some(step);
    assert names[1..][k] == names[k + 1];
  }

  /** The timeline entries are the names, after `timeline/`, of the files
      directly inside that folder. */
  lemma {:induction false} TimelineEntriesExactly(files: seq<string>, name: string)
    ensures name in TimelineEntries(files) <==>
      exists i :: 0 <= i < |files| && StartsWith(files[i], "timeline/")
                  && '/' !in files[i][9..] && files[i][9..] == name
  {
    if files != [] {
      TimelineEntriesExactly(files[1..], name);
      if name in TimelineEntries(files[1..]) {
        var i :| 0 <= i < |files[1..]| && StartsWith(files[1..][i], "timeline/")
                 && '/' !in files[1..][i][9..] && files[1..][i][9..] == name;
        assert files[i + 1] == files[1..][i];
      }
      if exists i :: 0 <= i < |files| && StartsWith(files[i], "timeline/")
                     && '/' !in files[i][9..] && files[i][9..] == name {
        var i :| 0 <= i < |files| && StartsWith(files[i], "timeline/")
                 && '/' !in files[i][9..] && files[i][9..] == name;
        if i > 0 {
          assert files[1..][i - 1] == files[i];
        }
      }
    }
  }

  /** `step` is the step of a file directly inside `timeline/`. */
  predicate FromTimelineEntry(dir: ProjectDir, step: Step) {
    exists name :: name in TimelineEntries(dir.files) && StepOf(dir, name) == Some(step)
  }

  /** The steps of a project: in ascending `n`, with '_'-free labels, no
      more of them than files directly inside `timeline/`; every such file
      that makes a step has its step in the result, and every step comes
      from one of them. */
  lemma TimelineSteps(dir: ProjectDir)
    ensures forall i, j :: 0 <= i < j < |ProcessTimeline(dir)| ==>
              ProcessTimeline(dir)[i].n <= ProcessTimeline(dir)[j].n
    ensures forall i :: 0 <= i < |ProcessTimeline(dir)| ==> '_' !in ProcessTimeline(dir)[i].labelText
    ensures |ProcessTimeline(dir)| <= |TimelineEntries(dir.files)|
    ensures forall name :: name in TimelineEntries(dir.files) && StepOf(dir, name).Some?
                           ==> StepOf(dir, name).value in ProcessTimeline(dir)
    ensures forall i :: 0 <= i < |ProcessTimeline(dir)| ==>
              FromTimelineEntry(dir, ProcessTimeline(dir)[i])
  {
    TimelineOrderCorrect(dir.files);
    var names := TimelineOrder(dir.files);
    assert ProcessTimeline(dir) == ToSteps(dir, names);
    ToStepsSorted(dir, names);
    ToStepsLabels(dir, names);
    assert |names| == |Lists.Filter(TimelineEntries(dir.files), HasStepPrefix)| by {
      assert |multiset(names)| == |names|;
    }
    TimelineStepsComplete(dir);
    TimelineStepsSourced(dir);
  }

  lemma TimelineStepsComplete(dir: ProjectDir)
    ensures forall name :: name in TimelineEntries(dir.files) && StepOf(dir, name).Some?
                           ==> StepOf(dir, name).value in ProcessTimeline(dir)
  {
    forall name | name in TimelineEntries(dir.files) && StepOf(dir, name).Some?
      ensures StepOf(dir, name).value in ProcessTimeline(dir)
    {
      EntryStep(dir, name);
    }
  }

  lemma EntryStep(dir: ProjectDir, name: string)
    requires name in TimelineEntries(dir.files) && StepOf(dir, name).Some?
    ensures StepOf(dir, name).value in ProcessTimeline(dir)
  {
    var names := TimelineOrder(dir.files);
    var entries := TimelineEntries(dir.files);
    assert ProcessTimeline(dir) == ToSteps(dir, names);
    TimelineOrderCorrect(dir.files);
    Lists.FilterMembers(entries, HasStepPrefix, name);
    assert name in multiset(names);
    var k :| 0 <= k < |names| && names[k] == name;
    ToStepsMembers(dir, names, k);
  }

  lemma TimelineStepsSourced(dir: ProjectDir)
    ensures forall i :: 0 <= i < |ProcessTimeline(dir)| ==>
              FromTimelineEntry(dir, ProcessTimeline(dir)[i])
  {
    forall i | 0 <= i < |ProcessTimeline(dir)|
      ensures FromTimelineEntry(dir, ProcessTimeline(dir)[i])
    {
      SourcedStep(dir, i);
    }
  }

  lemma SourcedStep(dir: ProjectDir, i: nat)
    requires i < |ProcessTimeline(dir)|
    ensures FromTimelineEntry(dir, ProcessTimeline(dir)[i])
  {
    var names := TimelineOrder(dir.files);
    assert ProcessTimeline(dir) == ToSteps(dir, names);
    StepSource(dir, names, i);
    var k :| 0 <= k < |names| && StepOf(dir, names[k]) == Some(ProcessTimeline(dir)[i]);
    OrderedEntry(dir.files, names[k]);
  }

  lemma OrderedEntry(files: seq<string>, name: string)
    requires name in TimelineOrder(files)
    ensures name in TimelineEntries(files)
  {
    TimelineOrderCorrect(files);
    assert name in multiset(Lists.Filter(TimelineEntries(files), HasStepPrefix));
    Lists.FilterMembers(TimelineEntries(files), HasStepPrefix, name);
  }

  lemma {:induction false} NoTimelineEntries(files: seq<string>)
    requires forall i :: 0 <= i < |files| ==> !StartsWith(files[i], "timeline/")
    ensures TimelineEntries(files) == []
  {
    if files != [] {
      NoTimelineEntries(files[1..]);
    }
  }

  /** A project without a `timeline/` folder has no steps and no `timeline`
      property. */
  lemma NoTimelineFolder(dir: ProjectDir)
    requires dir.error.None?
    requires forall i :: 0 <= i < |dir.files| ==> !StartsWith(dir.files[i], "timeline/")
    ensures ProcessTimeline(dir) == []
    ensures ProjectRecord(dir).value.timeline.None?
  {
    NoTimelineEntries(dir.files);
  }

  lemma NumberedName(digits: string, rest: string, name: string)
    requires digits != [] && forall k :: 0 <= k < |digits| ==> IsDigit(digits[k])
    requires name == digits + ("_" + rest)
    ensures HasStepPrefix(name) && StepNumber(name) == DigitsValue(digits)
  {
    TakeWhileOfRun(digits, "_" + rest, IsDigit);
    assert name[|digits|] == '_';
  }

  /** `<digits>_<stem>.<ext>` names a step file whose stem has no '_'. */
  predicate PlainStepName(digits: string, stem: string, ext: string) {
    && digits != [] && (forall k :: 0 <= k < |digits| ==> IsDigit(digits[k]))
    && (forall k :: 0 <= k < |stem| ==> IsNotLineTerminator(stem[k]))
    && '_' !in stem
    && ext != [] && '.' !in ext
    && (forall k :: 0 <= k < |ext| ==> IsNotLineTerminator(ext[k]))
  }

  /** The step a file `<n>_<stem>.<ext>` of `timeline/` makes when the stem has no '_'. */
  lemma StepOfPlainName(dir: ProjectDir, digits: string, stem: string, ext: string)
    requires PlainStepName(digits, stem, ext)
    ensures var name := digits + "_" + (stem + "." + ext);
      StepOf(dir, name) == Some(Step(DigitsValue(digits), stem, GetMediaObject(dir, "timeline/" + name)))
  {
    StepOfName(dir, digits, stem, ext);
    ReplaceAllAbsent(stem, '_', ' ');
  }

  lemma TimelineEntry(f: string, name: string)
    requires f == "timeline/" + name && '/' !in name
    ensures StartsWith(f, "timeline/") && f[9..] == name
  {
    assert f[..9] == "timeline/";
    assert f[9..] == name;
  }

  lemma TimelineEntriesCons(f: string, rest: seq<string>)
    requires StartsWith(f, "timeline/") && '/' !in f[9..]
    ensures TimelineEntries([f] + rest) == [f[9..]] + TimelineEntries(rest)
  {
    assert ([f] + rest)[0] == f;
    assert ([f] + rest)[1..] == rest;
  }

  lemma EntriesOfThree(f0: string, f1: string, f2: string)
    requires StartsWith(f0, "timeline/") && '/' !in f0[9..]
    requires StartsWith(f1, "timeline/") && '/' !in f1[9..]
    requires StartsWith(f2, "timeline/") && '/' !in f2[9..]
    ensures TimelineEntries([f0, f1, f2]) == [f0[9..], f1[9..], f2[9..]]
  {
    TimelineEntriesCons(f2, []);
    assert [f2] + [] == [f2];
    TimelineEntriesCons(f1, [f2]);
    assert [f1] + [f2] == [f1, f2];
    TimelineEntriesCons(f0, [f1, f2]);
    assert [f0] + [f1, f2] == [f0, f1, f2];
  }

  /** Sorting three elements whose keys are in the order 2nd, 3rd, 1st. */
  lemma SortThree<T>(a: T, b: T, c: T, key: T -> int)
    requires key(c) < key(a) <= key(b)
    ensures Lists.SortBy([a, b, c], key) == [c, a, b]
  {
    assert [a][..0] == [];
    assert Lists.SortBy([a], key) == [a];
    assert [a, b][..1] == [a];
    assert Lists.Insert([a][1..], b, key) == [b];
    assert Lists.SortBy([a, b], key) == [a, b];
    assert [a, b, c][..2] == [a, b];
  }

  /** `f` lies directly inside `timeline/` and its name starts with digits and '_'. */
  predicate TimelineStepFile(f: string) {
    StartsWith(f, "timeline/") && '/' !in f[9..] && HasStepPrefix(f[9..])
  }

  /** Three timeline files come out in the order of their numbers. */
  lemma OrderOfThree(f0: string, f1: string, f2: string)
    requires TimelineStepFile(f0) && TimelineStepFile(f1) && TimelineStepFile(f2)
    requires StepNumber(f2[9..]) < StepNumber(f0[9..]) <= StepNumber(f1[9..])
    ensures TimelineOrder([f0, f1, f2]) == [f2[9..], f0[9..], f1[9..]]
  {
    EntriesOfThree(f0, f1, f2);
    Lists.FilterAll([f0[9..], f1[9..], f2[9..]], HasStepPrefix);
    SortThree(f0[9..], f1[9..], f2[9..], StepNumber);
  }

  lemma NumberedFile(f: string, digits: string, rest: string)
    requires digits != [] && forall k :: 0 <= k < |digits| ==> IsDigit(digits[k])
    requires '/' !in rest
    requires f == "timeline/" + (digits + ("_" + rest))
    ensures TimelineStepFile(f) && StepNumber(f[9..]) == DigitsValue(digits)
    ensures f[9..] == digits + ("_" + rest)
  {
    TimelineEntry(f, digits + ("_" + rest));
    NumberedName(digits, rest, f[9..]);
  }

  lemma TenValue()
    ensures DigitsValue("10") == 10
  {
    assert "10"[..1] == "1";
  }

  lemma RetouchSpelling()
    ensures "timeline/2_retouch.jpg" == "timeline/" + "2_retouch.jpg"
    ensures "2_retouch.jpg" == "2" + ("_" + "retouch.jpg")
    ensures "2_retouch.jpg" == "2" + "_" + ("retouch" + "." + "jpg")
  {
  }

  lemma RetouchFile()
    ensures TimelineStepFile("timeline/2_retouch.jpg") && StepNumber("2_retouch.jpg") == 2
    ensures "timeline/2_retouch.jpg"[9..] == "2_retouch.jpg"
  {
    RetouchSpelling();
    NumberedFile("timeline/2_retouch.jpg", "2", "retouch.jpg");
    assert DigitsValue("2") == 2;
  }

  lemma FinalSpelling()
    ensures "timeline/10_final.jpg" == "timeline/" + "10_final.jpg"
    ensures "10_final.jpg" == "10" + ("_" + "final.jpg")
    ensures "10_final.jpg" == "10" + "_" + ("final" + "." + "jpg")
  {
  }

  lemma FinalFile()
    ensures TimelineStepFile("timeline/10_final.jpg") && StepNumber("10_final.jpg") == 10
    ensures "timeline/10_final.jpg"[9..] == "10_final.jpg"
  {
    FinalSpelling();
    NumberedFile("timeline/10_final.jpg", "10", "final.jpg");
    TenValue();
  }

  lemma IntakeSpelling()
    ensures "timeline/1_intake.jpg" == "timeline/" + "1_intake.jpg"
    ensures "1_intake.jpg" == "1" + ("_" + "intake.jpg")
    ensures "1_intake.jpg" == "1" + "_" + ("intake" + "." + "jpg")
  {
  }

  lemma IntakeFile()
    ensures TimelineStepFile("timeline/1_intake.jpg") && StepNumber("1_intake.jpg") == 1
    ensures "timeline/1_intake.jpg"[9..] == "1_intake.jpg"
  {
    IntakeSpelling();
    NumberedFile("timeline/1_intake.jpg", "1", "intake.jpg");
    assert DigitsValue("1") == 1;
  }

  lemma ExampleThreeOrder(files: seq<string>)
    requires files == ["timeline/2_retouch.jpg", "timeline/10_final.jpg", "timeline/1_intake.jpg"]
    ensures TimelineOrder(files) == ["1_intake.jpg", "2_retouch.jpg", "10_final.jpg"]
  {
    RetouchFile();
    FinalFile();
    IntakeFile();
    OrderOfThree(files[0], files[1], files[2]);
    assert files == [files[0], files[1], files[2]];
  }

  /** Sorting two elements whose keys are in descending order swaps them. */
  lemma SortTwo<T>(a: T, b: T, key: T -> int)
    requires key(b) < key(a)
    ensures Lists.SortBy([a, b], key) == [b, a]
  {
    assert [a][..0] == [];
    assert Lists.SortBy([a], key) == [a];
    assert [a, b][..1] == [a];
  }

  /** Two numbered timeline files and one file elsewhere: only the two remain, by number. */
  lemma OrderOfTwoAndOther(f0: string, f1: string, other: string)
    requires TimelineStepFile(f0) && TimelineStepFile(f1) && !StartsWith(other, "timeline/")
    requires StepNumber(f1[9..]) < StepNumber(f0[9..])
    ensures TimelineOrder([f0, f1, other]) == [f1[9..], f0[9..]]
  {
    var none: seq<string> := [];
    assert [other][1..] == none;
    assert TimelineEntries([other]) == none;
    TimelineEntriesCons(f1, [other]);
    assert [f1] + [other] == [f1, other];
    TimelineEntriesCons(f0, [f1, other]);
    assert [f0] + [f1, other] == [f0, f1, other];
    Lists.FilterAll([f0[9..], f1[9..]], HasStepPrefix);
    SortTwo(f0[9..], f1[9..], StepNumber);
  }

  lemma EndFile()
    ensures TimelineStepFile("timeline/10_end.jpg") && StepNumber("10_end.jpg") == 10
    ensures "timeline/10_end.jpg"[9..] == "10_end.jpg"
  {
    assert "timeline/10_end.jpg" == "timeline/" + ("10" + ("_" + "end.jpg"));
    assert "10_end.jpg" == "10" + ("_" + "end.jpg");
    NumberedFile("timeline/10_end.jpg", "10", "end.jpg");
    TenValue();
  }

  lemma MidFile()
    ensures TimelineStepFile("timeline/2_mid.jpg") && StepNumber("2_mid.jpg") == 2
    ensures "timeline/2_mid.jpg"[9..] == "2_mid.jpg"
  {
    assert "timeline/2_mid.jpg" == "timeline/" + ("2" + ("_" + "mid.jpg"));
    assert "2_mid.jpg" == "2" + ("_" + "mid.jpg");
    NumberedFile("timeline/2_mid.jpg", "2", "mid.jpg");
    assert DigitsValue("2") == 2;
  }

  lemma NotesOutside(f: string)
    requires f == "notes.txt"
    ensures !StartsWith(f, "timeline/")
  {
    assert f[0] != "timeline/"[0];
  }

  /** 2 sorts before 10, although "10_" comes first as text; `notes.txt` is not in `timeline/`. */
  lemma TimelineNumericExample(files: seq<string>)
    requires files == ["timeline/10_end.jpg", "timeline/2_mid.jpg", "notes.txt"]
    ensures TimelineOrder(files) == ["2_mid.jpg", "10_end.jpg"]
  {
    EndFile();
    MidFile();
    NotesOutside(files[2]);
    OrderOfTwoAndOther(files[0], files[1], files[2]);
    assert files == [files[0], files[1], files[2]];
  }

  /** The steps of three names that each make one. */
  lemma StepsOfThree(dir: ProjectDir, x: string, y: string, z: string)
    requires StepOf(dir, x).Some? && StepOf(dir, y).Some? && StepOf(dir, z).Some?
    ensures ToSteps(dir, [x, y, z]) == [StepOf(dir, x).value, StepOf(dir, y).value, StepOf(dir, z).value]
  {
    ToStepsCons(dir, [x, y, z]);
    assert [x, y, z][1..] == [y, z];
    ToStepsCons(dir, [y, z]);
    assert [y, z][1..] == [z];
    ToStepsCons(dir, [z]);
    assert [z][1..] == [];
  }

  lemma ExampleStepOf(dir: ProjectDir, name: string, path: string, digits: string, stem: string, n: nat)
    requires PlainStepName(digits, stem, "jpg")
    requires name == digits + "_" + (stem + "." + "jpg")
    requires path == "timeline/" + name
    requires DigitsValue(digits) == n
    ensures StepOf(dir, name) == Some(Step(n, stem, GetMediaObject(dir, path)))
  {
    StepOfPlainName(dir, digits, stem, "jpg");
  }

  lemma RetouchPlain()
    ensures PlainStepName("2", "retouch", "jpg")
  {
  }

  lemma RetouchStep(dir: ProjectDir)
    ensures StepOf(dir, "2_retouch.jpg") == Some(Step(2, "retouch", GetMediaObject(dir, "timeline/2_retouch.jpg")))
  {
    RetouchSpelling();
    RetouchPlain();
    assert DigitsValue("2") == 2;
    ExampleStepOf(dir, "2_retouch.jpg", "timeline/2_retouch.jpg", "2", "retouch", 2);
  }


  lemma FinalPlain()
    ensures PlainStepName("10", "final", "jpg")
  {
  }

  lemma FinalStep(dir: ProjectDir)
    ensures StepOf(dir, "10_final.jpg") == Some(Step(10, "final", GetMediaObject(dir, "timeline/10_final.jpg")))
  {
    FinalSpelling();
    FinalPlain();
    TenValue();
    ExampleStepOf(dir, "10_final.jpg", "timeline/10_final.jpg", "10", "final", 10);
  }


  lemma IntakePlain()
    ensures PlainStepName("1", "intake", "jpg")
  {
  }

  lemma IntakeStep(dir: ProjectDir)
    ensures StepOf(dir, "1_intake.jpg") == Some(Step(1, "intake", GetMediaObject(dir, "timeline/1_intake.jpg")))
  {
    IntakeSpelling();
    IntakePlain();
    assert DigitsValue("1") == 1;
    ExampleStepOf(dir, "1_intake.jpg", "timeline/1_intake.jpg", "1", "intake", 1);
  }


  /** Three timeline files listed as 2, 10, 1 become the steps 1, 2, 10,
      labelled by the text after the number. */
  lemma TimelineThreeFilesExample(dir: ProjectDir)
    requires dir.files == ["timeline/2_retouch.jpg", "timeline/10_final.jpg", "timeline/1_intake.jpg"]
    ensures ProcessTimeline(dir)
         == [Step(1, "intake", GetMediaObject(dir, "timeline/1_intake.jpg")),
             Step(2, "retouch", GetMediaObject(dir, "timeline/2_retouch.jpg")),
             Step(10, "final", GetMediaObject(dir, "timeline/10_final.jpg"))]
  {
    ExampleThreeOrder(dir.files);
    IntakeStep(dir);
    RetouchStep(dir);
    FinalStep(dir);
    StepsOfThree(dir, "1_intake.jpg", "2_retouch.jpg", "10_final.jpg");
  }

  // ------------------------------------------------------------- aggregation

  lemma {:induction false} ProcessedAppend(a: seq<ProjectDir>, b: seq<ProjectDir>)
    ensures Processed(a + b) == Processed(a) + Processed(b)
    decreases |b|
  {
    if b == [] {
      assert a + b == a;
    } else {
      var init := b[..|b| - 1];
      assert (a + b)[..|a + b| - 1] == a + init;
      assert (a + b)[|a + b| - 1] == b[|b| - 1];
      ProcessedAppend(a, init);
    }
  }

  /** A folder whose processing throws is skipped; the records of the folders
      before and after it are kept, in order. */
  lemma FailureIsolated(a: seq<ProjectDir>, bad: ProjectDir, b: seq<ProjectDir>)
    requires bad.error.Some?
    ensures Processed(a + [bad] + b) == Processed(a) + Processed(b)
  {
    ProcessedAppend(a + [bad], b);
    ProcessedAppend(a, [bad]);
    ProcessedFailure(bad);
    assert Processed(a + [bad]) == Processed(a);
  }

  lemma ProcessedFailure(bad: ProjectDir)
    requires bad.error.Some?
    ensures Processed([bad]) == []
  {
    assert ProjectRecord(bad).Failure?;
    assert [bad][..0] == [];
  }

  predicate Succeeds(d: ProjectDir) {
    d.error.None?
  }

  /** The records are those of the folders that do not throw, one each, in
      listing order. */
  lemma {:induction false} ProcessedRecords(dirs: seq<ProjectDir>)
    ensures var good := Lists.Filter(dirs, Succeeds);
      && |Processed(dirs)| == |good|
      && forall i :: 0 <= i < |good| ==> Processed(dirs)[i] == ProjectRecord(good[i]).value
  {
    if dirs != [] {
      var init, last := dirs[..|dirs| - 1], dirs[|dirs| - 1];
      ProcessedRecords(init);
      assert dirs == init + [last];
      Lists.FilterAppend(init, last, Succeeds);
    }
  }

  /** The manifest: the records sorted newest first (a stable permutation of
      them), each without its `modTime`. */
  lemma ManifestNewestFirst(dirs: seq<ProjectDir>)
    ensures var records := Processed(dirs);
      var sorted := Lists.SortBy(records, NewestFirstKey);
      var out := StripModTimes(sorted);
      && multiset(sorted) == multiset(records)
      && (forall i :: 0 <= i < |sorted| ==> sorted[i].modTime.Some?)
      && (forall i, j :: 0 <= i < j < |sorted| ==> sorted[i].modTime.value >= sorted[j].modTime.value)
      && (forall k :: Lists.WithKey(sorted, NewestFirstKey, k) == Lists.WithKey(records, NewestFirstKey, k))
      && |out| == |records|
      && (forall i :: 0 <= i < |out| ==> out[i].modTime.None? && out[i] == sorted[i].(modTime := None))
  {
    var records := Processed(dirs);
    var sorted := Lists.SortBy(records, NewestFirstKey);
    Lists.SortByCorrect(records, NewestFirstKey);
    forall i | 0 <= i < |sorted|
      ensures sorted[i].modTime.Some?
    {
      assert sorted[i] in multiset(records);
    }
    assert |sorted| == |records| by {
      assert |multiset(sorted)| == |sorted|;
    }
  }
}
