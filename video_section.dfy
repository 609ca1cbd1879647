/** The home-page showcase components/VideoSection.tsx: out of the video
    records it shows the first two shorts, the first two long-form videos and
    the first two promos, in that order, the shorts and promos in a vertical
    row and the long-form videos in a horizontal grid. */
module VideoSection {
  import opened Wrappers
  import Lists

  /** The fields of a record the section decides on; the rest is passed to
      the player unchanged. */
  datatype VideoProject = VideoProject(slug: string, title: string, videoCategory: Option<string>)

  datatype SectionView =
    | EmptyNotice
    | Rows(vertical: seq<VideoProject>, horizontal: seq<VideoProject>)

  const Shorts: string := "shorts"
  const Longform: string := "longform"
  const Promo: string := "promo"

  predicate IsIn(c: string, p: VideoProject) {
    p.videoCategory == Some(c)
  }

  /** The first two records, in input order, whose sub-category is `c`. */
  function Pick(projects: seq<VideoProject>, c: string): (r: seq<VideoProject>)
    ensures |r| <= 2
    ensures forall i :: 0 <= i < |r| ==> r[i].videoCategory == Some(c)
  {
    Lists.Take(Lists.Filter(projects, p => IsIn(c, p)), 2)
  }

  /** `displayProjects`. */
  function DisplayProjects(projects: seq<VideoProject>): seq<VideoProject> {
    Pick(projects, Shorts) + Pick(projects, Longform) + Pick(projects, Promo)
  }

  predicate IsVertical(p: VideoProject) {
    p.videoCategory == Some(Shorts) || p.videoCategory == Some(Promo)
  }

  predicate IsHorizontal(p: VideoProject) {
    p.videoCategory == Some(Longform)
  }

  /** The section: the notice when nothing is displayed, otherwise the
      vertical and horizontal rows. */
  function Render(projects: seq<VideoProject>): SectionView {
    var display := DisplayProjects(projects);
    if |display| == 0 then EmptyNotice
    else Rows(Lists.Filter(display, IsVertical), Lists.Filter(display, IsHorizontal))
  }

  /** The position of a sub-category in the display order. */
  function GroupRank(p: VideoProject): int {
    if p.videoCategory == Some(Shorts) then 0
    else if p.videoCategory == Some(Longform) then 1
    else 2
  }

  /** At most six records are displayed, each of one of the three
      sub-categories, the shorts first, then the long-form videos, then the
      promos. */
  lemma DisplayBounds(projects: seq<VideoProject>)
    ensures var d := DisplayProjects(projects);
      && |d| <= 6
      && (forall i :: 0 <= i < |d| ==> d[i].videoCategory in {Some(Shorts), Some(Longform), Some(Promo)})
      && Lists.SortedBy(d, GroupRank)
  {
    var s, l, p := Pick(projects, Shorts), Pick(projects, Longform), Pick(projects, Promo);
    var d := s + l + p;
    forall i | 0 <= i < |d|
      ensures GroupRank(d[i]) == if i < |s| then 0 else if i < |s| + |l| then 1 else 2
    {
      if i < |s| {
        assert d[i] == s[i];
      } else if i < |s| + |l| {
        assert d[i] == l[i - |s|];
      } else {
        assert d[i] == p[i - |s| - |l|];
      }
    }
  }

  /** Each group is the first records of its sub-category, in the order of
      the input, as many as there are up to two. */
  lemma PickIsFirstTwo(projects: seq<VideoProject>, c: string)
    ensures var all := Lists.Filter(projects, p => IsIn(c, p));
      && |Pick(projects, c)| == (if |all| < 2 then |all| else 2)
      && Pick(projects, c) == all[..|Pick(projects, c)|]
  {
  }

  /** A record whose sub-category is missing or is none of the three is
      never displayed. */
  lemma OthersNeverDisplayed(projects: seq<VideoProject>, x: VideoProject)
    requires x.videoCategory !in {Some(Shorts), Some(Longform), Some(Promo)}
    ensures x !in DisplayProjects(projects)
  {
    DisplayBounds(projects);
  }

  /** A displayed record is one of the input records. */
  lemma DisplayedComeFromInput(projects: seq<VideoProject>, x: VideoProject)
    requires x in DisplayProjects(projects)
    ensures x in projects
  {
    var all := Lists.Filter(projects, p => IsIn(x.videoCategory.value, p));
    DisplayBounds(projects);
    Lists.FilterMembers(projects, p => IsIn(x.videoCategory.value, p), x);
  }

  /** The vertical row is exactly the shorts followed by the promos, the
      horizontal grid exactly the long-form videos; together they hold every
      displayed record once. */
  lemma RowsSplitDisplay(projects: seq<VideoProject>)
    requires |DisplayProjects(projects)| > 0
    ensures Render(projects).Rows?
    ensures Render(projects).vertical == Pick(projects, Shorts) + Pick(projects, Promo)
    ensures Render(projects).horizontal == Pick(projects, Longform)
    ensures |Render(projects).vertical| + |Render(projects).horizontal| == |DisplayProjects(projects)|
  {
    var s, l, p := Pick(projects, Shorts), Pick(projects, Longform), Pick(projects, Promo);
    VerticalOfGroups(s, l, p);
    HorizontalOfGroups(s, l, p);
  }

  lemma VerticalOfGroups(s: seq<VideoProject>, l: seq<VideoProject>, p: seq<VideoProject>)
    requires forall i :: 0 <= i < |s| ==> s[i].videoCategory == Some(Shorts)
    requires forall i :: 0 <= i < |l| ==> l[i].videoCategory == Some(Longform)
    requires forall i :: 0 <= i < |p| ==> p[i].videoCategory == Some(Promo)
    ensures Lists.Filter(s + l + p, IsVertical) == s + p
  {
    assert Shorts != Longform && Promo != Longform;
    Lists.FilterAll(s, IsVertical);
    Lists.FilterNone(l, IsVertical);
    Lists.FilterAll(p, IsVertical);
    Lists.FilterConcat(s, l, IsVertical);
    assert Lists.Filter(s + l, IsVertical) == s;
    Lists.FilterConcat(s + l, p, IsVertical);
  }

  lemma HorizontalOfGroups(s: seq<VideoProject>, l: seq<VideoProject>, p: seq<VideoProject>)
    requires forall i :: 0 <= i < |s| ==> s[i].videoCategory == Some(Shorts)
    requires forall i :: 0 <= i < |l| ==> l[i].videoCategory == Some(Longform)
    requires forall i :: 0 <= i < |p| ==> p[i].videoCategory == Some(Promo)
    ensures Lists.Filter(s + l + p, IsHorizontal) == l
  {
    Lists.FilterConcat(s + l, p, IsHorizontal);
    Lists.FilterConcat(s, l, IsHorizontal);
    Lists.FilterNone(s, IsHorizontal);
    Lists.FilterAll(l, IsHorizontal);
    Lists.FilterNone(p, IsHorizontal);
  }

  /** The notice "No video projects available" appears exactly when no
      record is a short, a long-form video or a promo. */
  lemma EmptyNoticeExactly(projects: seq<VideoProject>)
    ensures Render(projects).EmptyNotice? <==>
      forall i :: 0 <= i < |projects| ==>
        projects[i].videoCategory !in {Some(Shorts), Some(Longform), Some(Promo)}
  {
    if forall i :: 0 <= i < |projects| ==> projects[i].videoCategory !in {Some(Shorts), Some(Longform), Some(Promo)} {
      Lists.FilterNone(projects, p => IsIn(Shorts, p));
      Lists.FilterNone(projects, p => IsIn(Longform, p));
      Lists.FilterNone(projects, p => IsIn(Promo, p));
    } else {
      var i :| 0 <= i < |projects| && projects[i].videoCategory in {Some(Shorts), Some(Longform), Some(Promo)};
      var c := projects[i].videoCategory.value;
      Lists.FilterMembers(projects, p => IsIn(c, p), projects[i]);
      assert |Pick(projects, c)| > 0;
    }
  }
}
