/** The top bar (src/components/NavBar.jsx): the page title derived from the
    last segment of the current path. */
module NavBar {
  import opened Text

  /** `pathname.split("/").pop()`: the text after the last slash (all of it
      when there is no slash). */
  function LastSegment(path: string): (seg: string)
    ensures '/' !in seg
    ensures |seg| <= |path|
  {
    var parts := Split(path, '/');
    JoinSplit(path, '/');
    SegmentShorter(parts, '/');
    parts[|parts| - 1]
  }

  /** The last piece of a split is no longer than the joined string. */
  lemma {:induction false} SegmentShorter(parts: seq<string>, sep: char)
    requires |parts| >= 1
    ensures |parts[|parts| - 1]| <= |Join(parts, sep)|
    decreases |parts|
  {
    if |parts| > 1 {
      SegmentShorter(parts[1..], sep);
    }
  }

  /** `getPageTitle`: "Dashboard" for the dashboard itself and for a path
      ending in a slash; otherwise the segment with its first character
      upper-cased and its first dash after that turned into a space. */
  function PageTitle(path: string): (title: string)
    ensures var seg := LastSegment(path);
      && (seg == "dashboard" || seg == "" ==> title == "Dashboard")
      && (seg != "dashboard" && seg != "" ==> |title| == |seg| && title[0] == UpperChar(seg[0]))
  {
    var seg := LastSegment(path);
    if seg == "dashboard" || seg == "" then "Dashboard"
    else [UpperChar(seg[0])] + ReplaceFirst(seg[1..], '-', ' ')
  }

  /** Past its first character, the title is the segment itself except that
      the first dash there has become a space. */
  lemma TitleText(path: string)
    requires LastSegment(path) != "dashboard" && LastSegment(path) != ""
    ensures var seg := LastSegment(path); var title := PageTitle(path);
            forall j :: 1 <= j < |seg| ==> title[j] == if j - 1 == IndexOf(seg[1..], '-') then ' ' else seg[j]
  {
    var seg := LastSegment(path);
    var t := PageTitle(path);
    assert t[1..] == ReplaceFirst(seg[1..], '-', ' ');
    forall j | 1 <= j < |seg|
      ensures t[j] == if j - 1 == IndexOf(seg[1..], '-') then ' ' else seg[j]
    {
      assert t[j] == t[1..][j - 1];
    }
  }

  /** The segment after the last slash of `prefix + "/" + seg` is `seg`. */
  lemma LastSegmentOfChild(prefix: string, seg: string)
    requires '/' !in seg
    ensures LastSegment(prefix + "/" + seg) == seg
  {
    SplitAtSeparator(prefix, seg, '/');
    SplitWithoutSeparator(seg, '/');
  }

  /** The title depends only on the last segment: every page under any
      prefix gets the title of its own name. */
  lemma TitleOfChild(prefix: string, seg: string)
    requires '/' !in seg
    ensures PageTitle(prefix + "/" + seg) == PageTitle(seg)
  {
    LastSegmentOfChild(prefix, seg);
    SplitWithoutSeparator(seg, '/');
  }

  /** Only the first dash after the first character becomes a space: a name
      with several dashes keeps all the later ones, in place. */
  lemma TitleReplacesFirstDashOnly(path: string)
    requires LastSegment(path) != "dashboard" && LastSegment(path) != ""
    ensures var seg := LastSegment(path);
            CountChar(PageTitle(path)[1..], '-')
              == if '-' in seg[1..] then CountChar(seg[1..], '-') - 1 else CountChar(seg[1..], '-')
    ensures var seg := LastSegment(path); var k := IndexOf(seg[1..], '-');
            && (k >= 0 ==> PageTitle(path)[k + 1] == ' ')
            && (forall j :: k + 1 < j < |seg| ==> PageTitle(path)[j] == seg[j])
  {
    var seg := LastSegment(path);
    TitleText(path);
    ReplaceFirstCount(seg[1..], '-', ' ');
    assert PageTitle(path)[1..] == ReplaceFirst(seg[1..], '-', ' ');
  }

  /** A page whose name has no dash is titled by upper-casing the name's
      first character, under any prefix. */
  lemma TitleOfPlainChild(prefix: string, seg: string)
    requires seg != "" && seg != "dashboard" && '/' !in seg && '-' !in seg
    ensures PageTitle(prefix + "/" + seg) == [UpperChar(seg[0])] + seg[1..]
  {
    LastSegmentOfChild(prefix, seg);
    var r := ReplaceFirst(seg[1..], '-', ' ');
    assert r == seg[1..];
  }

  /** The reports page is titled "Reports", under any prefix. */
  lemma ReportsTitle(prefix: string)
    ensures PageTitle(prefix + "/reports") == "Reports"
  {
    var seg := "reports";
    assert prefix + "/reports" == prefix + "/" + seg;
    TitleOfPlainChild(prefix, seg);
    assert [UpperChar(seg[0])] + seg[1..] == "Reports";
  }
}
