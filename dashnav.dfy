/** The category bar (frontend/src/components/Layout/Dashnav.tsx): which category the current
    path selects, the fixed list of categories, and the add-more dropdown flag. */
module Dashnav {
  import Text

  /** `getActiveCategory` (Dashnav.tsx:13-16): the first segment of the path, `pathname.split('/')[1]`,
      or `'general'` when there is none or it is empty. */
  function ActiveCategory(pathname: string): (c: string)
    ensures c != ""
    ensures '/' !in c || c == "general"
  {
    var parts := Text.Split(pathname, '/');
    if |parts| > 1 && parts[1] != "" then parts[1] else "general"
  }

  /** Only the first segment matters: `'/' + segment + rest` selects the segment, whatever `rest`
      holds, when it is not empty. */
  lemma FirstSegmentSelects(segment: string, rest: string)
    requires '/' !in segment && segment != ""
    requires rest == "" || rest[0] == '/'
    ensures ActiveCategory("/" + segment + rest) == segment
  {
    var tail := segment + rest;
    var path := "/" + segment + rest;
    assert path == "" + ['/'] + tail;
    Text.SplitAtFirst("", tail, '/');
    SegmentLeads(segment, rest);
    assert Text.Split(path, '/') == [""] + Text.Split(tail, '/');
  }

  /** A path whose first segment is empty (`'//x'`, or `'/'` itself) selects `'general'`. */
  lemma EmptySegmentSelectsGeneral(rest: string)
    requires rest == "" || rest[0] == '/'
    ensures ActiveCategory("/" + rest) == "general"
  {
    SecondPieceEmpty(rest);
  }

  lemma SecondPieceEmpty(rest: string)
    requires rest == "" || rest[0] == '/'
    ensures |Text.Split("/" + rest, '/')| > 1 && Text.Split("/" + rest, '/')[1] == ""
  {
    assert "/" + rest == "" + ['/'] + rest;
    Text.SplitAtFirst("", rest, '/');
    assert "" + rest == rest;
    SegmentLeads("", rest);
  }

  /** A segment free of `/`, then nothing or a `/`: splitting starts with the segment. */
  lemma SegmentLeads(segment: string, rest: string)
    requires '/' !in segment
    requires rest == "" || rest[0] == '/'
    ensures Text.Split(segment + rest, '/')[0] == segment
  {
    if rest == "" {
      assert segment + rest == segment;
      Text.SplitWithoutSeparator(segment, '/');
    } else {
      assert segment + rest == segment + ['/'] + rest[1..];
      Text.SplitAtFirst(segment, rest[1..], '/');
    }
  }

  /** The root path and a path without a segment select `'general'`. */
  lemma RootSelectsGeneral(pathname: string)
    requires pathname == "/" || pathname == "" || '/' !in pathname
    ensures ActiveCategory(pathname) == "general"
  {
    if pathname == "/" {
      Text.SplitAtFirst("", "", '/');
      assert "" + ['/'] + "" == pathname;
      Text.SplitWithoutSeparator("", '/');
    } else {
      Text.SplitWithoutSeparator(pathname, '/');
    }
  }

  datatype Category = Category(id: string, caption: string, path: string)

  /** The six buttons (Dashnav.tsx:18-67). */
  const Categories: seq<Category> := [
    Category("general", "General", "/general"),
    Category("school", "School", "/school"),
    Category("college", "College", "/college"),
    Category("work", "Work", "/work"),
    Category("roadmaps", "Roadmaps", "/roadmaps"),
    Category("dashboard", "Dashboard", "/dashboard")
  ]

  /** Each button's path highlights that very button. */
  lemma EveryPathSelectsItsCategory()
    ensures forall c :: c in Categories ==> ActiveCategory(c.path) == c.id
  {
    forall i | 0 <= i < |Categories| ensures ActiveCategory(Categories[i].path) == Categories[i].id {
      CategorySelects(Categories[i]);
    }
  }

  /** A category whose path is `/` followed by its id, an id without `/`, is selected by it. */
  lemma CategorySelects(c: Category)
    requires c.path == "/" + c.id && c.id != "" && '/' !in c.id
    ensures ActiveCategory(c.path) == c.id
  {
    assert c.path == "/" + c.id + "";
    FirstSegmentSelects(c.id, "");
  }

  class CategoryBar {
    var pathname: string
    var showAddMore: bool

    constructor (pathname: string)
      ensures this.pathname == pathname && !showAddMore
    {
      this.pathname := pathname;
      showAddMore := false;
    }

    /** The highlighted category. */
    function Active(): (c: string)
      reads this
      ensures c != ""
    {
      ActiveCategory(pathname)
    }

    /** `handleCategoryClick` (Dashnav.tsx:78-81): goes to the path and closes the dropdown. */
    method HandleCategoryClick(path: string)
      modifies this
      ensures pathname == path && !showAddMore
    {
      pathname := path;
      showAddMore := false;
    }

    /** `handleAddCategory` (Dashnav.tsx:83-86): closes the dropdown and changes nothing else. */
    method HandleAddCategory()
      modifies this
      ensures pathname == old(pathname) && !showAddMore
    {
      showAddMore := false;
    }

    /** The dropdown's close button (Dashnav.tsx:133). */
    method CloseAddMore()
      modifies this
      ensures pathname == old(pathname) && !showAddMore
    {
      showAddMore := false;
    }
  }
}
