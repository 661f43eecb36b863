/**
 * The project renderer and the orchestration of the projects section: which
 * statuses the panel goes through, and when the grid is replaced by cards
 * built from the fetched repositories.
 */
module Render {
  import opened Common
  import opened Escape
  import opened Status
  import opened Feed

  /**
   * `setProjectsStatus`: the title and subtitle of a status, each escaped
   * before it goes into the panel's markup. What a visitor reads back is the
   * status's own text, so the status can be told from the panel.
   */
  function StatusPanel(s: FeedStatus): (p: StatusText)
    ensures MarkupFree(p.title) && MarkupFree(p.subtitle)
    ensures StatusText(Unescape(p.title), Unescape(p.subtitle)) == Message(s)
    ensures StatusOf(StatusText(Unescape(p.title), Unescape(p.subtitle))) == Some(s)
  {
    var m := Message(s);
    UnescapeEscapeHtml(m.title);
    UnescapeEscapeHtml(m.subtitle);
    StatusText(EscapeHtml(m.title), EscapeHtml(m.subtitle))
  }

  /** The text of one rendered project card; the markup around it is not modelled. */
  datatype RenderedCard = RenderedCard(name: string, description: string, language: string, href: string)

  /** JavaScript's `value || fallback` for a text field: an absent, null or empty value falls back. */
  function OrDefault(v: Option<string>, fallback: string): (r: string)
    ensures v.Some? && v.value != "" ==> r == v.value
    ensures v.None? || v.value == "" ==> r == fallback
  {
    if v.Some? && v.value != "" then v.value else fallback
  }

  /** The text a template literal prints for the URL field: the URL, or `undefined` or `null`. */
  function Href(url: UrlField): string {
    match url
    case Absent => "undefined"
    case Null => "null"
    case Url(u) => u
  }

  /**
   * One card: each text field defaulted, then escaped. The URL is placed as
   * given.
   */
  function RenderCard(r: Repo): (c: RenderedCard)
    ensures MarkupFree(c.name) && MarkupFree(c.description) && MarkupFree(c.language)
    ensures Unescape(c.name) == OrDefault(r.name, "Repository")
    ensures Unescape(c.description) == OrDefault(r.description, "No description provided.")
    ensures Unescape(c.language) == OrDefault(r.language, "N/A")
    ensures r.htmlUrl.Url? ==> c.href == r.htmlUrl.value
    ensures r.htmlUrl.Null? ==> c.href == "null"
    ensures r.htmlUrl.Absent? ==> c.href == "undefined"
  {
    var name := OrDefault(r.name, "Repository");
    var desc := OrDefault(r.description, "No description provided.");
    var lang := OrDefault(r.language, "N/A");
    UnescapeEscapeHtml(name);
    UnescapeEscapeHtml(desc);
    UnescapeEscapeHtml(lang);
    RenderedCard(EscapeHtml(name), EscapeHtml(desc), EscapeHtml(lang), Href(r.htmlUrl))
  }

  /** The whole grid: one card per repository, in the order given. */
  function RenderProjects(repos: seq<Repo>): (cards: seq<RenderedCard>)
    ensures |cards| == |repos|
    ensures forall k :: 0 <= k < |cards| ==> cards[k] == RenderCard(repos[k])
  {
    seq(|repos|, k requires 0 <= k < |repos| => RenderCard(repos[k]))
  }

  /** What one run of the projects section leaves behind. */
  datatype SectionOutcome = SectionOutcome(
    statuses: seq<FeedStatus>,          // every status written to the panel, in order
    grid: Option<seq<RenderedCard>>)    // the new grid contents, or None when the grid is left as it was

  /**
   * The orchestration of the projects section. Nothing happens when the grid
   * or the status panel is missing, or when the grid is marked static.
   * Otherwise the panel shows the loading status, then the status of the
   * fetch, and the grid is replaced only when the fetch returned repositories.
   */
  function InitProjects(hasGrid: bool, hasStatus: bool, mode: Option<string>, resp: Response): (o: SectionOutcome)
    ensures !hasGrid || !hasStatus || mode == Some("static") ==> o == SectionOutcome([], None)
    ensures o.statuses != [] ==> |o.statuses| == 2 && o.statuses[0] == Loading && o.statuses[1] != Loading
    ensures o.grid.Some? <==> o.statuses != [] && o.statuses[1] == Loaded
    ensures o.grid.Some? ==> 0 < |o.grid.value| <= MaxProjects
    ensures hasGrid && hasStatus && mode != Some("static") ==>
      o.statuses == [Loading, FetchGitHubRepos(resp).status] && (o.grid.Some? <==> FetchGitHubRepos(resp).repos != [])
    ensures o.grid.Some? ==> o.grid.value == RenderProjects(FetchGitHubRepos(resp).repos)
    ensures o.grid.Some? ==> forall k :: 0 <= k < |o.grid.value| ==>
      MarkupFree(o.grid.value[k].name) && MarkupFree(o.grid.value[k].description) && MarkupFree(o.grid.value[k].language)
  {
    if !hasGrid || !hasStatus || mode == Some("static") then SectionOutcome([], None)
    else
      var f := FetchGitHubRepos(resp);
      SectionOutcome([Loading, f.status], if |f.repos| > 0 then Some(RenderProjects(f.repos)) else None)
  }

  /** A 404 from the API shows the not-found status and leaves the grid untouched. */
  lemma NotFoundLeavesGrid(mode: Option<string>, body: Body)
    requires mode != Some("static")
    ensures InitProjects(true, true, mode, Received(false, 404, body)) == SectionOutcome([Loading, NotFound], None)
  {
  }

  /** Every failed reply ends with its error status on the panel and leaves the grid untouched. */
  lemma FailedReplyLeavesGrid(mode: Option<string>, resp: Response)
    requires mode != Some("static")
    requires FetchGitHubRepos(resp).status.IsError()
    ensures var o := InitProjects(true, true, mode, resp);
      o.grid == None && o.statuses[1] == FetchGitHubRepos(resp).status && o.statuses[1].IsError()
  {
  }

  /** A good listing is rendered in selection order, each card built from its repository. */
  lemma RenderedFromSelection(mode: Option<string>, code: nat, entries: seq<Option<Repo>>)
    requires mode != Some("static")
    ensures var o := InitProjects(true, true, mode, Received(true, code, Array(entries)));
      var top := SelectProjects(entries);
      (o.grid.Some? <==> top != [])
      && (o.grid.Some? ==> forall k :: 0 <= k < |top| ==> o.grid.value[k] == RenderCard(top[k]))
  {
  }
}
