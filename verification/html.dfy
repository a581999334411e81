/** `PlayService.buildHtml` (src/play/play.service.ts): a standalone HTML
    document for a page. The decisions (title fallback, whether the navigation
    bar and the edit button appear, each link's target and highlight) are made
    in `PageLayout`; `Render` then joins fixed template text around them. */
module Html {
  import opened JsValues
  import opened Pages
  import opened Projects
  import opened Text

  /** `page.metaTitle || page.name || 'Untitled Page'`. */
  function Title(page: Page): (t: string)
    ensures t != ""
    ensures Truthy(page.metaTitle) ==> t == page.metaTitle.value
    ensures !Truthy(page.metaTitle) && Truthy(page.name) ==> t == page.name.value
    ensures !Truthy(page.metaTitle) && !Truthy(page.name) ==> t == "Untitled Page"
  {
    OrElse(Or(page.metaTitle, page.name), "Untitled Page")
  }

  /** `p.path || p._id`: the segment that names a page in a URL. */
  function PageSlug(p: Page): string {
    if Truthy(p.path) then p.path.value else p.id
  }

  datatype NavLink = NavLink(href: string, active: bool, text: string)

  datatype NavBar = NavBar(homeHref: string, projectName: string, links: seq<NavLink>)

  /** What the document shows; `Render` turns it into text. */
  datatype Layout = Layout(title: string, nav: Option<NavBar>, body: string, editUrl: Option<string>)

  /** `navPages.map(...)`: one link per navigation page, in order, to
      `/app/{projectSlug}/{path || _id}`, highlighted exactly for the page
      being shown. */
  function NavLinks(navPages: seq<Page>, currentId: string, projectSlug: string): (links: seq<NavLink>)
    ensures |links| == |navPages|
    ensures forall k :: 0 <= k < |navPages| ==>
      links[k].href == "/app/" + projectSlug + "/" + PageSlug(navPages[k])
    ensures forall k :: 0 <= k < |navPages| ==> (links[k].active <==> navPages[k].id == currentId)
    ensures forall k :: 0 <= k < |navPages| ==> links[k].text == Interpolate(navPages[k].name)
  {
    if navPages == [] then []
    else
      var p := navPages[0];
      var rest := NavLinks(navPages[1..], currentId, projectSlug);
      assert forall k :: 1 <= k < |navPages| ==> navPages[k] == navPages[1..][k - 1];
      [NavLink("/app/" + projectSlug + "/" + PageSlug(p), p.id == currentId, Interpolate(p.name))] + rest
  }

  /** The navigation bar is shown only when the project enables it and there
      is at least one navigation page. */
  predicate ShowsNavigation(project: Option<Project>, navPages: seq<Page>) {
    project.Some? && IsTrue(project.value.displayNavigation) && |navPages| > 0
  }

  function PageLayout(page: Page, project: Option<Project>, navPages: seq<Page>, editUrl: Option<string>): (l: Layout)
    ensures l.title == Title(page) && l.body == page.code
    ensures l.nav.Some? <==> ShowsNavigation(project, navPages)
    ensures l.nav.Some? ==> l.nav.value.homeHref == "/app/" + UrlSlug(project.value)
    ensures l.nav.Some? ==> l.nav.value.links == NavLinks(navPages, page.id, UrlSlug(project.value))
    ensures l.editUrl.Some? <==> Truthy(editUrl)
    ensures l.editUrl.Some? ==> l.editUrl == editUrl
  {
    var nav :=
      if ShowsNavigation(project, navPages) then
        var slug := UrlSlug(project.value);
        Some(NavBar("/app/" + slug, Interpolate(project.value.name), NavLinks(navPages, page.id, slug)))
      else None;
    Layout(Title(page), nav, page.code, if Truthy(editUrl) then editUrl else None)
  }

  // ---------------------------------------------------------------- template

  /** The fixed text of the document, in the pieces that surround its
      slots. `Render` works for any such text; `Source` is the text of
      `buildHtml`'s template literals. */
  datatype Template = Template(
    headOpen: string,     // up to `<title>`
    headClose: string,    // from `</title>` to the body's first indentation
    navOpen: string,      // the bar up to the home link's `href` value
    navAfterHome: string, // between the home link's `href` and the project name
    navAfterName: string, // between the project name and the links
    navClose: string,     // after the links, including the spacer
    gap: string,          // between the slots of the body
    editOpen: string,     // the edit button up to its `href` value
    editClose: string,    // the rest of the edit button
    documentEnd: string)  // `</body></html>`

  const Source := Template(
    "\n<!DOCTYPE html>\n<html>\n<head>"
    + "\n    <meta charset=\"UTF-8\">"
    + "\n    <meta name=\"viewport\" content=\"width=device-width, initial-scale=1.0\">"
    + "\n    <title>",
    "</title>"
    + "\n    <script src=\"https://cdn.tailwindcss.com\"></script>"
    + "\n</head>"
    + "\n<body class=\"bg-black min-h-screen text-white\">"
    + "\n    ",
    "\n        <nav class=\"fixed top-0 left-0 right-0 z-50 bg-black/80 backdrop-blur-md border-b border-white/10 px-6 py-4\">"
    + "\n            <div class=\"max-w-7xl mx-auto flex items-center justify-between\">"
    + "\n                <a href=\"",
    "\" class=\"text-white font-bold text-lg tracking-tight\">",
    "</a>"
    + "\n                <div class=\"flex items-center gap-6 text-sm\">"
    + "\n                    ",
    "\n                </div>"
    + "\n            </div>"
    + "\n        </nav>"
    + "\n        <div class=\"h-16\"></div> <!-- Spacer -->"
    + "\n        ",
    "\n    ",
    "\n        <a href=\"",
    "\" class=\"fixed bottom-6 right-6 z-50 bg-blue-600 hover:bg-blue-500 text-white"
    + " px-4 py-2 rounded-full shadow-lg font-medium transition-all flex items-center gap-2 hover:scale-105 active:scale-95\">"
    + "\n            <svg xmlns=\"http://www.w3.org/2000/svg\" class=\"h-4 w-4\" fill=\"none\" viewBox=\"0 0 24 24\""
    + " stroke=\"currentColor\"><path stroke-linecap=\"round\" stroke-linejoin=\"round\" stroke-width=\"2\""
    + " d=\"M15.232 5.232l3.536 3.536m-2.036-5.036a2.5 2.5 0 113.536 3.536L6.5 21.036H3v-3.572L16.732 3.732z\" /></svg>"
    + "\n            Edit Page"
    + "\n        </a>",
    "\n</body>\n</html>")

  const ActiveClass := "text-white font-medium"
  const InactiveClass := "text-gray-400 hover:text-white"

  /** The text of a link up to its class list. */
  function LinkOpen(href: string): string {
    "<a href=\"" + href + "\" class=\""
  }

  /** The text of a link after its class choice. */
  function LinkClose(text: string): string {
    " transition-colors\">" + text + "</a>"
  }

  function RenderLink(link: NavLink): string {
    LinkOpen(link.href) + (if link.active then ActiveClass else InactiveClass) + LinkClose(link.text)
  }

  /** `links.join('')`. */
  function RenderLinks(links: seq<NavLink>): string {
    if links == [] then "" else RenderLink(links[0]) + RenderLinks(links[1..])
  }

  /** The navigation bar after its home link's `href`. */
  function NavRest(t: Template, bar: NavBar): string {
    bar.homeHref + (t.navAfterHome + bar.projectName + t.navAfterName + RenderLinks(bar.links) + t.navClose)
  }

  function RenderNav(t: Template, nav: Option<NavBar>): string {
    match nav
    case None => ""
    case Some(bar) => t.navOpen + NavRest(t, bar)
  }

  /** The floating edit button, linking to `url`. */
  function EditButton(t: Template, url: string): string {
    t.editOpen + url + t.editClose
  }

  function RenderEdit(t: Template, editUrl: Option<string>): string {
    if editUrl.Some? then EditButton(t, editUrl.value) else ""
  }

  /** The document up to the start of the body's content; it holds the
      `<title>` element. */
  function DocumentHead(t: Template, title: string): string {
    t.headOpen + title + t.headClose
  }

  /** Everything in front of the page's code. */
  function RenderTop(t: Template, title: string, nav: Option<NavBar>): string {
    DocumentHead(t, title) + RenderNav(t, nav) + t.gap
  }

  /** Everything after the page's code. */
  function RenderBottom(t: Template, editUrl: Option<string>): string {
    t.gap + (RenderEdit(t, editUrl) + t.documentEnd)
  }

  function Render(t: Template, l: Layout): string {
    RenderTop(t, l.title, l.nav) + l.body + RenderBottom(t, l.editUrl)
  }

  /** The document for `page` over the fixed text `t`. */
  function BuildWith(t: Template, page: Page, project: Option<Project>, navPages: seq<Page>, editUrl: Option<string>): string {
    Render(t, PageLayout(page, project, navPages, editUrl))
  }

  /** `buildHtml(page, project, navPages, editUrl)`: the head with the title
      fallback, then the navigation bar when it is shown, the page's code
      unescaped, and the edit button exactly when `editUrl` is truthy. */
  function BuildHtml(page: Page, project: Option<Project>, navPages: seq<Page>, editUrl: Option<string>): (html: string)
    ensures StartsWith(html, DocumentHead(Source, Title(page)))
    ensures ShowsNavigation(project, navPages) ==>
      StartsWith(html, DocumentHead(Source, Title(page)) + Source.navOpen + ("/app/" + UrlSlug(project.value)))
    ensures !ShowsNavigation(project, navPages) ==>
      StartsWith(html, DocumentHead(Source, Title(page)) + Source.gap + page.code)
    ensures Truthy(editUrl) ==> EndsWith(html, EditButton(Source, editUrl.value) + Source.documentEnd)
    ensures !Truthy(editUrl) ==> EndsWith(html, page.code + (Source.gap + Source.documentEnd))
  {
    TitleAndNavigation(Source, page, project, navPages, editUrl);
    EditButtonIffEditUrl(Source, page, project, navPages, editUrl);
    BuildWith(Source, page, project, navPages, editUrl)
  }

  // ------------------------------------------------------------------ lemmas

  /** Inserting `body` between `top` and `bottom` is inserting it into
      `top + bottom` at position `|top|`. */
  lemma InsertBetween(top: string, body: string, bottom: string)
    ensures var blank := top + "" + bottom;
      |top| <= |blank| && top + body + bottom == blank[..|top|] + body + blank[|top|..]
  {
    var blank := top + "" + bottom;
    assert blank[..|top|] == top;
    assert blank[|top|..] == bottom;
  }

  /** The page's code is embedded verbatim (no escaping), at one place, and
      nothing else in the document depends on it: the document is the one
      for an empty code with the code inserted. */
  lemma CodeEmbeddedVerbatim(t: Template, page: Page, project: Option<Project>, navPages: seq<Page>, editUrl: Option<string>)
    ensures var html := BuildWith(t, page, project, navPages, editUrl);
      var blank := BuildWith(t, page.(code := ""), project, navPages, editUrl);
      exists k :: 0 <= k <= |blank| && html == blank[..k] + page.code + blank[k..]
  {
    var l := PageLayout(page, project, navPages, editUrl);
    assert PageLayout(page.(code := ""), project, navPages, editUrl) == l.(body := "");
    var top := RenderTop(t, l.title, l.nav);
    InsertBetween(top, page.code, RenderBottom(t, l.editUrl));
    var html := BuildWith(t, page, project, navPages, editUrl);
    var blank := BuildWith(t, page.(code := ""), project, navPages, editUrl);
    assert 0 <= |top| <= |blank| && html == blank[..|top|] + page.code + blank[|top|..];
  }

  /** `a + (b + (c + d))` starts with `a + b + c`. */
  lemma StartsWithRegrouped(a: string, b: string, c: string, d: string)
    ensures StartsWith(a + (b + (c + d)), a + b + c)
  {
    assert a + (b + (c + d)) == a + b + c + d;
    StartsWithAppend(a + b + c, d);
  }

  /** A document starts with its head. */
  lemma RenderStartsWithHead(t: Template, l: Layout)
    ensures StartsWith(Render(t, l), DocumentHead(t, l.title))
  {
    var head := DocumentHead(t, l.title);
    var nav := RenderNav(t, l.nav);
    var top := RenderTop(t, l.title, l.nav);
    var html := Render(t, l);
    StartsWithAppend(top + l.body, RenderBottom(t, l.editUrl));
    StartsWithAppend(top, l.body);
    StartsWithAppend(head + nav, t.gap);
    StartsWithAppend(head, nav);
    StartsWithTrans(html, top + l.body, top);
    StartsWithTrans(html, top, head + nav);
    StartsWithTrans(html, head + nav, head);
  }

  /** With a navigation bar, the head is followed by the bar and its home
      link. */
  lemma RenderStartsWithNav(t: Template, l: Layout)
    requires l.nav.Some?
    ensures StartsWith(Render(t, l), DocumentHead(t, l.title) + t.navOpen + l.nav.value.homeHref)
  {
    var bar := l.nav.value;
    var head := DocumentHead(t, l.title);
    var nav := RenderNav(t, l.nav);
    var top := RenderTop(t, l.title, l.nav);
    var html := Render(t, l);
    StartsWithAppend(top + l.body, RenderBottom(t, l.editUrl));
    StartsWithAppend(top, l.body);
    StartsWithAppend(head + nav, t.gap);
    StartsWithTrans(html, top + l.body, top);
    StartsWithTrans(html, top, head + nav);
    StartsWithRegrouped(head, t.navOpen, bar.homeHref,
      t.navAfterHome + bar.projectName + t.navAfterName + RenderLinks(bar.links) + t.navClose);
    StartsWithTrans(html, head + nav, head + t.navOpen + bar.homeHref);
  }

  /** Without a navigation bar, the head is followed by the body. */
  lemma RenderStartsWithBody(t: Template, l: Layout)
    requires l.nav.None?
    ensures StartsWith(Render(t, l), DocumentHead(t, l.title) + t.gap + l.body)
  {
    StartsWithAppend(RenderTop(t, l.title, l.nav) + l.body, RenderBottom(t, l.editUrl));
  }

  /** The document opens with the head, whose `<title>` is the title
      fallback; the head is followed by the navigation bar exactly when the
      project shows navigation, and otherwise directly by the page's code. */
  lemma TitleAndNavigation(t: Template, page: Page, project: Option<Project>, navPages: seq<Page>, editUrl: Option<string>)
    ensures var html := BuildWith(t, page, project, navPages, editUrl);
      var head := DocumentHead(t, Title(page));
      && StartsWith(html, head)
      && (ShowsNavigation(project, navPages) ==>
            StartsWith(html, head + t.navOpen + ("/app/" + UrlSlug(project.value))))
      && (!ShowsNavigation(project, navPages) ==> StartsWith(html, head + t.gap + page.code))
  {
    var l := PageLayout(page, project, navPages, editUrl);
    RenderStartsWithHead(t, l);
    if l.nav.Some? {
      RenderStartsWithNav(t, l);
    } else {
      RenderStartsWithBody(t, l);
    }
  }

  /** `(a + b) + c` ends with `b + c`. */
  lemma EndsWithRegrouped(a: string, b: string, c: string)
    ensures EndsWith(a + b + c, b + c)
  {
    assert a + b + c == a + (b + c);
    EndsWithAppend(a, b + c);
  }

  /** The document closes with the edit button exactly when `editUrl` is
      truthy; otherwise the page's code is followed only by the closing tags. */
  lemma EditButtonIffEditUrl(t: Template, page: Page, project: Option<Project>, navPages: seq<Page>, editUrl: Option<string>)
    ensures var html := BuildWith(t, page, project, navPages, editUrl);
      && (Truthy(editUrl) ==> EndsWith(html, EditButton(t, editUrl.value) + t.documentEnd))
      && (!Truthy(editUrl) ==> EndsWith(html, page.code + (t.gap + t.documentEnd)))
  {
    var l := PageLayout(page, project, navPages, editUrl);
    var top := RenderTop(t, l.title, l.nav);
    var html := Render(t, l);
    var tail := RenderEdit(t, l.editUrl) + t.documentEnd;
    if l.editUrl.Some? {
      EndsWithAppend(top + l.body, t.gap + tail);
      EndsWithAppend(t.gap, tail);
      EndsWithTrans(html, t.gap + tail, tail);
    } else {
      assert tail == t.documentEnd;
      EndsWithRegrouped(top, l.body, t.gap + tail);
    }
  }

  /** A rendered link starts with the active class exactly when it is the
      link of the page being shown. */
  lemma ActiveLinkMarked(link: NavLink)
    ensures StartsWith(RenderLink(link), LinkOpen(link.href) + ActiveClass) <==> link.active
  {
    var open := LinkOpen(link.href);
    var close := LinkClose(link.text);
    if link.active {
      StartsWithAppend(open + ActiveClass, close);
    } else {
      var s := RenderLink(link);
      var pre := open + ActiveClass;
      assert s[|open| + 5] == InactiveClass[5];
      assert pre[|open| + 5] == ActiveClass[5];
    }
  }
}
