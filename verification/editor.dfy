/** The public page routes of `AppController` (src/play/editor.controller.ts):
    `/app/:projectSlug` redirects to the project's home page and
    `/app/:projectSlug/:pageSlug` serves a page as HTML. Nothing here writes;
    the routes read the project list and the `play_pages` collection. */
module Editor {
  import opened JsValues
  import opened Seqs
  import opened Pages
  import opened Projects
  import opened Html
  import opened Text

  /** What a route answers: a redirect, a body with a status, or an
      exception that the framework turns into an error response. */
  datatype Response = Redirect(location: string) | Send(status: int, body: string) | Raised(error: Failure)

  /** `resolveProject(slugOrId)`: by slug first and by id only when no
      project has that slug; `NotFound('Project not found')` when neither
      finds one. */
  function Resolve(projects: seq<Project>, slugOrId: string): (r: Result<Project>)
    ensures FindBySlug(projects, slugOrId).Some? ==> r == Ok(FindBySlug(projects, slugOrId).value)
    ensures FindBySlug(projects, slugOrId).None? && FindById(projects, slugOrId).Some? ==>
      r == Ok(FindById(projects, slugOrId).value)
    ensures r.Err? <==> FindBySlug(projects, slugOrId).None? && FindById(projects, slugOrId).None?
    ensures r.Err? ==> r.error == NotFound("Project not found")
  {
    var bySlug := FindBySlug(projects, slugOrId);
    if bySlug.Some? then Ok(bySlug.value)
    else
      var byId := FindById(projects, slugOrId);
      if byId.Some? then Ok(byId.value) else Err(NotFound("Project not found"))
  }

  /** A resolved project is one of the projects, named by its slug or its
      id, and one exists exactly when some project has that slug or id. */
  lemma ResolveFindsNamedProject(projects: seq<Project>, slugOrId: string)
    ensures Resolve(projects, slugOrId).Ok? ==>
      var p := Resolve(projects, slugOrId).value;
      p in projects && (p.slug == Some(slugOrId) || p.id == slugOrId)
    ensures Resolve(projects, slugOrId).Ok? <==>
      exists p :: p in projects && (p.slug == Some(slugOrId) || p.id == slugOrId)
  {
    if exists p :: p in projects && (p.slug == Some(slugOrId) || p.id == slugOrId) {
      var p :| p in projects && (p.slug == Some(slugOrId) || p.id == slugOrId);
      var i :| 0 <= i < |projects| && projects[i] == p;
    }
  }

  /** The lookup chain of `resolveProject`, reassigning `project`. */
  method ResolveProject(projects: seq<Project>, slugOrId: string) returns (r: Result<Project>)
    ensures r == Resolve(projects, slugOrId)
  {
    var project := FindBySlug(projects, slugOrId);
    if project.None? {
      project := FindById(projects, slugOrId);
    }
    if project.None? {
      return Err(NotFound("Project not found"));
    }
    return Ok(project.value);
  }

  /** The page `viewProjectHome` redirects to: the page whose id is
      `project.homePage`, or the first page of the listing when that is
      unset or names no page of the listing. */
  function HomePage(project: Project, pages: seq<Page>): (home: Page)
    requires |pages| > 0
    ensures home in pages
    ensures !Truthy(project.homePage) ==> home == pages[0]
    ensures Truthy(project.homePage) && (exists i :: 0 <= i < |pages| && pages[i].id == project.homePage.value) ==>
      home.id == project.homePage.value
    ensures Truthy(project.homePage) && (forall i :: 0 <= i < |pages| ==> pages[i].id != project.homePage.value) ==>
      home == pages[0]
  {
    var homePageId := if Truthy(project.homePage) then project.homePage.value else pages[0].id;
    var found := FindIndex(pages, homePageId);
    if found.Some? then pages[found.value] else pages[0]
  }

  /** The pieces of a page URL: each `/` of either segment adds one, and
      segments without `/` come back as they are. */
  lemma PageUrlPieces(url: string, x: string, y: string)
    requires url == "/app/" + x + "/" + y
    ensures |Split(url, '/')| == 4 + multiset(x)['/'] + multiset(y)['/']
    ensures '/' !in x && '/' !in y ==> Split(url, '/') == ["", "app", x, y]
  {
    var slash, app := ['/'], "app";
    assert '/' !in app;
    assert url == slash + app + slash + x + slash + y;
    assert multiset(url) == multiset(slash) + multiset(app) + multiset(slash) + multiset(x) + multiset(slash) + multiset(y);
    SplitCount(url, '/');
    PageUrlSegments(url, x, y);
  }

  /** Segments without `/` are read back from a page URL. */
  lemma PageUrlSegments(url: string, x: string, y: string)
    requires url == "/app/" + x + "/" + y
    ensures '/' !in x && '/' !in y ==> Split(url, '/') == ["", "app", x, y]
  {
    if '/' !in x && '/' !in y {
      Join4("", "app", x, y, '/');
      assert "" + "/" + "app" + "/" + x + "/" + y == url;
      JoinSplit(["", "app", x, y], '/');
    }
  }

  /** `/app/{project.slug || project._id}/{page.path || page._id}`: a path
      whose segments are the two slugs, so the page route reads them back
      (when they contain no `/`). */
  function PageUrl(project: Project, page: Page): (url: string)
    ensures |Split(url, '/')| == 4 + multiset(UrlSlug(project))['/'] + multiset(PageSlug(page))['/']
    ensures '/' !in UrlSlug(project) && '/' !in PageSlug(page) ==>
      Split(url, '/') == ["", "app", UrlSlug(project), PageSlug(page)]
  {
    var x, y := UrlSlug(project), PageSlug(page);
    var url := "/app/" + x + "/" + y;
    PageUrlPieces(url, x, y);
    url
  }

  /** The pieces of an edit URL: each `/` of either id adds one, and ids
      without `/` come back as they are. */
  lemma EditUrlPieces(url: string, x: string, y: string)
    requires url == "/projects/" + x + "/" + y + "/edit"
    ensures |Split(url, '/')| == 5 + multiset(x)['/'] + multiset(y)['/']
    ensures '/' !in x && '/' !in y ==> Split(url, '/') == ["", "projects", x, y, "edit"]
  {
    var slash, projects, edit := ['/'], "projects", "edit";
    assert '/' !in projects && '/' !in edit;
    assert url == slash + projects + slash + x + slash + y + slash + edit;
    assert multiset(url) == multiset(slash) + multiset(projects) + multiset(slash) + multiset(x)
      + multiset(slash) + multiset(y) + multiset(slash) + multiset(edit);
    SplitCount(url, '/');
    EditUrlSegments(url, x, y);
  }

  /** Ids without `/` are read back from an edit URL. */
  lemma EditUrlSegments(url: string, x: string, y: string)
    requires url == "/projects/" + x + "/" + y + "/edit"
    ensures '/' !in x && '/' !in y ==> Split(url, '/') == ["", "projects", x, y, "edit"]
  {
    if '/' !in x && '/' !in y {
      Join5("", "projects", x, y, "edit", '/');
      assert "" + "/" + "projects" + "/" + x + "/" + y + "/" + "edit" == url;
      JoinSplit(["", "projects", x, y, "edit"], '/');
    }
  }

  /** `/projects/{project._id}/{page._id}/edit`: its segments are the
      project id and the page id (when they contain no `/`). */
  function EditUrl(project: Project, page: Page): (url: string)
    ensures |Split(url, '/')| == 5 + multiset(project.id)['/'] + multiset(page.id)['/']
    ensures '/' !in project.id && '/' !in page.id ==>
      Split(url, '/') == ["", "projects", project.id, page.id, "edit"]
  {
    var x, y := project.id, page.id;
    var url := "/projects/" + x + "/" + y + "/edit";
    EditUrlPieces(url, x, y);
    url
  }

  /** `pages.filter(p => p.addToNavigation)`. */
  function NavPages(pages: seq<Page>): (nav: seq<Page>)
    ensures forall p :: multiset(nav)[p] == if IsTrue(p.addToNavigation) then multiset(pages)[p] else 0
  {
    Filter(pages, (p: Page) => IsTrue(p.addToNavigation))
  }

  /** Navigation pages keep the listing's order: the navigation pages of a
      listing are those of its parts, one after the other. */
  lemma NavPagesKeepOrder(a: seq<Page>, b: seq<Page>)
    ensures NavPages(a + b) == NavPages(a) + NavPages(b)
  {
    FilterAppend(a, b, (p: Page) => IsTrue(p.addToNavigation));
  }

  /** `viewProjectHome` for a request with or without a session. */
  method ViewProjectHome(hasSession: bool, projects: seq<Project>, pages: seq<Page>, projectSlug: string)
    returns (r: Response)
    ensures !hasSession ==> r == Redirect("/login")
    ensures hasSession && Resolve(projects, projectSlug).Err? ==> r == Raised(NotFound("Project not found"))
    ensures hasSession && Resolve(projects, projectSlug).Ok? ==>
      var project := Resolve(projects, projectSlug).value;
      var listing := FindAllByProject(pages, project.id);
      && (|listing| > 0 ==> r == Redirect(PageUrl(project, HomePage(project, listing))))
      && (|listing| == 0 ==> r == Send(404, "No pages found"))
  {
    if !hasSession {
      return Redirect("/login");
    }
    var project := ResolveProject(projects, projectSlug);
    if project.Err? {
      return Raised(project.error);
    }
    var listing := FindAllByProject(pages, project.value.id);
    if |listing| > 0 {
      var home := HomePage(project.value, listing);
      return Redirect(PageUrl(project.value, home));
    }
    return Send(404, "No pages found");
  }

  /** The page `viewPage` shows: the project's page with that path, else the
      page with that id when it belongs to the project. */
  function FindPage(pages: seq<Page>, project: Project, pageSlug: string): (r: Option<Page>)
    ensures FindByPath(pages, project.id, pageSlug).Some? ==> r == FindByPath(pages, project.id, pageSlug)
    ensures FindByPath(pages, project.id, pageSlug).None? ==>
      (r.Some? <==> FindOne(pages, pageSlug).Ok? && FindOne(pages, pageSlug).value.projectId == Some(project.id))
    ensures r.Some? ==>
      r.value in pages && r.value.projectId == Some(project.id) && (r.value.path == Some(pageSlug) || r.value.id == pageSlug)
  {
    var byPath := FindByPath(pages, project.id, pageSlug);
    if byPath.Some? then byPath
    else
      var byId := FindOne(pages, pageSlug);
      if byId.Ok? && byId.value.projectId == Some(project.id) then Some(byId.value) else None
  }

  /** With unique page ids, a page is shown exactly when the project has a
      page with that path or that id. */
  lemma FindPageIff(pages: seq<Page>, project: Project, pageSlug: string)
    requires UniquePageIds(pages)
    ensures FindPage(pages, project, pageSlug).Some? <==>
      exists p :: p in pages && p.projectId == Some(project.id) && (p.path == Some(pageSlug) || p.id == pageSlug)
  {
    if exists p :: p in pages && p.projectId == Some(project.id) && (p.path == Some(pageSlug) || p.id == pageSlug) {
      var p :| p in pages && p.projectId == Some(project.id) && (p.path == Some(pageSlug) || p.id == pageSlug);
      var i :| 0 <= i < |pages| && pages[i] == p;
      if FindByPath(pages, project.id, pageSlug).None? {
        assert p.id == pageSlug;
        var q := FindOne(pages, pageSlug).value;
        var j :| 0 <= j < |pages| && pages[j] == q;
      }
    }
  }

  /** The lookup chain of `viewPage`, reassigning `page`. */
  method ResolvePage(pages: seq<Page>, project: Project, pageSlug: string) returns (r: Option<Page>)
    ensures r == FindPage(pages, project, pageSlug)
  {
    var page := FindByPath(pages, project.id, pageSlug);
    if page.None? {
      var p := FindOne(pages, pageSlug);
      if p.Ok? && p.value.projectId == Some(project.id) {
        page := Some(p.value);
      }
    }
    return page;
  }

  /** `viewPage` for a request with or without a session. */
  method ViewPage(hasSession: bool, projects: seq<Project>, pages: seq<Page>, projectSlug: string, pageSlug: string)
    returns (r: Response)
    ensures !hasSession ==> r == Redirect("/login")
    ensures hasSession && Resolve(projects, projectSlug).Err? ==> r == Raised(NotFound("Project not found"))
    ensures hasSession && Resolve(projects, projectSlug).Ok? ==>
      var project := Resolve(projects, projectSlug).value;
      var page := FindPage(pages, project, pageSlug);
      && (page.None? ==> r == Send(404, "Page not found"))
      && (page.Some? ==> r == Send(200, BuildHtml(page.value, Some(project),
            NavPages(FindAllByProject(pages, project.id)), Some(EditUrl(project, page.value)))))
  {
    if !hasSession {
      return Redirect("/login");
    }
    var project := ResolveProject(projects, projectSlug);
    if project.Err? {
      return Raised(project.error);
    }
    var page := ResolvePage(pages, project.value, pageSlug);
    if page.None? {
      return Send(404, "Page not found");
    }
    var navPages := NavPages(FindAllByProject(pages, project.value.id));
    var editUrl := EditUrl(project.value, page.value);
    return Send(200, BuildHtml(page.value, Some(project.value), navPages, Some(editUrl)));
  }

  /** A page served by `viewPage` always carries the edit button, which
      links to its edit URL. */
  lemma ServedPageHasEditButton(t: Template, page: Page, project: Project, navPages: seq<Page>)
    ensures EndsWith(BuildWith(t, page, Some(project), navPages, Some(EditUrl(project, page))),
      EditButton(t, EditUrl(project, page)) + t.documentEnd)
  {
    EditButtonIffEditUrl(t, page, Some(project), navPages, Some(EditUrl(project, page)));
  }
}
