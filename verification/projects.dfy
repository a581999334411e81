/** Projects, which this core only reads. The project service
    (src/play/project.service.ts) is not part of this model: its two lookups
    are taken to be exact-match searches over the `projects` collection. */
module Projects {
  import opened JsValues

  datatype Project = Project(
    id: string,
    slug: Option<string>,
    name: Option<string>,
    homePage: Option<string>,
    displayNavigation: Option<bool>)

  /** `projectService.findBySlug(slug)`: the first project with that slug. */
  function FindBySlug(projects: seq<Project>, slug: string): (r: Option<Project>)
    ensures r.Some? ==> r.value in projects && r.value.slug == Some(slug)
    ensures r.None? <==> forall i :: 0 <= i < |projects| ==> projects[i].slug != Some(slug)
  {
    if projects == [] then None
    else if projects[0].slug == Some(slug) then Some(projects[0])
    else
      var r := FindBySlug(projects[1..], slug);
      assert forall i :: 1 <= i < |projects| ==> projects[i] == projects[1..][i - 1];
      r
  }

  /** `projectService.findOne(id)`: the first project with that id; its
      failure is caught by the only caller, so a miss is `None` here. */
  function FindById(projects: seq<Project>, id: string): (r: Option<Project>)
    ensures r.Some? ==> r.value in projects && r.value.id == id
    ensures r.None? <==> forall i :: 0 <= i < |projects| ==> projects[i].id != id
  {
    if projects == [] then None
    else if projects[0].id == id then Some(projects[0])
    else
      var r := FindById(projects[1..], id);
      assert forall i :: 1 <= i < |projects| ==> projects[i] == projects[1..][i - 1];
      r
  }

  /** `project.slug || project._id`: the segment that names a project in a URL. */
  function UrlSlug(project: Project): string {
    if Truthy(project.slug) then project.slug.value else project.id
  }
}
