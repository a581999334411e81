/** The `play_pages` and `play_page_versions` collections of `PlayService`
    (src/play/play.service.ts): the documents, the queries over them, and each
    write operation as a transition from the old store contents to the new.
    The class in `Play` performs these transitions in place. */
module Pages {
  import opened JsValues
  import opened Seqs

  /** A `Date`, as milliseconds. */
  type Stamp = int

  /** A `play_pages` document. Fields the source may leave `undefined` are
      optional; `_id` is always present in a stored document. */
  datatype Page = Page(
    id: string,
    projectId: Option<string>,
    name: Option<string>,
    code: string,
    metaTitle: Option<string>,
    path: Option<string>,
    addToNavigation: Option<bool>,
    owner: Option<string>,
    created: Option<Stamp>,
    createdBy: Option<string>,
    modified: Option<Stamp>,
    modifiedBy: Option<string>)

  /** A `play_page_versions` document: the code a page had before an update. */
  datatype PageVersion = PageVersion(
    id: string,
    pageId: string,
    code: string,
    versionId: string,
    owner: Option<string>,
    created: Option<Stamp>,
    createdBy: Option<string>)

  /** The body of a save request. */
  datatype CreatePageDto = CreatePageDto(
    code: string,
    id: Option<string>,
    projectId: Option<string>,
    name: Option<string>,
    metaTitle: Field<string>,
    path: Field<string>,
    addToNavigation: Field<bool>)

  /** The contents of both collections, each in natural (insertion) order. */
  datatype Store = Store(pages: seq<Page>, versions: seq<PageVersion>)

  /** MongoDB keeps `_id` unique within a collection. */
  predicate UniquePageIds(pages: seq<Page>) {
    forall i, j :: 0 <= i < j < |pages| ==> pages[i].id != pages[j].id
  }

  predicate UniqueVersionIds(versions: seq<PageVersion>) {
    forall i, j :: 0 <= i < j < |versions| ==> versions[i].id != versions[j].id
  }

  predicate Valid(s: Store) {
    UniquePageIds(s.pages) && UniqueVersionIds(s.versions)
  }

  predicate HasVersionId(versions: seq<PageVersion>, key: string) {
    exists j :: 0 <= j < |versions| && versions[j].id == key
  }

  // ---------------------------------------------------------------- queries

  /** Position of the document `findOne({ _id: id })` returns: the first one
      with that `_id`. */
  function FindIndex(pages: seq<Page>, id: string): (r: Option<nat>)
    ensures r.Some? ==> r.value < |pages| && pages[r.value].id == id
    ensures r.Some? ==> forall j :: 0 <= j < r.value ==> pages[j].id != id
    ensures r.None? ==> forall j :: 0 <= j < |pages| ==> pages[j].id != id
  {
    if pages == [] then None
    else if pages[0].id == id then Some(0)
    else
      match FindIndex(pages[1..], id)
      case None => None
      case Some(k) => Some(k + 1)
  }

  /** `findOne(id)`: the page with that id, or `NotFound`. */
  function FindOne(pages: seq<Page>, id: string): (r: Result<Page>)
    ensures r.Ok? <==> exists i :: 0 <= i < |pages| && pages[i].id == id
    ensures r.Ok? ==> r.value in pages && r.value.id == id
    ensures r.Err? ==> r.error == NotFound("Page #" + id + " not found")
  {
    match FindIndex(pages, id)
    case None => Err(NotFound("Page #" + id + " not found"))
    case Some(i) => Ok(pages[i])
  }

  /** `findByPath(projectId, path)`: the first page of that project with that
      path, or `null`; it never fails. */
  function FindByPath(pages: seq<Page>, projectId: string, path: string): (r: Option<Page>)
    ensures r.Some? ==> r.value in pages
    ensures r.Some? ==> r.value.projectId == Some(projectId) && r.value.path == Some(path)
    ensures r.None? <==>
      forall i :: 0 <= i < |pages| ==> !(pages[i].projectId == Some(projectId) && pages[i].path == Some(path))
  {
    if pages == [] then None
    else if pages[0].projectId == Some(projectId) && pages[0].path == Some(path) then Some(pages[0])
    else
      var r := FindByPath(pages[1..], projectId, path);
      assert forall i :: 1 <= i < |pages| ==> pages[i] == pages[1..][i - 1];
      r
  }

  function ModifiedOf(p: Page): Option<Stamp> { p.modified }

  function CreatedOf(v: PageVersion): Option<Stamp> { v.created }

  /** `findAll(userId)`: the pages `userId` owns, or every page when `userId`
      is falsy, most recently modified first. */
  function FindAll(pages: seq<Page>, userId: Option<string>): (r: seq<Page>)
    ensures SortedDesc(r, ModifiedOf)
    ensures forall p :: multiset(r)[p] ==
                       (if !Truthy(userId) || p.owner == userId then multiset(pages)[p] else 0)
  {
    SortDesc(Filter(pages, (p: Page) => !Truthy(userId) || p.owner == userId), ModifiedOf)
  }

  /** `findAllByProject(projectId)`: the pages of that project, most recently
      modified first. */
  function FindAllByProject(pages: seq<Page>, projectId: string): (r: seq<Page>)
    ensures SortedDesc(r, ModifiedOf)
    ensures forall p :: multiset(r)[p] ==
                       (if p.projectId == Some(projectId) then multiset(pages)[p] else 0)
  {
    SortDesc(Filter(pages, (p: Page) => p.projectId == Some(projectId)), ModifiedOf)
  }

  /** `getVersions(pageId)`: the versions of that page, newest snapshot first. */
  function GetVersions(versions: seq<PageVersion>, pageId: string): (r: seq<PageVersion>)
    ensures SortedDesc(r, CreatedOf)
    ensures forall v :: multiset(r)[v] ==
                       (if v.pageId == pageId then multiset(versions)[v] else 0)
  {
    SortDesc(Filter(versions, (v: PageVersion) => v.pageId == pageId), CreatedOf)
  }

  // ------------------------------------------------------------------- save

  /** An update happens in place only when the request names (truthy `id`) an
      existing page whose owner is the actor, and the actor is truthy. */
  predicate CanUpdate(pages: seq<Page>, dto: CreatePageDto, actor: Option<string>) {
    && Truthy(dto.id)
    && FindIndex(pages, dto.id.value).Some?
    && pages[FindIndex(pages, dto.id.value).value].owner == actor
    && Truthy(actor)
  }

  /** `{ ...existingPage, ...updateFields }`: the stored page after the
      `$set`, which is also what `save` returns. */
  function Overlay(existing: Page, dto: CreatePageDto, actor: Option<string>, now: Stamp): (r: Page)
    ensures r.code == dto.code && r.modified == Some(now) && r.modifiedBy == actor
    ensures r.name == (if Truthy(dto.name) then dto.name else existing.name)
    ensures r.metaTitle == (if dto.metaTitle.Undefined? then existing.metaTitle else Stored(dto.metaTitle))
    ensures r.path == (if dto.path.Undefined? then existing.path else Stored(dto.path))
    ensures r.addToNavigation ==
      (if dto.addToNavigation.Undefined? then existing.addToNavigation else Stored(dto.addToNavigation))
    ensures r.id == existing.id && r.projectId == existing.projectId && r.owner == existing.owner
    ensures r.created == existing.created && r.createdBy == existing.createdBy
  {
    var base := existing.(code := dto.code, modified := Some(now), modifiedBy := actor);
    var named := if Truthy(dto.name) then base.(name := dto.name) else base;
    var titled := if !dto.metaTitle.Undefined? then named.(metaTitle := Stored(dto.metaTitle)) else named;
    var pathed := if !dto.path.Undefined? then titled.(path := Stored(dto.path)) else titled;
    if !dto.addToNavigation.Undefined? then pathed.(addToNavigation := Stored(dto.addToNavigation)) else pathed
  }

  /** The version record taken of `existing` before it is updated. */
  function Snapshot(existing: Page, key: string, versionId: string): PageVersion {
    PageVersion(
      key, existing.id, existing.code, versionId, existing.owner,
      FirstDefined(existing.modified, existing.created),
      Or(existing.modifiedBy, existing.createdBy))
  }

  /** The snapshot holds the drawn `_id` and label, the page id, the code
      the page has before the update and its owner; its `created` is the
      page's `modified || created` and its `created_by` the page's
      `modified_by || created_by`. */
  lemma SnapshotFields(existing: Page, key: string, versionId: string)
    ensures var v := Snapshot(existing, key, versionId);
      && v.id == key && v.versionId == versionId
      && v.pageId == existing.id && v.code == existing.code && v.owner == existing.owner
      && v.created == (if existing.modified.Some? then existing.modified else existing.created)
      && v.createdBy == (if Truthy(existing.modifiedBy) then existing.modifiedBy else existing.createdBy)
  {
  }

  /** The page the creation (fork) path inserts. */
  function NewPage(key: string, dto: CreatePageDto, actor: Option<string>, now: Stamp): (p: Page)
    ensures p.id == key && p.code == dto.code && p.projectId == dto.projectId
    ensures p.name == Some(if Truthy(dto.name) then dto.name.value else "Untitled Page")
    ensures p.metaTitle == Stored(dto.metaTitle) && p.path == Stored(dto.path)
    ensures p.addToNavigation == Stored(dto.addToNavigation)
    ensures p.owner == actor && p.createdBy == actor && p.modifiedBy == actor
    ensures p.created == Some(now) && p.modified == Some(now)
  {
    Page(
      key, dto.projectId, Some(OrElse(dto.name, "Untitled Page")), dto.code,
      Stored(dto.metaTitle), Stored(dto.path), Stored(dto.addToNavigation),
      actor, Some(now), actor, Some(now), actor)
  }

  /** `save(dto, actor)` at time `now`, where `key` is the 6-character id the
      generator draws (for the version on an update, for the page on a fork)
      and `versionId` the 4-character version label. An insert whose `_id` is
      already taken fails and changes nothing. */
  function SaveStep(s: Store, dto: CreatePageDto, actor: Option<string>, now: Stamp, key: string, versionId: string)
    : (Store, Result<Page>)
  {
    if CanUpdate(s.pages, dto, actor) then
      var i := FindIndex(s.pages, dto.id.value).value;
      if HasVersionId(s.versions, key) then
        (s, Err(DuplicateKey("play_page_versions", key)))
      else
        var updated := Overlay(s.pages[i], dto, actor, now);
        (Store(s.pages[i := updated], s.versions + [Snapshot(s.pages[i], key, versionId)]), Ok(updated))
    else if FindIndex(s.pages, key).Some? then
      (s, Err(DuplicateKey("play_pages", key)))
    else
      var p := NewPage(key, dto, actor, now);
      (Store(s.pages + [p], s.versions), Ok(p))
  }

  /** What every save does to the store: a failed insert changes nothing
      and reports the duplicate key; the returned page is stored; versions
      are only ever appended, one exactly on an accepted update; pages grow
      by one exactly on a successful fork. */
  lemma SaveStepEffects(s: Store, dto: CreatePageDto, actor: Option<string>, now: Stamp, key: string, versionId: string)
    ensures var (s', r) := SaveStep(s, dto, actor, now, key, versionId);
      && (r.Err? ==> s' == s && r.error.DuplicateKey?)
      && (r.Ok? ==> r.value in s'.pages)
      && |s'.versions| == |s.versions| + (if CanUpdate(s.pages, dto, actor) && r.Ok? then 1 else 0)
      && s'.versions[..|s.versions|] == s.versions
      && |s'.pages| == |s.pages| + (if !CanUpdate(s.pages, dto, actor) && r.Ok? then 1 else 0)
  {
    var (s', r) := SaveStep(s, dto, actor, now, key, versionId);
    if CanUpdate(s.pages, dto, actor) && r.Ok? {
      var i := FindIndex(s.pages, dto.id.value).value;
      assert s'.pages[i] == r.value;
    }
  }

  /** An accepted update: exactly one version is added, holding the old code,
      and the page is replaced by the overlay, in place. */
  lemma SaveUpdates(s: Store, dto: CreatePageDto, actor: Option<string>, now: Stamp, key: string, versionId: string)
    requires CanUpdate(s.pages, dto, actor)
    requires !HasVersionId(s.versions, key)
    ensures var (s', r) := SaveStep(s, dto, actor, now, key, versionId);
      var i := FindIndex(s.pages, dto.id.value).value;
      && r == Ok(s'.pages[i])
      && |s'.pages| == |s.pages|
      && (forall j :: 0 <= j < |s.pages| && j != i ==> s'.pages[j] == s.pages[j])
      && s'.pages[i] == Overlay(s.pages[i], dto, actor, now)
      && s'.pages[i].id == dto.id.value
      && s'.pages[i].code == dto.code
      && s'.versions == s.versions + [s'.versions[|s.versions|]]
      && s'.versions[|s.versions|] == Snapshot(s.pages[i], key, versionId)
      && s'.versions[|s.versions|].pageId == dto.id.value
      && s'.versions[|s.versions|].code == s.pages[i].code
      && s'.versions[|s.versions|].owner == actor
  {
  }

  /** Fork-not-overwrite: when the update is not allowed, no existing page or
      version changes and, on success, one new page with a fresh id is added. */
  lemma SaveForks(s: Store, dto: CreatePageDto, actor: Option<string>, now: Stamp, key: string, versionId: string)
    requires !CanUpdate(s.pages, dto, actor)
    ensures var (s', r) := SaveStep(s, dto, actor, now, key, versionId);
      && s'.versions == s.versions
      && s'.pages[..|s.pages|] == s.pages
      && (r.Ok? <==> forall j :: 0 <= j < |s.pages| ==> s.pages[j].id != key)
      && (r.Ok? ==> s'.pages == s.pages + [r.value] && r.value == NewPage(key, dto, actor, now))
      && (r.Ok? ==> r.value.id == key && r.value.code == dto.code)
      && (r.Ok? ==> r.value.owner == actor && r.value.created == r.value.modified == Some(now))
      && (r.Ok? ==> r.value.name.Some? && r.value.name.value != "")
      && (r.Err? ==> s' == s)
  {
  }

  /** `save` keeps both collections' `_id`s unique. */
  lemma SavePreservesValid(s: Store, dto: CreatePageDto, actor: Option<string>, now: Stamp, key: string, versionId: string)
    requires Valid(s)
    ensures Valid(SaveStep(s, dto, actor, now, key, versionId).0)
  {
    var (s', r) := SaveStep(s, dto, actor, now, key, versionId);
    if CanUpdate(s.pages, dto, actor) && r.Ok? {
      var i := FindIndex(s.pages, dto.id.value).value;
      assert forall j :: 0 <= j < |s.pages| ==> s'.pages[j].id == s.pages[j].id;
    }
  }

  /** Exactly one version per accepted update: the versions of any page grow by
      one when that page is updated in place, and are otherwise unchanged. */
  lemma SaveVersionCount(s: Store, dto: CreatePageDto, actor: Option<string>, now: Stamp, key: string, versionId: string, pageId: string)
    ensures var (s', r) := SaveStep(s, dto, actor, now, key, versionId);
      |GetVersions(s'.versions, pageId)| ==
        |GetVersions(s.versions, pageId)| +
        (if CanUpdate(s.pages, dto, actor) && r.Ok? && dto.id == Some(pageId) then 1 else 0)
  {
    var (s', r) := SaveStep(s, dto, actor, now, key, versionId);
    var f := (v: PageVersion) => v.pageId == pageId;
    if CanUpdate(s.pages, dto, actor) && r.Ok? {
      var i := FindIndex(s.pages, dto.id.value).value;
      var v := Snapshot(s.pages[i], key, versionId);
      FilterAppend(s.versions, [v], f);
      assert Filter([v], f) == if v.pageId == pageId then [v] else [];
    }
    assert |SortDesc(Filter(s'.versions, f), CreatedOf)| == |Filter(s'.versions, f)| by {
      assert |multiset(SortDesc(Filter(s'.versions, f), CreatedOf))| == |multiset(Filter(s'.versions, f))|;
    }
    assert |SortDesc(Filter(s.versions, f), CreatedOf)| == |Filter(s.versions, f)| by {
      assert |multiset(SortDesc(Filter(s.versions, f), CreatedOf))| == |multiset(Filter(s.versions, f))|;
    }
  }

  // ---------------------------------------------------------------- history

  /** One save request by the page's owner. */
  datatype Edit = Edit(dto: CreatePageDto, now: Stamp, key: string, versionId: string)

  /** The store after the edits are saved one after another by `actor`. */
  function Replay(s: Store, actor: Option<string>, edits: seq<Edit>): Store
    decreases |edits|
  {
    if edits == [] then s
    else
      var e := edits[0];
      Replay(SaveStep(s, e.dto, actor, e.now, e.key, e.versionId).0, actor, edits[1..])
  }

  /** The preconditions under which every one of `edits` is accepted as an
      in-place update of page `i`: the actor owns it and every version id the
      generator draws is new. */
  predicate EditsAccepted(s: Store, i: nat, actor: Option<string>, edits: seq<Edit>) {
    && i < |s.pages| && FindIndex(s.pages, s.pages[i].id) == Some(i)
    && s.pages[i].id != "" && s.pages[i].owner == actor && Truthy(actor)
    && (forall k :: 0 <= k < |edits| ==> edits[k].dto.id == Some(s.pages[i].id))
    && (forall k :: 0 <= k < |edits| ==> !HasVersionId(s.versions, edits[k].key))
    && (forall k, l :: 0 <= k < l < |edits| ==> edits[k].key != edits[l].key)
  }

  /** The page after the edits are overlaid one after another. */
  function Overlays(page: Page, actor: Option<string>, edits: seq<Edit>): Page
    decreases |edits|
  {
    if edits == [] then page
    else Overlays(Overlay(page, edits[0].dto, actor, edits[0].now), actor, edits[1..])
  }

  /** The snapshots the edits take, in the order they are taken. */
  function Snapshots(page: Page, actor: Option<string>, edits: seq<Edit>): seq<PageVersion>
    decreases |edits|
  {
    if edits == [] then []
    else
      [Snapshot(page, edits[0].key, edits[0].versionId)]
        + Snapshots(Overlay(page, edits[0].dto, actor, edits[0].now), actor, edits[1..])
  }

  /** One accepted edit: the page is overlaid in place, one snapshot is
      appended, and the conditions hold for the remaining edits. */
  lemma OwnerEditStep(s: Store, i: nat, actor: Option<string>, edits: seq<Edit>)
    requires EditsAccepted(s, i, actor, edits) && edits != []
    ensures var s1 := SaveStep(s, edits[0].dto, actor, edits[0].now, edits[0].key, edits[0].versionId).0;
      && s1.pages == s.pages[i := Overlay(s.pages[i], edits[0].dto, actor, edits[0].now)]
      && s1.versions == s.versions + [Snapshot(s.pages[i], edits[0].key, edits[0].versionId)]
      && EditsAccepted(s1, i, actor, edits[1..])
      && Replay(s, actor, edits) == Replay(s1, actor, edits[1..])
  {
    var e := edits[0];
    var pid := s.pages[i].id;
    assert CanUpdate(s.pages, e.dto, actor);
    var s1 := SaveStep(s, e.dto, actor, e.now, e.key, e.versionId).0;
    var rest := edits[1..];
    assert FindIndex(s1.pages, pid) == Some(i) by {
      assert s1.pages[i].id == pid;
      var f := FindIndex(s1.pages, pid);
      assert f.Some? && f.value <= i;
    }
    forall k | 0 <= k < |rest| ensures !HasVersionId(s1.versions, rest[k].key) {
      assert rest[k] == edits[k + 1];
      assert e.key != rest[k].key;
      assert !HasVersionId(s.versions, rest[k].key);
    }
    forall k | 0 <= k < |rest| ensures rest[k].dto.id == Some(s1.pages[i].id) {
      assert rest[k] == edits[k + 1];
    }
    forall k, l | 0 <= k < l < |rest| ensures rest[k].key != rest[l].key {
      assert rest[k] == edits[k + 1] && rest[l] == edits[l + 1];
    }
  }

  /** Repeated saves by the owner: every edit is applied in place to page `i`
      and appends exactly its snapshot; no other page changes. */
  lemma {:induction false} OwnerEditsReplay(s: Store, i: nat, actor: Option<string>, edits: seq<Edit>)
    requires EditsAccepted(s, i, actor, edits)
    ensures Replay(s, actor, edits).pages == s.pages[i := Overlays(s.pages[i], actor, edits)]
    ensures Replay(s, actor, edits).versions == s.versions + Snapshots(s.pages[i], actor, edits)
    decreases |edits|
  {
    if edits != [] {
      var e := edits[0];
      var rest := edits[1..];
      var ov := Overlay(s.pages[i], e.dto, actor, e.now);
      var snap := Snapshot(s.pages[i], e.key, e.versionId);
      var s1 := Store(s.pages[i := ov], s.versions + [snap]);
      OwnerEditStep(s, i, actor, edits);
      OwnerEditsReplay(s1, i, actor, rest);
      var after := Replay(s1, actor, rest);
      var last := Overlays(ov, actor, rest);
      var tail := Snapshots(ov, actor, rest);
      assert s1.pages[i] == ov;
      assert after.pages == s.pages[i := last];
      assert after.versions == s.versions + ([snap] + tail);
    }
  }

  /** What the snapshots hold: one per edit, each of the page, holding the code
      (and the timestamp) the page had just before that edit; afterwards the
      page holds the last edit's code. */
  lemma {:induction false} SnapshotsHoldPriorCode(page: Page, actor: Option<string>, edits: seq<Edit>)
    ensures |Snapshots(page, actor, edits)| == |edits|
    ensures forall k :: 0 <= k < |edits| ==> Snapshots(page, actor, edits)[k].pageId == page.id
    ensures forall k :: 0 <= k < |edits| ==>
      Snapshots(page, actor, edits)[k].code == (if k == 0 then page.code else edits[k - 1].dto.code)
    ensures forall k :: 0 <= k < |edits| ==>
      Snapshots(page, actor, edits)[k].created ==
        (if k == 0 then FirstDefined(page.modified, page.created) else Some(edits[k - 1].now))
    ensures Overlays(page, actor, edits).id == page.id
    ensures edits != [] ==> Overlays(page, actor, edits).code == edits[|edits| - 1].dto.code
    decreases |edits|
  {
    if edits != [] {
      var next := Overlay(page, edits[0].dto, actor, edits[0].now);
      var rest := edits[1..];
      SnapshotsHoldPriorCode(next, actor, rest);
      var h := Snapshots(page, actor, edits);
      assert h == [Snapshot(page, edits[0].key, edits[0].versionId)] + Snapshots(next, actor, rest);
      forall k | 1 <= k < |edits|
        ensures h[k].pageId == page.id
        ensures h[k].code == edits[k - 1].dto.code
        ensures h[k].created == Some(edits[k - 1].now)
      {
        assert h[k] == Snapshots(next, actor, rest)[k - 1];
        if k > 1 {
          assert rest[k - 2] == edits[k - 1];
        }
      }
      if rest != [] {
        assert rest[|rest| - 1] == edits[|edits| - 1];
      }
    }
  }

  // ----------------------------------------------------------------- delete

  /** `delete(id, userId)`: `NotFound` for a missing page and, with another
      message, for a page `userId` does not own; otherwise the page is removed.
      Versions are never touched. */
  function DeleteStep(s: Store, id: string, actor: string): (r: (Store, Result<()>))
    ensures r.0.versions == s.versions
    ensures r.1.Err? ==> r.0 == s && r.1.error.NotFound?
    ensures r.1.Ok? ==> |r.0.pages| == |s.pages| - 1 && forall p :: p in r.0.pages ==> p in s.pages
  {
    match FindIndex(s.pages, id)
    case None => (s, Err(NotFound("Page #" + id + " not found")))
    case Some(i) =>
      if s.pages[i].owner != Some(actor) then
        (s, Err(NotFound("Page #" + id + " not found or you don't have permission")))
      else
        (Store(s.pages[..i] + s.pages[i + 1..], s.versions), Ok(()))
  }

  /** Owner-gated delete: it succeeds exactly when the page exists and the
      actor owns it; then exactly that page is gone and every other page stays;
      otherwise it raises `NotFound` and nothing changes. */
  lemma DeleteOwnerGated(s: Store, id: string, actor: string)
    requires Valid(s)
    ensures var (s', r) := DeleteStep(s, id, actor);
      && s'.versions == s.versions
      && (r.Ok? <==> exists i :: 0 <= i < |s.pages| && s.pages[i].id == id && s.pages[i].owner == Some(actor))
      && (r.Err? ==> s' == s && r.error.NotFound?)
      && (r.Ok? ==> FindOne(s'.pages, id).Err? && |s'.pages| == |s.pages| - 1)
      && (r.Ok? ==> forall p :: p in s.pages && p.id != id ==> p in s'.pages)
      && Valid(s')
  {
    var (s', r) := DeleteStep(s, id, actor);
    match FindIndex(s.pages, id)
    case None =>
    case Some(i) =>
      if r.Ok? {
        RemoveAt(s.pages, i);
      }
  }

  /** Removing the element at `i` shifts the later elements down by one and
      keeps every other element. */
  lemma RemoveAt(pages: seq<Page>, i: nat)
    requires i < |pages|
    ensures var r := pages[..i] + pages[i + 1..];
      && |r| == |pages| - 1
      && (forall j :: 0 <= j < |r| ==> r[j] == pages[if j < i then j else j + 1])
      && (forall p :: p in pages && p != pages[i] ==> p in r)
  {
    var r := pages[..i] + pages[i + 1..];
    forall p | p in pages && p != pages[i] ensures p in r {
      var j :| 0 <= j < |pages| && pages[j] == p;
      assert r[if j < i then j else j - 1] == p;
    }
  }

  /** Resolution by path and by id agree: when a page's path is unique in its
      project and ids are unique, `findByPath` and `findOne` return it. */
  lemma PathOrIdSamePage(pages: seq<Page>, page: Page, projectId: string, path: string)
    requires UniquePageIds(pages) && page in pages
    requires page.projectId == Some(projectId) && page.path == Some(path)
    requires forall q :: q in pages && q.projectId == Some(projectId) && q.path == Some(path) ==> q == page
    ensures FindByPath(pages, projectId, path) == Some(page)
    ensures FindOne(pages, page.id) == Ok(page)
  {
    var i := FindIndex(pages, page.id).value;
    var j :| 0 <= j < |pages| && pages[j] == page;
    assert pages[i] == pages[j];
  }
}
