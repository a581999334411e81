/** `PlayService` (src/play/play.service.ts): the object that writes the
    `play_pages` and `play_page_versions` collections in place. Each write is
    proved to perform the transition `Pages` defines for it. */
module Play {
  import opened JsValues
  import opened Pages
  import Ids

  class PlayService {
    /** The `play_pages` collection, in natural order. */
    var pages: seq<Page>
    /** The `play_page_versions` collection, in natural order. */
    var versions: seq<PageVersion>

    ghost predicate Valid()
      reads this
    {
      Pages.Valid(Store(pages, versions))
    }

    function State(): Store
      reads this
    {
      Store(pages, versions)
    }

    /** A service over a database that already holds `db`. */
    constructor (db: Store)
      requires Pages.Valid(db)
      ensures Valid() && State() == db
    {
      pages := db.pages;
      versions := db.versions;
    }

    /** `save(createPageDto, userId)` at time `now`: an in-place update with a
        version snapshot when the actor owns the named page, otherwise a fork
        into a new page. The identifiers drawn are whatever `generateId`
        returns; the new contents are `SaveStep` for those draws. */
    method Save(dto: CreatePageDto, actor: Option<string>, now: Stamp) returns (r: Result<Page>)
      requires Valid()
      modifies this
      ensures Valid()
      ensures exists key: string, versionId: string ::
        && Ids.IsGeneratedId(key, Ids.IdLength)
        && Ids.IsGeneratedId(versionId, Ids.LabelLength)
        && SaveStep(old(State()), dto, actor, now, key, versionId) == (State(), r)
    {
      ghost var before := State();
      var key := Ids.GenerateId(Ids.IdLength);
      var versionId := Ids.GenerateId(Ids.LabelLength);
      SavePreservesValid(before, dto, actor, now, key, versionId);
      if Truthy(dto.id) {
        var found := FindIndex(pages, dto.id.value);
        if found.Some? && pages[found.value].owner == actor && Truthy(actor) {
          var i := found.value;
          var existing := pages[i];
          var version := PageVersion(
            key, dto.id.value, existing.code, versionId, existing.owner,
            FirstDefined(existing.modified, existing.created),
            Or(existing.modifiedBy, existing.createdBy));
          if HasVersionId(versions, key) {
            r := Err(DuplicateKey("play_page_versions", key));
            return;
          }
          versions := versions + [version];
          // updateFields, built one assignment at a time
          var updated := existing.(code := dto.code, modified := Some(now), modifiedBy := actor);
          if Truthy(dto.name) {
            updated := updated.(name := dto.name);
          }
          if !dto.metaTitle.Undefined? {
            updated := updated.(metaTitle := Stored(dto.metaTitle));
          }
          if !dto.path.Undefined? {
            updated := updated.(path := Stored(dto.path));
          }
          if !dto.addToNavigation.Undefined? {
            updated := updated.(addToNavigation := Stored(dto.addToNavigation));
          }
          pages := pages[i := updated];
          r := Ok(updated);
          return;
        }
      }
      var page := NewPage(key, dto, actor, now);
      if FindIndex(pages, key).Some? {
        r := Err(DuplicateKey("play_pages", key));
        return;
      }
      pages := pages + [page];
      r := Ok(page);
    }

    /** `delete(id, userId)`: removes the page when `userId` owns it;
        otherwise raises `NotFound` and changes nothing. */
    method Delete(id: string, actor: string) returns (r: Result<()>)
      requires Valid()
      modifies this
      ensures Valid()
      ensures DeleteStep(old(State()), id, actor) == (State(), r)
    {
      DeleteOwnerGated(State(), id, actor);
      var found := FindOne(pages, id);
      if found.Err? {
        r := Err(found.error);
        return;
      }
      if found.value.owner != Some(actor) {
        r := Err(NotFound("Page #" + id + " not found or you don't have permission"));
        return;
      }
      var i := FindIndex(pages, id).value;
      pages := pages[..i] + pages[i + 1..];
      r := Ok(());
    }
  }
}
