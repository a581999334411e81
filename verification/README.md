# Playground pages: persistence, resolution, rendering and AI post-processing

This project models the core of a web playground in which users write HTML
pages, organise them into projects, and ask an AI model to write or change the
code. It covers three parts of the server.

- `PlayService` (src/play/play.service.ts) owns the `play_pages` and
  `play_page_versions` collections. Its `save` either updates a page in place
  or forks it. An in-place update happens only for the page's owner, and it
  first snapshots the old code into a version. Anyone else gets a fork: a new
  page with a fresh random id. The service also has `delete`, which is gated
  on ownership, the lookups and sorted listings, the 62-character id
  generator, and `buildHtml`, which renders a stand-alone HTML document for a
  page.
- `AppController` (src/play/editor.controller.ts) has the two public routes.
  `/app/:projectSlug` redirects to the project's home page.
  `/app/:projectSlug/:pageSlug` serves a page. Projects are resolved by slug,
  then by id. Pages are resolved by path, then by id.
- `AiService` (src/ai/ai.service.ts) covers four things:
  - the configuration read once (default model, allowed keywords, API key);
  - the user message and model of a generation request;
  - the clean-up of the completion text;
  - the filtered, default-first and cached model list.

Modules:

| module | file | contents |
|---|---|---|
| `JsValues` | js_values.dfy | `undefined` as `Option`, truthiness, `\|\|`, thrown errors as `Result` |
| `Seqs` | seqs.dfy | order-keeping filter; MongoDB's descending sort, with a missing value last |
| `Text` | text.dfy | the JavaScript string operations the core uses: `startsWith`, `includes`, `toLowerCase`, `trim`, `split`/`join` |
| `Ids` | ids.dfy | `generateId` |
| `Pages` | pages.dfy | the documents, queries, and every write as a transition of the store |
| `Play` | play_service.dfy | the `PlayService` class, whose methods perform those transitions in place |
| `Projects` | projects.dfy | projects and their two lookups |
| `Html` | html.dfy | `buildHtml`: layout decisions, then rendering |
| `Editor` | editor.dfy | the two routes |
| `Ai` | ai.dfy | the `AiService` class and the pure functions it uses |

`buildHtml` works in two steps. First, `Html.PageLayout` makes every decision:
the title, whether there is a navigation bar, its links and their highlight,
and whether there is an edit button. Then `Html.Render` joins fixed template
text around those values.

The fixed text is a `Html.Template` record, and `Html.Source` holds the exact
text of the source's template literals. `Html.BuildHtml` renders with
`Source`. The rendering lemmas are proved for every template, so they hold for
`Source` in particular. Each call returns a function of its arguments, so the
output is deterministic.

## Model

| member | source | states |
|---|---|---|
| Ids.GenerateId | src/play/play.service.ts:12-19 | the result has exactly the requested length and every character is A–Z, a–z or 0–9 |
| Ids.AlphabetLiteral | src/play/play.service.ts:13 | the alphabet is the literal `A…Za…z0…9` of the source |
| Ids.AlphabetIsAlphanumeric | src/play/play.service.ts:13-16 | the alphabet has 62 characters and holds exactly the alphanumeric characters, so any index drawn from [0, 62) yields one |
| Pages.FindOne | src/play/play.service.ts:104-112 | succeeds exactly when some page has the id, returning such a page; otherwise raises `NotFound("Page #<id> not found")` |
| Pages.FindByPath | src/play/play.service.ts:174-176 | returns a stored page with both that project id and that path; returns nothing exactly when no page matches both; never fails |
| Pages.FindAll | src/play/play.service.ts:99-102 | returns the pages owned by `userId` when it is truthy, otherwise every page, each as often as stored, sorted by `modified` descending with missing values last |
| Pages.FindAllByProject | src/play/play.service.ts:85-90 | returns exactly the pages whose `projectId` is the given one, as a multiset, sorted by `modified` descending |
| Pages.GetVersions | src/play/play.service.ts:92-97 | returns exactly the versions of the given page, as a multiset, sorted by `created` descending |
| Seqs.SortDesc | src/play/play.service.ts:88 | a descending sort is a permutation of its input and is ordered by the key, with a missing key last |
| Pages.Overlay | src/play/play.service.ts:47-62 | the returned page has the new code, `modified = now` and `modified_by = userId`; `name` is overwritten only when truthy; `metaTitle`, `path` and `addToNavigation` are overwritten whenever the request field is not `undefined`, so an explicit `null` clears the field; every other field is kept |
| Pages.SnapshotFields | src/play/play.service.ts:31-41 | the version record holds the drawn `_id` and label, the page id, the old code and the owner; its `created` is `modified \|\| created` and its `created_by` is `modified_by \|\| created_by` of the page |
| Pages.NewPage | src/play/play.service.ts:67-80 | the new page has the drawn id and the request's code and `projectId`; its name is `name \|\| 'Untitled Page'`; `metaTitle`, `path` and `addToNavigation` are copied; `owner`, `created_by` and `modified_by` are `userId`; `created` and `modified` are `now` |
| Pages.SaveStepEffects | src/play/play.service.ts:21-83 | a failed insert changes nothing and reports the duplicate key; the returned page is stored; versions are only appended, one exactly on an accepted update; pages grow by one exactly on a successful fork |
| Pages.SaveUpdates | src/play/play.service.ts:26-62 | an update is accepted when the request's `id` is truthy, a page has that `_id`, its `owner` is `userId`, and `userId` is truthy (`CanUpdate`), and no version has the drawn version `_id`. It then replaces only that page, in place, by exactly the overlay, and appends exactly one version, which is exactly the snapshot of the old page: its `pageId` is the id, its code is the old code, and its owner is the page's owner |
| Pages.SaveForks | src/play/play.service.ts:66-82 | when the update is not allowed (the request's `id` is falsy, no page has it, its `owner` is not `userId`, or `userId` is falsy), no existing page or version changes. On success exactly one page is appended and returned: it is exactly `NewPage` for the drawn id, so it has the request's code, `owner = userId`, `created = modified = now` and a non-empty name. The insert fails exactly when the drawn id is taken |
| Pages.SavePreservesValid | src/play/play.service.ts:21-83 | `save` keeps the `_id`s of both collections unique |
| Pages.SaveVersionCount | src/play/play.service.ts:31-44 | a page's versions grow by exactly one on an accepted update of that page and are unchanged otherwise |
| Pages.OwnerEditStep | src/play/play.service.ts:26-62 | one accepted owner edit overlays the page, appends its snapshot, and keeps the owner's following edits acceptable |
| Pages.OwnerEditsReplay | src/play/play.service.ts:21-63 | after a series of owner saves, the page is the successive overlays of the edits, no other page has changed, and the versions gained exactly one snapshot per edit, in order |
| Pages.SnapshotsHoldPriorCode | src/play/play.service.ts:31-41 | the k-th snapshot holds the code and timestamp the page had just before the k-th edit, and the page ends with the last edit's code |
| Pages.DeleteStep | src/play/play.service.ts:114-120 | versions are never touched; a failure raises `NotFound` and changes nothing; a success removes exactly one page and adds none |
| Pages.DeleteOwnerGated | src/play/play.service.ts:114-120 | delete succeeds exactly when the page exists and is owned by `userId`; it then removes exactly that page and keeps every other; otherwise it raises `NotFound` and changes nothing; versions are never touched |
| Pages.PathOrIdSamePage | src/play/play.service.ts:174-176 | a page whose path is unique in its project is returned both by `findByPath` and by `findOne` on its id |
| Play.PlayService.constructor | src/play/play.service.ts:10 | the service starts over the given collections |
| Play.PlayService.Save | src/play/play.service.ts:21-83 | the collections after the call, and the result, are `SaveStep` of the previous collections for some ids `generateId` can return (6 characters for the `_id`, 4 for the version label); `_id`s stay unique |
| Play.PlayService.Delete | src/play/play.service.ts:114-120 | the collections after the call, and the result, are `DeleteStep` of the previous collections; `_id`s stay unique |
| Projects.FindBySlug | src/play/editor.controller.ts:16 | returns a project with that slug; returns nothing exactly when no project has it |
| Projects.FindById | src/play/editor.controller.ts:19 | returns a project with that id; returns nothing exactly when no project has it |
| Editor.Resolve | src/play/editor.controller.ts:15-28 | the slug lookup wins; the id lookup is used only when the slug lookup finds nothing; `NotFound("Project not found")` exactly when both fail |
| Editor.ResolveFindsNamedProject | src/play/editor.controller.ts:15-28 | a project is resolved exactly when some project has that slug or that id, and the one resolved is such a project |
| Editor.ResolveProject | src/play/editor.controller.ts:15-28 | the lookup chain returns what `Resolve` specifies |
| Editor.HomePage | src/play/editor.controller.ts:46-48 | the home page is one of the listed pages. It is the first page when `homePage` is falsy or names no listed page, and otherwise the page with that id |
| Editor.PageUrl | src/play/editor.controller.ts:49-51 | the redirect path `/app/<slug \|\| _id>/<path \|\| _id>` splits into one piece more than the two-segment route expects for each `/` inside a segment; when neither segment contains `/`, it splits back into exactly its project and page segments |
| Editor.ViewProjectHome | src/play/editor.controller.ts:30-55 | responses: without a session, a redirect to `/login` before any lookup; a `NotFound` when the project does not resolve; a redirect to the home page's URL when the project has pages; otherwise 404 `No pages found` |
| Editor.FindPage | src/play/editor.controller.ts:73-86 | a match by path wins. The id fallback is used only when there is none, and is accepted exactly when the page with that id belongs to the project. The page returned belongs to the project and has that path or that id |
| Editor.FindPageIff | src/play/editor.controller.ts:73-90 | with unique ids, a page is found exactly when the project has a page with that path or that id |
| Editor.ResolvePage | src/play/editor.controller.ts:73-86 | the lookup chain returns what `FindPage` specifies |
| Editor.NavPages | src/play/editor.controller.ts:93 | the navigation pages are exactly the pages whose `addToNavigation` is true, each as often as listed |
| Editor.NavPagesKeepOrder | src/play/editor.controller.ts:92-93 | navigation pages keep the listing's order: those of a concatenation are those of each part, in turn |
| Editor.EditUrl | src/play/editor.controller.ts:96 | the edit URL `/projects/<project id>/<page id>/edit` splits into one piece more for each `/` inside an id; when neither id contains `/`, it splits back into exactly the project id and the page id |
| Editor.ViewPage | src/play/editor.controller.ts:57-100 | responses: without a session, a redirect to `/login`; a `NotFound` when the project does not resolve; 404 `Page not found` when no page is found; otherwise 200 with `buildHtml` of the page, the project, the project's navigation pages and the page's edit URL |
| Editor.ServedPageHasEditButton | src/play/editor.controller.ts:96-99 | every page `viewPage` serves ends with the edit button linking to its edit URL |
| Html.Title | src/play/play.service.ts:123 | the title is `metaTitle` when truthy, else `name` when truthy, else `Untitled Page`, and never empty |
| Html.NavLinks | src/play/play.service.ts:138-142 | one link per navigation page, in order. Each href is `/app/<project slug>/<path or _id>`. A link is active exactly when it is the shown page. Its text is the page name, as interpolated |
| Html.PageLayout | src/play/play.service.ts:122-155 | the nav bar is present exactly when the project enables navigation and there are navigation pages; it links home to `/app/<slug \|\| _id>`; the edit button is present exactly when `editUrl` is truthy |
| Html.BuildHtml | src/play/play.service.ts:122-171 | the document over the source's template text starts with the head carrying the title fallback; the navigation bar follows exactly when it is shown, and otherwise the code follows directly; it ends with the edit button when `editUrl` is truthy, and otherwise with the code and the closing tags |
| Html.CodeEmbeddedVerbatim | src/play/play.service.ts:157-171 | the document is the document for empty code with `page.code` inserted unescaped at one position |
| Html.TitleAndNavigation | src/play/play.service.ts:136-167 | the document opens with the head carrying the title fallback. The navigation bar and its home link follow exactly when navigation is shown; otherwise the page's code follows directly |
| Html.EditButtonIffEditUrl | src/play/play.service.ts:128-134 | the document ends with the edit button for `editUrl` when it is truthy; otherwise the code is followed only by the closing tags |
| Html.ActiveLinkMarked | src/play/play.service.ts:140-141 | a rendered link carries the active class exactly when it links the page being shown |
| Text.Split | src/ai/ai.service.ts:23 | `split` yields at least one piece, no piece holds the separator, and every character of a piece is from the input |
| Text.SplitJoin | src/ai/ai.service.ts:23 | joining the pieces of a split with its separator gives back the input |
| Text.JoinSplit | src/ai/ai.service.ts:23 | splitting a join of separator-free pieces gives back the pieces |
| Text.SplitCount | src/ai/ai.service.ts:23 | a split has one more piece than the input has separators |
| Text.Trim | src/ai/ai.service.ts:23 | `trim` returns a contiguous part of its input that neither starts nor ends with white space, after dropping only white space on either side |
| Text.TrimIdempotent | src/ai/ai.service.ts:23 | trimming twice is trimming once |
| Text.ContainsIffOccurs | src/ai/ai.service.ts:82 | `includes` holds exactly when the keyword occurs at some position |
| Text.ToLowerIdempotent | src/ai/ai.service.ts:82 | a lower-cased id holds no upper-case letter and lower-casing it again changes nothing |
| Ai.ParseKeywords | src/ai/ai.service.ts:21-24 | one keyword per comma-separated item, each exactly `Trim` of its item, so only white space at its ends is cut |
| Ai.ParseKeywordsItems | src/ai/ai.service.ts:21-24 | there are one more keywords than commas; none holds a comma or starts or ends with white space; a list without white space is read back exactly |
| Ai.AiService.constructor | src/ai/ai.service.ts:15-34 | a truthy `OPENAI_MODEL_DEFAULT` and a truthy `OPENAI_MODEL_ALLOWED` override the defaults `google/gemini-3-pro-preview` and `["gpt-5", "gemini-3"]`; the client exists exactly when the API key is truthy; the cache starts empty |
| Ai.AnyContained | src/ai/ai.service.ts:82 | true exactly when some keyword occurs in the string |
| Ai.FilterModels | src/ai/ai.service.ts:82 | keeps a model exactly when its lower-cased id contains a keyword, each kept model as often as fetched |
| Ai.EmptyKeywordAdmitsAll | src/ai/ai.service.ts:21-24 | an empty keyword (as `"a,,b"` produces) lets every model through |
| Ai.UpperCaseKeywordMatchesNothing | src/ai/ai.service.ts:82 | keywords are not lower-cased, so one holding an upper-case letter matches no model |
| Ai.OrderModels | src/ai/ai.service.ts:84-88 | the ordered list is a permutation of the filtered one with every default model before every other model |
| Ai.OrderModelsKeepsOthers | src/ai/ai.service.ts:84-88 | the models other than the default keep their relative order |
| Ai.OrderModelsDefaultFirst | src/ai/ai.service.ts:84-88 | a list that holds the default model starts with it |
| Ai.ListedModels | src/ai/ai.service.ts:82-88 | the listed models are exactly the allowed fetched ones, with the default model first |
| Ai.UserMessage | src/ai/ai.service.ts:49-51 | the message starts with `Current Code:` followed by the code exactly when `currentCode` is truthy, and always ends with `User Request: <prompt>`, right after that prefix: the message is exactly the optional code block followed by the request |
| Ai.AiService.ChosenModel | src/ai/ai.service.ts:58 | the model is the requested one when truthy, else the default; never empty |
| Ai.StripFence | src/ai/ai.service.ts:65-67 | the content is the removed opening fence (only when the content starts with it), the code, and the removed `` \n``` `` (only when what follows the fence ends with it) |
| Ai.CleanCompletion | src/ai/ai.service.ts:61-68 | missing content gives `''`; content not starting with a fence is unchanged; otherwise the content is the removed opening fence, the code and the removed closing fence. The opening fence is `` ```html\n `` when the content starts with `` ```html `` and `` ```\n `` otherwise, and it is removed only when present. The trailing `` \n``` `` is removed only when what follows the fence ends with it |
| Ai.UnwrapsFencedReply | src/ai/ai.service.ts:64-68 | a reply wrapped in an html fence or a bare fence is unwrapped to exactly its body |
| Ai.AiService.GenerateCode | src/ai/ai.service.ts:36-71 | without an API key it fails reading `chat` of the missing client; a failed completion call propagates its error; otherwise the request is the `UserMessage` with the `ChosenModel`, and the code is `CleanCompletion` of the reply's content, so missing content gives `''` and fence-free content is returned as it is |
| Ai.AiService.GetModels | src/ai/ai.service.ts:73-97 | returns a non-empty cache without fetching. A missing key or a failed fetch gives `[]` and leaves the cache alone. Otherwise it caches and returns the filtered, default-first list |

## Left out

- Concurrency: each operation runs as one step. `save` reads, inserts a version and then updates, with no transaction. Two concurrent saves of one page can interleave and lose a snapshot or an update; the model cannot show this.
- Mongo failures other than a duplicate `_id` (network errors, timeouts) are not modelled; every store call either succeeds or fails with `DuplicateKey`.
- Collections are sequences in natural (insertion) order. Ties in a sort keep that order; MongoDB leaves the order of ties unspecified.
- `Date` values are integer timestamps (`Stamp`), and `now` is a parameter.
- `Math.random` is an arbitrary index into the alphabet. The uniformity of the draw is not modelled.
- The session lookup is a boolean parameter. The auth service is not part of this model.
- `src/play/project.service.ts` is not part of this model. Its `findBySlug` and `findOne` are modelled as first-match searches over a list of projects. A failure of `findOne` is caught by its only caller, so a miss is "no project".
- A NestJS exception is modelled as `Raised`. How the framework turns it into an HTTP response is left out.
- The OpenAI calls are left out. The completion text and the fetched model list are parameters, `None` standing for a failed fetch; the system prompt text and `OPENAI_BASE_URL` are not modelled.
- Console logging is left out.
- Text.ToLower: lower-cases ASCII letters only. JavaScript's `toLowerCase` also maps non-ASCII letters, so ids containing such letters may filter differently.
- Ai.OrderModels: models the sort as a stable partition, defaults first. The source's comparator is inconsistent when two models both have the default id. For a list with at most one default model, JavaScript's stable sort gives the same result.
- Document fields that the core neither reads nor writes are not modelled.
- Stored page fields are `Option`s, so `null` and `undefined` are the same there. Every read in the core treats them alike: both are falsy, and neither matches a string query. The one exception is `${p.name}`, which prints `null` where the model prints `undefined`; no write in the core stores a `null` name.
- Project fields are `Option`s too, and the core never writes projects. `${project.name}` in the navigation bar (src/play/play.service.ts:147) is a second exception: for a project whose `name` is `null` the source prints `null` where the model prints `undefined`. A request body does tell the two apart: its `metaTitle`, `path` and `addToNavigation` are `Field`s.
- Editor.PageUrl: `save` does not reject a `/` in `path`, and nothing escapes the segments. A page whose `path` (or a project whose `slug`) holds a `/` gets a redirect and a navigation href with more segments than the route `:projectSlug/:pageSlug` (src/play/editor.controller.ts:57) matches. The model proves the piece count but does not model the router, so it does not state that such a page cannot be reached through its own links.
- The shape of the provider's reply is not modelled. `completion.choices[0]` is taken to exist, and a reply is its message content or the error the call throws.
