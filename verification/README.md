# nav.ax: verified model of the publishing core

nav.ax lets a user keep a page of categories and sites as a draft, publish
snapshots of it under a theme, and move its content in and out of files. This
project models the parts of the server whose correctness spans several
functions and proves what they promise. Every transaction body is one step that
commits or changes nothing; a run is any interleaving of such steps with
non-decreasing time. `dafny verify dfyconfig.toml` checks everything.

* **Drafts and publication** (`Ordering`, `Drafts`, `Tables`, `Renumbering`,
  `Projection`, `NavigationModel`, `NavigationSteps`, `PublicationSteps`,
  `NavigationRuns`, `NavigationStore`, `NavigationLaws`): rows with `category_id` and `sort_order`
  behave like an ordered list of categories, each with an ordered list of sites.
  The class `Store` holds the tables; each method leaves behind exactly the intended list
  edit at the next revision, and snapshots stay immutable and truthful.
* **Import and export** (`Text`, `ImportModel`, `ImportSteps`, `Importer`,
  `ImportPreview`, `ImportCommit`, `Markup`, `Bookmarks`, `BookmarkRoundTrip`,
  `BookmarkLayouts`, `BookmarkLaws`, `JsonImport`, `ImportIds`): the importer with its cached aggregates does what a
  cache-free reference does; the preview predicts the commit; a bookmark file
  read back gives what was written; JSON import loses no site.
* **Themes** (`ThemeModel`, `ThemeSteps`, `ThemeInstalls`, `ThemePatches`,
  `ThemeCatalog`, `ThemeRuns`, `ThemeStore`, `ThemeLaws`, `Publishing`): installs, upgrades,
  uninstalls, reclaim, kill switch, default selection, catalog review and
  boot-time healing keep one set of invariants, so every page always resolves to
  an active theme version and published snapshots never lose theirs.
* **CSS scoping** (`CssSelectors`, `CssSemantics`, `CssConfinement`,
  `CssExactness`, `CssCompile`): validator and rewriter over parser tokens, a
  semantics of selectors over document trees (section 8 of W3C Selectors Level
  3), and proofs of where compiled selectors can reach and that they select just
  what was written.
* **Crash and retry protocols** (`Restore`, `Idempotency`): the restore swap
  with compensation and reruns, and the lease on an idempotency key.
* **Limiters** (`RateLimit`, `Throttle`): bounds over whole runs.

`NavigationRuns.Step` and `ThemeRuns.Step` are the transactions as relations
between the rows before and after, with their guards. Each transaction method
of the two stores, and the import, is proved to be such a step; what holds of whole runs is
proved of arbitrary interleavings of steps. `Publishing` joins both.

Identifiers are natural numbers whose order is the byte order of the stored
ids; new ids are parameters required to be fresh. Hashes, tokens and compiled
packages are opaque values. Times are integers. Rollback on error is written
out in each method.

Four places where the code does less than it is meant to, each with a concrete
input and the condition under which the promise holds:

* Selectors. `internal/themes/cssselector.go:10-20` says that only sibling
  combinators after a root reference can leave the theme root. Accepted lists
  also escape when a selector without a root reference begins with `+` or `~`,
  when a comma inside a function makes the validator forget the root, and when
  an attribute selector carries two values. Excluding these three, all accepted
  lists are confined; for a single rewritten selector the exact condition is
  that its first combinator goes down (`CssExactness.SoundIffSafe`).
* Idempotency. `Abort` finds its record by slot, actor and request, not by
  lease, so a holder that aborts after its lease ran out can free its
  successor's record, exactly when that one is open for the same slot, actor
  and request (`Idempotency.AbortTakesAnother`). `Complete` finds it the same
  way and then answers under its successor's lease
  (`Idempotency.CompleteAnswersForAnother`).
* Restore. After a crash and a rerun, a rollback gives back the live files found
  at the crash. They are the original ones if and only if no staged component
  was between its two renames and those already swapped equal what they replaced
  (`Restore.RollbackAfterRerun`). Otherwise the instance is left without a
  component, or with a new one beside old ones (`Restore.RollbackAfterRerunLoses`).
* Background cleanup. It is the one draft writer without an expected revision: it
  reads the revision and never compares it. What it writes is the clearing of the
  settings at the time of the write if and only if clearing forgets what changed
  since its query, which an unmoved revision guarantees (`NavigationRuns.LateClear`);
  a theme chosen in between is lost (`NavigationRuns.LateClearLosesTheme`).

The guards of `internal/admin/service.go` are needed: the store alone accepts a
patch that makes a theme default and disables it
(`ThemePatches.StoreNeedsService`).

## Model

| member | source | states |
|---|---|---|
| Ordering.ListingIs | internal/navigation/sqlstore.go:801-818 | `ORDER BY sort_order, id` lists every id of the result set once, in that order. |
| Ordering.ListingUnique | internal/navigation/sqlstore.go:801-818 | Being sorted with exactly those ids determines the listing, so any rows with the same keys show the same list. |
| Ordering.NextOrder | internal/navigation/sqlstore.go:158-190 | `COALESCE(MAX(sort_order), -1) + 1` lies above every key and just above one of them, or is 0. |
| Ordering.ListingAppendBlock | internal/navigation/sqlstore.go:253-275 | A block numbered from a base above every existing key is listed after the old list, in block order. |
| Drafts.ArrangedUnique | internal/navigation/sqlstore.go:463-504 | A complete order has only one draft that realises it. |
| Drafts.ArrangedWellFormed | internal/navigation/sqlstore.go:463-504 | Arranging by a complete order loses and duplicates no category and no site. |
| Tables.ContentWellFormed | internal/navigation/sqlstore.go:94-115 | Under the foreign keys the rows of a page always show a well-formed draft: every site in exactly one list, once. |
| Tables.ContentFrame | internal/navigation/sqlstore.go:94-115 | A statement that touches no row of a page leaves that page's draft alone. |
| Tables.InsertCategoryAppends | internal/navigation/sqlstore.go:158-190 | The INSERT of a category at MAX + 1 is appending an empty category to the draft. |
| Tables.DeleteCategoryDrops | internal/navigation/sqlstore.go:276-290 | The cascading DELETE of a category removes it and exactly its sites; the order of the others stays. |
| Tables.InsertSiteAppends | internal/navigation/sqlstore.go:300-337 | The INSERT of a site at MAX + 1 appends it to its category's list. |
| Tables.DeleteSiteDrops | internal/navigation/sqlstore.go:400-417 | The DELETE of a site removes it from its list and nothing else. |
| Tables.RepointSiteMoves | internal/navigation/sqlstore.go:339-398 | Re-pointing a site to another category at MAX + 1 is remove-then-append on the lists. |
| Renumbering.NormalizeCategories | internal/navigation/sqlstore.go:1197-1220 | Renumbering the categories of a page changes the draft of no page. |
| Renumbering.NormalizeSites | internal/navigation/sqlstore.go:1222-1245 | Renumbering the sites of a category changes the draft of no page. |
| Renumbering.PlaceSitesPours | internal/navigation/sqlstore.go:253-275 | The UPDATE loop of move-to-uncategorized concatenates the two lists. |
| Renumbering.ReorderArranges | internal/navigation/sqlstore.go:478-500 | After the nested UPDATE loops the page shows exactly the requested order, all other fields unchanged. |
| NavigationStore.ValidateCompleteOrder | internal/navigation/sqlstore.go:1121-1157 | Accepts an order if and only if it is a permutation of all categories and of all sites of the page. |
| NavigationStore.Store.UpdatePage | internal/navigation/sqlstore.go:117-149 | Title and description under the expected revision; every refusal leaves the whole database as it was. |
| NavigationLaws.RightsAre | internal/navigation/sqlstore.go:740-759 | A system page is for administrators, any other page for its owner alone; everybody else is refused. |
| NavigationStore.Store.ReplaceSettings | internal/navigation/sqlstore.go:513-540 | The settings, their layout clamped beforehand, under the expected revision, the revision advancing by one. |
| NavigationStore.Store.ClearBackground | internal/backgrounds/service.go:342-366 | The background cleanup writes what it makes of the settings it read earlier, and moves the revision like any other edit. |
| NavigationRuns.LateClear | internal/backgrounds/service.go:342-366 | In any run: what the cleanup writes is the clearing of the draft it meets if and only if clearing the settings read before and the settings met gives the same; an unmoved revision is enough. |
| NavigationRuns.LateClearLosesTheme | internal/backgrounds/process.go:242-269 | A run of valid tables and JSON settings in which a theme chosen between the query and the UPDATE is lost. |
| NavigationStore.Store.CreateCategory | internal/navigation/sqlstore.go:158-190 | Appends to the draft at the next revision, or refuses for access, limit or name, changing nothing. |
| NavigationStore.Store.UpdateCategory | internal/navigation/sqlstore.go:193-229 | Edits the category in place in the list. |
| NavigationLaws.CategoryPatchMeans | internal/navigation/sqlstore.go:193-229 | A category patch sets the fields it names and no others, here or elsewhere. |
| NavigationStore.Store.DeleteCategory | internal/navigation/sqlstore.go:231-291 | Reject, delete or move-to-uncategorized, as list edits of the draft; the uncategorized category is never deleted. |
| NavigationStore.Store.CreateSite | internal/navigation/sqlstore.go:300-337 | Appends a site to its category under the page limit and the unique URL. |
| NavigationStore.Store.UpdateSite | internal/navigation/sqlstore.go:339-398 | Edits a site and, when the patch names another category, removes and appends it. |
| NavigationLaws.SitePatchMeans | internal/navigation/sqlstore.go:339-398 | A site patch sets the fields it names; a site sent elsewhere leaves its list closed up and stands last in the other; all else stays. |
| NavigationStore.Store.DeleteSite | internal/navigation/sqlstore.go:400-417 | Removes the site from its list and keeps the order of the others. |
| NavigationStore.Store.DeletePersonalLink | internal/directoryadmin/sqlstore.go:299-329 | The admin's deletion outside the package is the same list edit at the next revision. |
| NavigationStore.Store.BatchSetSitesEnabled | internal/navigation/sqlstore.go:419-461 | Switches exactly the named sites, under the expected revision; refuses ids that repeat or are not on the page. |
| NavigationStore.Store.ReplaceContentOrder | internal/navigation/sqlstore.go:463-504 | Leaves the draft in exactly the requested order, or refuses an order that is not a permutation. |
| NavigationStore.Store.ReplacePublication | internal/navigation/sqlstore.go:549-572 | Changes the publication row alone and keeps every invariant of drafts and snapshots. |
| NavigationStore.Store.Publish | internal/navigation/sqlstore.go:605-665 | Adds one snapshot of the draft at the expected revision, makes it live and leaves nothing unpublished; refused if another live page holds the slug. |
| NavigationStore.Store.Unpublish | internal/navigation/sqlstore.go:667-691 | Withdraws the live pointer; snapshots and drafts stay. |
| NavigationModel.NextDraftValid | internal/navigation/sqlstore.go:1159-1195 | A draft edit that keeps the row constraints keeps the whole invariant, old snapshots included. |
| NavigationRuns.StepKeeps | internal/navigation/sqlstore.go:1159-1195 | Every transaction, imports and the writers of other packages included, keeps all table invariants, never moves a revision back, changes no draft without a new revision and touches no snapshot. |
| NavigationRuns.RevisionDeterminesDraft | internal/navigation/sqlstore.go:1159-1195 | In any run of transactions a page's draft is a function of its draft_revision, so an operation accepted at revision r works on the draft readable at r. |
| NavigationRuns.RunMonotone | internal/navigation/sqlstore.go:1159-1195 | Revisions never go back in any run of transactions. |
| NavigationRuns.SnapshotsImmutable | internal/navigation/sqlstore.go:646-656 | Published snapshots never change in any run of transactions. |
| NavigationModel.NoUnpublishedChangesIsTrue | internal/navigation/sqlstore.go:920-975 | If the page reports no unpublished changes, rebuilding from the current draft gives the categories of the live snapshot. |
| NavigationLaws.EditIsNoticed | internal/navigation/sqlstore.go:920-975 | Every edit of the draft of a published page is reported. |
| NavigationLaws.SettingsAreNoticed | internal/navigation/sqlstore.go:920-975 | So is every later change of the publication settings. |
| NavigationLaws.PublishedAnswers | internal/navigation/sqlstore.go:730-738 | After a publication the page, and no other, answers to its slug in any case. |
| NavigationModel.PublicBySlugUnique | internal/navigation/sqlstore.go:1106-1119 | No two live pages answer to one slug, ignoring ASCII case. |
| NavigationRuns.RunSlugsUnique | internal/navigation/sqlstore.go:1106-1119 | That holds in every state of every run. |
| Projection.ProjectionExact | internal/navigation/sqlstore.go:977-1013 | The published page shows a site if and only if it is enabled and in an enabled category, once. |
| Projection.ProjectionTidy | internal/navigation/sqlstore.go:977-1013 | Shown categories are non-empty and keep the draft's order. |
| NavigationLaws.ProjectionShows | internal/navigation/sqlstore.go:977-1022 | What a visitor reads of a category and a site is what the draft says. |
| PublicationSteps.BuildPublishedPage | internal/navigation/sqlstore.go:977-1013 | The grouping loops over the flat site list produce exactly the projection of the draft. |
| PublicationSteps.LoadedSitesGrouped | internal/navigation/sqlstore.go:849-876 | Grouping the loaded flat list by category gives each category's own list, in order. |
| PublicationSteps.PublishStep | internal/navigation/sqlstore.go:605-665 | Publishing keeps live pointers, distinct live slugs and faithful snapshots. |
| Importer.ApplyImport | internal/dataexchange/service.go:370-483 | With its cached URLs, names, counts and orders the loop does what judging each item against the current draft does: same draft, same counters, same refusals, other pages untouched. |
| Importer.LoadCategoryMap | internal/dataexchange/service.go:485-507 | One pass gives the name map of the draft, its category count and MAX + 1. |
| Importer.PageUrls | internal/dataexchange/service.go:514-529 | The URLs of the page's sites. |
| Importer.MakeCategory | internal/dataexchange/service.go:408-436 | Inserting a category keeps every cache equal to what its query would return. |
| Importer.MakeSite | internal/dataexchange/service.go:437-463 | So does inserting a site, including the per-category next order. |
| ImportSteps.AbsentNameIsFree | internal/dataexchange/service.go:406-409 | A name absent from the lower-cased map never meets the unique index. |
| ImportSteps.ClearedRows | internal/dataexchange/service.go:372-379 | Both DELETEs of mode replace leave the uncategorized category, empty. |
| ImportModel.ImportOutcome | internal/dataexchange/service.go:397-464 | The three site counters grow by the number of items, sizes grow by what was created, limits hold and every list has only grown at its end. |
| ImportModel.ImportedUrls | internal/dataexchange/service.go:401-460 | Afterwards the page has its old URLs and those of the valid items, no others. |
| ImportModel.ItemLands | internal/dataexchange/service.go:397-464 | A valid new item becomes one site with its title, URL and flag, last in the category of its name, which is made only if no category bears it; refused exactly when that category or the site would pass a limit. |
| ImportModel.ItemPassed | internal/dataexchange/service.go:397-404 | An invalid or duplicate item changes only its counter. |
| ImportModel.BaseMeans | internal/dataexchange/service.go:372-379 | Mode replace begins from the empty uncategorized category, a merge from the draft as it is. |
| ImportModel.RepeatedMergeCreatesNothing | internal/dataexchange/service.go:370-483 | Repeating an accepted merge creates nothing and returns the same draft. |
| ImportPreview.BuildPreview | internal/dataexchange/service.go:94-143 | Every site is repaired in place and marked duplicate exactly if its URL is on the page or further up; the totals count the marks. |
| ImportPreview.RepairedMeans | internal/dataexchange/service.go:105-129 | A site is valid exactly if its trimmed URL can be cleaned, and then has the cleaned URL and a title of 1 to 100 characters. |
| ImportPreview.NormalizeCategoryName | internal/dataexchange/service.go:148-157 | The trimmed name, cut to 60 characters if and only if it was longer, which truncated says; a fixed name for a blank one. |
| ImportPreview.NormalizeSiteTitle | internal/dataexchange/service.go:159-170 | The trimmed title, else the host name, else a fixed one, cut to 100 characters if and only if it was longer, which truncated says. |
| ImportPreview.SelectSites | internal/dataexchange/service.go:350-368 | Each id selects the last previewed site bearing it; one unknown id refuses the selection. |
| ImportPreview.MarksPredict | internal/dataexchange/service.go:94-143 | Importing judged items reports exactly the marks the preview counted. |
| ImportPreview.PreviewPredictsCommit | internal/dataexchange/service.go:350-368 | Selecting a whole preview with distinct ids reports the preview's totals. |
| ImportIds.PreviewDistinct | internal/dataexchange/service.go:94-143 | A preview of parsed sites with distinct ids has distinct ids. |
| ImportIds.BookmarksDistinct | internal/dataexchange/parse.go:92-116 | Whatever a bookmark file contains, its sites come out with distinct ids, the numbering being injective. |
| ImportIds.JsonDistinct | internal/dataexchange/parse.go:183-204 | Whatever a JSON export contains, its sites come out with distinct ids. |
| ImportCommit.ValidateCommit | internal/dataexchange/service.go:248-272 | Accepts exactly the well-sized keys and tokens with non-blank, distinct selections. |
| ImportCommit.Exchange.Commit | internal/dataexchange/service.go:179-246 | Which refusal wins, in order. A repeat of a stored import returns its result, another caller or request on that key is refused, and neither touches anything; otherwise the draft, the token and the record change together or not at all, the record for 24 hours. |
| ImportCommit.CountersAddUp | internal/dataexchange/service.go:370-483 | Created, duplicate and invalid add up to the selection, whatever was selected and in either mode. |
| ImportCommit.MergeOnlyGrows | internal/dataexchange/service.go:370-483 | A merge only adds at the end of lists and never passes a limit. |
| ImportCommit.ImportIsStep | internal/dataexchange/service.go:370-483 | A committed import is one of the transactions that runs consist of. |
| ImportCommit.ImportIsCommitted | internal/dataexchange/service.go:466-481 | An import is one step of the draft history: no change of the draft without a new revision. |
| ImportCommit.RepeatedMergeIsIdle | internal/dataexchange/service.go:370-483 | Committing the same merge again leaves database and revision as they are. |
| ImportCommit.CommitMatchesPreview | internal/dataexchange/service.go:94-143 | A commit of the whole preview, page URLs unchanged, reports the preview's totals, sites-enabled override included. |
| Markup.UnescapeEscape | internal/dataexchange/export.go:61-75 | Unescaping undoes escaping for every text, whatever the rest of the entity table says. |
| Markup.LinesJoin | internal/dataexchange/parse.go:45 | Splitting into lines undoes writing newline-free lines. |
| Markup.SkipTagged | internal/dataexchange/parse.go:26-31 | Text whose every tag differs from a pattern is passed over by the folder, anchor and list scans. |
| Bookmarks.RenderBookmarks | internal/dataexchange/export.go:39-80 | Grouping loop and builder write the enabled, non-empty categories with their enabled sites, in page order. |
| Bookmarks.ParseBookmarks | internal/dataexchange/parse.go:44-135 | The stacks, the pending folder and the category index compute the line-by-line reading, whose meaning the rows below fix. |
| Bookmarks.ReadLineBalanced | internal/dataexchange/parse.go:74-127 | The folder stack is as deep as there are true frames, after any line of any input. |
| BookmarkRoundTrip.OpeningQuiet | internal/dataexchange/export.go:48-58 | Whatever the page title says, no line before the list means anything to the parser. |
| BookmarkRoundTrip.BlockRead | internal/dataexchange/parse.go:70-127 | A written block comes back as one category with its sites and leaves the stacks as they were. |
| BookmarkRoundTrip.RoundTrip | internal/dataexchange/parse.go:44-135 | Export then import gives exactly the enabled, non-empty categories and their enabled sites: same order, same text, sites hidden. |
| BookmarkLayouts.GluedRead | internal/dataexchange/parse.go:92-116 | Several links written on one line read as those links on lines of their own, in order. |
| BookmarkLayouts.OneLineRead | internal/dataexchange/parse.go:70-127 | A folder with heading, list and links all on one line reads as its block. |
| BookmarkLayouts.LaidOutRoundTrip | internal/dataexchange/parse.go:44-135 | The round trip holds wherever the line breaks between the sites of a folder fall. |
| BookmarkLaws.LinkLands | internal/dataexchange/parse.go:52-68 | A link becomes the last site of the category its innermost folder names, made only if no category has that name in any case; nothing else changes. |
| BookmarkLaws.ParsedGathered | internal/dataexchange/parse.go:44-135 | Whatever a file contains: one category a folder name, none nameless or empty, every link in one; a file without a link passes only with the signature. |
| BookmarkLaws.HrefForms | internal/dataexchange/parse.go:29 | href in any case with blanks around its sign, its value in double, single or no quotes. |
| BookmarkLaws.TagStripped | internal/dataexchange/parse.go:137-139 | A tag inside a title is dropped and the text around it stays. |
| BookmarkLaws.CrlfRead | internal/dataexchange/parse.go:45 | Either kind of line end gives the same lines. |
| JsonImport.UniqueSourceId | internal/dataexchange/parse.go:208-221 | The suffix search ends and returns the first candidate not in use. |
| JsonImport.CandidatesDiffer | internal/dataexchange/parse.go:208-221 | base, base-2, base-3, ... are pairwise distinct, which is why the search ends. |
| JsonImport.ParseNavaxJson | internal/dataexchange/parse.go:141-206 | Each id is the first candidate of its own id, or of its label if that is blank, not handed out before; every category holds exactly the sites that name it, in input order; orphans share one last category, present only if there are any. |
| JsonImport.SitesConserved | internal/dataexchange/parse.go:183-204 | As many sites come out as went in. |
| JsonImport.SiteLandsOnce | internal/dataexchange/parse.go:183-204 | A site is in the category it names and in no other. |
| JsonImport.SiteReads | internal/dataexchange/parse.go:183-204 | A site is found again, trimmed and enabled unless it says otherwise, in the last category with the id it names, else in the category for orphans. |
| JsonImport.DistinctKept | internal/dataexchange/parse.go:208-221 | Ids that are distinct in the file come out as they are. |
| ThemeStore.Store.UpsertVersionTx | internal/themes/store.go:80-175 | Which of four errors occurs; otherwise a new or known version is current, unless it is disabled, when no row changes. |
| ThemeStore.Store.ReclaimTombstones | internal/themes/install.go:196-251 | Deletes exactly the owner's disabled private themes with no snapshot reference and no disabled version, and counts them. |
| ThemeLaws.ReclaimedAre | internal/themes/install.go:196-251 | Which themes those are, told by the rows alone. |
| ThemeStore.Store.InstallPrivate | internal/themes/install.go:36-123 | Quota refuses exactly when the themes that cannot be reclaimed fill it; an upgrade is refused exactly while a request is pending; past these an install succeeds exactly when the package compiles and its version fits; a refusal rolls the reclaim back; every invariant is kept. |
| ThemeLaws.InstallRemembers | internal/themes/install.go:192-195 | No install, not even one that reclaims, forgets a version that was switched off. |
| ThemeStore.Store.UninstallPrivate | internal/themes/install.go:130-175 | Deletes the theme, or keeps it disabled with its requests revoked exactly if a snapshot refers to it. |
| ThemeStore.Store.SetVersionStatus | internal/admin/sqlstore.go:368-399 | The kill switch refuses only the default theme's current version. |
| ThemeStore.Store.PatchTheme | internal/admin/sqlstore.go:263-332 | The store's half of a patch: each refusal, and the rows it leaves, self-check included. |
| ThemeStore.Store.UpdateTheme | internal/admin/service.go:426-456 | With the service's guards in front, whatever row they read and however stale, the patch keeps every invariant. |
| ThemeLaws.PatchMeans | internal/admin/sqlstore.go:263-332 | An accepted patch sets what it names: a new default is switched on and is the only one; other rows and fields stay. |
| ThemePatches.PatchKeepsDefault | internal/admin/sqlstore.go:263-332 | A patch the store accepts keeps the default usable if and only if it does not make a theme default and switch it off at once. |
| ThemePatches.StoreNeedsService | internal/admin/service.go:436-438 | A sound instance and a patch that only the service's guard stops. |
| ThemeStore.Store.CreateRequest | internal/themecatalog/sqlstore.go:28-76 | A request names the current version of an enabled private theme with a free, unreserved slug; at most one is pending. |
| ThemeLaws.SubmittableIs | internal/themecatalog/sqlstore.go:28-76 | Exactly when a theme may be submitted, told by the rows. |
| ThemeStore.Store.CancelPending | internal/themecatalog/sqlstore.go:78-106 | Revokes the owner's one pending request, if there is one. |
| ThemeStore.Store.Review | internal/themecatalog/sqlstore.go:151-234 | Approval succeeds if and only if the request is pending and theme, version and slug still qualify; it promotes exactly the submitted version. |
| ThemeCatalog.SubmittedIsCurrent | internal/themecatalog/sqlstore.go:177-180 | While a request is pending its theme is private, the requester's and points at the submitted version, so the pointer comparison never fails. |
| ThemeCatalog.ApproveKeeps | internal/themecatalog/sqlstore.go:151-234 | Promotion keeps catalog slugs distinct and unreserved and every other invariant. |
| ThemeStore.Store.EnsureDefaultTheme | internal/themes/sync.go:56-99 | Succeeds if and only if the default is usable or some catalog theme is eligible; heals to the baseline theme, else the least id. |
| ThemeStore.Store.AssertDefaultThemeUsable | internal/themes/sync.go:105-134 | Count and join together decide whether exactly one default exists and can serve. |
| ThemeStore.Store.SyncBuiltin | internal/themes/sync.go:22-44 | The packages up to the first that fails are in, each by a transaction of its own; the sync succeeds exactly if none fails and the default can be healed; every invariant and version status is kept even when it stops half-way. |
| ThemeStore.Store.ResolveEligibleVersion | internal/themes/store.go:281-317 | The requested theme's current version if that theme may serve the actor, else its alias's if that may, else the default's; fails only if no default may serve. |
| ThemeStore.Store.PublishWithTheme | internal/navigation/sqlstore.go:631-655 | Publishing locks the version of the theme asked for where it may serve, else of its alias, else of the default, and never fails for want of a theme while the default is usable. |
| ThemeCatalog.ResolvedServes | internal/themes/store.go:281-317 | Whatever is resolved is the active current version of a theme the actor may use. |
| ThemeRuns.StepKeeps | internal/themes/install.go:36-251 | Every transaction of the four packages keeps the rows' invariants, a usable default, the versions that snapshots hold, and the quota. |
| ThemeRuns.RunSound | internal/themes/sync.go:46-99 | In every run of transactions from a sound state exactly one usable default exists and every page resolves. |
| ThemeRuns.SnapshotKeepsCss | migrations/0014_theme_packages.sql:44-50 | In every run of transactions a snapshot's version row exists with the same theme, hash and CSS. |
| Publishing.PublishedPagesKeepTheirTheme | internal/navigation/sqlstore.go:631-655 | In every run over both packages' tables the theme version a published page names exists, with the CSS it had when the page was published. |
| Publishing.AlwaysATheme | internal/navigation/sqlstore.go:631-640 | From a usable default on, a publication finds a theme in every state of every such run. |
| ThemeRuns.InstallWithinQuota | internal/themes/install.go:49-66 | An install gives only its owner a theme, and only within the quota. |
| ThemeRuns.QuotaHolds | internal/themes/install.go:49-66 | An owner within the quota stays within it in every run of transactions. |
| ThemeSteps.UpsertedKillSwitch | internal/themes/store.go:134-152 | A re-import changes no version's status and never makes a disabled version current. |
| ThemeSteps.DeletedRows | internal/themes/install.go:179-190 | Deleting unreferenced private themes with their versions and requests keeps every invariant. |
| CssSelectors.ValidateSelector | internal/themes/cssselector.go:29-84 | The index loop with its skips and resets accepts exactly what the turn-by-turn definition accepts. |
| CssSelectors.ValidateAttributeSelector | internal/themes/cssselector.go:87-126 | Where the attribute selector ends and what it is judged by its last value. |
| CssSelectors.SplitSelectorList | internal/themes/csscompile.go:176-198 | Cuts at every comma of depth 0. |
| CssSelectors.LeadingRootReference | internal/themes/csscompile.go:148-174 | Counts the tokens of the root reference that the selector begins with; 0 exactly when it begins with none. |
| CssSelectors.TrimWhitespaceTokens | internal/themes/csscompile.go:200-209 | Drops leading and trailing space tokens, all of them and only them. |
| CssCompile.Selector | internal/themes/csscompile.go:118-143 | Every selector of the list is rewritten on its own, into one that selects just what it selects under the theme root. |
| CssConfinement.AcceptedIsSafe | internal/themes/cssselector.go:10-20 | An accepted list whose commas all separate selectors, with one value per attribute selector and no leading sibling combinator, compiles to selectors that leave the root downwards. |
| CssConfinement.ScopingIsSound | internal/themes/csscompile.go:132-143 | In every document whatever such a list selects is the theme root or below it. |
| CssConfinement.AcceptedRefuses | internal/themes/cssselector.go:29-126 | Outside attribute selectors an accepted list has no class, no html or body, no nesting and no namespace; its attribute selectors are not about class or the host's own attributes, and name registered hooks only. |
| CssExactness.SoundIffSafe | internal/themes/csscompile.go:132-143 | One rewritten selector is confined in every document if and only if its first combinator goes down. |
| CssExactness.ScopingIsExact | internal/themes/csscompile.go:137-145 | With no root reference the compiled selector selects exactly what the source selects by a chain strictly below the root. |
| CssCompile.RerootingIsExact | internal/themes/csscompile.go:137-142 | With a root reference the compiled selector selects exactly what the source selects when the reference stands for the theme root: the rest of its compound is judged on the root, and what follows keeps its combinators. |
| CssCompile.ScopeOne | internal/themes/csscompile.go:137-145 | In every document the written selector selects exactly what the source selects from the root, or strictly below it if the source has no root reference. |
| CssExactness.SplitAtComma | internal/themes/csscompile.go:176-198 | The list is cut at every comma at depth 0, whatever stands before and after it. |
| CssExactness.LeadingSiblingEscapes | internal/themes/cssselector.go:53-57 | An accepted `+a` compiles to a sibling of the root. |
| CssExactness.NestedCommaEscapes | internal/themes/cssselector.go:38-39 | A comma inside a function makes the validator forget the root: `:root:is(a,a)+a` is accepted and escapes. |
| CssExactness.SecondValueEscapes | internal/themes/csscompile.go:165-170 | Validator and rewriter disagree on an attribute selector with two values. |
| Restore.Instance.ApplyPendingRestore | internal/maintenance/backup.go:273-322 | Fails exactly for a fault it meets and then leaves every live component as before; otherwise every staged component is live and can be undone. |
| Restore.FaultyIs | internal/maintenance/backup.go:273-322 | It fails exactly when one of the calls it makes on that disk fails. |
| Restore.Instance.Rollback | internal/maintenance/backup.go:338-354 | Gives back exactly the live components of before. |
| Restore.Instance.Commit | internal/maintenance/backup.go:326-336 | Discards the kept copies and nothing live. |
| Restore.CrashAndRerun | internal/maintenance/backup.go:273-322 | A crash anywhere in an undisturbed run and a rerun end with the live contents of an uninterrupted run. |
| Restore.RollbackAfterRerun | internal/maintenance/backup.go:338-354 | After a crash anywhere, a rerun and a rollback the live files are those of the crash, and the original ones if and only if no staged component was between its renames and those swapped equal what they replaced. |
| Restore.RollbackAfterRerunLoses | internal/maintenance/backup.go:288-311 | A database staged with assets: one crash point ends without a database, the next with the new database beside the old assets. |
| Idempotency.Service.Begin | internal/idempotency/service.go:43-93 | Without a live record the caller gets a lease of 24 hours; with one, another caller or request is a conflict, the same one is in progress while open and afterwards gets what was stored. |
| Idempotency.Service.Complete | internal/idempotency/service.go:95-115 | Stores the response exactly if an open record of that slot, actor and request exists. |
| Idempotency.Service.Abort | internal/idempotency/service.go:117-128 | Removes the open record of that slot, actor and request, whoever holds its lease. |
| Idempotency.GrantsSeparated | internal/idempotency/service.go:43-93 | If holders settle before expiry, two grants of one slot are separated by an abort or an expiry. |
| Idempotency.ReplaysExactly | internal/idempotency/service.go:43-93 | Until expiry a completed slot replays exactly what was stored to the same caller and request and refuses all others. |
| Idempotency.AbortTakesAnother | internal/idempotency/service.go:117-128 | An abort removes another holder's record if and only if that one is open for the same slot, actor and request. |
| Idempotency.CompleteAnswersForAnother | internal/idempotency/service.go:95-115 | A completion writes another holder's record under the same condition, and repeats are then answered with the wrong response. |
| Idempotency.LateAbortBreaksExclusion | internal/idempotency/service.go:117-128 | A run with one late abort in which two open leases of one slot are in force. |
| Idempotency.ImportedOncePerKey | internal/dataexchange/service.go:287-319 | An import key takes effect at most once per lease, and repeats answer with the response of the import that took effect. |
| Idempotency.RepeatsAreAnswered | internal/dataexchange/service.go:287-319 | Until the lease of an import that took effect runs out, the same caller and request are answered with its response, any other with a clash, and nothing is applied. |
| RateLimit.Limiter.Allow | internal/httpapi/rate_limit.go:76-114 | Answer and count follow from the live entry; at most one live entry is sacrificed, only by a table full of live keys; the table never exceeds its bound. |
| RateLimit.SweepInvisible | internal/httpapi/rate_limit.go:81-87 | Sweeping expired entries changes no answer, then or later. |
| RateLimit.AtMostTwice | internal/httpapi/rate_limit.go:76-114 | At most twice the limit in any half-open interval of one window's length, in every run that spares the key's live entry. |
| RateLimit.RefusedOnlyWhenFull | internal/httpapi/rate_limit.go:76-114 | A call is refused only after as many of its key as the limit were admitted within the last window, in every run; waiting as long as told is enough to be admitted. |
| Throttle.LoginThrottle.Fail | internal/auth/throttle.go:63-81 | The count goes on or, after an idle spell, begins again; the lock of that count runs from now; the bound on keys holds. |
| Throttle.EvictKeepsLocks | internal/auth/throttle.go:92-101 | Eviction drops a record exactly when it is idle and its lock is over, so a running lock stays. |
| Throttle.LockFor | internal/auth/throttle.go:73-79 | No lock before the fifth failure, then one, two, four and eight minutes, and fifteen from the ninth on. |
| Throttle.LockDoubles | internal/auth/throttle.go:73-79 | From the fifth failure on each lock is twice the one before, or fifteen minutes if that is less. |
| Throttle.WaitsOutTheLock | internal/auth/service.go:197-216 | The next attempt let through comes at least the lock of the recorded count later, eviction or not. |
| Throttle.KthFailureLocks | internal/auth/throttle.go:63-81 | Without an idle gap the record counts every failure, so the attempt after the k-th comes at least 1, 2, 4, 8 or 15 minutes later for k = 5, 6, 7, 8 or more. |
| Throttle.SixFailuresPause | internal/auth/service.go:197-216 | Six consecutive failures let through contain a gap of at least the base lock. |
| Throttle.FailSeenByAccounts | internal/auth/throttle.go:63-81 | Below capacity the shared table shows each account what its own run says. |

## Left out

- Importer.LoadCategoryMap: `strings.ToLower` is any fold that identifies what folding ASCII letters identifies; nothing more about Unicode case is used.
- Bookmarks.ParseBookmarks: the signature that excuses a file without links is looked for with ASCII folding; `%06d` source ids are an opaque numbering.
- ImportPreview.BuildPreview: URL cleaning and host names are parameters; the text of a site's error is not kept.
- NavigationStore.Store.Publish: approved subdomains, layout sections, page settings and SEO fields inside the snapshot payload, and ETags are not modelled; the theme version is a parameter here and `ThemeStore.Store.PublishWithTheme` models how it is chosen.
- ThemeStore.Store.InstallPrivate: source URLs, manifest display fields and assets ride along in the source and are not modelled; compilation is a parameter.
- Restore.Instance.ApplyPendingRestore: the compensating calls are taken to succeed; removing a kept copy is one step; `-wal` and `-shm` files are not modelled.
- CssConfinement.ScopingIsSound: starts from the parser's tokens; function arguments are part of an uninterpreted compound, so selectors nested in `:is()` or `:has()` are covered as conditions on the element, not read as selectors of their own.
- CssCompile.ScopeOne: a last identifier that ends in an escaped space, which trimming the joined text would cut, is not told apart; a selector of comments only, or one led by a combinator, is rewritten but not compared.
- NavigationLaws.PublishedAnswers: whether the owner's account is active is not modelled.
- RateLimit.Limiter.Allow: the operation counter is unbounded instead of 64-bit.
- NavigationStore.Store.ClearBackground: parsing of the settings text is a parameter.
- Sites and categories carry no timestamps; `HasUnpublishedChanges` compares the publication row's own times.
- Registration of users and pages, and the bootstrap write of the system page title: runs start after them.
- Errors raised after a transaction has committed, such as the reload at the end of Publish.
- Field validation in the HTTP layer, pagination, audit records, system settings, sessions, OAuth, mail, object storage, link checks, SEO and analytics: thin or branch-local.
- The CSS lexer, value-level CSS checks, inline SVG checks, the hook catalogue and package archives.
- SQLite itself: tables are maps, unique indexes and foreign keys of the migrations are invariants.
