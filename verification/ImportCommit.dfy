/** internal/dataexchange/service.go: Commit, one transaction over the draft,
    the preview token and the idempotency record. */
module ImportCommit {
  import opened Prelude
  import opened Drafts
  import opened Tables
  import opened NavigationModel
  import opened NavigationSteps
  import opened NavigationRuns
  import opened NavigationStore
  import opened Text
  import opened ImportModel
  import opened ImportPreview
  import opened Importer
  import opened Idempotency

  datatype CommitInput = CommitInput(token: string, replace: bool, selectedIds: seq<string>, expected: int,
      sitesEnabled: Option<bool>)

  datatype CommitResult = CommitResult(counts: ImportResult, revision: nat)

  datatype CommitError = Invalid | Reused | Nav(error: NavError) | Expired | Full

  datatype PreviewRow = PreviewRow(page: Id, user: string, categories: seq<ImportCategory>, expires: int)

  predicate Blank(s: string) {
    Trim(s) == ""
  }

  ghost predicate ValidInput(key: string, input: CommitInput) {
    && 16 <= |key| <= 128 && 16 <= |input.token| <= 256 && input.expected >= 0
    && (forall i :: 0 <= i < |input.selectedIds| ==> !Blank(input.selectedIds[i]))
    && Distinct(input.selectedIds)
  }

  method ValidateCommit(key: string, input: CommitInput) returns (ok: bool)
    ensures ok <==> ValidInput(key, input)
  {
    if |key| < 16 || |key| > 128 || |input.token| < 16 || |input.token| > 256 || input.expected < 0 { return false; }
    var seen: set<string> := {};
    for i := 0 to |input.selectedIds|
      invariant seen == set j | 0 <= j < i :: input.selectedIds[j]
      invariant forall j :: 0 <= j < i ==> !Blank(input.selectedIds[j])
      invariant forall j, k :: 0 <= j < k < i ==> input.selectedIds[j] != input.selectedIds[k]
    {
      var id := input.selectedIds[i];
      if Blank(id) || id in seen { return false; }
      seen := seen + {id};
    }
    return true;
  }

  /** The optional override of every selected site's enabled flag. */
  function Overridden(items: seq<Selected>, enabled: Option<bool>): (q: seq<Selected>)
    ensures |q| == |items|
  {
    if enabled == None then items
    else seq(|items|, i requires 0 <= i < |items| => items[i].(site := items[i].site.(enabled := enabled.value)))
  }

  /** The override reaches every selected site and nothing but its flag. */
  lemma OverriddenMeans(items: seq<Selected>, enabled: Option<bool>, i: nat)
    requires i < |items|
    ensures var was, now := items[i], Overridden(items, enabled)[i];
            && now == was.(site := was.site.(enabled := now.site.enabled))
            && (enabled == None ==> now == was) && (enabled.Some? ==> now.site.enabled == enabled.value)
  {}

  /** The reference import of a page. */
  function ImportOf(db: Db, p: Id, input: CommitInput, items: seq<Selected>,
                    ids: seq<Fresh>): Result<Tally, ImportError>
    requires |items| == |ids|
  {
    ImportAll(Start(Base(Content(db.categories, db.sites, p), input.replace)), Overridden(items, input.sitesEnabled),
        ids,
              db.maxCategories, db.maxSites)
  }

  function Changes(input: CommitInput, t: Tally): bool {
    input.replace || t.sitesCreated > 0
  }

  /** A successful import against `db`: the draft is the reference import's, at the
      next revision if and only if something may have changed. */
  ghost predicate Imported(db: Db, db': Db, p: Id, input: CommitInput, items: seq<Selected>, ids: seq<Fresh>,
                           r: CommitResult)
    requires p in db.pages && |items| == |ids|
  {
    var m := ImportOf(db, p, input, items, ids);
    && m.Ok?
    && r.counts == Counts(m.value)
    && (Changes(input, m.value)
        ==> NextDraft(db, db', p, WithContent(DraftAt(db, p), m.value.draft)) && r.revision == db.pages[p].revision + 1)
    && (!Changes(input, m.value)
        ==> db' == db && m.value.draft == Content(db.categories, db.sites, p) && r.revision == db.pages[p].revision)
  }

  lemma ValidRows(db: Db)
    requires Valid(db)
    ensures RowsValid(db.categories, db.sites, db.pages.Keys)
  {}

  lemma ImportStep(db: Db, cats: CategoryTable, sites: SiteTable, p: Id, content: Draft)
    requires Valid(db) && p in db.pages
    requires RowsValid(cats, sites, db.pages.Keys) && Content(cats, sites, p) == content
    requires OtherCategories(db.categories, cats, p) && OtherSites(db.sites, sites, p)
    ensures var db' := db.(categories := cats, sites := sites, pages := Touch(db.pages, p));
            NextDraft(db, db', p, WithContent(DraftAt(db, p), content)) && Valid(db')
  {
    hide Valid, RowsValid, NextDraft, OtherCategories, OtherSites;
    Finish(db, db.(categories := cats, sites := sites, pages := Touch(db.pages, p)), p,
        WithContent(DraftAt(db, p), content));
  }

  predicate PreviewLive(previews: map<string, PreviewRow>, p: Id, user: string, token: string, now: int) {
    token in previews && previews[token].page == p && previews[token].user == user && previews[token].expires > now
  }

  /** Every selected id is in the preview. */
  ghost predicate Selectable(categories: seq<ImportCategory>, ids: seq<string>) {
    forall i :: 0 <= i < |ids| ==> ItemWith(Flat(categories), ids[i]).Some?
  }

  /** What settles a commit before anything is looked at in the preview. */
  ghost function Verdict(db: Db, previews: map<string, PreviewRow>, records: Records<CommitResult>, scope: Id -> string,
                         actor: Actor,
                         user: string, p: Id, key: string, hash: Hash, input: CommitInput,
                             now: int): Option<Result<CommitResult, CommitError>> {
    var seen := Lookup(records, Slot(scope(p), key), user, hash, now);
    var access := Access(db.pages, actor, p);
    if !ValidInput(key, input) then Some(Err(Invalid))
    else if seen.Clash? then Some(Err(Reused))
    else if seen.Cached? then Some(Ok(seen.response))
    else if access.Some? then Some(Err(Nav(access.value)))
    else if db.pages[p].revision != input.expected then Some(Err(Nav(Precondition)))
    else if !PreviewLive(previews, p, user, input.token, now) then Some(Err(Expired))
    else None
  }

  /** A commit past every check fails only for an unknown id or a full page. */
  ghost predicate Fails(db: Db, p: Id, categories: seq<ImportCategory>, input: CommitInput, ids: seq<Fresh>,
                        items: seq<Selected>, e: CommitError) {
    match e
    case Invalid => !Selectable(categories, input.selectedIds)
    case Full =>
      |items| == |ids| && Picked(Flat(categories), input.selectedIds, items)
          && ImportOf(db, p, input, items, ids) == Err(Limit)
    case _ => false
  }

  lemma NotSelectable(categories: seq<ImportCategory>, ids: seq<string>)
    requires exists i :: 0 <= i < |ids| && ItemWith(Flat(categories), ids[i]) == None
    ensures !Selectable(categories, ids)
  {}

  lemma PickedSize(items: seq<Selected>, ids: seq<string>, selected: seq<Selected>)
    requires Picked(items, ids, selected)
    ensures |selected| == |ids|
  {}

  class Exchange {
    const store: Store
    const scope: Id -> string
    var previews: map<string, PreviewRow>
    var records: Records<CommitResult>

    constructor (store: Store, scope: Id -> string)
      ensures this.store == store && this.scope == scope && previews == map[] && records == map[]
    {
      this.store, this.scope := store, scope;
      previews, records := map[], map[];
    }

    method Commit(actor: Actor, user: string, p: Id, key: string, hash: Hash, input: CommitInput, now: int,
                  ids: seq<Fresh>)
      returns (r: Result<CommitResult, CommitError>, ghost items: seq<Selected>)
      requires store.Ok()
      requires |ids| == |input.selectedIds| && Drawn(store.categories, store.sites, ids)
      modifies this, store
      ensures store.Ok() && Step(old(store.State()), store.State())
      ensures r.Err? ==> store.State() == old(store.State()) && previews == old(previews) && records == old(records)
      ensures var verdict := Verdict(old(store.State()), old(previews), old(records), scope, actor, user, p, key, hash,
              input, now);
              && (verdict.Some? ==> r == verdict.value)
              && (verdict.None? && r.Err?
                  ==> Fails(old(store.State()), p, old(previews)[input.token].categories, input, ids, items, r.error))
              && (verdict.Some?
                  ==> store.State() == old(store.State()) && previews == old(previews) && records == old(records))
              && (verdict.None? && r.Ok? ==>
                    && p in old(store.pages) && |items| == |ids|
                    && Picked(Flat(old(previews)[input.token].categories), input.selectedIds, items)
                    && Imported(old(store.State()), store.State(), p, input, items, ids, r.value)
                    && previews == old(previews) - {input.token}
                    && records == AfterImport(old(records), Slot(scope(p), key), user, hash, now, r.value))
      // a repeat within the lease gets the stored result, another caller or request none, and neither changes anything
      ensures ValidInput(key, input) && Slot(scope(p), key) in old(records)
              && now < old(records)[Slot(scope(p), key)].expires
              ==> var row := old(records)[Slot(scope(p), key)];
                  && r == (if row.actor == user && row.hash == hash && row.response.Some? then Ok(row.response.value)
                           else Err(Reused))
                  && store.State() == old(store.State()) && previews == old(previews) && records == old(records)
      // a result that was not stored yet is stored for the length of a lease, and its token is used up
      ensures r.Ok? && !(Slot(scope(p), key) in old(records) && now < old(records)[Slot(scope(p), key)].expires)
              ==> && records == old(records)[Slot(scope(p), key) := Row(user, hash, Some(r.value), now + LEASE)]
                  && previews == old(previews) - {input.token}
    {
      hide Valid, NextDraft, DraftAt, RowsValid, Content, Drawn, ValidInput, Picked, Flat, ImportAll, Base,
           OtherCategories, OtherSites, Selectable, Step;
      items := [];
      Idle(store.State());
      var ok := ValidateCommit(key, input);
      if !ok { return Err(Invalid), items; }
      var slot := Slot(scope(p), key);
      var found := records;
      if slot in found && found[slot].expires <= now {
        found := found - {slot};
      }
      if slot in found {
        var stored := found[slot];
        if stored.actor != user || stored.hash != hash || stored.response == None { return Err(Reused), items; }
        return Ok(stored.response.value), items;
      }
      var access := Access(store.pages, actor, p);
      if access.Some? { return Err(Nav(access.value)), items; }
      var revision := store.pages[p].revision;
      if revision != input.expected { return Err(Nav(Precondition)), items; }
      if !PreviewLive(previews, p, user, input.token, now) { return Err(Expired), items; }
      var selection := SelectSites(previews[input.token].categories, input.selectedIds);
      if selection.None? {
        NotSelectable(previews[input.token].categories, input.selectedIds);
        return Err(Invalid), items;
      }
      items := selection.value;
      PickedSize(Flat(previews[input.token].categories), input.selectedIds, items);
      var applied := ApplySelected(p, input, selection.value, ids);
      if applied.Err? {
        assert applied.error == Limit;
        return Err(Full), items;
      }
      previews := previews - {input.token};
      records := found[slot := Row(user, hash, Some(applied.value), now + LEASE)];
      return Ok(applied.value), items;
    }

    method ApplySelected(p: Id, input: CommitInput, items: seq<Selected>, ids: seq<Fresh>)
      returns (r: Result<CommitResult, ImportError>)
      requires store.Ok() && p in store.pages
      requires |ids| == |items| && Drawn(store.categories, store.sites, ids)
      modifies store
      ensures store.Ok() && Step(old(store.State()), store.State())
      ensures r.Err? ==>
                && store.State() == old(store.State())
                && ImportOf(old(store.State()), p, input, items, ids) == Err(r.error)
      ensures r.Ok? ==> Imported(old(store.State()), store.State(), p, input, items, ids, r.value)
    {
      hide Valid, NextDraft, RowsValid, DraftAt, Content, Drawn, ImportAll, Base, OtherCategories, OtherSites, Cleared,
           WithContent, Step;
      ghost var db := store.State();
      Idle(db);
      ValidRows(db);
      var applied, cats, sites, changed :=
        ApplyImport(store.categories, store.sites, store.pages.Keys, p, input.replace,
                    Overridden(items, input.sitesEnabled), ids, store.maxCategories, store.maxSites);
      if applied.Err? { return Err(applied.error); }
      var revision := store.pages[p].revision;
      if changed {
        ImportStep(db, cats, sites, p, Content(cats, sites, p));
        store.categories := cats;
        store.sites := sites;
        store.TouchDraft(p);
        revision := revision + 1;
      }
      ImportIsStep(db, store.State(), p, input, items, ids, CommitResult(applied.value, revision));
      return Ok(CommitResult(applied.value, revision));
    }
  }

  // ------------------------------------------------- what a commit has done

  lemma ContentCoherent(cats: CategoryTable, sites: SiteTable, p: Id, replace: bool, ids: seq<Fresh>)
    requires Drawn(cats, sites, ids)
    ensures var d := Base(Content(cats, sites, p), replace); Coherent(d) && FreshFor(d, ids)
  {
    var d := Content(cats, sites, p);
    CategoryListElems(cats, p);
    KeptIn(d.order, Indelible(d));
  }

  /** The three site counters add up to the selection, whatever was selected. */
  lemma CountersAddUp(db: Db, db': Db, p: Id, input: CommitInput, items: seq<Selected>, ids: seq<Fresh>,
                      r: CommitResult)
    requires p in db.pages && |items| == |ids| && Drawn(db.categories, db.sites, ids)
    requires Imported(db, db', p, input, items, ids, r)
    ensures r.counts.sitesCreated + r.counts.duplicates + r.counts.invalid == |items|
  {
    hide Content, Base, NextDraft, WithContent;
    ContentCoherent(db.categories, db.sites, p, input.replace, ids);
    ImportOutcome(Start(Base(Content(db.categories, db.sites, p), input.replace)),
        Overridden(items, input.sitesEnabled), ids,
                  db.maxCategories, db.maxSites);
  }

  /** A merge only ever adds at the end of a list, and never past the limits. */
  lemma MergeOnlyGrows(db: Db, db': Db, p: Id, input: CommitInput, items: seq<Selected>, ids: seq<Fresh>,
                       r: CommitResult)
    requires p in db.pages && |items| == |ids| && Drawn(db.categories, db.sites, ids) && !input.replace
    requires Imported(db, db', p, input, items, ids, r)
    ensures p in db'.pages && Grown(DraftAt(db, p), DraftAt(db', p), db.maxCategories, db.maxSites)
  {
    hide Content, Grown, ImportAll, NextDraft;
    ContentCoherent(db.categories, db.sites, p, input.replace, ids);
    ImportOutcome(Start(Base(Content(db.categories, db.sites, p), input.replace)),
        Overridden(items, input.sitesEnabled), ids,
                  db.maxCategories, db.maxSites);
    GrownFields(db, db', p, Content(db.categories, db.sites, p), input, items, ids, r);
  }

  lemma GrownFields(db: Db, db': Db, p: Id, content: Draft, input: CommitInput, items: seq<Selected>, ids: seq<Fresh>,
                    r: CommitResult)
    requires p in db.pages && |items| == |ids| && !input.replace && content == Content(db.categories, db.sites, p)
    requires Imported(db, db', p, input, items, ids, r)
    requires var m := ImportOf(db, p, input, items, ids);
             m.Ok? && Grown(content, m.value.draft, db.maxCategories, db.maxSites)
    ensures p in db'.pages && Grown(DraftAt(db, p), DraftAt(db', p), db.maxCategories, db.maxSites)
  {
    hide ImportAll;
  }

  /** An import is one of the transactions that runs of the tables consist of. */
  lemma ImportIsStep(db: Db, db': Db, p: Id, input: CommitInput, items: seq<Selected>, ids: seq<Fresh>, r: CommitResult)
    requires Valid(db') && p in db.pages && |items| == |ids| && Imported(db, db', p, input, items, ids, r)
    ensures Step(db, db')
  {
    hide Valid, NextDraft, ImportAll, Content, DraftAt, RowsValid, WithContent, Takes, Step, Base;
    if Changes(input, ImportOf(db, p, input, items, ids).value) {
      ImportedRows(db, db', p, WithContent(DraftAt(db, p), ImportOf(db, p, input, items, ids).value.draft));
      SameImport(db, db', p, input.replace, Overridden(items, input.sitesEnabled), ids);
    } else {
      Idle(db);
    }
  }

  lemma ImportedRows(db: Db, db': Db, p: Id, d: Draft)
    requires Valid(db') && NextDraft(db, db', p, d)
    ensures RowsValid(db'.categories, db'.sites, db.pages.Keys)
  {
    NextDraftKeeps(db, db', p, d);
    hide NextDraft;
    ValidRows(db');
  }

  lemma SameImport(db: Db, db': Db, p: Id, replace: bool, items: seq<Selected>, ids: seq<Fresh>)
    requires p in db.pages && |ids| == |items| && Imports(db, db', p, replace, items, ids)
    ensures Step(db, db')
  {
    hide Imports, Step;
    IsStep(db, p, Import(replace, items, ids), db');
  }

  /** A commit is one step of the draft history: no edit without a revision. */
  lemma ImportIsCommitted(db: Db, db': Db, p: Id, input: CommitInput, items: seq<Selected>, ids: seq<Fresh>,
                          r: CommitResult)
    requires p in db.pages && |items| == |ids| && Imported(db, db', p, input, items, ids, r)
    ensures Committed(db, db')
  {
    hide NextDraft, Committed, ImportAll, Content;
    var m := ImportOf(db, p, input, items, ids);
    if Changes(input, m.value) {
      NextDraftCommitted(db, db', p, WithContent(DraftAt(db, p), m.value.draft));
    } else {
      NothingCommitted(db);
    }
  }

  /** Committing the same merge again, from another preview token or key, creates
      nothing and leaves the draft and its revision alone. */
  lemma RepeatedMergeIsIdle(db: Db, db1: Db, db2: Db, p: Id, input: CommitInput, again: CommitInput,
                            items: seq<Selected>,
                            ids: seq<Fresh>, ids2: seq<Fresh>, r1: CommitResult, r2: CommitResult)
    requires p in db.pages && p in db1.pages && |items| == |ids| == |ids2| && Drawn(db.categories, db.sites, ids)
    requires !input.replace && !again.replace && again.sitesEnabled == input.sitesEnabled
    requires db1.maxCategories == db.maxCategories && db1.maxSites == db.maxSites
    requires Imported(db, db1, p, input, items, ids, r1) && Imported(db1, db2, p, again, items, ids2, r2)
    ensures db2 == db1 && r2.revision == r1.revision && r2.counts.sitesCreated == 0 && r2.counts.categoriesCreated == 0
  {
    hide Content, ImportAll, Coherent, FreshFor, Drawn;
    ContentCoherent(db.categories, db.sites, p, false, ids);
    RevisionAfter(db, db1, p, input, items, ids, r1);
    RepeatedMergeCreatesNothing(Content(db.categories, db.sites, p), Overridden(items, input.sitesEnabled), ids, ids2,
        db.maxCategories, db.maxSites);
  }

  lemma RevisionAfter(db: Db, db': Db, p: Id, input: CommitInput, items: seq<Selected>, ids: seq<Fresh>,
                      r: CommitResult)
    requires p in db.pages && |items| == |ids| && !input.replace && Imported(db, db', p, input, items, ids, r)
    ensures var m := ImportOf(db, p, input, items, ids);
            p in db'.pages && r.revision == db'.pages[p].revision && m.Ok?
                && Content(db'.categories, db'.sites, p) == m.value.draft
  {
    hide ImportAll;
    PageFieldsKept(Start(Content(db.categories, db.sites, p)), Overridden(items, input.sitesEnabled), ids,
        db.maxCategories, db.maxSites);
  }

  /** An import never touches title, description or settings. */
  lemma {:induction false} PageFieldsKept(t: Tally, items: seq<Selected>, ids: seq<Fresh>, maxCategories: nat,
                                          maxSites: nat)
    requires |ids| == |items|
    ensures var r := ImportAll(t, items, ids, maxCategories, maxSites);
            r.Ok? ==> WithContent(t.draft, r.value.draft) == r.value.draft
  {
    if items != [] {
      PageFieldsKept(t, items[..|items| - 1], ids[..|items| - 1], maxCategories, maxSites);
    }
  }

  lemma {:induction false} OverriddenMarks(items: seq<Selected>, enabled: Option<bool>)
    ensures CountDuplicates(Overridden(items, enabled)) == CountDuplicates(items)
    ensures CountInvalid(Overridden(items, enabled)) == CountInvalid(items)
  {
    if items != [] {
      var n := |items| - 1;
      OverriddenMarks(items[..n], enabled);
      assert Overridden(items, enabled)[..n] == Overridden(items[..n], enabled);
    }
  }

  lemma OverriddenJudged(existing: set<string>, items: seq<Selected>, enabled: Option<bool>)
    requires Judged(existing, items)
    ensures Judged(existing, Overridden(items, enabled))
  {
    var q := Overridden(items, enabled);
    forall k | 0 <= k < |q|
      ensures q[k].site.duplicate <==> q[k].site.valid && q[k].site.url in existing + ValidUrls(q[..k])
    {
      assert ValidUrls(q[..k]) == ValidUrls(items[..k]) by {
        assert forall i :: 0 <= i < k
                ==> q[..k][i].site.url == items[..k][i].site.url && q[..k][i].site.valid == items[..k][i].site.valid;
      }
    }
  }

  /** Selecting a whole preview whose page URLs have not changed since: the commit
      reports the totals the preview showed. */
  lemma CommitMatchesPreview(db: Db, db': Db, p: Id, input: CommitInput, categories: seq<ImportCategory>,
                             existing: set<string>, totals: Totals,
                             items: seq<Selected>, ids: seq<Fresh>, r: CommitResult)
    requires p in db.pages && |items| == |ids| && Drawn(db.categories, db.sites, ids) && !input.replace
    requires Judged(existing, Flat(categories)) && totals == TotalsOf(|categories|, Flat(categories))
    requires existing == Urls(Content(db.categories, db.sites, p))
    requires Distinct(SourceIds(Flat(categories))) && input.selectedIds == SourceIds(Flat(categories))
    requires Picked(Flat(categories), input.selectedIds, items)
    requires Imported(db, db', p, input, items, ids, r)
    ensures r.counts.duplicates == totals.duplicates && r.counts.invalid == totals.invalid
    ensures r.counts.sitesCreated == totals.sites - totals.duplicates - totals.invalid
  {
    hide Content, ImportAll, Coherent, FreshFor, Drawn, Judged, Flat, Picked, Distinct, Urls, NextDraft, WithContent,
         CountDuplicates, CountInvalid, CountTruncated;
    SelectAll(Flat(categories), items);
    ContentCoherent(db.categories, db.sites, p, false, ids);
    OverriddenJudged(existing, items, input.sitesEnabled);
    OverriddenMarks(items, input.sitesEnabled);
    MarksPredict(Content(db.categories, db.sites, p), Overridden(items, input.sitesEnabled), ids, db.maxCategories,
        db.maxSites);
    CountersAddUp(db, db', p, input, items, ids, r);
  }
}
