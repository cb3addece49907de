/** internal/navigation/sqlstore.go: every write is one transaction over the
    tables; an error leaves them as they were. */
module NavigationStore {
  import opened Prelude
  import opened Ordering
  import opened Drafts
  import opened Tables
  import opened Renumbering
  import opened Projection
  import opened NavigationModel
  import opened NavigationSteps
  import opened PublicationSteps
  import opened NavigationRuns

  datatype DeleteMode = RejectIfNotEmpty | DeleteSites | MoveSites

  datatype SitePatch = SitePatch(
    category: Option<Id>, title: Option<string>, url: Option<string>, icon: Option<string>,
    description: Option<string>, enabled: Option<bool>)

  datatype CategoryPatch = CategoryPatch(name: Option<string>, icon: Option<string>, enabled: Option<bool>)

  function Pick<T>(patch: Option<T>, current: T): T {
    match patch
    case None => current
    case Some(v) => v
  }

  function PatchedSite(info: SiteInfo, patch: SitePatch): SiteInfo {
    SiteInfo(Pick(patch.title, info.title), Pick(patch.url, info.url), Pick(patch.icon, info.icon),
             Pick(patch.description, info.description), Pick(patch.enabled, info.enabled))
  }

  function PatchedCategory(info: CategoryInfo, patch: CategoryPatch): CategoryInfo {
    CategoryInfo(Pick(patch.name, info.name), Pick(patch.icon, info.icon), info.uncategorized,
        Pick(patch.enabled, info.enabled))
  }

  /** The edit of the draft that a site patch stands for. */
  ghost function SitePatchEdit(d: Draft, s: Id, from: Id, patch: SitePatch): Draft
    requires s in d.sites
    requires patch.category.Some? ==> patch.category.value in d.lists
  {
    var moved := if patch.category.Some? && patch.category.value != from then MoveSite(d, s, patch.category.value)
        else d;
    EditSite(moved, s, PatchedSite(d.sites[s], patch))
  }

  method ValidateCompleteOrder(categories: set<Id>, sites: set<Id>, order: seq<CategoryOrder>) returns (ok: bool)
    ensures ok <==> CompleteOrder(categories, sites, order)
  {
    if |categories| != |order| {
      CompleteOrderSize(categories, sites, order);
      return false;
    }
    var seenCategories: set<Id> := {};
    var seenSites: set<Id> := {};
    for i := 0 to |order|
      invariant Seen(order[..i], categories, sites, seenCategories, seenSites)
    {
      assert order[..i + 1][..i] == order[..i];
      if order[i].id !in categories || order[i].id in seenCategories {
        return false;
      }
      var q := order[i].siteIds;
      ghost var before := seenSites;
      for j := 0 to |q|
        invariant seenSites == before + Elems(q[..j]) && seenSites <= sites
        invariant NoDup(q[..j]) && before !! Elems(q[..j])
      {
        if q[j] !in sites || q[j] in seenSites {
          BadSite(order, i, j, categories, sites, before);
          return false;
        }
        seenSites := seenSites + {q[j]};
        assert q[..j + 1] == q[..j] + [q[j]];
        assert Elems(q[..j + 1]) == Elems(q[..j]) + {q[j]};
      }
      assert q[..|q|] == q;
      SeenStep(order[..i + 1], categories, sites, seenCategories, before);
      seenCategories := seenCategories + {order[i].id};
    }
    assert order[..|order|] == order;
    SeenAll(order, categories, sites, seenCategories, seenSites);
    ok := |seenSites| == |sites|;
  }

  /** What the two seen-sets mean after a prefix of the order. */
  ghost predicate Seen(order: seq<CategoryOrder>, categories: set<Id>, sites: set<Id>, seenCategories: set<Id>,
                       seenSites: set<Id>) {
    && NoDup(CategoryIds(order)) && Elems(CategoryIds(order)) == seenCategories <= categories
    && NoDup(AllSiteIds(order)) && Elems(AllSiteIds(order)) == seenSites <= sites
  }

  lemma NoDupConcat(a: seq<Id>, b: seq<Id>)
    ensures NoDup(a + b) <==> NoDup(a) && NoDup(b) && Elems(a) !! Elems(b)
    ensures Elems(a + b) == Elems(a) + Elems(b)
  {
    var all := a + b;
    assert forall x :: x in all <==> x in a || x in b;
    if NoDup(all) {
      assert forall i :: 0 <= i < |a| ==> all[i] == a[i];
      assert forall j :: 0 <= j < |b| ==> all[|a| + j] == b[j];
      forall i, j | 0 <= i < j < |b| ensures b[i] != b[j] {
        assert all[|a| + i] != all[|a| + j];
      }
      forall x | x in a ensures x !in b {
        var i :| 0 <= i < |a| && a[i] == x;
        forall j | 0 <= j < |b| ensures b[j] != x {
          assert all[i] != all[|a| + j];
        }
      }
    }
    if NoDup(a) && NoDup(b) && Elems(a) !! Elems(b) {
      forall i, j | 0 <= i < j < |all| ensures all[i] != all[j] {
        if i < |a| <= j {
          assert a[i] in Elems(a) && b[j - |a|] in Elems(b);
        }
      }
    }
  }

  lemma SeenStep(order: seq<CategoryOrder>, categories: set<Id>, sites: set<Id>, seenCategories: set<Id>,
                 seenSites: set<Id>)
    requires order != []
    requires var n := |order| - 1;
             Seen(order[..n], categories, sites, seenCategories, seenSites)
             && order[n].id in categories && order[n].id !in seenCategories
             && NoDup(order[n].siteIds) && seenSites !! Elems(order[n].siteIds) && Elems(order[n].siteIds) <= sites
    ensures var n := |order| - 1;
            Seen(order, categories, sites, seenCategories + {order[n].id}, seenSites + Elems(order[n].siteIds))
  {
    var n := |order| - 1;
    var front := order[..n];
    assert CategoryIds(order) == CategoryIds(front) + [order[n].id];
    assert Elems([order[n].id]) == {order[n].id};
    NoDupConcat(CategoryIds(front), [order[n].id]);
    NoDupConcat(AllSiteIds(front), order[n].siteIds);
  }

  lemma {:induction false} NoDupCard(q: seq<Id>)
    requires NoDup(q)
    ensures |Elems(q)| == |q|
  {
    if q != [] {
      var n := |q| - 1;
      assert q == q[..n] + [q[n]];
      NoDupCard(q[..n]);
      assert Elems(q) == Elems(q[..n]) + {q[n]};
    }
  }

  lemma SubsetSameSize(a: set<Id>, b: set<Id>)
    requires a <= b
    ensures |a| == |b| <==> a == b
  {
    assert b == a + (b - a);
    assert |b| == |a| + |b - a|;
  }

  lemma CompleteOrderSize(categories: set<Id>, sites: set<Id>, order: seq<CategoryOrder>)
    ensures CompleteOrder(categories, sites, order) ==> |categories| == |order|
  {
    if CompleteOrder(categories, sites, order) {
      NoDupCard(CategoryIds(order));
    }
  }

  lemma SeenAll(order: seq<CategoryOrder>, categories: set<Id>, sites: set<Id>, seenCategories: set<Id>,
                seenSites: set<Id>)
    requires Seen(order, categories, sites, seenCategories, seenSites) && |categories| == |order|
    ensures |seenSites| == |sites| <==> CompleteOrder(categories, sites, order)
  {
    NoDupCard(CategoryIds(order));
    SubsetSameSize(seenCategories, categories);
    SubsetSameSize(seenSites, sites);
  }

  lemma {:induction false} AllSiteIdsSplit(order: seq<CategoryOrder>, i: int)
    requires 0 <= i < |order|
    ensures exists rest :: AllSiteIds(order) == AllSiteIds(order[..i]) + order[i].siteIds + rest
  {
    var n := |order| - 1;
    if i == n {
      assert AllSiteIds(order) == AllSiteIds(order[..i]) + order[i].siteIds + [];
    } else {
      AllSiteIdsSplit(order[..n], i);
      assert order[..n][..i] == order[..i];
      var rest :| AllSiteIds(order[..n]) == AllSiteIds(order[..i]) + order[i].siteIds + rest;
      assert AllSiteIds(order) == AllSiteIds(order[..i]) + order[i].siteIds + (rest + order[n].siteIds);
    }
  }

  lemma BadSite(order: seq<CategoryOrder>, i: int, j: int, categories: set<Id>, sites: set<Id>, before: set<Id>)
    requires 0 <= i < |order| && 0 <= j < |order[i].siteIds|
    requires Elems(AllSiteIds(order[..i])) == before
    requires var s := order[i].siteIds[j]; s !in sites || s in before + Elems(order[i].siteIds[..j])
    ensures !CompleteOrder(categories, sites, order)
  {
    AllSiteIdsSplit(order, i);
    var front, q := AllSiteIds(order[..i]), order[i].siteIds;
    var rest :| AllSiteIds(order) == front + q + rest;
    var s := q[j];
    assert s in q;
    NoDupConcat(front + q, rest);
    NoDupConcat(front, q);
    assert s in Elems(AllSiteIds(order));
    if s in Elems(q[..j]) {
      var k :| 0 <= k < j && q[k] == s;
    }
  }

  class Store {
    var categories: CategoryTable
    var sites: SiteTable
    var pages: map<Id, PageRow>
    var publications: map<Id, PublicationRow>
    var snapshots: map<Id, Snapshot>
    var maxCategories: nat
    var maxSites: nat

    function State(): Db
      reads this
    {
      Db(categories, sites, pages, publications, snapshots, maxCategories, maxSites)
    }

    ghost predicate Ok()
      reads this
    {
      Valid(State())
    }

    /** touchDraft */
    method TouchDraft(p: Id)
      requires p in pages
      modifies this`pages
      ensures pages == Touch(old(pages), p)
    {
      pages := pages[p := pages[p].(revision := pages[p].revision + 1)];
    }

    /** normalizeCategoryOrder */
    method NormalizeCategoryOrder(p: Id)
      modifies this`categories
      ensures categories == NumberCategories(old(categories), CategoryListing(old(categories), p))
    {
      var ids := CategoryListing(categories, p);
      for index := 0 to |ids|
        invariant categories == NumberCategories(old(categories), ids[..index])
      {
        assert ids[..index + 1][..index] == ids[..index];
        if ids[index] in categories {
          categories := categories[ids[index] := categories[ids[index]].(sortOrder := index)];
        }
      }
      assert ids[..|ids|] == ids;
    }

    /** normalizeSiteOrder */
    method NormalizeSiteOrder(p: Id, c: Id)
      modifies this`sites
      ensures sites == NumberSites(old(sites), SiteListing(old(sites), p, c))
    {
      var ids := SiteListing(sites, p, c);
      for index := 0 to |ids|
        invariant sites == NumberSites(old(sites), ids[..index])
      {
        assert ids[..index + 1][..index] == ids[..index];
        if ids[index] in sites {
          sites := sites[ids[index] := sites[ids[index]].(sortOrder := index)];
        }
      }
      assert ids[..|ids|] == ids;
    }

    // ------------------------------------------------- single-row statements

    /** UPDATE of a page row with the next revision. */
    method PutFields(p: Id, title: string, description: string, settings: string)
      requires p in pages
      modifies this`pages
      ensures State() == FieldsPut(old(State()), p, title, description, settings)
    {
      var row := pages[p];
      pages := pages[p := row.(title := title, description := description, settings := settings,
          revision := row.revision + 1)];
    }

    method PutCategory(p: Id, c: Id, row: CategoryRow)
      requires p in pages
      modifies this`categories, this`pages
      ensures State() == CategoryPut(old(State()), p, c, row)
    {
      categories := categories[c := row];
      TouchDraft(p);
    }

    method PutSite(s: Id, row: SiteRow)
      requires row.page in pages
      modifies this`sites, this`pages
      ensures State() == SitePut(old(State()), s, row)
    {
      sites := sites[s := row];
      TouchDraft(row.page);
    }

    // ---------------------------------------------------------- page fields

    method UpdatePage(actor: Actor, p: Id, expected: int, title: Option<string>, description: Option<string>)
      returns (r: Result<(), NavError>)
      requires Ok()
      modifies this
      ensures Ok() && (r.Err? ==> State() == old(State())) && Step(old(State()), State())
      ensures r == match Access(old(pages), actor, p)
                   case Some(e) => Err(e)
                   case None => if old(pages)[p].revision != expected then Err(Precondition) else Result.Ok(())
      ensures r.Ok? ==> NextDraft(old(State()), State(), p,
                old(DraftAt(State(), p)).(title := Pick(title, old(pages)[p].title),
                    description := Pick(description, old(pages)[p].description)))
    {
      hide Valid, NextDraft, DraftAt, Committed, Step, NameFree, UrlFree, AddCategory, AddSite, DropSite, EditCategory;
      ValidFacts(State());
      Idle(State());
      var access := Access(pages, actor, p);
      if access.Some? { return Err(access.value); }
      var row := pages[p];
      if row.revision != expected { return Err(Precondition); }
      hide FieldsPut;
      DraftFields(State(), p);
      WroteFields(State(), p, Pick(title, row.title), Pick(description, row.description), row.settings);
      PutFields(p, Pick(title, row.title), Pick(description, row.description), row.settings);
      return Result.Ok(());
    }

    /** `clamp` fits the layout to the chosen theme, before the transaction. */
    method ReplaceSettings(actor: Actor, p: Id, expected: int, settings: string,
                           clamp: string -> Result<string, NavError>)
      returns (r: Result<(), NavError>)
      requires Ok()
      modifies this
      ensures Ok() && (r.Err? ==> State() == old(State())) && Step(old(State()), State())
      ensures r == if clamp(settings).Err? then Err(clamp(settings).error)
                   else match Access(old(pages), actor, p)
                        case Some(e) => Err(e)
                        case None => if old(pages)[p].revision != expected then Err(Precondition) else Result.Ok(())
      ensures r.Ok? ==>
                clamp(settings).Ok?
                && NextDraft(old(State()), State(), p, old(DraftAt(State(), p)).(settings := clamp(settings).value))
    {
      hide Valid, NextDraft, DraftAt, Committed, Step, NameFree, UrlFree, AddCategory, AddSite, DropSite, EditCategory;
      ValidFacts(State());
      Idle(State());
      var clamped := clamp(settings);
      if clamped.Err? { return Err(clamped.error); }
      var access := Access(pages, actor, p);
      if access.Some? { return Err(access.value); }
      var row := pages[p];
      if row.revision != expected { return Err(Precondition); }
      hide FieldsPut;
      DraftFields(State(), p);
      WroteFields(State(), p, row.title, row.description, clamped.value);
      PutFields(p, row.title, row.description, clamped.value);
      return Result.Ok(());
    }

    /** backgrounds: clearing a deleted background out of the settings `seen`
        that an earlier query read; no revision is expected. */
    method ClearBackground(p: Id, seen: string, clear: string -> Option<string>)
      requires Ok() && p in pages
      modifies this
      ensures Ok() && Step(old(State()), State())
      ensures clear(seen).None? ==> State() == old(State())
      ensures clear(seen).Some? ==>
                NextDraft(old(State()), State(), p, old(DraftAt(State(), p)).(settings := clear(seen).value))
    {
      hide Valid, NextDraft, DraftAt, Step, FieldsPut;
      Idle(State());
      var cleared := clear(seen);
      if cleared.Some? {
        var row := pages[p];
        DraftFields(State(), p);
        WroteFields(State(), p, row.title, row.description, cleared.value);
        PutFields(p, row.title, row.description, cleared.value);
      }
    }

    // ----------------------------------------------------------- categories

    /** The UPDATE loop of move-to-uncategorized. */
    method MoveSitesTo(p: Id, c: Id, target: Id, nextOrder: nat)
      modifies this`sites
      ensures sites == PlaceSites(old(sites), p, SiteListing(old(sites), p, c), target, nextOrder)
    {
      var ids := SiteListing(sites, p, c);
      for index := 0 to |ids|
        invariant sites == PlaceSites(old(sites), p, ids[..index], target, nextOrder)
      {
        assert ids[..index + 1][..index] == ids[..index];
        if ids[index] in sites && sites[ids[index]].page == p {
          sites := sites[ids[index] := sites[ids[index]].(category := target, sortOrder := nextOrder + index)];
        }
      }
      assert ids[..|ids|] == ids;
    }

    method CreateCategory(actor: Actor, p: Id, c: Id, name: string, icon: string, enabled: bool)
      returns (r: Result<(), NavError>)
      requires Ok()
      modifies this
      ensures Ok() && (r.Err? ==> State() == old(State())) && Step(old(State()), State())
      ensures r == match Access(old(pages), actor, p)
                   case Some(e) => Err(e)
                   case None =>
                     if |PageCategories(old(categories), p)| >= old(maxCategories) then Err(Conflict)
                     else if c in old(categories) || !NameFree(old(categories), p, c, name) then Err(Conflict)
                     else Result.Ok(())
      ensures r.Ok? ==> NextDraft(old(State()), State(), p,
                                  AddCategory(old(DraftAt(State(), p)), c, CategoryInfo(name, icon, false, enabled)))
    {
      hide Valid, NextDraft, DraftAt, Committed, Step, NameFree, UrlFree, AddCategory, AddSite, DropSite, EditCategory;
      ValidFacts(State());
      Idle(State());
      var access := Access(pages, actor, p);
      if access.Some? { return Err(access.value); }
      hide SitesOwned, HasUncategorized, LiveResolves, CategoryPut, NewCategoryRow, PageCategories;
      var info := CategoryInfo(name, icon, false, enabled);
      var row := NewCategoryRow(State(), p, info);
      if |PageCategories(categories, p)| >= maxCategories { return Err(Conflict); }
      if c in categories || !NameFree(categories, p, c, name) { return Err(Conflict); }
      InsertedCategory(State(), p, c, info);
      PutCategory(p, c, row);
      return Result.Ok(());
    }

    method UpdateCategory(actor: Actor, p: Id, c: Id, patch: CategoryPatch) returns (r: Result<(), NavError>)
      requires Ok()
      modifies this
      ensures Ok() && (r.Err? ==> State() == old(State())) && Step(old(State()), State())
      ensures r == match Access(old(pages), actor, p)
                   case Some(e) => Err(e)
                   case None =>
                     if c !in PageCategories(old(categories), p) then Err(NotFound)
                     else if !NameFree(old(categories), p, c, PatchedCategory(old(categories)[c].info, patch).name)
                         then Err(Conflict)
                     else Result.Ok(())
      ensures r.Ok? ==> NextDraft(old(State()), State(), p,
                                  EditCategory(old(DraftAt(State(), p)), c,
                                      PatchedCategory(old(categories)[c].info, patch)))
    {
      hide Valid, NextDraft, DraftAt, Committed, Step, NameFree, UrlFree, AddCategory, AddSite, DropSite, EditCategory;
      ValidFacts(State());
      Idle(State());
      var access := Access(pages, actor, p);
      if access.Some? { return Err(access.value); }
      if c !in categories || categories[c].page != p { return Err(NotFound); }
      var info := PatchedCategory(categories[c].info, patch);
      if !NameFree(categories, p, c, info.name) { return Err(Conflict); }
      hide CategoryPut;
      UpdatedCategory(State(), p, c, info);
      PutCategory(p, c, categories[c].(info := info));
      return Result.Ok(());
    }

    method DeleteCategory(actor: Actor, p: Id, c: Id, mode: DeleteMode) returns (r: Result<(), NavError>)
      requires Ok()
      modifies this
      ensures Ok() && (r.Err? ==> State() == old(State())) && Step(old(State()), State())
      ensures r == match Access(old(pages), actor, p)
                   case Some(e) => Err(e)
                   case None =>
                     if c !in PageCategories(old(categories), p) then Err(NotFound)
                     else if old(categories)[c].info.uncategorized then Err(Uncategorized)
                     else if CategorySites(old(sites), p, c) != {} && mode == RejectIfNotEmpty
                         then Err(CategoryNotEmpty)
                     else Result.Ok(())
      ensures r.Ok? && mode != MoveSites ==>
                c in old(DraftAt(State(), p)).lists
                && NextDraft(old(State()), State(), p, DropCategory(old(DraftAt(State(), p)), c))
      ensures r.Ok? && mode == MoveSites ==>
                exists u :: u in old(DraftAt(State(), p)).categories
                    && old(DraftAt(State(), p)).categories[u].uncategorized
                  && c in old(DraftAt(State(), p)).lists && u in old(DraftAt(State(), p)).lists && u != c
                  && NextDraft(old(State()), State(), p, DropCategory(PourSites(old(DraftAt(State(), p)), c, u), c))
    {
      hide Valid, NextDraft, DraftAt, Committed, Step, NameFree, UrlFree, AddCategory, AddSite, DropSite, EditCategory;
      ValidFacts(State());
      Idle(State());
      var access := Access(pages, actor, p);
      if access.Some? { return Err(access.value); }
      if c !in categories || categories[c].page != p { return Err(NotFound); }
      if categories[c].info.uncategorized { return Err(Uncategorized); }
      var siteCount := |CategorySites(sites, p, c)|;
      hide Content, DraftOf, SiteListing, NumberCategories, PlaceSites, Listing, CategoryListing, PourSites,
           DropCategory;
      DraftCategory(State(), c);
      if siteCount > 0 && mode == RejectIfNotEmpty { return Err(CategoryNotEmpty); }
      if mode == MoveSites {
        ghost var u := MoveThenDrop(p, c);
      } else {
        DropWithSites(p, c);
      }
      return Result.Ok(());
    }

    /** DELETE FROM categories (sites cascade), renumber, touch. */
    method DropWithSites(p: Id, c: Id)
      requires Ok() && p in pages && c in categories && categories[c].page == p && !categories[c].info.uncategorized
      requires c in DraftAt(State(), p).lists
      modifies this
      ensures Ok() && NextDraft(old(State()), State(), p, DropCategory(old(DraftAt(State(), p)), c))
      ensures Step(old(State()), State())
    {
      hide Valid, NextDraft, DraftAt, Step, Content, DraftOf, SiteListing, NumberCategories, Listing, CategoryListing,
           DropCategory, CategorySites;
      DroppedCategory(State(), p, c);
      sites := sites - CategorySites(sites, p, c);
      categories := categories - {c};
      NormalizeCategoryOrder(p);
      TouchDraft(p);
    }

    /** The same after appending the category's sites to the uncategorized one. */
    method MoveThenDrop(p: Id, c: Id) returns (ghost u: Id)
      requires Ok() && p in pages && c in categories && categories[c].page == p && !categories[c].info.uncategorized
      requires c in DraftAt(State(), p).lists
      modifies this
      ensures Ok() && Step(old(State()), State())
      ensures u in old(DraftAt(State(), p)).categories && old(DraftAt(State(), p)).categories[u].uncategorized
      ensures u in old(DraftAt(State(), p)).lists && u != c
      ensures NextDraft(old(State()), State(), p, DropCategory(PourSites(old(DraftAt(State(), p)), c, u), c))
    {
      hide Valid, NextDraft, DraftAt, Step, SitesOwned, SiteListing, PourSites, DropCategory;
      ValidFacts(State());
      assert HasUncategorized(categories, p);
      var target :| target in categories && categories[target].page == p && categories[target].info.uncategorized;
      u := target;
      DraftCategory(State(), target);
      if |CategorySites(sites, p, c)| > 0 {
        var nextOrder: nat := NextOrder(CategorySites(sites, p, target), SiteKeys(sites));
        PourThenDrop(p, c, target, nextOrder);
      } else {
        EmptyPour(State(), p, c, target);
        DropWithSites(p, c);
      }
    }

    method PourThenDrop(p: Id, c: Id, target: Id, nextOrder: nat)
      requires Ok() && p in pages && c in categories && categories[c].page == p && !categories[c].info.uncategorized
      requires target in categories && categories[target].page == p && categories[target].info.uncategorized
      requires c in DraftAt(State(), p).lists && target in DraftAt(State(), p).lists
      requires nextOrder == NextOrder(CategorySites(sites, p, target), SiteKeys(sites))
      modifies this
      ensures Ok() && Step(old(State()), State())
      ensures NextDraft(old(State()), State(), p, DropCategory(PourSites(old(DraftAt(State(), p)), c, target), c))
    {
      hide Valid, NextDraft, DraftAt, Step, Content, DraftOf, SiteListing, NumberCategories, PlaceSites, Listing,
           CategoryListing, PourSites, DropCategory, CategorySites;
      ghost var db := State();
      MergedCategory(db, p, c, target);
      MoveSitesTo(p, c, target, nextOrder);
      NothingToDelete(sites, p, c);
      sites := sites - CategorySites(sites, p, c);
      categories := categories - {c};
      NormalizeCategoryOrder(p);
      TouchDraft(p);
    }

    // ---------------------------------------------------------------- sites

    method CreateSite(actor: Actor, p: Id, s: Id, c: Id, info: SiteInfo) returns (r: Result<(), NavError>)
      requires Ok()
      modifies this
      ensures Ok() && (r.Err? ==> State() == old(State())) && Step(old(State()), State())
      ensures r == match Access(old(pages), actor, p)
                   case Some(e) => Err(e)
                   case None =>
                     if c !in PageCategories(old(categories), p) then Err(NotFound)
                     else if |PageSites(old(sites), p)| >= old(maxSites) then Err(Conflict)
                     else if s in old(sites) || !UrlFree(old(sites), p, s, info.url) then Err(Conflict)
                     else Result.Ok(())
      ensures r.Ok? ==>
                && c in old(DraftAt(State(), p)).lists
                && NextDraft(old(State()), State(), p, AddSite(old(DraftAt(State(), p)), c, s, info))
    {
      hide Valid, NextDraft, DraftAt, Committed, Step, NameFree, UrlFree, AddCategory, AddSite, DropSite, EditCategory;
      ValidFacts(State());
      Idle(State());
      var access := Access(pages, actor, p);
      if access.Some? { return Err(access.value); }
      if c !in categories || categories[c].page != p { return Err(NotFound); }
      hide SitesOwned, HasUncategorized, LiveResolves, SitePut, CategorySites, PageSites;
      var row := NewSiteRow(State(), p, c, info);
      if |PageSites(sites, p)| >= maxSites { return Err(Conflict); }
      if s in sites || !UrlFree(sites, p, s, info.url) { return Err(Conflict); }
      InsertedSite(State(), p, s, c, info);
      PutSite(s, row);
      return Result.Ok(());
    }

    method UpdateSite(actor: Actor, p: Id, s: Id, patch: SitePatch) returns (r: Result<(), NavError>)
      requires Ok()
      modifies this
      ensures Ok() && (r.Err? ==> State() == old(State())) && Step(old(State()), State())
      ensures r == match Access(old(pages), actor, p)
                   case Some(e) => Err(e)
                   case None =>
                     if s !in PageSites(old(sites), p) then Err(NotFound)
                     else if patch.category.Some? && patch.category.value !in PageCategories(old(categories), p)
                         then Err(NotFound)
                     else if !UrlFree(old(sites), p, s, PatchedSite(old(sites)[s].info, patch).url) then Err(Conflict)
                     else Result.Ok(())
      ensures r.Ok? ==>
                && s in old(DraftAt(State(), p)).sites
                && (patch.category.Some? ==> patch.category.value in old(DraftAt(State(), p)).lists)
                && NextDraft(old(State()), State(), p,
                    SitePatchEdit(old(DraftAt(State(), p)), s, old(sites)[s].category, patch))
    {
      hide Valid, NextDraft, DraftAt, Committed, Step, Content, DraftOf, NumberSites, Listing, NameFree, UrlFree;
      ValidFacts(State());
      Idle(State());
      var access := Access(pages, actor, p);
      if access.Some? { return Err(access.value); }
      if s !in sites || sites[s].page != p { return Err(NotFound); }
      var current := sites[s];
      var categoryId, sortOrder := current.category, current.sortOrder;
      assert current.category in categories && categories[current.category].page == p;
      DraftSite(State(), s);
      DraftCategory(State(), current.category);
      if patch.category.Some? && patch.category.value != current.category {
        if patch.category.value !in categories || categories[patch.category.value].page != p { return Err(NotFound); }
        categoryId := patch.category.value;
        DraftCategory(State(), categoryId);
        sortOrder := NextOrder(CategorySites(sites, p, categoryId), SiteKeys(sites));
      }
      var info := PatchedSite(current.info, patch);
      if !UrlFree(sites, p, s, info.url) { return Err(Conflict); }
      WriteSite(p, s, categoryId, sortOrder, info);
      return Result.Ok(());
    }

    /** The UPDATE of a site row; a site that left its category renumbers it. */
    method WriteSite(p: Id, s: Id, c: Id, sortOrder: nat, info: SiteInfo)
      requires Ok() && p in pages && s in sites && sites[s].page == p && UrlFree(sites, p, s, info.url)
      requires c in categories && categories[c].page == p && c in DraftAt(State(), p).lists
      requires c == sites[s].category ==> sortOrder == sites[s].sortOrder
      requires c != sites[s].category ==> sortOrder == NextOrder(CategorySites(sites, p, c), SiteKeys(sites))
      modifies this
      ensures Ok() && Step(old(State()), State())
      ensures NextDraft(old(State()), State(), p,
                EditSite(if c == old(sites)[s].category then old(DraftAt(State(), p))
                    else MoveSite(old(DraftAt(State(), p)), s, c), s, info))
    {
      hide Valid, NextDraft, DraftAt, Step, Content, DraftOf, SiteListing, NumberSites, Listing, Drafts.MoveSite,
           EditSite, UrlFree;
      ghost var db := State();
      var left := sites[s].category;
      sites := sites[s := SiteRow(p, c, info, sortOrder)];
      if c != left {
        RefiledSite(db, p, s, c, info);
        NormalizeSiteOrder(p, left);
      } else {
        UpdatedSite(db, p, s, info);
        assert SiteRow(p, c, info, sortOrder) == db.sites[s].(info := info);
      }
      TouchDraft(p);
    }

    method DeleteSite(actor: Actor, p: Id, s: Id) returns (r: Result<(), NavError>)
      requires Ok()
      modifies this
      ensures Ok() && (r.Err? ==> State() == old(State())) && Step(old(State()), State())
      ensures r == match Access(old(pages), actor, p)
                   case Some(e) => Err(e)
                   case None => if s !in PageSites(old(sites), p) then Err(NotFound) else Result.Ok(())
      ensures r.Ok? ==> NextDraft(old(State()), State(), p, DropSite(old(DraftAt(State(), p)), s))
    {
      hide Valid, NextDraft, DraftAt, Committed, Step, NameFree, UrlFree, AddCategory, AddSite, DropSite, EditCategory;
      ValidFacts(State());
      Idle(State());
      var access := Access(pages, actor, p);
      if access.Some? { return Err(access.value); }
      if s !in sites || sites[s].page != p { return Err(NotFound); }
      RemoveSite(p, s);
      return Result.Ok(());
    }

    method RemoveSite(p: Id, s: Id)
      requires Ok() && p in pages && s in sites && sites[s].page == p
      modifies this
      ensures Ok() && NextDraft(old(State()), State(), p, DropSite(old(DraftAt(State(), p)), s))
      ensures Step(old(State()), State())
    {
      hide Valid, NextDraft, DraftAt, Step, DropSite, NumberSites, SiteListing;
      var c := sites[s].category;
      DroppedSite(State(), p, s);
      sites := sites - {s};
      NormalizeSiteOrder(p, c);
      TouchDraft(p);
    }

    /** directoryadmin: an administrator deletes any site, without renumbering. */
    method DeletePersonalLink(s: Id) returns (r: Result<(), NavError>)
      requires Ok()
      modifies this
      ensures Ok() && (r.Err? ==> State() == old(State())) && Step(old(State()), State())
      ensures r == if s in old(sites) then Result.Ok(()) else Err(NotFound)
      ensures r.Ok? ==>
                && old(sites)[s].page in old(pages)
                && NextDraft(old(State()), State(), old(sites)[s].page,
                    DropSite(old(DraftAt(State(), sites[s].page)), s))
    {
      hide Valid, NextDraft, DraftAt, Committed, Step, NameFree, UrlFree, AddCategory, AddSite, DropSite, EditCategory;
      ValidFacts(State());
      Idle(State());
      if s !in sites { return Err(NotFound); }
      var p := sites[s].page;
      assert sites[s].category in categories;
      DroppedLink(State(), p, s);
      sites := sites - {s};
      TouchDraft(p);
      return Result.Ok(());
    }

    /** UPDATE sites SET enabled = ? ... and its RowsAffected. */
    method EnableListed(p: Id, ids: seq<Id>, enabled: bool) returns (affected: nat)
      modifies this`sites
      ensures sites == EnableRows(old(sites), p, ids, enabled)
      ensures affected == |ids| <==> NoDup(ids) && Elems(ids) <= PageSites(old(sites), p)
    {
      var hit := set s | s in sites && sites[s].page == p && s in ids;
      HitAll(sites, p, ids, hit);
      sites := EnableRows(sites, p, ids, enabled);
      affected := |hit|;
    }

    /** The UPDATE runs first; a count mismatch rolls it back. */
    method SwitchListed(p: Id, ids: seq<Id>, enabled: bool) returns (ok: bool)
      requires p in pages
      modifies this`sites, this`pages
      ensures ok <==> NoDup(ids) && Elems(ids) <= PageSites(old(sites), p)
      ensures State() == if ok then SitesSwitched(old(State()), p, ids, enabled) else old(State())
    {
      hide EnableRows, NoDup, Elems, PageSites;
      var saved := sites;
      var affected := EnableListed(p, ids, enabled);
      if affected != |ids| {
        sites := saved;
        return false;
      }
      TouchDraft(p);
      return true;
    }

    method BatchSetSitesEnabled(actor: Actor, p: Id, expected: int, ids: seq<Id>, enabled: bool)
      returns (r: Result<nat, NavError>)
      requires Ok()
      modifies this
      ensures Ok() && (r.Err? ==> State() == old(State())) && Step(old(State()), State())
      ensures match Access(old(pages), actor, p)
              case Some(e) => r == Err(e)
              case None =>
                if old(pages)[p].revision != expected then r == Err(Precondition)
                else if NoDup(ids) && Elems(ids) <= PageSites(old(sites), p)
                    then r == Result.Ok(old(pages)[p].revision + 1)
                else r == Err(NotFound)
      ensures r.Ok? ==> NextDraft(old(State()), State(), p, EnableSites(old(DraftAt(State(), p)), ids, enabled))
    {
      hide Valid, NextDraft, DraftAt, Committed, Step, NameFree, UrlFree, AddCategory, AddSite, DropSite, EditCategory;
      ValidFacts(State());
      Idle(State());
      var access := Access(pages, actor, p);
      if access.Some? { return Err(access.value); }
      hide EnableSites, EnableRows, NoDup, Elems, PageSites, SitesOwned, HasUncategorized, LiveResolves, SitesSwitched;
      if pages[p].revision != expected { return Err(Precondition); }
      ghost var db := State();
      var switched := SwitchListed(p, ids, enabled);
      if !switched { return Err(NotFound); }
      SwitchedSites(db, p, ids, enabled);
      return Result.Ok(expected + 1);
    }

    method ReplaceContentOrder(actor: Actor, p: Id, expected: int, order: seq<CategoryOrder>)
      returns (r: Result<nat, NavError>)
      requires Ok()
      modifies this
      ensures Ok() && (r.Err? ==> State() == old(State())) && Step(old(State()), State())
      ensures match Access(old(pages), actor, p)
              case Some(e) => r == Err(e)
              case None =>
                if old(pages)[p].revision != expected then r == Err(Precondition)
                else if CompleteOrder(PageCategories(old(categories), p), PageSites(old(sites), p), order)
                then r == Result.Ok(old(pages)[p].revision + 1)
                else r == Err(InvalidOrder)
      ensures r.Ok? ==> p in pages && NextDraft(old(State()), State(), p, DraftAt(State(), p))
                        && Arranged(old(DraftAt(State(), p)), order, DraftAt(State(), p))
    {
      hide Valid, NextDraft, DraftAt, Committed, Step, NameFree, UrlFree, AddCategory, AddSite, DropSite, EditCategory;
      ValidFacts(State());
      Idle(State());
      hide CompleteOrder, NumberCategories, PlaceAll, Arranged, SitesOwned, Requested;
      var access := Access(pages, actor, p);
      if access.Some? { return Err(access.value); }
      if pages[p].revision != expected { return Err(Precondition); }
      var complete := ValidateCompleteOrder(PageCategories(categories, p), PageSites(sites, p), order);
      if !complete { return Err(InvalidOrder); }
      ApplyOrder(p, order);
      return Result.Ok(pages[p].revision);
    }

    method ApplyOrder(p: Id, order: seq<CategoryOrder>)
      requires Ok() && p in pages
      requires CompleteOrder(PageCategories(categories, p), PageSites(sites, p), order)
      modifies this
      ensures Ok() && p in pages && pages[p].revision == old(pages)[p].revision + 1 && Step(old(State()), State())
      ensures NextDraft(old(State()), State(), p, DraftAt(State(), p))
      ensures Arranged(old(DraftAt(State(), p)), order, DraftAt(State(), p))
    {
      hide Valid, NextDraft, DraftAt, Step, CompleteOrder, NumberCategories, PlaceAll, Arranged;
      ghost var d := ReorderedContent(State(), p, order);
      ReorderInScope(categories, sites, p, order);
      hide PageCategories;
      TouchDraft(p);
      WriteOrder(p, order);
    }

    /** The inner UPDATE loop: the sites of one category, in order. */
    method PlaceListed(p: Id, c: Id, q: seq<Id>)
      modifies this`sites
      ensures sites == PlaceSites(old(sites), p, q, c, 0)
    {
      for j := 0 to |q|
        invariant sites == PlaceSites(old(sites), p, q[..j], c, 0)
      {
        assert q[..j + 1][..j] == q[..j];
        if q[j] in sites && sites[q[j]].page == p {
          sites := sites[q[j] := sites[q[j]].(category := c, sortOrder := j)];
        }
      }
      assert q[..|q|] == q;
    }

    /** The UPDATE loops of a content reorder. */
    method WriteOrder(p: Id, order: seq<CategoryOrder>)
      requires forall c :: c in categories && c in CategoryIds(order) ==> categories[c].page == p
      modifies this`categories, this`sites
      ensures categories == NumberCategories(old(categories), CategoryIds(order))
      ensures sites == PlaceAll(old(sites), p, order)
    {
      hide PlaceSites;
      ghost var all := CategoryIds(order);
      for i := 0 to |order|
        invariant categories == NumberCategories(old(categories), all[..i])
        invariant forall c :: c in categories && c in all ==> categories[c].page == p
        invariant sites == PlaceAll(old(sites), p, order[..i])
      {
        assert all[..i + 1][..i] == all[..i] && all[..i + 1][i] == order[i].id && order[..i + 1][..i] == order[..i];
        assert all[i] in all;
        if order[i].id in categories && categories[order[i].id].page == p {
          categories := categories[order[i].id := categories[order[i].id].(sortOrder := i)];
        }
        PlaceListed(p, order[i].id, order[i].siteIds);
      }
      assert order[..|order|] == order && all[..|order|] == all;
    }

    // ---------------------------------------------------------- publication

    method ReplacePublication(actor: Actor, p: Id, input: PublicationRow, now: int) returns (r: Result<(), NavError>)
      requires Ok()
      modifies this
      ensures Ok() && (r.Err? ==> State() == old(State())) && Step(old(State()), State())
      ensures r == match Access(old(pages), actor, p)
                   case Some(e) => Err(e)
                   case None =>
                     if old(SlugLiveElsewhere(State(), p, input.slug)) || SlugTaken(old(publications), p, input.slug)
                     then Err(Conflict) else Result.Ok(())
      ensures r.Ok? ==>
                && State() == old(State()).(publications := publications)
                && publications == old(publications)[p := input.(updatedAt := now,
                     snapshot := if input.visibility == Private then None else old(publications)[p].snapshot)]
      ensures Committed(old(State()), State())
    {
      hide Valid, NextDraft, DraftAt, Committed, Step, NameFree, UrlFree, AddCategory, AddSite, DropSite, EditCategory;
      ValidFacts(State());
      Idle(State());
      NothingCommitted(State());
      var access := Access(pages, actor, p);
      if access.Some? { return Err(access.value); }
      if SlugLiveElsewhere(State(), p, input.slug) { return Err(Conflict); }
      if SlugTaken(publications, p, input.slug) { return Err(Conflict); }
      var row := input.(updatedAt := now, snapshot := if input.visibility == Private then None
          else publications[p].snapshot);
      hide SlugLiveElsewhere, SlugTaken, LiveResolves;
      PutRow(State(), p, row);
      publications := publications[p := row];
      return Result.Ok(());
    }

    /** `theme` is what the theme resolver answered inside this transaction. */
    method Publish(actor: Actor, p: Id, expected: int, snapshotId: Id, theme: Option<Id>, now: int)
      returns (r: Result<(), NavError>)
      requires Ok()
      modifies this
      ensures Ok() && (r.Err? ==> State() == old(State())) && Step(old(State()), State())
      ensures r == match Access(old(pages), actor, p)
                   case Some(e) => Err(e)
                   case None =>
                     if old(pages)[p].revision != expected then Err(Precondition)
                     else if old(publications)[p].visibility == Private then Err(Validation)
                     else if old(SlugLiveElsewhere(State(), p, publications[p].slug)) then Err(Conflict)
                     else if theme.None? then Err(Theme)
                     else if snapshotId in old(snapshots) then Err(Conflict)
                     else Result.Ok(())
      ensures r.Ok? ==> PublishedAs(old(State()), State(), p, snapshotId, theme.value, now)
      ensures Committed(old(State()), State())
    {
      hide Valid, NextDraft, DraftAt, Committed, Step, NameFree, UrlFree, AddCategory, AddSite, DropSite, EditCategory;
      ValidFacts(State());
      Idle(State());
      NothingCommitted(State());
      var access := Access(pages, actor, p);
      if access.Some? { return Err(access.value); }
      var page, row := pages[p], publications[p];
      if page.revision != expected { return Err(Precondition); }
      if row.visibility == Private { return Err(Validation); }
      if SlugLiveElsewhere(State(), p, row.slug) { return Err(Conflict); }
      assert theme.Some? && snapshotId !in snapshots ==> Publishable(State(), p, snapshotId);
      hide SlugLiveElsewhere, SitesOwned, HasUncategorized, Content, Project, PublishedAs, Publishable;
      var shown := BuildPublishedPage(categories, sites, p);
      ProjectionIgnoresFields(State(), p);
      if theme.None? { return Err(Theme); }
      if snapshotId in snapshots { return Err(Conflict); }
      var snap := Snapshot(p, page.revision, row.slug, row.visibility, page.title, page.description, shown, now,
          theme.value);
      Published(State(), p, snapshotId, theme.value, now);
      snapshots := snapshots[snapshotId := snap];
      publications := publications[p := row.(snapshot := Some(snapshotId), updatedAt := now)];
      return Result.Ok(());
    }

    method Unpublish(actor: Actor, p: Id, now: int) returns (r: Result<(), NavError>)
      requires Ok()
      modifies this
      ensures Ok() && (r.Err? ==> State() == old(State())) && Step(old(State()), State())
      ensures r == match Access(old(pages), actor, p) case Some(e) => Err(e) case None => Result.Ok(())
      ensures r.Ok? ==>
                && State() == old(State()).(publications := publications)
                && publications
                    == old(publications)[p := old(publications)[p].(visibility := Private, snapshot := None,
                    updatedAt := now)]
      ensures Committed(old(State()), State())
    {
      hide Valid, NextDraft, DraftAt, Committed, Step, NameFree, UrlFree, AddCategory, AddSite, DropSite, EditCategory;
      ValidFacts(State());
      Idle(State());
      NothingCommitted(State());
      var access := Access(pages, actor, p);
      if access.Some? { return Err(access.value); }
      var row := publications[p].(visibility := Private, snapshot := None, updatedAt := now);
      hide SlugLiveElsewhere, SlugTaken, LiveResolves;
      PutRow(State(), p, row);
      publications := publications[p := row];
      return Result.Ok(());
    }
  }

  lemma ReorderInScope(cats: CategoryTable, sites: SiteTable, p: Id, order: seq<CategoryOrder>)
    requires CompleteOrder(PageCategories(cats, p), PageSites(sites, p), order)
    ensures forall c :: c in cats && c in CategoryIds(order) ==> cats[c].page == p
  {
    forall c | c in cats && c in CategoryIds(order) ensures cats[c].page == p {
      assert c in Elems(CategoryIds(order));
    }
  }

  /** The statement hits one row per id exactly when every id is on the page. */
  lemma HitAll(sites: SiteTable, p: Id, ids: seq<Id>, hit: set<Id>)
    requires forall s :: s in hit <==> s in sites && sites[s].page == p && s in ids
    ensures |hit| == |ids| <==> NoDup(ids) && Elems(ids) <= PageSites(sites, p)
  {
    CardNoDup(ids);
    hide NoDup;
    assert hit == Elems(ids) * PageSites(sites, p);
    SubsetSameSize(hit, Elems(ids));
    assert |hit| + |Elems(ids) - hit| == |Elems(ids)| by {
      assert Elems(ids) == hit + (Elems(ids) - hit);
    }
  }

  /** A list has as many elements as positions exactly if nothing repeats. */
  lemma {:induction false} CardNoDup(q: seq<Id>)
    ensures |Elems(q)| <= |q| && (|Elems(q)| == |q| <==> NoDup(q))
  {
    if q != [] {
      var n := |q| - 1;
      CardNoDup(q[..n]);
      assert q == q[..n] + [q[n]];
      assert Elems(q) == Elems(q[..n]) + {q[n]};
      assert q[n] in Elems(q[..n]) <==> q[n] in q[..n];
    }
  }

  lemma ProjectionIgnoresFields(db: Db, p: Id)
    requires p in db.pages
    ensures Project(p, Content(db.categories, db.sites, p)) == Project(p, DraftAt(db, p))
  {
    SameShown(p, Content(db.categories, db.sites, p), DraftAt(db, p), CategoryListing(db.categories, p));
  }

  lemma {:induction false} SameShown(p: Id, d: Draft, e: Draft, q: seq<Id>)
    requires d.categories == e.categories && d.lists == e.lists && d.sites == e.sites
    ensures ShownCategories(p, d, q) == ShownCategories(p, e, q)
  {
    if q != [] {
      SameShown(p, d, e, q[..|q| - 1]);
    }
  }

  /** Pouring an empty list changes nothing. */
  lemma EmptyPour(db: Db, p: Id, c: Id, u: Id)
    requires p in db.pages && c in db.categories && db.categories[c].page == p
    requires u in db.categories && db.categories[u].page == p && u != c
    requires CategorySites(db.sites, p, c) == {}
    ensures PourSites(DraftAt(db, p), c, u) == DraftAt(db, p)
  {
    var d := DraftAt(db, p);
    assert d.lists[c] == SiteListing(db.sites, p, c) == [];
    assert d.lists[u] + [] == d.lists[u];
    assert d.lists[u := d.lists[u] + d.lists[c]][c := []] == d.lists;
  }
}
