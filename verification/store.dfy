/**
 * The record store (lib/store.ts:328-378): one object holding the list of
 * records, the record currently open and a busy flag, with the actions that
 * replace those fields. The list operations are the list expressions the
 * actions assign (spread-prepend, map, filter, find), stated as functions on
 * sequences; the class applies them to its state.
 *
 * The clock and the id generator are not read here: the id and the time
 * stamp of a change are parameters of the action.
 */
module Store {
  import opened Wrappers
  import opened WebsiteTypes
  import Validation
  import StoreSeed

  /* ---------------------------------------------------------------------
   * The list operations
   * ------------------------------------------------------------------- */

  predicate HasId(ws: seq<Website>, id: string)
  {
    exists i :: 0 <= i < |ws| && ws[i].id == id
  }

  /** No two records share an id. The store does not enforce this; its callers must. */
  predicate UniqueIds(ws: seq<Website>)
  {
    forall i, j :: 0 <= i < j < |ws| ==> ws[i].id != ws[j].id
  }

  /** Position `k` holds the first record with the id. */
  predicate FirstMatch(ws: seq<Website>, id: string, k: int)
  {
    0 <= k < |ws| && ws[k].id == id && forall j :: 0 <= j < k ==> ws[j].id != id
  }

  /** The first record with the id, or None: what `find` with an id test returns. */
  function Find(ws: seq<Website>, id: string): (r: Option<Website>)
    ensures r.None? <==> !HasId(ws, id)
    ensures r.Some? ==> r.value in ws && r.value.id == id
    ensures forall k :: FirstMatch(ws, id, k) ==> r == Some(ws[k])
  {
    if ws == [] then None
    else if ws[0].id == id then Some(ws[0])
    else
      assert forall k :: FirstMatch(ws, id, k) ==> FirstMatch(ws[1..], id, k - 1);
      Find(ws[1..], id)
  }

  /** One record as the update rewrites it when its id matches: new form fields, new updatedAt. */
  function Refresh(w: Website, id: string, data: WebsiteFormData, now: Timestamp): (r: Website)
    ensures r.id == w.id && r.createdAt == w.createdAt
    ensures w.id == id ==> r.Form() == data && r.updatedAt == now
    ensures w.id != id ==> r == w
  {
    if w.id == id then Stamp(data, w.id, w.createdAt, now) else w
  }

  /** The list after an update: the map over the records that the update assigns. */
  function UpdateAll(ws: seq<Website>, id: string, data: WebsiteFormData, now: Timestamp): (r: seq<Website>)
    ensures |r| == |ws|
    ensures forall i :: 0 <= i < |ws| ==> r[i].id == ws[i].id && r[i].createdAt == ws[i].createdAt
    ensures forall i :: 0 <= i < |ws| && ws[i].id != id ==> r[i] == ws[i]
  {
    seq(|ws|, i requires 0 <= i < |ws| => Refresh(ws[i], id, data, now))
  }

  /** The list after a delete: the records whose id differs, in their order. */
  function RemoveId(ws: seq<Website>, id: string): (r: seq<Website>)
    ensures forall w :: w in r <==> w in ws && w.id != id
    ensures |r| <= |ws|
  {
    if ws == [] then []
    else if ws[0].id == id then RemoveId(ws[1..], id)
    else [ws[0]] + RemoveId(ws[1..], id)
  }

  /* ---------------------------------------------------------------------
   * What the operations promise
   * ------------------------------------------------------------------- */

  /** Every first match is unique, and one exists whenever the id does. */
  lemma {:induction false} FirstMatchExists(ws: seq<Website>, id: string)
    requires HasId(ws, id)
    ensures exists k :: FirstMatch(ws, id, k)
  {
    if ws[0].id == id {
      assert FirstMatch(ws, id, 0);
    } else {
      var i :| 0 <= i < |ws| && ws[i].id == id;
      assert ws[1..][i - 1].id == id;
      FirstMatchExists(ws[1..], id);
      var k :| FirstMatch(ws[1..], id, k);
      assert FirstMatch(ws, id, k + 1);
    }
  }

  /**
   * The update keeps length and order: records with another id are untouched;
   * a matching record takes every form field from `data`, keeps its id and
   * createdAt, and gets updatedAt := now.
   */
  lemma UpdatedRecord(ws: seq<Website>, id: string, data: WebsiteFormData, now: Timestamp, i: int)
    requires 0 <= i < |ws|
    ensures |UpdateAll(ws, id, data, now)| == |ws|
    ensures ws[i].id != id ==> UpdateAll(ws, id, data, now)[i] == ws[i]
    ensures ws[i].id == id ==>
      var w := UpdateAll(ws, id, data, now)[i];
      w.Form() == data && w.id == id && w.createdAt == ws[i].createdAt && w.updatedAt == now
  {
  }

  /** An update never inserts: with the id absent the list is unchanged. */
  lemma UpdateAbsentIsNoop(ws: seq<Website>, id: string, data: WebsiteFormData, now: Timestamp)
    requires !HasId(ws, id)
    ensures UpdateAll(ws, id, data, now) == ws
  {
  }

  /** Repeating an update with the same data and time changes nothing more. */
  lemma UpdateIdempotent(ws: seq<Website>, id: string, data: WebsiteFormData, now: Timestamp)
    ensures UpdateAll(UpdateAll(ws, id, data, now), id, data, now) == UpdateAll(ws, id, data, now)
  {
  }

  /** After an update, looking the id up gives the first such record, refreshed, or still nothing. */
  lemma {:induction false} FindAfterUpdate(ws: seq<Website>, id: string, data: WebsiteFormData, now: Timestamp)
    ensures Find(UpdateAll(ws, id, data, now), id) ==
      match Find(ws, id)
      case None => None
      case Some(w) => Some(Stamp(data, id, w.createdAt, now))
  {
    var r := UpdateAll(ws, id, data, now);
    if ws != [] {
      assert r[1..] == UpdateAll(ws[1..], id, data, now);
      FindAfterUpdate(ws[1..], id, data, now);
    }
  }

  /** Updates keep every id in place, so they keep ids unique. */
  lemma UpdateKeepsIds(ws: seq<Website>, id: string, data: WebsiteFormData, now: Timestamp)
    ensures forall i :: 0 <= i < |ws| ==> UpdateAll(ws, id, data, now)[i].id == ws[i].id
    ensures UniqueIds(ws) ==> UniqueIds(UpdateAll(ws, id, data, now))
  {
  }

  /** Deleting an absent id is a no-op. */
  lemma {:induction false} RemoveAbsentIsNoop(ws: seq<Website>, id: string)
    requires !HasId(ws, id)
    ensures RemoveId(ws, id) == ws
  {
    if ws != [] {
      assert !HasId(ws[1..], id) by {
        forall i | 0 <= i < |ws[1..]| ensures ws[1..][i].id != id {
          assert ws[1..][i] == ws[i + 1];
        }
      }
      RemoveAbsentIsNoop(ws[1..], id);
    }
  }

  /** Deleting twice is deleting once. */
  lemma RemoveIdempotent(ws: seq<Website>, id: string)
    ensures RemoveId(RemoveId(ws, id), id) == RemoveId(ws, id)
  {
    var r := RemoveId(ws, id);
    assert !HasId(r, id) by {
      forall i | 0 <= i < |r| ensures r[i].id != id {
        assert r[i] in r;
      }
    }
    RemoveAbsentIsNoop(r, id);
  }

  /** The filter works piecewise: relative order is kept on both sides of any split. */
  lemma {:induction false} RemoveAppend(a: seq<Website>, b: seq<Website>, id: string)
    ensures RemoveId(a + b, id) == RemoveId(a, id) + RemoveId(b, id)
  {
    if a != [] {
      assert (a + b)[1..] == a[1..] + b;
      RemoveAppend(a[1..], b, id);
    } else {
      assert a + b == b;
    }
  }

  /** With unique ids, deleting an id present at position k removes exactly that position. */
  lemma RemoveUnique(ws: seq<Website>, id: string, k: int)
    requires UniqueIds(ws) && 0 <= k < |ws| && ws[k].id == id
    ensures RemoveId(ws, id) == ws[..k] + ws[k + 1..]
  {
    assert ws == ws[..k] + ([ws[k]] + ws[k + 1..]);
    RemoveAppend(ws[..k], [ws[k]] + ws[k + 1..], id);
    RemoveAppend([ws[k]], ws[k + 1..], id);
    assert !HasId(ws[..k], id) by {
      forall i | 0 <= i < k ensures ws[..k][i].id != id {
        assert ws[..k][i] == ws[i];
      }
    }
    var tail := ws[k + 1..];
    assert !HasId(tail, id) by {
      forall i | 0 <= i < |tail| ensures tail[i].id != id {
        assert tail[i] == ws[k + 1 + i];
      }
    }
    RemoveAbsentIsNoop(ws[..k], id);
    RemoveAbsentIsNoop(tail, id);
    assert RemoveId([ws[k]], id) == [] by {
      assert [ws[k]][1..] == [];
    }
  }

  /** After a delete the id is gone, and every other id is found as before. */
  lemma {:induction false} FindAfterRemove(ws: seq<Website>, id: string, other: string)
    ensures Find(RemoveId(ws, id), other) == if other == id then None else Find(ws, other)
  {
    if ws != [] {
      FindAfterRemove(ws[1..], id, other);
      if ws[0].id != id {
        assert RemoveId(ws, id)[1..] == RemoveId(ws[1..], id);
      }
    }
  }

  /** A delete keeps unique ids unique. */
  lemma {:induction false} RemoveKeepsUnique(ws: seq<Website>, id: string)
    requires UniqueIds(ws)
    ensures UniqueIds(RemoveId(ws, id))
  {
    if ws != [] {
      var rest := RemoveId(ws[1..], id);
      RemoveKeepsUnique(ws[1..], id);
      if ws[0].id != id {
        var r := RemoveId(ws, id);
        assert r == [ws[0]] + rest;
        forall j | 0 <= j < |rest| ensures rest[j].id != ws[0].id {
          assert rest[j] in ws[1..];
          var m :| 0 <= m < |ws[1..]| && ws[1..][m] == rest[j];
          assert ws[m + 1] == rest[j];
        }
      }
    }
  }

  /** The record an add creates: the form data, the new id, createdAt = updatedAt = now. */
  function NewRecord(data: WebsiteFormData, id: string, now: Timestamp): (w: Website)
    ensures w.Form() == data && w.id == id
    ensures w.createdAt == now && w.updatedAt == now
  {
    Stamp(data, id, now, now)
  }

  /** Adding then deleting a fresh id restores the list. */
  lemma AddThenRemove(ws: seq<Website>, data: WebsiteFormData, id: string, now: Timestamp)
    requires !HasId(ws, id)
    ensures RemoveId([NewRecord(data, id, now)] + ws, id) == ws
  {
    assert ([NewRecord(data, id, now)] + ws)[1..] == ws;
    RemoveAbsentIsNoop(ws, id);
  }

  /* ---------------------------------------------------------------------
   * The seed records
   * ------------------------------------------------------------------- */

  /** Every id has the form "website-d", with d the digit at the same position in `digits`. */
  predicate IdsNumbered(ws: seq<Website>, digits: string)
  {
    |ws| == |digits| && forall i :: 0 <= i < |ws| ==> |ws[i].id| == 9 && ws[i].id[8] == digits[i]
  }

  /** Four records numbered 1 to 4 followed by four numbered 5 to 8 have unique ids. */
  lemma NumberedHalvesUnique(a: seq<Website>, b: seq<Website>)
    requires IdsNumbered(a, "1234") && IdsNumbered(b, "5678")
    ensures UniqueIds(a + b)
  {
    var digits := "12345678";
    forall i | 0 <= i < |a + b| ensures |(a + b)[i].id| == 9 && (a + b)[i].id[8] == digits[i] {
      if i < |a| {
        assert (a + b)[i] == a[i];
      } else {
        assert (a + b)[i] == b[i - |a|];
      }
    }
    forall i, j | 0 <= i < j < |a + b| ensures (a + b)[i].id != (a + b)[j].id {
      assert (a + b)[i].id[8] != (a + b)[j].id[8];
    }
  }

  lemma FirstFourNumbered()
    ensures IdsNumbered(StoreSeed.FirstFour(), "1234")
  {
  }

  lemma LastFourNumbered()
    ensures IdsNumbered(StoreSeed.LastFour(), "5678")
  {
  }

  /** The seed records have distinct ids, "website-1" to "website-8". */
  lemma SeedIdsUnique()
    ensures UniqueIds(StoreSeed.StaticWebsites())
  {
    FirstFourNumbered();
    LastFourNumbered();
    NumberedHalvesUnique(StoreSeed.FirstFour(), StoreSeed.LastFour());
  }

  /** The schema accepts the record whenever the URL parser accepts its url. */
  predicate PassesWithUrl(w: Website, isUrl: string -> bool)
  {
    isUrl(w.url) ==> Validation.Valid(Validation.ToInput(w.Form()), isUrl)
  }

  predicate AllPassWithUrl(ws: seq<Website>, isUrl: string -> bool)
  {
    forall i :: 0 <= i < |ws| ==> PassesWithUrl(ws[i], isUrl)
  }

  lemma FourPass(a: Website, b: Website, c: Website, d: Website, isUrl: string -> bool)
    requires PassesWithUrl(a, isUrl) && PassesWithUrl(b, isUrl) && PassesWithUrl(c, isUrl) && PassesWithUrl(d, isUrl)
    ensures AllPassWithUrl([a, b, c, d], isUrl)
  {
  }

  lemma AllPassAppend(a: seq<Website>, b: seq<Website>, isUrl: string -> bool)
    requires AllPassWithUrl(a, isUrl) && AllPassWithUrl(b, isUrl)
    ensures AllPassWithUrl(a + b, isUrl)
  {
    forall i | 0 <= i < |a + b| ensures PassesWithUrl((a + b)[i], isUrl) {
      if i < |a| {
        assert (a + b)[i] == a[i];
      } else {
        assert (a + b)[i] == b[i - |a|];
      }
    }
  }

  /** Every seed record passes the form schema whenever the URL parser accepts its url. */
  lemma SeedRecordsPassSchema(isUrl: string -> bool)
    ensures AllPassWithUrl(StoreSeed.StaticWebsites(), isUrl)
  {
    TechCrunchPasses(isUrl);
    ShopifyPasses(isUrl);
    NotionPasses(isUrl);
    DribbblePasses(isUrl);
    MediumPasses(isUrl);
    StripePasses(isUrl);
    BehancePasses(isUrl);
    GitHubPasses(isUrl);
    FourPass(StoreSeed.TechCrunch(), StoreSeed.Shopify(), StoreSeed.Notion(), StoreSeed.Dribbble(), isUrl);
    FourPass(StoreSeed.Medium(), StoreSeed.Stripe(), StoreSeed.Behance(), StoreSeed.GitHub(), isUrl);
    AllPassAppend(StoreSeed.FirstFour(), StoreSeed.LastFour(), isUrl);
  }

  // One lemma per seed record, so that each proof unfolds one record only.

  lemma TechCrunchPasses(isUrl: string -> bool)
    ensures PassesWithUrl(StoreSeed.TechCrunch(), isUrl)
  {
    var input := Validation.ToInput(StoreSeed.TechCrunch().Form());
    assert Validation.NameOk(input.name) && Validation.DescriptionOk(input.description);
    assert Validation.CategoryOk(input.category) && Validation.StatusOk(input.status);
    assert Validation.OffersOk(input.offers);
    assert Validation.ArticleSpecsOk(input.articleSpecs);
  }

  lemma ShopifyPasses(isUrl: string -> bool)
    ensures PassesWithUrl(StoreSeed.Shopify(), isUrl)
  {
    var input := Validation.ToInput(StoreSeed.Shopify().Form());
    assert Validation.NameOk(input.name) && Validation.DescriptionOk(input.description);
    assert Validation.CategoryOk(input.category) && Validation.StatusOk(input.status);
    assert Validation.OffersOk(input.offers);
    assert Validation.ArticleSpecsOk(input.articleSpecs);
  }

  lemma NotionPasses(isUrl: string -> bool)
    ensures PassesWithUrl(StoreSeed.Notion(), isUrl)
  {
    var input := Validation.ToInput(StoreSeed.Notion().Form());
    assert Validation.NameOk(input.name) && Validation.DescriptionOk(input.description);
    assert Validation.CategoryOk(input.category) && Validation.StatusOk(input.status);
    assert Validation.OffersOk(input.offers);
    assert Validation.ArticleSpecsOk(input.articleSpecs);
  }

  lemma DribbblePasses(isUrl: string -> bool)
    ensures PassesWithUrl(StoreSeed.Dribbble(), isUrl)
  {
    var input := Validation.ToInput(StoreSeed.Dribbble().Form());
    assert Validation.NameOk(input.name) && Validation.DescriptionOk(input.description);
    assert Validation.CategoryOk(input.category) && Validation.StatusOk(input.status);
    assert Validation.OffersOk(input.offers);
    assert Validation.ArticleSpecsOk(input.articleSpecs);
  }

  lemma MediumPasses(isUrl: string -> bool)
    ensures PassesWithUrl(StoreSeed.Medium(), isUrl)
  {
    var input := Validation.ToInput(StoreSeed.Medium().Form());
    assert Validation.NameOk(input.name) && Validation.DescriptionOk(input.description);
    assert Validation.CategoryOk(input.category) && Validation.StatusOk(input.status);
    assert Validation.OffersOk(input.offers);
    assert Validation.ArticleSpecsOk(input.articleSpecs);
  }

  lemma StripePasses(isUrl: string -> bool)
    ensures PassesWithUrl(StoreSeed.Stripe(), isUrl)
  {
    var input := Validation.ToInput(StoreSeed.Stripe().Form());
    assert Validation.NameOk(input.name) && Validation.DescriptionOk(input.description);
    assert Validation.CategoryOk(input.category) && Validation.StatusOk(input.status);
    assert Validation.OffersOk(input.offers);
    assert Validation.ArticleSpecsOk(input.articleSpecs);
  }

  lemma BehancePasses(isUrl: string -> bool)
    ensures PassesWithUrl(StoreSeed.Behance(), isUrl)
  {
    var input := Validation.ToInput(StoreSeed.Behance().Form());
    assert Validation.NameOk(input.name) && Validation.DescriptionOk(input.description);
    assert Validation.CategoryOk(input.category) && Validation.StatusOk(input.status);
    assert Validation.OffersOk(input.offers);
    assert Validation.ArticleSpecsOk(input.articleSpecs);
  }

  lemma GitHubPasses(isUrl: string -> bool)
    ensures PassesWithUrl(StoreSeed.GitHub(), isUrl)
  {
    var input := Validation.ToInput(StoreSeed.GitHub().Form());
    assert Validation.NameOk(input.name) && Validation.DescriptionOk(input.description);
    assert Validation.CategoryOk(input.category) && Validation.StatusOk(input.status);
    assert Validation.OffersOk(input.offers);
    assert Validation.ArticleSpecsOk(input.articleSpecs);
  }

  /* ---------------------------------------------------------------------
   * The store object
   * ------------------------------------------------------------------- */

  class WebsiteStore {
    var websites: seq<Website>
    var currentWebsite: Option<Website>
    var isLoading: bool

    /** The initial state: the seed records, nothing open, not busy. */
    constructor ()
      ensures websites == StoreSeed.StaticWebsites()
      ensures currentWebsite == None && !isLoading
    {
      websites := StoreSeed.StaticWebsites();
      currentWebsite := None;
      isLoading := false;
    }

    /**
     * Prepends the new record. Its id is found at once, whether or not it
     * was fresh, and a fresh id keeps ids unique.
     */
    method AddWebsite(data: WebsiteFormData, id: string, now: Timestamp)
      modifies this`websites
      ensures websites == [NewRecord(data, id, now)] + old(websites)
      ensures Find(websites, id) == Some(NewRecord(data, id, now))
      ensures UniqueIds(old(websites)) && !HasId(old(websites), id) ==> UniqueIds(websites)
      ensures currentWebsite == old(currentWebsite) && isLoading == old(isLoading)
    {
      websites := [NewRecord(data, id, now)] + websites;
    }

    /** Rewrites every record with the id; with the id absent, changes nothing. */
    method UpdateWebsite(id: string, data: WebsiteFormData, now: Timestamp)
      modifies this`websites
      ensures websites == UpdateAll(old(websites), id, data, now)
      ensures !HasId(old(websites), id) ==> websites == old(websites)
      ensures UniqueIds(old(websites)) ==> UniqueIds(websites)
      ensures currentWebsite == old(currentWebsite) && isLoading == old(isLoading)
    {
      UpdateKeepsIds(websites, id, data, now);
      websites := UpdateAll(websites, id, data, now);
    }

    /** Removes every record with the id, keeping the others in order. */
    method DeleteWebsite(id: string)
      modifies this`websites
      ensures websites == RemoveId(old(websites), id)
      ensures !HasId(websites, id)
      ensures UniqueIds(old(websites)) ==> UniqueIds(websites)
      ensures currentWebsite == old(currentWebsite) && isLoading == old(isLoading)
    {
      if UniqueIds(websites) {
        RemoveKeepsUnique(websites, id);
      }
      websites := RemoveId(websites, id);
      assert !HasId(websites, id) by {
        forall i | 0 <= i < |websites| ensures websites[i].id != id {
          assert websites[i] in websites;
        }
      }
    }

    /** The first record with the id, scanning from the front; the state is only read. */
    method GetWebsite(id: string) returns (r: Option<Website>)
      ensures r == Find(websites, id)
    {
      var i := 0;
      while i < |websites|
        invariant 0 <= i <= |websites|
        invariant forall j :: 0 <= j < i ==> websites[j].id != id
      {
        if websites[i].id == id {
          assert FirstMatch(websites, id, i);
          return Some(websites[i]);
        }
        i := i + 1;
      }
      r := None;
    }

    method SetCurrentWebsite(website: Option<Website>)
      modifies this`currentWebsite
      ensures currentWebsite == website
      ensures websites == old(websites) && isLoading == old(isLoading)
    {
      currentWebsite := website;
    }

    method SetLoading(loading: bool)
      modifies this`isLoading
      ensures isLoading == loading
      ensures websites == old(websites) && currentWebsite == old(currentWebsite)
    {
      isLoading := loading;
    }
  }
}
