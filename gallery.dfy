/** The photo gallery: staff upload a batch of images under one title, category
    and tag list, each image becoming a gallery item of its own, and anyone lists
    the items, newest first. */
module Gallery {
  import opened Foundation
  import opened Text
  import opened Paging
  import opened Upload
  import opened Credentials
  import opened AuthGate

  datatype GalleryItem = GalleryItem(
    id: Id, title: string, description: Option<string>, category: string,
    filePath: string, fileSize: nat, mimeType: string, uploadedBy: Id,
    tags: seq<string>, createdAt: int)

  datatype GalleryBody = GalleryBody(
    title: Option<string>, description: Option<string>, category: Option<string>, tags: Option<seq<string>>)

  /** A tag list: absent, or a list of non-empty strings. */
  predicate TagsOk(tags: Option<seq<string>>)
  {
    tags.None? || forall i :: 0 <= i < |tags.value| ==> tags.value[i] != ""
  }

  /** `gallerySchema`, key by key in declaration order. */
  function GalleryRules(b: GalleryBody): (rules: seq<Rule>)
    ensures Passes(rules) <==>
              b.title.Some? && 3 <= Utf16Length(b.title.value) <= 255 &&
              (b.description.None? || b.description.value != "") &&
              b.category.Some? && b.category.value != "" && TagsOk(b.tags)
  {
    var rules := [
      Rule("title", TextOk(b.title, true, 3, Some(255))),
      Rule("description", TextOk(b.description, false, 0, None)),
      Rule("category", TextOk(b.category, true, 0, None)),
      Rule("tags", TagsOk(b.tags))];
    assert Passes(rules) <==> rules[0].ok && rules[1].ok && rules[2].ok && rules[3].ok;
    rules
  }

  /** The row a valid upload inserts for one file: the shared fields of the body,
      the caller as uploader, `tags || []`, and the file's own path, size and type. */
  function NewItem(b: GalleryBody, id: Id, uploader: Id, file: StoredFile, now: int): (g: GalleryItem)
    requires Passes(GalleryRules(b))
    ensures g.id == id && g.uploadedBy == uploader && g.createdAt == now
    ensures g.title == b.title.value && g.description == b.description && g.category == b.category.value
    ensures g.tags == (if b.tags.Some? then b.tags.value else [])
    ensures g.filePath == file.path && g.fileSize == file.size && g.mimeType == file.mimetype
  {
    GalleryItem(id, b.title.value, b.description, b.category.value, file.path, file.size, file.mimetype,
                uploader, if b.tags.Some? then b.tags.value else [], now)
  }

  /** Query string of the listing; an absent or empty filter is not applied. */
  datatype GalleryQuery = GalleryQuery(
    page: Option<int>, limit: Option<int>, category: Option<string>, search: Option<string>)

  /** The search is a case-insensitive substring of the title or of the
      description (a missing description never matches). */
  predicate SearchMatches(g: GalleryItem, q: GalleryQuery)
  {
    q.search.None? || q.search.value == "" ||
    ILikeSubstring(g.title, q.search.value) ||
    (g.description.Some? && ILikeSubstring(g.description.value, q.search.value))
  }

  /** `ORDER BY created_at DESC`. */
  function KeyOf(g: GalleryItem): SortKey
  {
    SortKey(0, g.createdAt)
  }

  function ItemEntries(table: map<Id, GalleryItem>, q: GalleryQuery): set<Entry<GalleryItem>>
  {
    set id | id in table && SearchMatches(table[id], q) :: Entry(id, KeyOf(table[id]), table[id])
  }

  /** `g` is an item of the table that passes the search. */
  ghost predicate Listable(table: map<Id, GalleryItem>, q: GalleryQuery, g: GalleryItem)
  {
    exists id :: id in table && table[id] == g && SearchMatches(g, q)
  }

  /** Every item of a page is stored and passes the search, and newer items come
      first. */
  lemma {:induction false} ListingRules(table: map<Id, GalleryItem>, q: GalleryQuery,
                                        offset: nat, limit: nat, page: seq<GalleryItem>)
    requires IsPage(ItemEntries(table, q), offset, limit, page)
    ensures |page| <= limit
    ensures forall i :: 0 <= i < |page| ==> Listable(table, q, page[i])
    ensures forall i, j :: 0 <= i < j < |page| ==> page[j].createdAt <= page[i].createdAt
  {
    var entries := ItemEntries(table, q);
    PageRows(entries, offset, limit, page);
    forall i | 0 <= i < |page|
      ensures Listable(table, q, page[i])
    {
      assert RowOf(entries, page[i]);
      var e :| e in entries && e.row == page[i];
    }
    forall i, j | 0 <= i < j < |page|
      ensures page[j].createdAt <= page[i].createdAt
    {
      assert MayPrecede(entries, page[i], page[j]);
      var a, b :| a in entries && b in entries && a.row == page[i] && b.row == page[j] && !Precedes(b.key, a.key);
    }
  }

  /** Every row is stored under its own id. */
  ghost predicate Keyed(table: map<Id, GalleryItem>)
  {
    forall id :: id in table ==> table[id].id == id
  }

  /** The rows a valid upload inserts, one per file, in file order. */
  function NewItems(body: GalleryBody, uploader: Id, files: seq<StoredFile>, ids: seq<Id>, now: int): (items: seq<GalleryItem>)
    requires Passes(GalleryRules(body)) && |ids| == |files|
    ensures |items| == |files|
    ensures forall k :: 0 <= k < |files| ==> items[k] == NewItem(body, ids[k], uploader, files[k], now)
  {
    seq(|files|, k requires 0 <= k < |files| => NewItem(body, ids[k], uploader, files[k], now))
  }

  /** `before` after inserting `items[k]` under `ids[k]`, for each k in order. */
  function Inserted(before: map<Id, GalleryItem>, ids: seq<Id>, items: seq<GalleryItem>): map<Id, GalleryItem>
    requires |ids| == |items|
    decreases |ids|
  {
    if |ids| == 0 then before
    else Inserted(before, ids[..|ids| - 1], items[..|items| - 1])[ids[|ids| - 1] := items[|items| - 1]]
  }

  /** `after` is `before` with `items[k]` inserted under the fresh id `ids[k]`,
      for each k, and nothing else changed. */
  ghost predicate Extends(before: map<Id, GalleryItem>, after: map<Id, GalleryItem>, ids: seq<Id>, items: seq<GalleryItem>)
  {
    |ids| == |items| && |after| == |before| + |ids| &&
    (forall k :: 0 <= k < |ids| ==> ids[k] in after && after[ids[k]] == items[k]) &&
    (forall id :: id in after <==> id in before || id in ids) &&
    (forall id :: id in before ==> after[id] == before[id])
  }

  /** Inserting one more row under an id not yet present keeps `Extends`. */
  lemma ExtendsStep(before: map<Id, GalleryItem>, after: map<Id, GalleryItem>, ids: seq<Id>, items: seq<GalleryItem>,
                    id: Id, item: GalleryItem)
    requires Extends(before, after, ids, items) && id !in after
    ensures Extends(before, after[id := item], ids + [id], items + [item])
  {
    var ids', items' := ids + [id], items + [item];
    forall k | 0 <= k < |ids'| ensures ids'[k] in after[id := item] && after[id := item][ids'[k]] == items'[k] {
      if k < |ids| { assert ids'[k] == ids[k] && items'[k] == items[k]; }
    }
    forall x ensures x in after[id := item] <==> x in before || x in ids' {
      assert x in ids' <==> x in ids || x == id;
    }
  }

  /** Inserting rows under fresh, distinct ids adds exactly those rows and changes
      no other. */
  lemma {:induction false} InsertedExtends(before: map<Id, GalleryItem>, ids: seq<Id>, items: seq<GalleryItem>)
    requires |ids| == |items|
    requires forall k :: 0 <= k < |ids| ==> ids[k] !in before
    requires forall j, k :: 0 <= j < k < |ids| ==> ids[j] != ids[k]
    ensures Extends(before, Inserted(before, ids, items), ids, items)
    decreases |ids|
  {
    if |ids| == 0 {
      assert Inserted(before, ids, items) == before;
    } else {
      var n := |ids| - 1;
      InsertedExtends(before, ids[..n], items[..n]);
      var prev := Inserted(before, ids[..n], items[..n]);
      assert ids[n] !in ids[..n] by {
        forall k | 0 <= k < n ensures ids[..n][k] != ids[n] {
          assert ids[..n][k] == ids[k];
        }
      }
      ExtendsStep(before, prev, ids[..n], items[..n], ids[n], items[n]);
      assert ids[..n] + [ids[n]] == ids && items[..n] + [items[n]] == items;
    }
  }

  /** Inserting rows each under its own id keeps every row under its own id. */
  lemma {:induction false} InsertedKeyed(before: map<Id, GalleryItem>, ids: seq<Id>, items: seq<GalleryItem>)
    requires |ids| == |items| && Keyed(before)
    requires forall k :: 0 <= k < |ids| ==> items[k].id == ids[k]
    ensures Keyed(Inserted(before, ids, items))
    decreases |ids|
  {
    if |ids| > 0 {
      var n := |ids| - 1;
      InsertedKeyed(before, ids[..n], items[..n]);
    }
  }

  const FilesRequired := Failure(400, Text("At least one file is required"))

  /** The gallery table. */
  class Album {
    var table: map<Id, GalleryItem>

    /** Rows are keyed by id. */
    ghost predicate Valid()
      reads this
    {
      Keyed(table)
    }

    constructor ()
      ensures Valid() && table == map[]
    {
      table := map[];
    }

    /** GET /gallery (public): twelve per page unless the query says otherwise. A
        category parameter makes the store reject the query, because that condition
        compares the column with a bare number instead of a parameter. */
    method List(q: GalleryQuery) returns (r: Result<seq<GalleryItem>>)
      requires Valid()
      ensures q.category.Some? && q.category.value != "" ==> r == Err(StoreError())
      ensures q.category.None? || q.category.value == "" ==>
                var page := if q.page.Some? then q.page.value else 1;
                var limit := if q.limit.Some? then q.limit.value else 12;
                match Bounds(page, limit)
                case Err(f) => r == Err(f)
                case Ok(window) => r.Ok? && IsPage(ItemEntries(table, q), window.0, window.1, r.value)
    {
      if q.category.Some? && q.category.value != "" {
        return Err(StoreError());
      }
      var page := if q.page.Some? then q.page.value else 1;
      var limit := if q.limit.Some? then q.limit.value else 12;
      var bounds := Bounds(page, limit);
      if bounds.Err? {
        return Err(bounds.failure);
      }
      var order := Arrange(ItemEntries(table, q));
      r := Ok(Rows(Window(order, bounds.value.0, bounds.value.1)));
    }

    /** POST /gallery, behind `authorizeRoles('admin', 'super_admin')` and the
        parser of field `gallery`, whose admitted files are `files`. One row is
        inserted per file, in file order, under the fresh ids `newIds`; the reply
        lists the inserted rows in the same order. */
    method Upload(caller: Identity, body: GalleryBody, files: seq<StoredFile>, newIds: seq<Id>, now: int)
      returns (r: Result<seq<GalleryItem>>)
      requires Valid()
      requires |newIds| == |files|
      requires forall i :: 0 <= i < |newIds| ==> newIds[i] !in table
      requires forall i, j :: 0 <= i < j < |newIds| ==> newIds[i] != newIds[j]
      modifies this
      ensures Valid()
      ensures r.Err? ==> table == old(table)
      ensures r == Err(Forbidden) <==> caller.role !in {Admin, SuperAdmin}
      ensures caller.role in {Admin, SuperAdmin} && !Passes(GalleryRules(body)) ==>
                r == Err(Validate(GalleryRules(body)).value)
      ensures caller.role in {Admin, SuperAdmin} && Passes(GalleryRules(body)) ==>
                (r == Err(FilesRequired) <==> |files| == 0)
      ensures r.Ok? <==> caller.role in {Admin, SuperAdmin} && Passes(GalleryRules(body)) && |files| > 0
      ensures r.Ok? ==>
                r.value == NewItems(body, caller.id, files, newIds, now) &&
                Extends(old(table), table, newIds, r.value)
    {
      var denied := RoleGate(caller, {Admin, SuperAdmin});
      if denied.Some? {
        return Err(denied.value);
      }
      var invalid := Validate(GalleryRules(body));
      if invalid.Some? {
        return Err(invalid.value);
      }
      if |files| == 0 {
        return Err(FilesRequired);
      }
      var items := InsertAll(body, caller.id, files, newIds, now);
      InsertedExtends(old(table), newIds, items);
      InsertedKeyed(old(table), newIds, items);
      r := Ok(items);
    }

    /** The insertion loop of POST /gallery: one row per file, in file order,
        under the ids `newIds`; returns the inserted rows. */
    method InsertAll(body: GalleryBody, uploader: Id, files: seq<StoredFile>, newIds: seq<Id>, now: int)
      returns (items: seq<GalleryItem>)
      requires Passes(GalleryRules(body)) && |newIds| == |files|
      modifies this
      ensures items == NewItems(body, uploader, files, newIds, now)
      ensures table == Inserted(old(table), newIds, items)
    {
      ghost var all := NewItems(body, uploader, files, newIds, now);
      items := [];
      var i := 0;
      while i < |files|
        invariant 0 <= i <= |files|
        invariant items == all[..i]
        invariant table == Inserted(old(table), newIds[..i], items)
      {
        var item := NewItem(body, newIds[i], uploader, files[i], now);
        table := table[newIds[i] := item];
        items := items + [item];
        assert all[..i + 1] == all[..i] + [all[i]];
        assert newIds[..i + 1][..i] == newIds[..i];
        i := i + 1;
      }
      assert newIds[..i] == newIds && all[..i] == all;
    }
  }
}
