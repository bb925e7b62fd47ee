/** The document library: staff upload files with a title and a category, anyone
    lists and downloads the public ones (each download is counted), and staff
    delete them. */
module Documents {
  import opened Foundation
  import opened Text
  import opened Paging
  import opened Upload
  import opened Credentials
  import opened AuthGate

  datatype Document = Document(
    id: Id, title: string, description: Option<string>, category: string,
    filePath: string, fileSize: nat, mimeType: string, uploadedBy: Id,
    isPublic: bool, downloadCount: nat, createdAt: int, updatedAt: int)

  /** The text fields of the multipart form. */
  datatype DocumentBody = DocumentBody(
    title: Option<string>, description: Option<string>, category: Option<string>, isPublic: Option<string>)

  /** A boolean form field: absent, or `true`/`false` in any letter case. */
  predicate BooleanOk(v: Option<string>): (ok: bool)
    ensures v.None? || v == Some("true") || v == Some("false") ==> ok
    ensures ok && v.Some? ==> |v.value| == 4 || |v.value| == 5
    ensures v.Some? ==> (ok <==> Lower(v.value) == "true" || Lower(v.value) == "false")
  {
    v.None? || Lower(v.value) == "true" || Lower(v.value) == "false"
  }

  /** `documentSchema`, key by key in declaration order. */
  function DocumentRules(b: DocumentBody): (rules: seq<Rule>)
    ensures Passes(rules) <==>
              b.title.Some? && 3 <= Utf16Length(b.title.value) <= 255 &&
              (b.description.None? || b.description.value != "") &&
              b.category.Some? && b.category.value != "" && BooleanOk(b.isPublic)
  {
    var rules := [
      Rule("title", TextOk(b.title, true, 3, Some(255))),
      Rule("description", TextOk(b.description, false, 0, None)),
      Rule("category", TextOk(b.category, true, 0, None)),
      Rule("isPublic", BooleanOk(b.isPublic))];
    assert Passes(rules) <==> rules[0].ok && rules[1].ok && rules[2].ok && rules[3].ok;
    rules
  }

  /** The visibility a valid body asks for; public when it names none. */
  function PublicOf(b: DocumentBody): (public: bool)
    ensures b.isPublic.None? ==> public
    ensures b.isPublic.Some? ==> (public <==> Lower(b.isPublic.value) == "true")
  {
    b.isPublic.None? || Lower(b.isPublic.value) == "true"
  }

  /** The row a valid upload inserts: uploaded by the caller, pointing at the
      stored file, never downloaded yet. */
  function NewDocument(b: DocumentBody, id: Id, uploader: Id, file: StoredFile, now: int): (d: Document)
    requires Passes(DocumentRules(b))
    ensures d.id == id && d.uploadedBy == uploader && d.downloadCount == 0
    ensures d.title == b.title.value && d.description == b.description && d.category == b.category.value
    ensures d.filePath == file.path && d.fileSize == file.size && d.mimeType == file.mimetype
    ensures d.isPublic == PublicOf(b) && d.createdAt == now && d.updatedAt == now
  {
    Document(id, b.title.value, b.description, b.category.value, file.path, file.size, file.mimetype,
             uploader, PublicOf(b), 0, now, now)
  }

  /** Query string of the listing; an absent or empty filter is not applied. */
  datatype DocumentQuery = DocumentQuery(
    page: Option<int>, limit: Option<int>, category: Option<string>, search: Option<string>)

  /** The category filter is an equality; the search is a case-insensitive
      substring of the title or of the description (a missing description never
      matches). */
  predicate FiltersMatch(d: Document, q: DocumentQuery)
  {
    (q.category.None? || q.category.value == "" || d.category == q.category.value) &&
    (q.search.None? || q.search.value == "" ||
     ILikeSubstring(d.title, q.search.value) ||
     (d.description.Some? && ILikeSubstring(d.description.value, q.search.value)))
  }

  /** `ORDER BY created_at DESC`. */
  function KeyOf(d: Document): SortKey
  {
    SortKey(0, d.createdAt)
  }

  function PublicEntries(table: map<Id, Document>, q: DocumentQuery): set<Entry<Document>>
  {
    set id | id in table && table[id].isPublic && FiltersMatch(table[id], q) :: Entry(id, KeyOf(table[id]), table[id])
  }

  /** `d` is a public document of the table that passes the filters. */
  ghost predicate Listable(table: map<Id, Document>, q: DocumentQuery, d: Document)
  {
    exists id :: id in table && table[id] == d && d.isPublic && FiltersMatch(d, q)
  }

  /** Every document of a page is public, stored, and passes the filters, and
      newer documents come first. */
  lemma {:induction false} ListingRules(table: map<Id, Document>, q: DocumentQuery,
                                        offset: nat, limit: nat, page: seq<Document>)
    requires IsPage(PublicEntries(table, q), offset, limit, page)
    ensures |page| <= limit
    ensures forall i :: 0 <= i < |page| ==> Listable(table, q, page[i])
    ensures forall i, j :: 0 <= i < j < |page| ==> page[j].createdAt <= page[i].createdAt
  {
    var entries := PublicEntries(table, q);
    PageRows(entries, offset, limit, page);
    forall i | 0 <= i < |page|
      ensures Listable(table, q, page[i])
    {
      assert RowOf(entries, page[i]);
      var e :| e in entries && e.row == page[i];
    }
    forall i, j | 0 <= i < j < |page|
      ensures page[j].createdAt <= page[i].createdAt
    {
      assert MayPrecede(entries, page[i], page[j]);
      var a, b :| a in entries && b in entries && a.row == page[i] && b.row == page[j] && !Precedes(b.key, a.key);
    }
  }

  /** The download route finds the row: it exists and is public. */
  predicate Downloadable(table: map<Id, Document>, id: Id)
  {
    id in table && table[id].isPublic
  }

  /** The list and the download route agree: a listed document (with no filter)
      can be downloaded, and a document that can be downloaded is a candidate of
      the unfiltered list. */
  lemma ListedIffDownloadable(table: map<Id, Document>, id: Id)
    requires forall k :: k in table ==> table[k].id == k
    ensures Downloadable(table, id) <==>
              exists e :: e in PublicEntries(table, DocumentQuery(None, None, None, None)) && e.id == id
  {
    if Downloadable(table, id) {
      assert Entry(id, KeyOf(table[id]), table[id]) in PublicEntries(table, DocumentQuery(None, None, None, None));
    }
  }

  /** What a successful download sends: the stored file, under the document's title. */
  datatype Sent = Sent(path: string, name: string)

  const FileRequired := Failure(400, Text("Document file is required"))
  const NoSuchDocument := Failure(404, Text("Document not found"))

  /** The documents table. */
  class Library {
    var table: map<Id, Document>

    /** Rows are keyed by id. */
    ghost predicate Valid()
      reads this
    {
      forall id :: id in table ==> table[id].id == id
    }

    constructor ()
      ensures Valid() && table == map[]
    {
      table := map[];
    }

    /** GET /documents (public): ten per page unless the query says otherwise. */
    method List(q: DocumentQuery) returns (r: Result<seq<Document>>)
      requires Valid()
      ensures var page := if q.page.Some? then q.page.value else 1;
              var limit := if q.limit.Some? then q.limit.value else 10;
              match Bounds(page, limit)
              case Err(f) => r == Err(f)
              case Ok(window) => r.Ok? && IsPage(PublicEntries(table, q), window.0, window.1, r.value)
    {
      var page := if q.page.Some? then q.page.value else 1;
      var limit := if q.limit.Some? then q.limit.value else 10;
      var bounds := Bounds(page, limit);
      if bounds.Err? {
        return Err(bounds.failure);
      }
      var order := Arrange(PublicEntries(table, q));
      r := Ok(Rows(Window(order, bounds.value.0, bounds.value.1)));
    }

    /** POST /documents, behind `authorizeRoles('admin', 'super_admin')` and the
        single-file parser of field `documents`, whose result is `file`. */
    method Upload(caller: Identity, body: DocumentBody, file: Option<StoredFile>, newId: Id, now: int)
      returns (r: Result<Document>)
      requires Valid() && newId !in table
      modifies this
      ensures Valid()
      ensures r.Err? ==> table == old(table)
      ensures r == Err(Forbidden) <==> caller.role !in {Admin, SuperAdmin}
      ensures caller.role in {Admin, SuperAdmin} && !Passes(DocumentRules(body)) ==>
                r == Err(Validate(DocumentRules(body)).value)
      ensures caller.role in {Admin, SuperAdmin} && Passes(DocumentRules(body)) ==>
                (r == Err(FileRequired) <==> file.None?)
      ensures r.Ok? <==> caller.role in {Admin, SuperAdmin} && Passes(DocumentRules(body)) && file.Some?
      ensures r.Ok? ==>
                r.value == NewDocument(body, newId, caller.id, file.value, now) &&
                table == old(table)[newId := r.value]
    {
      var denied := RoleGate(caller, {Admin, SuperAdmin});
      if denied.Some? {
        return Err(denied.value);
      }
      var invalid := Validate(DocumentRules(body));
      if invalid.Some? {
        return Err(invalid.value);
      }
      if file.None? {
        return Err(FileRequired);
      }
      var d := NewDocument(body, newId, caller.id, file.value, now);
      table := table[newId := d];
      r := Ok(d);
    }

    /** GET /documents/:id/download (public): counts the download and sends the file. */
    method Download(id: Id) returns (r: Result<Sent>)
      requires Valid()
      modifies this
      ensures Valid()
      ensures r.Ok? <==> Downloadable(old(table), id)
      ensures r.Err? ==> r == Err(NoSuchDocument) && table == old(table)
      ensures r.Ok? ==>
                r.value == Sent(old(table)[id].filePath, old(table)[id].title) &&
                table == old(table)[id := old(table)[id].(downloadCount := old(table)[id].downloadCount + 1)]
    {
      if !Downloadable(table, id) {
        return Err(NoSuchDocument);
      }
      var d := table[id];
      table := table[id := d.(downloadCount := d.downloadCount + 1)];
      r := Ok(Sent(d.filePath, d.title));
    }

    /** DELETE /documents/:id, behind `authorizeRoles('admin', 'super_admin')`;
        private documents are deleted too. */
    method Delete(caller: Identity, id: Id) returns (r: Result<Id>)
      requires Valid()
      modifies this
      ensures Valid()
      ensures r == Err(Forbidden) <==> caller.role !in {Admin, SuperAdmin}
      ensures caller.role in {Admin, SuperAdmin} ==> (r == Err(NoSuchDocument) <==> id !in old(table))
      ensures r.Ok? <==> caller.role in {Admin, SuperAdmin} && id in old(table)
      ensures r.Err? ==> table == old(table) && (r == Err(Forbidden) || r == Err(NoSuchDocument))
      ensures r.Ok? ==> r.value == id && id in old(table) && table == old(table) - {id}
    {
      var denied := RoleGate(caller, {Admin, SuperAdmin});
      if denied.Some? {
        return Err(denied.value);
      }
      if id !in table {
        return Err(NoSuchDocument);
      }
      table := table - {id};
      r := Ok(id);
    }
  }

  /** Each successful download adds exactly one to the counter: two downloads of a
      public document raise it by two and leave every other row alone. */
  method DownloadTwice(lib: Library, id: Id)
    requires lib.Valid() && Downloadable(lib.table, id)
    modifies lib
    ensures lib.Valid() && id in lib.table
    ensures lib.table[id] == old(lib.table)[id].(downloadCount := old(lib.table)[id].downloadCount + 2)
    ensures forall k :: k != id ==> (k in lib.table <==> k in old(lib.table))
    ensures forall k :: k != id && k in old(lib.table) ==> lib.table[k] == old(lib.table)[k]
  {
    var first := lib.Download(id);
    assert lib.table[id].downloadCount == old(lib.table)[id].downloadCount + 1;
    var second := lib.Download(id);
    assert lib.table[id].downloadCount == old(lib.table)[id].downloadCount + 2;
  }
}
