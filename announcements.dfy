/** Announcement publishing: staff create, edit and delete announcements; anyone
    may read the published ones whose scheduled time, if any, has come. Creation
    decides once whether an announcement is published or scheduled, and nothing
    afterwards changes that state. */
module Announcements {
  import opened Foundation
  import opened Paging
  import opened Credentials
  import opened AuthGate

  datatype Category = Urgent | Info | Event

  function ParseCategory(s: string): (r: Option<Category>)
    ensures r.Some? <==> s in {"urgent", "info", "event"}
    ensures r == Some(Urgent) <==> s == "urgent"
    ensures r == Some(Info) <==> s == "info"
    ensures r == Some(Event) <==> s == "event"
  {
    if s == "urgent" then Some(Urgent)
    else if s == "info" then Some(Info)
    else if s == "event" then Some(Event)
    else None
  }

  /** `draft` is the column default; no handler writes it. */
  datatype PubStatus = Draft | Scheduled | Published

  datatype Announcement = Announcement(
    id: Id, title: string, content: string, category: Category, priority: Priority,
    status: PubStatus, authorId: Id, scheduledAt: Option<int>, publishedAt: Option<int>,
    createdAt: int, updatedAt: int)

  /** Request body; `scheduledAt` is a date the validator already accepted. */
  datatype AnnouncementBody = AnnouncementBody(
    title: Option<string>, content: Option<string>, category: Option<string>,
    priority: Option<string>, scheduledAt: Option<int>)

  /** `announcementSchema`, key by key in declaration order. */
  function AnnouncementRules(b: AnnouncementBody): (rules: seq<Rule>)
    ensures Passes(rules) <==>
              b.title.Some? && 3 <= Utf16Length(b.title.value) <= 255 &&
              b.content.Some? && Utf16Length(b.content.value) >= 10 &&
              (b.category.None? || ParseCategory(b.category.value).Some?) &&
              (b.priority.None? || ParsePriority(b.priority.value).Some?)
  {
    var rules := [
      Rule("title", TextOk(b.title, true, 3, Some(255))),
      Rule("content", TextOk(b.content, true, 10, None)),
      Rule("category", b.category.None? || ParseCategory(b.category.value).Some?),
      Rule("priority", b.priority.None? || ParsePriority(b.priority.value).Some?)];
    assert Passes(rules) <==> rules[0].ok && rules[1].ok && rules[2].ok && rules[3].ok;
    rules
  }

  /** Category of a valid body: `info` when it names none. */
  function CategoryOf(b: AnnouncementBody): (c: Category)
    requires Passes(AnnouncementRules(b))
    ensures b.category.None? ==> c == Info
    ensures b.category.Some? ==> ParseCategory(b.category.value) == Some(c)
  {
    if b.category.None? then Info else ParseCategory(b.category.value).value
  }

  /** Priority of a valid body: `normal` when it names none. */
  function PriorityOf(b: AnnouncementBody): (p: Priority)
    requires Passes(AnnouncementRules(b))
    ensures b.priority.None? ==> p == Normal
    ensures b.priority.Some? ==> PriorityName(p) == b.priority.value
  {
    if b.priority.None? then Normal else ParsePriority(b.priority.value).value
  }

  /** The row creation inserts: scheduled and unpublished when the body names a
      time, published now otherwise; the author is the caller. */
  function NewAnnouncement(b: AnnouncementBody, id: Id, author: Id, now: int): (a: Announcement)
    requires Passes(AnnouncementRules(b))
    ensures a.status == Scheduled <==> b.scheduledAt.Some?
    ensures a.status == Published <==> b.scheduledAt.None?
    ensures a.scheduledAt == b.scheduledAt
    ensures a.publishedAt == (if b.scheduledAt.Some? then None else Some(now))
    ensures a.id == id && a.authorId == author && a.title == b.title.value && a.content == b.content.value
    ensures a.category == CategoryOf(b) && a.priority == PriorityOf(b)
    ensures a.createdAt == now && a.updatedAt == now
  {
    Announcement(id, b.title.value, b.content.value, CategoryOf(b), PriorityOf(b),
                 if b.scheduledAt.Some? then Scheduled else Published, author, b.scheduledAt,
                 if b.scheduledAt.Some? then None else Some(now), now, now)
  }

  /** The public list's condition: published, and not scheduled for later. */
  predicate Visible(a: Announcement, now: int)
  {
    a.status == Published && (a.scheduledAt.None? || a.scheduledAt.value <= now)
  }

  /** Created without a time, an announcement is visible at once; created with one,
      it is never visible, whatever the clock says. */
  lemma CreatedVisibility(b: AnnouncementBody, id: Id, author: Id, created: int, now: int)
    requires Passes(AnnouncementRules(b))
    ensures Visible(NewAnnouncement(b, id, author, created), now) <==> b.scheduledAt.None?
  {
  }

  /** Query string of the public list. */
  datatype AnnouncementQuery = AnnouncementQuery(
    page: Option<int>, limit: Option<int>, category: Option<string>, search: Option<string>)

  function KeyOf(a: Announcement): SortKey
  {
    SortKey(PriorityRank(a.priority), a.createdAt)
  }

  function VisibleEntries(table: map<Id, Announcement>, now: int): set<Entry<Announcement>>
  {
    set id | id in table && Visible(table[id], now) :: Entry(id, KeyOf(table[id]), table[id])
  }

  /** The ids the count query counts: published rows, scheduled time ignored. */
  function PublishedIds(table: map<Id, Announcement>): set<Id>
  {
    set id | id in table && table[id].status == Published
  }

  function VisibleIds(table: map<Id, Announcement>, now: int): set<Id>
  {
    set id | id in table && Visible(table[id], now)
  }

  /** The total the list reports is never below the number of rows it can show. */
  lemma TotalCoversVisible(table: map<Id, Announcement>, now: int)
    ensures VisibleIds(table, now) <= PublishedIds(table)
    ensures |VisibleIds(table, now)| <= |PublishedIds(table)|
  {
    SubsetCardinality(VisibleIds(table, now), PublishedIds(table));
  }

  lemma {:induction false} SubsetCardinality<T>(a: set<T>, b: set<T>)
    requires a <= b
    ensures |a| <= |b|
  {
    if a != {} {
      var x :| x in a;
      SubsetCardinality(a - {x}, b - {x});
    }
  }

  datatype ListReply = ListReply(rows: seq<Announcement>, total: nat, pages: Option<nat>)

  const NoSuchAnnouncement := Failure(404, Text("Announcement not found"))

  /** The announcements table. */
  class Board {
    var table: map<Id, Announcement>

    /** Rows are keyed by id; a scheduled row has no publication time and a
        published row has one; no row is a draft. */
    ghost predicate Valid()
      reads this
    {
      forall id :: id in table ==>
        table[id].id == id && table[id].status != Draft &&
        (table[id].status == Scheduled ==> table[id].publishedAt.None?) &&
        (table[id].status == Published ==> table[id].publishedAt.Some?)
    }

    constructor ()
      ensures Valid() && table == map[]
    {
      table := map[];
    }

    /** GET /announcements (public). A category or search parameter makes the store
        reject the query, because those conditions compare the column with a bare
        number instead of a parameter. */
    method List(q: AnnouncementQuery, now: int) returns (r: Result<ListReply>)
      requires Valid()
      ensures (q.category.Some? && q.category.value != "") || (q.search.Some? && q.search.value != "") ==>
                r == Err(StoreError())
      ensures (q.category.None? || q.category.value == "") && (q.search.None? || q.search.value == "") ==>
                var page := if q.page.Some? then q.page.value else 1;
                var limit := if q.limit.Some? then q.limit.value else 10;
                match Bounds(page, limit)
                case Err(f) => r == Err(f)
                case Ok(window) =>
                  r.Ok? && IsPage(VisibleEntries(table, now), window.0, window.1, r.value.rows) &&
                  r.value.total == |PublishedIds(table)| &&
                  r.value.pages == PageCount(|PublishedIds(table)|, window.1)
    {
      if (q.category.Some? && q.category.value != "") || (q.search.Some? && q.search.value != "") {
        return Err(StoreError());
      }
      var page := if q.page.Some? then q.page.value else 1;
      var limit := if q.limit.Some? then q.limit.value else 10;
      var bounds := Bounds(page, limit);
      if bounds.Err? {
        return Err(bounds.failure);
      }
      var order := Arrange(VisibleEntries(table, now));
      var total := |PublishedIds(table)|;
      r := Ok(ListReply(Rows(Window(order, bounds.value.0, bounds.value.1)), total, PageCount(total, bounds.value.1)));
    }

    /** POST /announcements, behind `authorizeRoles('admin', 'super_admin')`. */
    method Create(caller: Identity, body: AnnouncementBody, newId: Id, now: int) returns (r: Result<Announcement>)
      requires Valid() && newId !in table
      modifies this
      ensures Valid()
      ensures r.Err? ==> table == old(table)
      ensures r == Err(Forbidden) <==> caller.role !in {Admin, SuperAdmin}
      ensures caller.role in {Admin, SuperAdmin} && !Passes(AnnouncementRules(body)) ==>
                r == Err(Validate(AnnouncementRules(body)).value)
      ensures r.Ok? <==> caller.role in {Admin, SuperAdmin} && Passes(AnnouncementRules(body))
      ensures r.Ok? ==> r.value == NewAnnouncement(body, newId, caller.id, now) && table == old(table)[newId := r.value]
    {
      var denied := RoleGate(caller, {Admin, SuperAdmin});
      if denied.Some? {
        return Err(denied.value);
      }
      var invalid := Validate(AnnouncementRules(body));
      if invalid.Some? {
        return Err(invalid.value);
      }
      var a := NewAnnouncement(body, newId, caller.id, now);
      table := table[newId := a];
      r := Ok(a);
    }

    /** PUT /announcements/:id, behind `authorizeRoles('admin', 'super_admin')`. The
        body is validated as for creation, with the same defaults; an absent time
        clears the schedule. The state and the publication time are kept. */
    method Update(caller: Identity, id: Id, body: AnnouncementBody, now: int) returns (r: Result<Announcement>)
      requires Valid()
      modifies this
      ensures Valid()
      ensures r.Err? ==> table == old(table)
      ensures r == Err(Forbidden) <==> caller.role !in {Admin, SuperAdmin}
      ensures caller.role in {Admin, SuperAdmin} && !Passes(AnnouncementRules(body)) ==>
                r == Err(Validate(AnnouncementRules(body)).value)
      ensures caller.role in {Admin, SuperAdmin} && Passes(AnnouncementRules(body)) ==>
                (r == Err(NoSuchAnnouncement) <==> id !in old(table))
      ensures r.Ok? <==> caller.role in {Admin, SuperAdmin} && Passes(AnnouncementRules(body)) && id in old(table)
      ensures r.Ok? ==>
                r.value == old(table)[id].(title := body.title.value, content := body.content.value,
                                           category := CategoryOf(body), priority := PriorityOf(body),
                                           scheduledAt := body.scheduledAt, updatedAt := now) &&
                table == old(table)[id := r.value]
      ensures forall k :: k in old(table) ==>
                k in table && table[k].status == old(table)[k].status &&
                table[k].publishedAt == old(table)[k].publishedAt
    {
      var denied := RoleGate(caller, {Admin, SuperAdmin});
      if denied.Some? {
        return Err(denied.value);
      }
      var invalid := Validate(AnnouncementRules(body));
      if invalid.Some? {
        return Err(invalid.value);
      }
      if id !in table {
        return Err(NoSuchAnnouncement);
      }
      var a := table[id].(title := body.title.value, content := body.content.value,
                          category := CategoryOf(body), priority := PriorityOf(body),
                          scheduledAt := body.scheduledAt, updatedAt := now);
      table := table[id := a];
      r := Ok(a);
    }

    /** DELETE /announcements/:id, behind `authorizeRoles('admin', 'super_admin')`. */
    method Delete(caller: Identity, id: Id) returns (r: Result<Id>)
      requires Valid()
      modifies this
      ensures Valid()
      ensures r == Err(Forbidden) <==> caller.role !in {Admin, SuperAdmin}
      ensures caller.role in {Admin, SuperAdmin} ==> (r == Err(NoSuchAnnouncement) <==> id !in old(table))
      ensures r.Ok? <==> caller.role in {Admin, SuperAdmin} && id in old(table)
      ensures r.Err? ==> table == old(table) && (r == Err(Forbidden) || r == Err(NoSuchAnnouncement))
      ensures r.Ok? ==> r.value == id && id in old(table) && table == old(table) - {id}
    {
      var denied := RoleGate(caller, {Admin, SuperAdmin});
      if denied.Some? {
        return Err(denied.value);
      }
      if id !in table {
        return Err(NoSuchAnnouncement);
      }
      table := table - {id};
      r := Ok(id);
    }
  }

  /** An edit of a scheduled announcement leaves it scheduled, so it stays out of
      the public list at every time. */
  method EditKeepsScheduledHidden(board: Board, caller: Identity, id: Id, edit: AnnouncementBody, now: int, at: int)
    requires board.Valid() && id in board.table && board.table[id].status == Scheduled
    modifies board
    ensures board.Valid()
    ensures id in board.table && board.table[id].status == Scheduled && !Visible(board.table[id], at)
  {
    var _ := board.Update(caller, id, edit, now);
  }
}
