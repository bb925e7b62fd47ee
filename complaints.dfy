/** The complaint workflow: residents file complaints with optional attachments,
    staff move them between states and answer them, and the owner of a resolved
    complaint rates it. The listing shows residents only their own complaints. */
module Complaints {
  import opened Foundation
  import opened Paging
  import opened Upload
  import opened Credentials
  import opened AuthGate

  datatype Status = Submitted | InProgress | Resolved | Rejected

  function StatusName(s: Status): string
  {
    match s
    case Submitted => "submitted"
    case InProgress => "in_progress"
    case Resolved => "resolved"
    case Rejected => "rejected"
  }

  /** Membership of a request value in the closed list of states. */
  function ParseStatus(s: string): (r: Option<Status>)
    ensures r.Some? ==> StatusName(r.value) == s
    ensures r.None? ==> forall x :: StatusName(x) != s
  {
    if s == "submitted" then Some(Submitted)
    else if s == "in_progress" then Some(InProgress)
    else if s == "resolved" then Some(Resolved)
    else if s == "rejected" then Some(Rejected)
    else None
  }

  /** One element of the attachments column. */
  datatype Attachment = Attachment(filename: string, originalName: string, path: string, size: nat)

  datatype Complaint = Complaint(
    id: Id, title: string, description: string, category: string, location: Option<string>,
    priority: Priority, status: Status, userId: Id, assignedTo: Option<Id>,
    attachments: seq<Attachment>, response: Option<string>, rating: Option<int>,
    feedback: Option<string>, createdAt: int, updatedAt: int)

  datatype ComplaintBody = ComplaintBody(
    title: Option<string>, description: Option<string>, category: Option<string>,
    location: Option<string>, priority: Option<string>)

  /** A priority field: absent, or one of the three names. */
  predicate PriorityOk(v: Option<string>)
  {
    v.None? || ParsePriority(v.value).Some?
  }

  /** `complaintSchema`, key by key in declaration order. */
  function ComplaintRules(b: ComplaintBody): (rules: seq<Rule>)
    ensures Passes(rules) <==>
              b.title.Some? && 5 <= Utf16Length(b.title.value) <= 255 &&
              b.description.Some? && Utf16Length(b.description.value) >= 10 &&
              b.category.Some? && b.category.value != "" &&
              (b.location.None? || b.location.value != "") && PriorityOk(b.priority)
  {
    var rules := [
      Rule("title", TextOk(b.title, true, 5, Some(255))),
      Rule("description", TextOk(b.description, true, 10, None)),
      Rule("category", TextOk(b.category, true, 0, None)),
      Rule("location", TextOk(b.location, false, 0, None)),
      Rule("priority", PriorityOk(b.priority))];
    assert Passes(rules) <==> rules[0].ok && rules[1].ok && rules[2].ok && rules[3].ok && rules[4].ok;
    rules
  }

  /** The priority a valid body asks for; `normal` when it names none. */
  function PriorityOf(b: ComplaintBody): (p: Priority)
    requires PriorityOk(b.priority)
    ensures b.priority.None? ==> p == Normal
    ensures b.priority.Some? ==> PriorityName(p) == b.priority.value
  {
    if b.priority.None? then Normal else ParsePriority(b.priority.value).value
  }

  /** The attachments column: one element per uploaded file, in upload order. */
  function AttachmentsOf(files: seq<StoredFile>): (list: seq<Attachment>)
    ensures |list| == |files|
    ensures forall i :: 0 <= i < |files| ==>
              list[i] == Attachment(files[i].filename, files[i].originalname, files[i].path, files[i].size)
  {
    if |files| == 0 then []
    else [Attachment(files[0].filename, files[0].originalname, files[0].path, files[0].size)] + AttachmentsOf(files[1..])
  }

  /** The row a valid complaint inserts: owned by the caller, in state `submitted`,
      unassigned, unanswered and unrated. */
  function NewComplaint(b: ComplaintBody, id: Id, owner: Id, files: seq<StoredFile>, now: int): (c: Complaint)
    requires Passes(ComplaintRules(b))
    ensures c.id == id && c.userId == owner && c.status == Submitted
    ensures c.title == b.title.value && c.description == b.description.value && c.category == b.category.value
    ensures c.location == b.location && c.priority == PriorityOf(b)
    ensures c.assignedTo.None? && c.response.None? && c.rating.None? && c.feedback.None?
    ensures c.attachments == AttachmentsOf(files) && c.createdAt == now && c.updatedAt == now
  {
    Complaint(id, b.title.value, b.description.value, b.category.value, b.location, PriorityOf(b),
              Submitted, owner, None, AttachmentsOf(files), None, None, None, now, now)
  }

  /** Query string of the listing; an absent or empty filter is not applied. */
  datatype ComplaintQuery = ComplaintQuery(page: Option<int>, limit: Option<int>, status: Option<string>, category: Option<string>)

  /** A resident sees only complaints they filed; other roles see all of them. */
  predicate Visible(caller: Identity, c: Complaint)
  {
    caller.role != Warga || c.userId == caller.id
  }

  predicate FiltersMatch(c: Complaint, q: ComplaintQuery)
  {
    (q.status.None? || q.status.value == "" || StatusName(c.status) == q.status.value) &&
    (q.category.None? || q.category.value == "" || c.category == q.category.value)
  }

  /** `ORDER BY priority DESC, created_at DESC`. */
  function KeyOf(c: Complaint): SortKey
  {
    SortKey(PriorityRank(c.priority), c.createdAt)
  }

  function ComplaintEntries(table: map<Id, Complaint>, caller: Identity, q: ComplaintQuery): set<Entry<Complaint>>
  {
    set id | id in table && Visible(caller, table[id]) && FiltersMatch(table[id], q) :: Entry(id, KeyOf(table[id]), table[id])
  }

  /** `c` is a complaint of the table that the caller may see and that passes the filters. */
  ghost predicate Listable(table: map<Id, Complaint>, caller: Identity, q: ComplaintQuery, c: Complaint)
  {
    exists id :: id in table && table[id] == c && Visible(caller, c) && FiltersMatch(c, q)
  }

  /** Every complaint of a page may be seen by the caller and passes the filters;
      a resident's page therefore holds only their own complaints. Along the page
      the priority text never increases (normal, then low, then high), and within
      one priority newer complaints come first. */
  lemma {:induction false} ListingRules(table: map<Id, Complaint>, caller: Identity, q: ComplaintQuery,
                                        offset: nat, limit: nat, page: seq<Complaint>)
    requires IsPage(ComplaintEntries(table, caller, q), offset, limit, page)
    ensures |page| <= limit
    ensures forall i :: 0 <= i < |page| ==> Listable(table, caller, q, page[i])
    ensures caller.role == Warga ==> forall i :: 0 <= i < |page| ==> page[i].userId == caller.id
    ensures forall i, j :: 0 <= i < j < |page| ==>
              PriorityRank(page[j].priority) <= PriorityRank(page[i].priority) &&
              (page[j].priority == page[i].priority ==> page[j].createdAt <= page[i].createdAt)
  {
    var entries := ComplaintEntries(table, caller, q);
    PageRows(entries, offset, limit, page);
    forall i | 0 <= i < |page|
      ensures Listable(table, caller, q, page[i])
    {
      assert RowOf(entries, page[i]);
      var e :| e in entries && e.row == page[i];
    }
    forall i, j | 0 <= i < j < |page|
      ensures PriorityRank(page[j].priority) <= PriorityRank(page[i].priority) &&
              (page[j].priority == page[i].priority ==> page[j].createdAt <= page[i].createdAt)
    {
      assert MayPrecede(entries, page[i], page[j]);
      var a, b :| a in entries && b in entries && a.row == page[i] && b.row == page[j] && !Precedes(b.key, a.key);
      assert a.key == KeyOf(a.row) && b.key == KeyOf(b.row);
    }
  }

  const BadStatus := Failure(400, Text("Invalid status"))
  const NoSuchComplaint := Failure(404, Text("Complaint not found"))
  const BadRating := Failure(400, Text("Rating must be between 1 and 5"))
  const NotRateable := Failure(404, Text("Complaint not found or cannot be rated"))

  /** `!rating || rating < 1 || rating > 5`: absent and zero are refused too. */
  predicate RatingOk(rating: Option<int>)
  {
    rating.Some? && rating.value != 0 && 1 <= rating.value <= 5
  }

  /** The complaints table. */
  class ComplaintDesk {
    var table: map<Id, Complaint>

    /** Rows are keyed by id, and a stored rating satisfies the column's CHECK. */
    ghost predicate Valid()
      reads this
    {
      (forall id :: id in table ==> table[id].id == id) &&
      (forall id :: id in table && table[id].rating.Some? ==> 1 <= table[id].rating.value <= 5)
    }

    constructor ()
      ensures Valid() && table == map[]
    {
      table := map[];
    }

    /** POST /complaints, after the upload middleware admitted `files`. */
    method Create(caller: Identity, body: ComplaintBody, files: seq<StoredFile>, newId: Id, now: int)
      returns (r: Result<Complaint>)
      requires Valid() && newId !in table
      modifies this
      ensures Valid()
      ensures r.Err? <==> !Passes(ComplaintRules(body))
      ensures r.Err? ==> r == Err(Validate(ComplaintRules(body)).value) && table == old(table)
      ensures r.Ok? ==>
                r.value == NewComplaint(body, newId, caller.id, files, now) &&
                table == old(table)[newId := r.value]
    {
      var invalid := Validate(ComplaintRules(body));
      if invalid.Some? {
        return Err(invalid.value);
      }
      var c := NewComplaint(body, newId, caller.id, files, now);
      table := table[newId := c];
      r := Ok(c);
    }

    /** GET /complaints: ten per page unless the query says otherwise. */
    method List(caller: Identity, q: ComplaintQuery) returns (r: Result<seq<Complaint>>)
      requires Valid()
      ensures var page := if q.page.Some? then q.page.value else 1;
              var limit := if q.limit.Some? then q.limit.value else 10;
              match Bounds(page, limit)
              case Err(f) => r == Err(f)
              case Ok(window) => r.Ok? && IsPage(ComplaintEntries(table, caller, q), window.0, window.1, r.value)
    {
      var page := if q.page.Some? then q.page.value else 1;
      var limit := if q.limit.Some? then q.limit.value else 10;
      var bounds := Bounds(page, limit);
      if bounds.Err? {
        return Err(bounds.failure);
      }
      var order := Arrange(ComplaintEntries(table, caller, q));
      r := Ok(Rows(Window(order, bounds.value.0, bounds.value.1)));
    }

    /** PATCH /complaints/:id/status, behind `authorizeRoles('admin', 'super_admin')`.
        Any of the four states may follow any other; the response and the assignee
        are overwritten, absent values included. */
    method UpdateStatus(caller: Identity, id: Id, status: Option<string>, response: Option<string>,
                        assignedTo: Option<Id>, now: int) returns (r: Result<Complaint>)
      requires Valid()
      modifies this
      ensures Valid()
      ensures r.Err? ==> table == old(table)
      ensures r == Err(Forbidden) <==> caller.role !in {Admin, SuperAdmin}
      ensures caller.role in {Admin, SuperAdmin} ==>
                (r == Err(BadStatus) <==> status.None? || ParseStatus(status.value).None?)
      ensures caller.role in {Admin, SuperAdmin} && status.Some? && ParseStatus(status.value).Some? ==>
                (r == Err(NoSuchComplaint) <==> id !in old(table))
      ensures r.Ok? <==>
                caller.role in {Admin, SuperAdmin} && status.Some? && ParseStatus(status.value).Some? && id in old(table)
      ensures r.Ok? ==>
                r.value == old(table)[id].(status := ParseStatus(status.value).value, response := response,
                                           assignedTo := assignedTo, updatedAt := now) &&
                table == old(table)[id := r.value]
    {
      var denied := RoleGate(caller, {Admin, SuperAdmin});
      if denied.Some? {
        return Err(denied.value);
      }
      if status.None? || ParseStatus(status.value).None? {
        return Err(BadStatus);
      }
      if id !in table {
        return Err(NoSuchComplaint);
      }
      var c := table[id].(status := ParseStatus(status.value).value, response := response,
                          assignedTo := assignedTo, updatedAt := now);
      table := table[id := c];
      r := Ok(c);
    }

    /** PATCH /complaints/:id/rate: one conditional write on id, owner and state
        `resolved`. Nothing guards an existing rating, so rating again overwrites it. */
    method Rate(caller: Identity, id: Id, rating: Option<int>, feedback: Option<string>, now: int)
      returns (r: Result<Complaint>)
      requires Valid()
      modifies this
      ensures Valid()
      ensures r.Err? ==> table == old(table)
      ensures r == Err(BadRating) <==> !RatingOk(rating)
      ensures RatingOk(rating) ==>
                (r.Ok? <==> id in old(table) && old(table)[id].userId == caller.id && old(table)[id].status == Resolved)
      ensures RatingOk(rating) && r.Err? ==> r == Err(NotRateable)
      ensures r.Ok? ==>
                r.value == old(table)[id].(rating := rating, feedback := feedback, updatedAt := now) &&
                table == old(table)[id := r.value]
    {
      if !RatingOk(rating) {
        return Err(BadRating);
      }
      if id !in table || table[id].userId != caller.id || table[id].status != Resolved {
        return Err(NotRateable);
      }
      var c := table[id].(rating := rating, feedback := feedback, updatedAt := now);
      table := table[id := c];
      r := Ok(c);
    }
  }

  /** The owner of a resolved complaint rates it twice: both calls succeed and the
      second rating replaces the first. */
  method RateTwice(desk: ComplaintDesk, owner: Identity, id: Id, now: int)
    requires desk.Valid()
    requires id in desk.table && desk.table[id].userId == owner.id && desk.table[id].status == Resolved
    modifies desk
    ensures desk.Valid()
    ensures id in desk.table && desk.table[id].rating == Some(2)
  {
    var first := desk.Rate(owner, id, Some(5), None, now);
    assert first.Ok?;
    var second := desk.Rate(owner, id, Some(2), None, now + 1);
    assert second.Ok?;
  }
}
