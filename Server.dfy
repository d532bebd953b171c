/**
 * The blog routes of backend/server.js over the `blogs` table. Every route but
 * the two public ones runs behind `tokenMiddleware`; the caller's identity is
 * the `user_id` of the verified claims, never a value from the request body.
 * `storeError` stands for the store reporting an error on the route's query
 * (the `if (error)` branches).
 */
module Server {
  import opened Wrappers
  import opened Auth
  import opened BlogTable

  /** The JSON body of save-draft, publish and `PUT`. `id` is `None` when absent;
      a `user_id` in the body is never read, so it is not modelled. */
  datatype PostBody = PostBody(id: Option<int>, title: string, content: string, tags: seq<string>, status: string)

  /** `if (id)`: an absent id and the id 0 are falsy. */
  predicate HasId(id: Option<int>)
  {
    id.Some? && id.value != 0
  }

  /** A row of the public list: the selected columns `id, title, created_at,
      tags, status` plus `author_name`. */
  datatype Summary = Summary(id: int, title: string, createdAt: int, tags: seq<string>, status: string, authorName: string)

  /** The public single-post projection `id, title, content, tags, created_at`. */
  datatype PublicPost = PublicPost(id: int, title: string, content: string, tags: seq<string>, createdAt: int)

  /** JSON reply bodies. */
  datatype Body =
    | Message(text: string)        // { message: text }
    | ErrorText(text: string)      // { error: text }
    | StoreErrorBody               // { error } carrying the store's error object
    | EmptyObject                  // { error: undefined }, which serialises as {}
    | RowList(rows: seq<Row>)      // an array of rows
    | OneRow(row: Row)             // a single row
    | SummaryList(items: seq<Summary>)
    | OnePost(post: PublicPost)

  datatype Response = Response(status: int, body: Body)

  /** The blog routes, with their path parameter and body. */
  datatype Request =
    | SaveDraft(body: PostBody)          // POST /api/blogs/save-draft
    | Drafts                             // GET /api/blogs/drafts
    | Publish(body: PostBody)            // POST /api/blogs/publish
    | MyBlogs                            // GET /api/blogs
    | GetBlog(id: int)                   // GET /api/blogs/:id
    | PutBlog(id: int, body: PostBody)   // PUT /api/blogs/:id
    | DeleteBlog(id: int)                // DELETE /api/blogs/:id
    | PublicBlogs                        // GET /api/public/blogs
    | PublicBlog(id: int)                // GET /api/public/blogs/:id

  /** The routes registered with `tokenMiddleware`. */
  predicate NeedsToken(req: Request)
  {
    !(req.PublicBlogs? || req.PublicBlog?)
  }

  /** The table after a route, and its reply. */
  datatype Outcome = Outcome(table: Table, response: Response)

  // ---------------------------------------------------------------------------
  // Write routes
  // ---------------------------------------------------------------------------

  /** The row save-draft or publish inserts: the body's title, content and tags,
      the forced status and the caller as owner; the store sets `id` and
      `created_at`. */
  function NewRow(body: PostBody, status: string, owner: string, now: int): Row
  {
    Row(0, body.title, body.content, body.tags, status, owner, now, None)
  }

  /** The update save-draft, publish and `PUT` send. */
  function PatchOf(body: PostBody, status: string, now: int): Patch
  {
    Patch(body.title, body.content, body.tags, status, now)
  }

  /** save-draft (`status` "draft") and publish (`status` "published"): with a
      truthy id, an owner-scoped update forcing the status; otherwise an insert.
      `updated` is the reply message of the update branch. */
  function Upsert(t: Table, owner: string, body: PostBody, status: string, updated: string,
                  now: int, storeError: bool): Outcome
  {
    if storeError then Outcome(t, Response(400, StoreErrorBody))
    else if HasId(body.id) then
      Outcome(UpdateWhere(t, OwnedBy(body.id.value, owner), PatchOf(body, status, now)),
              Response(200, Message(updated)))
    else
      var row := NewRow(body, status, owner, now);
      Outcome(Insert(t, row), Response(200, RowList([row.(id := t.nextId)])))
  }

  /** `PUT /api/blogs/:id`: an owner-scoped update that writes the body's
      status as given. */
  function Put(t: Table, owner: string, id: int, body: PostBody, now: int, storeError: bool): Outcome
  {
    if storeError then Outcome(t, Response(400, StoreErrorBody))
    else Outcome(UpdateWhere(t, OwnedBy(id, owner), PatchOf(body, body.status, now)),
                 Response(200, Message("Blog updated")))
  }

  /** `DELETE /api/blogs/:id`. Line 137 binds the whole query result, which is
      always an object, to `error`, so the reply is 500 with an empty body
      whether or not the delete happened. */
  function Delete(t: Table, owner: string, id: int, storeError: bool): Outcome
  {
    var after := if storeError then t else DeleteWhere(t, OwnedBy(id, owner));
    Outcome(after, Response(500, EmptyObject))
  }

  // ---------------------------------------------------------------------------
  // Read routes
  // ---------------------------------------------------------------------------

  /** The query of `GET /api/blogs/drafts`. */
  function DraftsOf(t: Table, owner: string): seq<Row>
    requires WellFormed(t)
  {
    Select(t, OwnerAndStatus(owner, "draft"))
  }

  /** The query of `GET /api/blogs`. */
  function BlogsOf(t: Table, owner: string): seq<Row>
    requires WellFormed(t)
  {
    Select(t, OwnerIs(owner))
  }

  /** `blog.users?.display_name || 'Unknown'`. */
  function AuthorName(displayName: Option<string>): string
  {
    match displayName
    case Some(n) => if n != "" then n else "Unknown"
    case None => "Unknown"
  }

  /** A published row as the public list shows it. The query never selects
      `users`, so there is no display name to show. */
  function Summarize(r: Row): Summary
  {
    Summary(r.id, r.title, r.createdAt, r.tags, r.status, AuthorName(None))
  }

  /** `GET /api/public/blogs`: the published rows, newest first, projected. */
  function PublicListing(t: Table): (list: seq<Summary>)
    requires WellFormed(t)
  {
    var sorted := SortNewestFirst(Select(t, StatusOf("published")));
    seq(|sorted|, i requires 0 <= i < |sorted| => Summarize(sorted[i]))
  }

  function Project(r: Row): PublicPost
  {
    PublicPost(r.id, r.title, r.content, r.tags, r.createdAt)
  }

  /** The query of `GET /api/public/blogs/:id`, `.single()` included. */
  function PublicPostOf(t: Table, id: int): Option<PublicPost>
    requires WellFormed(t)
  {
    match Single(Select(t, IdAndStatus(id, "published")))
    case None => None
    case Some(r) => Some(Project(r))
  }

  /** A route's effect once the middleware (if any) has let it through;
      `owner` is the verified `user_id`. */
  function Route(t: Table, req: Request, owner: string, now: int, storeError: bool): Outcome
    requires WellFormed(t)
  {
    match req
    case SaveDraft(body) => Upsert(t, owner, body, "draft", "Draft updated", now, storeError)
    case Publish(body) => Upsert(t, owner, body, "published", "Blog published", now, storeError)
    case PutBlog(id, body) => Put(t, owner, id, body, now, storeError)
    case DeleteBlog(id) => Delete(t, owner, id, storeError)
    case Drafts =>
      Outcome(t, if storeError then Response(400, StoreErrorBody) else Response(200, RowList(DraftsOf(t, owner))))
    case MyBlogs =>
      Outcome(t, if storeError then Response(400, StoreErrorBody) else Response(200, RowList(BlogsOf(t, owner))))
    case GetBlog(id) =>
      var found := Single(Select(t, OwnedBy(id, owner)));
      Outcome(t, if storeError || found.None? then Response(404, ErrorText("Blog not found"))
                 else Response(200, OneRow(found.value)))
    case PublicBlogs =>
      Outcome(t, if storeError then Response(400, StoreErrorBody) else Response(200, SummaryList(PublicListing(t))))
    case PublicBlog(id) =>
      var found := PublicPostOf(t, id);
      Outcome(t, if storeError || found.None? then Response(404, ErrorText("Blog not found"))
                 else Response(200, OnePost(found.value)))
  }

  /** The reply `tokenMiddleware` sends when it refuses a request. */
  function Refusal(g: Gate): Response
    requires !g.Proceed?
  {
    if g.Unauthorized? then Response(GateStatus(g), ErrorText("Unauthorized"))
    else Response(GateStatus(g), ErrorText("Invalid token"))
  }

  /** A request as the server handles it: the middleware first on protected
      routes, then the route. */
  function Serve(t: Table, req: Request, header: Option<string>, decode: string -> Option<Claims>,
                 now: int, storeError: bool): Outcome
    requires WellFormed(t)
  {
    if !NeedsToken(req) then Route(t, req, "", now, storeError)
    else
      match Middleware(header, decode, now)
      case Proceed(c) => Route(t, req, c.userId, now, storeError)
      case g => Outcome(t, Refusal(g))
  }

  /** The caller's verified `user_id`, for a protected route the middleware
      lets through. */
  function Caller(req: Request, header: Option<string>, decode: string -> Option<Claims>, now: int): Option<string>
  {
    if !NeedsToken(req) then None
    else match Middleware(header, decode, now)
      case Proceed(c) => Some(c.userId)
      case _ => None
  }

  // ---------------------------------------------------------------------------
  // The server object
  // ---------------------------------------------------------------------------

  /** The shared `blogs` table the route handlers update in place. */
  class BlogServer {
    var rows: map<int, Row>
    var nextId: int

    ghost predicate Valid()
      reads this
    {
      WellFormed(Table(rows, nextId))
    }

    function State(): Table
      reads this
    {
      Table(rows, nextId)
    }

    constructor ()
      ensures Valid() && rows == map[] && nextId == 1
    {
      rows := map[];
      nextId := 1;
    }

    /** The handler shared by save-draft and publish. */
    method UpsertBlog(owner: string, body: PostBody, status: string, updated: string, now: int, storeError: bool)
      returns (resp: Response)
      requires Valid()
      modifies this
      ensures Valid()
      ensures Outcome(State(), resp) == Upsert(old(State()), owner, body, status, updated, now, storeError)
    {
      if HasId(body.id) {
        if storeError {
          return Response(400, StoreErrorBody);
        }
        UpdateOwned(State(), body.id.value, owner, PatchOf(body, status, now));
        rows := UpdateWhere(State(), OwnedBy(body.id.value, owner), PatchOf(body, status, now)).rows;
        resp := Response(200, Message(updated));
      } else {
        if storeError {
          return Response(400, StoreErrorBody);
        }
        var row := NewRow(body, status, owner, now).(id := nextId);
        rows := rows[nextId := row];
        nextId := nextId + 1;
        resp := Response(200, RowList([row]));
      }
    }

    /** `POST /api/blogs/save-draft`, after the middleware. */
    method SaveDraft(owner: string, body: PostBody, now: int, storeError: bool) returns (resp: Response)
      requires Valid()
      modifies this
      ensures Valid()
      ensures Outcome(State(), resp) == Route(old(State()), Request.SaveDraft(body), owner, now, storeError)
    {
      resp := UpsertBlog(owner, body, "draft", "Draft updated", now, storeError);
    }

    /** `POST /api/blogs/publish`, after the middleware. */
    method Publish(owner: string, body: PostBody, now: int, storeError: bool) returns (resp: Response)
      requires Valid()
      modifies this
      ensures Valid()
      ensures Outcome(State(), resp) == Route(old(State()), Request.Publish(body), owner, now, storeError)
    {
      resp := UpsertBlog(owner, body, "published", "Blog published", now, storeError);
    }

    /** `PUT /api/blogs/:id`, after the middleware. */
    method PutBlog(owner: string, id: int, body: PostBody, now: int, storeError: bool) returns (resp: Response)
      requires Valid()
      modifies this
      ensures Valid()
      ensures Outcome(State(), resp) == Route(old(State()), Request.PutBlog(id, body), owner, now, storeError)
    {
      if storeError {
        return Response(400, StoreErrorBody);
      }
      UpdateOwned(State(), id, owner, PatchOf(body, body.status, now));
      rows := UpdateWhere(State(), OwnedBy(id, owner), PatchOf(body, body.status, now)).rows;
      resp := Response(200, Message("Blog updated"));
    }

    /** `DELETE /api/blogs/:id`, after the middleware. */
    method DeleteBlog(owner: string, id: int, storeError: bool) returns (resp: Response)
      requires Valid()
      modifies this
      ensures Valid()
      ensures Outcome(State(), resp) == Route(old(State()), Request.DeleteBlog(id), owner, 0, storeError)
    {
      if !storeError {
        DeleteOwned(State(), id, owner);
        rows := DeleteWhere(State(), OwnedBy(id, owner)).rows;
      }
      resp := Response(500, EmptyObject);
    }

    /** One request: the middleware on protected routes, then the handler. */
    method Handle(req: Request, header: Option<string>, decode: string -> Option<Claims>, now: int, storeError: bool)
      returns (resp: Response)
      requires Valid()
      modifies this
      ensures Valid()
      ensures Outcome(State(), resp) == Serve(old(State()), req, header, decode, now, storeError)
    {
      var owner := "";
      if NeedsToken(req) {
        var gate := Middleware(header, decode, now);
        if !gate.Proceed? {
          return Refusal(gate);
        }
        owner := gate.user.userId;
      }
      match req
      case SaveDraft(body) => resp := SaveDraft(owner, body, now, storeError);
      case Publish(body) => resp := Publish(owner, body, now, storeError);
      case PutBlog(id, body) => resp := PutBlog(owner, id, body, now, storeError);
      case DeleteBlog(id) => resp := DeleteBlog(owner, id, storeError);
      case _ => resp := Route(State(), req, owner, now, storeError).response;
    }
  }
  // ---------------------------------------------------------------------------
  // Properties
  // ---------------------------------------------------------------------------

  /** The row a request writes to, if any: the body's id on save-draft and
      publish when it is truthy, the path id on `PUT` and `DELETE`. */
  function Target(req: Request): Option<int>
  {
    match req
    case SaveDraft(b) => if HasId(b.id) then Some(b.id.value) else None
    case Publish(b) => if HasId(b.id) then Some(b.id.value) else None
    case PutBlog(id, _) => Some(id)
    case DeleteBlog(id) => Some(id)
    case _ => None
  }

  /** The frame of save-draft and publish. */
  lemma UpsertFrame(t: Table, owner: string, body: PostBody, status: string, updated: string,
                    now: int, storeError: bool)
    requires WellFormed(t)
    ensures var o := Upsert(t, owner, body, status, updated, now, storeError);
      && WellFormed(o.table)
      && (forall k :: k in t.rows && (t.rows[k].userId != owner || !HasId(body.id) || body.id.value != k) ==>
            k in o.table.rows && o.table.rows[k] == t.rows[k])
      && (forall k :: k in o.table.rows && k !in t.rows ==> k == t.nextId && o.table.rows[k].userId == owner)
  {
    if !storeError {
      if HasId(body.id) {
        UpdateOwned(t, body.id.value, owner, PatchOf(body, status, now));
      } else {
        InsertAddsOne(t, NewRow(body, status, owner, now));
      }
    }
  }

  /** A route run for `owner` keeps the table well formed, leaves every row
      other than the owner's target row as it was, and adds rows only for
      `owner`, under the next id. */
  lemma RouteFrame(t: Table, req: Request, owner: string, now: int, storeError: bool)
    requires WellFormed(t)
    ensures var o := Route(t, req, owner, now, storeError);
      && WellFormed(o.table)
      && (forall k :: k in t.rows && (t.rows[k].userId != owner || Target(req) != Some(k)) ==>
            k in o.table.rows && o.table.rows[k] == t.rows[k])
      && (forall k :: k in o.table.rows && k !in t.rows ==> k == t.nextId && o.table.rows[k].userId == owner)
  {
    match req
    case SaveDraft(b) => UpsertFrame(t, owner, b, "draft", "Draft updated", now, storeError);
    case Publish(b) => UpsertFrame(t, owner, b, "published", "Blog published", now, storeError);
    case PutBlog(id, b) =>
      if !storeError {
        UpdateOwned(t, id, owner, PatchOf(b, b.status, now));
      }
    case DeleteBlog(id) =>
      if !storeError {
        DeleteOwned(t, id, owner);
      }
    case _ =>
  }

  /** Owner isolation: whatever the request, the table stays well formed, no
      row changes or disappears unless it belongs to the verified caller and is
      the request's target, and a new row always belongs to the caller. A
      refused or public request changes nothing. */
  lemma RequestTouchesOnlyCallersTarget(t: Table, req: Request, header: Option<string>,
                                         decode: string -> Option<Claims>, now: int, storeError: bool)
    requires WellFormed(t)
    ensures var o := Serve(t, req, header, decode, now, storeError);
      var caller := Caller(req, header, decode, now);
      && WellFormed(o.table)
      && (caller.None? ==> o.table == t)
      && (forall k :: k in t.rows && (caller.None? || t.rows[k].userId != caller.value || Target(req) != Some(k)) ==>
            k in o.table.rows && o.table.rows[k] == t.rows[k])
      && (forall k :: k in o.table.rows && k !in t.rows ==>
            k == t.nextId && caller.Some? && o.table.rows[k].userId == caller.value)
  {
    if NeedsToken(req) {
      var g := Middleware(header, decode, now);
      if g.Proceed? {
        RouteFrame(t, req, g.user.userId, now, storeError);
      }
    }
  }

  /** A protected request without a token answers 401, one whose token does
      not verify answers 403, and neither reaches the table. */
  lemma RefusedRequestChangesNothing(t: Table, req: Request, header: Option<string>,
                                     decode: string -> Option<Claims>, now: int, storeError: bool)
    requires WellFormed(t)
    requires NeedsToken(req) && Caller(req, header, decode, now).None?
    ensures var o := Serve(t, req, header, decode, now, storeError);
      && o.table == t
      && (BearerToken(header).None? ==> o.response == Response(401, ErrorText("Unauthorized")))
      && (BearerToken(header).Some? ==> o.response == Response(403, ErrorText("Invalid token")))
  {
  }

  /** save-draft and publish without a truthy id insert exactly one row: the
      body's title, content and tags, the forced status, the caller as owner,
      created now and never updated; the reply is that row. */
  lemma NewPostIsCallers(t: Table, owner: string, body: PostBody, now: int, publish: bool)
    requires WellFormed(t) && !HasId(body.id)
    ensures var req := if publish then Request.Publish(body) else Request.SaveDraft(body);
      var o := Route(t, req, owner, now, false);
      var row := Row(t.nextId, body.title, body.content, body.tags,
                     if publish then "published" else "draft", owner, now, None);
      && t.nextId !in t.rows
      && o.table == Table(t.rows[t.nextId := row], t.nextId + 1)
      && o.response == Response(200, RowList([row]))
  {
  }

  /** save-draft and publish with a truthy id update the caller's row with that
      id, forcing the status whatever the body says; when the caller owns no
      such row nothing changes, and the reply claims success either way. */
  lemma SaveWithIdForcesStatus(t: Table, owner: string, body: PostBody, now: int, publish: bool)
    requires WellFormed(t) && HasId(body.id)
    ensures var req := if publish then Request.Publish(body) else Request.SaveDraft(body);
      var o := Route(t, req, owner, now, false);
      var id := body.id.value;
      var status := if publish then "published" else "draft";
      && o.response == Response(200, Message(if publish then "Blog published" else "Draft updated"))
      && o.table.rows.Keys == t.rows.Keys
      && o.table.nextId == t.nextId
      && (forall k :: k in t.rows && k != id ==> o.table.rows[k] == t.rows[k])
      && (Owns(t, id, owner) ==>
            o.table.rows[id] == t.rows[id].(title := body.title, content := body.content, tags := body.tags,
                                             status := status, updatedAt := Some(now)))
      && (!Owns(t, id, owner) ==> o.table == t)
  {
    UpdateOwned(t, body.id.value, owner, PatchOf(body, if publish then "published" else "draft", now));
  }

  /** `PUT` writes the body's status as given (any string, not only "draft" or
      "published"), and like the other updates answers success even when the
      caller owns no row with that id. */
  lemma PutWritesGivenStatus(t: Table, owner: string, id: int, body: PostBody, now: int)
    requires WellFormed(t)
    ensures var o := Route(t, Request.PutBlog(id, body), owner, now, false);
      && o.response == Response(200, Message("Blog updated"))
      && o.table.rows.Keys == t.rows.Keys
      && o.table.nextId == t.nextId
      && (forall k :: k in t.rows && k != id ==> o.table.rows[k] == t.rows[k])
      && (Owns(t, id, owner) ==>
            o.table.rows[id] == t.rows[id].(title := body.title, content := body.content, tags := body.tags,
                                             status := body.status, updatedAt := Some(now)))
      && (!Owns(t, id, owner) ==> o.table == t)
  {
    UpdateOwned(t, id, owner, PatchOf(body, body.status, now));
  }

  /** `DELETE` always answers 500 with an empty body, also after a successful
      delete; it removes the caller's row with that id, if there is one. */
  lemma DeleteAnswers500(t: Table, owner: string, id: int, storeError: bool)
    requires WellFormed(t)
    ensures var o := Route(t, Request.DeleteBlog(id), owner, 0, storeError);
      && o.response == Response(500, EmptyObject)
      && o.table.rows == if !storeError && Owns(t, id, owner) then t.rows - {id} else t.rows
  {
    DeleteOwned(t, id, owner);
  }

  /** Repeating a `DELETE` changes nothing more and gets the same reply. */
  lemma DeleteTwiceIsDeleteOnce(t: Table, owner: string, id: int)
    requires WellFormed(t)
    ensures var once := Route(t, Request.DeleteBlog(id), owner, 0, false);
      && WellFormed(once.table)
      && Route(once.table, Request.DeleteBlog(id), owner, 0, false) == once
  {
    DeleteOwned(t, id, owner);
    DeleteIdempotent(t, OwnedBy(id, owner));
  }

  /** The drafts list is exactly the caller's rows with status "draft", in id
      order. */
  lemma DraftsAreCallersDrafts(t: Table, owner: string, now: int)
    requires WellFormed(t)
    ensures Route(t, Request.Drafts, owner, now, false).response == Response(200, RowList(DraftsOf(t, owner)))
    ensures forall x :: x in DraftsOf(t, owner) ==>
      x.id in t.rows && t.rows[x.id] == x && x.userId == owner && x.status == "draft"
    ensures forall k :: k in t.rows && t.rows[k].userId == owner && t.rows[k].status == "draft" ==>
      t.rows[k] in DraftsOf(t, owner)
    ensures IdsIncrease(DraftsOf(t, owner))
  {
  }

  /** `GET /api/blogs` is exactly the caller's rows, whatever their status. */
  lemma MyBlogsAreCallersRows(t: Table, owner: string, now: int)
    requires WellFormed(t)
    ensures Route(t, Request.MyBlogs, owner, now, false).response == Response(200, RowList(BlogsOf(t, owner)))
    ensures forall x :: x in BlogsOf(t, owner) ==> x.id in t.rows && t.rows[x.id] == x && x.userId == owner
    ensures forall k :: k in t.rows && t.rows[k].userId == owner ==> t.rows[k] in BlogsOf(t, owner)
    ensures IdsIncrease(BlogsOf(t, owner))
  {
  }

  /** `GET /api/blogs/:id` answers 200 with the row exactly when the caller owns
      it; another user's row looks the same as a missing one. */
  lemma GetBlogOnlyOwned(t: Table, owner: string, id: int, storeError: bool)
    requires WellFormed(t)
    ensures var r := Route(t, Request.GetBlog(id), owner, 0, storeError).response;
      && (r.status == 200 <==> !storeError && Owns(t, id, owner))
      && (r.status == 200 ==> r.body == OneRow(t.rows[id]))
      && (r.status != 200 ==> r == Response(404, ErrorText("Blog not found")))
  {
    SelectById(t, id, OwnedBy(id, owner));
  }

  /** The public list holds exactly the published rows, newest first, each
      shown with the author "Unknown"; drafts never appear. */
  lemma PublicListingShowsPublished(t: Table)
    requires WellFormed(t)
    ensures var list := PublicListing(t);
      && (forall i :: 0 <= i < |list| ==>
            list[i].status == "published" && list[i].authorName == "Unknown" &&
            list[i].id in t.rows && Summarize(t.rows[list[i].id]) == list[i])
      && (forall k :: k in t.rows && t.rows[k].status == "published" ==> Summarize(t.rows[k]) in list)
      && (forall k :: k in t.rows && t.rows[k].status != "published" ==>
            forall i :: 0 <= i < |list| ==> list[i].id != k)
      && (forall i, j :: 0 <= i < j < |list| ==> list[i].createdAt >= list[j].createdAt)
      && (forall i, j :: 0 <= i < j < |list| ==> list[i].id != list[j].id)
  {
    SortedPublishedRows(t);
    SummariesOfSorted(t, SortNewestFirst(Select(t, StatusOf("published"))));
  }

  /** Projecting stored, published rows newest first. */
  lemma SummariesOfSorted(t: Table, sorted: seq<Row>)
    requires NewestFirst(sorted) && NoRepeats(sorted)
    requires forall i :: 0 <= i < |sorted| ==>
      sorted[i].id in t.rows && t.rows[sorted[i].id] == sorted[i] && sorted[i].status == "published"
    requires forall k :: k in t.rows && t.rows[k].status == "published" ==> t.rows[k] in sorted
    ensures var list := seq(|sorted|, i requires 0 <= i < |sorted| => Summarize(sorted[i]));
      && (forall i :: 0 <= i < |list| ==>
            list[i].status == "published" && list[i].authorName == "Unknown" &&
            list[i].id in t.rows && Summarize(t.rows[list[i].id]) == list[i])
      && (forall k :: k in t.rows && t.rows[k].status == "published" ==> Summarize(t.rows[k]) in list)
      && (forall k :: k in t.rows && t.rows[k].status != "published" ==>
            forall i :: 0 <= i < |list| ==> list[i].id != k)
      && (forall i, j :: 0 <= i < j < |list| ==> list[i].createdAt >= list[j].createdAt)
      && (forall i, j :: 0 <= i < j < |list| ==> list[i].id != list[j].id)
  {
    var list := seq(|sorted|, i requires 0 <= i < |sorted| => Summarize(sorted[i]));

    forall k | k in t.rows && t.rows[k].status == "published"
      ensures Summarize(t.rows[k]) in list
    {
      var i :| 0 <= i < |sorted| && sorted[i] == t.rows[k];
      assert list[i] == Summarize(t.rows[k]);
    }
  }

  /** The rows the public list is made from: the published rows, newest first. */
  lemma SortedPublishedRows(t: Table)
    requires WellFormed(t)
    ensures var sorted := SortNewestFirst(Select(t, StatusOf("published")));
      && NewestFirst(sorted) && NoRepeats(sorted)
      && (forall i :: 0 <= i < |sorted| ==>
            sorted[i].id in t.rows && t.rows[sorted[i].id] == sorted[i] && sorted[i].status == "published")
      && (forall k :: k in t.rows && t.rows[k].status == "published" ==> t.rows[k] in sorted)
  {
    SortKeepsRows(Select(t, StatusOf("published")));
    SortedNoRepeats(Select(t, StatusOf("published")));
  }

  /** The public get answers 200 exactly for a published row, with any header
      at all; a draft looks the same as a missing id. */
  lemma PublicBlogHidesDrafts(t: Table, id: int, header: Option<string>,
                              decode: string -> Option<Claims>, now: int, storeError: bool)
    requires WellFormed(t)
    ensures var o := Serve(t, Request.PublicBlog(id), header, decode, now, storeError);
      && o.table == t
      && (o.response.status == 200 <==> !storeError && id in t.rows && t.rows[id].status == "published")
      && (o.response.status == 200 ==> o.response.body == OnePost(Project(t.rows[id])))
      && (o.response.status != 200 ==> o.response == Response(404, ErrorText("Blog not found")))
  {
    PublishedPostOf(t, id);
    var found := PublicPostOf(t, id);
    assert Serve(t, Request.PublicBlog(id), header, decode, now, storeError) ==
      Outcome(t, if storeError || found.None? then Response(404, ErrorText("Blog not found"))
                 else Response(200, OnePost(found.value)));
  }

  /** The public get's query finds a row exactly when the id names a
      published row. */
  lemma PublishedPostOf(t: Table, id: int)
    requires WellFormed(t)
    ensures PublicPostOf(t, id).Some? <==> id in t.rows && t.rows[id].status == "published"
    ensures PublicPostOf(t, id).Some? ==> PublicPostOf(t, id).value == Project(t.rows[id])
  {
    SelectById(t, id, IdAndStatus(id, "published"));
  }

  /** A new draft can be read back by its owner as saved, and publishing it by
      the id the insert returned makes it appear in the public list. */
  lemma DraftThenPublish(t: Table, owner: string, body: PostBody, now: int, later: int)
    requires WellFormed(t) && !HasId(body.id)
    ensures var id := t.nextId;
      var t1 := Route(t, Request.SaveDraft(body), owner, now, false).table;
      && WellFormed(t1)
      && Route(t1, Request.GetBlog(id), owner, 0, false).response ==
           Response(200, OneRow(Row(id, body.title, body.content, body.tags, "draft", owner, now, None)))
      && var t2 := Route(t1, Request.Publish(body.(id := Some(id))), owner, later, false).table;
      && WellFormed(t2)
      && t2.rows[id].status == "published"
      && Summarize(t2.rows[id]) in PublicListing(t2)
  {
    var id := t.nextId;
    NewPostIsCallers(t, owner, body, now, false);
    var t1 := Route(t, Request.SaveDraft(body), owner, now, false).table;
    RouteFrame(t, Request.SaveDraft(body), owner, now, false);
    assert Owns(t1, id, owner);
    GetBlogOnlyOwned(t1, owner, id, false);
    var b2 := body.(id := Some(id));
    SaveWithIdForcesStatus(t1, owner, b2, later, true);
    var t2 := Route(t1, Request.Publish(b2), owner, later, false).table;
    RouteFrame(t1, Request.Publish(b2), owner, later, false);
    PublicListingShowsPublished(t2);
  }
}
