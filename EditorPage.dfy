/**
 * The editor page of frontend/app/blog-editor/page.tsx: the blog being edited,
 * the caller's drafts fetched from the server, and the saving flag. Requests to
 * the backend are returned as values; the server's answers are parameters.
 * `token` is the value stored under `localStorage['token']`.
 */
module EditorPage {
  import opened Wrappers
  import opened Seqs
  import opened Strings
  import opened Tags
  import opened BlogTable
  import opened Server

  /** The page's `tags`: the text of the tags input, or the array a draft
      fetched from the server carries. */
  datatype TagsValue = TagText(text: string) | TagList(items: seq<string>)

  /** The page's `Blog`. */
  datatype PageBlog = PageBlog(id: Option<int>, title: string, content: string, tags: TagsValue)

  const EmptyBlog := PageBlog(None, "", "", TagText(""))

  /** JavaScript truthiness of the stored token: absent and `""` are falsy. */
  predicate HasToken(token: Option<string>)
  {
    token.Some? && token.value != ""
  }

  /** The `name` of an input of the form. */
  datatype Field = TitleField | ContentField | TagsField

  /** `{ ...prev, [name]: value }`: an input's value is always text. */
  function WithField(b: PageBlog, f: Field, value: string): PageBlog
  {
    match f
    case TitleField => b.(title := value)
    case ContentField => b.(content := value)
    case TagsField => b.(tags := TagText(value))
  }

  /** The tags of the request body: the text split at commas or the list as it
      is, each element trimmed, empty ones dropped. */
  function NormalizeTags(v: TagsValue): (tags: seq<string>)
    ensures forall t :: t in tags ==> IsCleanTag(t)
  {
    match v
    case TagText(s) => CleanTags(Split(s, ','))
    case TagList(l) => CleanTags(l)
  }

  /** The page's state. */
  datatype PageState = PageState(blog: PageBlog, drafts: seq<Row>, isSaving: bool)

  const Initial := PageState(EmptyBlog, [], false)

  /** A request to the backend, with its path below the API base URL. */
  datatype Fetch = Fetch(verb: string, path: string, authorization: string, body: Option<PostBody>)

  /** What the drafts response's JSON turned out to be. */
  datatype DraftsData = DraftArray(items: seq<Row>) | NotArray

  datatype DraftsReply = DraftsReply(ok: bool, data: DraftsData)

  /** The drafts request the mount effect sends, if any. */
  function DraftsRequest(token: Option<string>): Option<Fetch>
  {
    if HasToken(token) then Some(Fetch("GET", "/blogs/drafts", "Bearer " + token.value, None)) else None
  }

  /** The mount effect after the drafts request got `reply`. */
  function DraftsLoaded(s: PageState, token: Option<string>, reply: DraftsReply): PageState
  {
    if HasToken(token) && reply.ok && reply.data.DraftArray? then s.(drafts := reply.data.items) else s
  }

  /** `drafts.find((d) => d.id?.toString() === value)`. */
  function FindDraft(drafts: seq<Row>, value: string): (r: Option<Row>)
    ensures r.Some? ==> r.value in drafts && IntToString(r.value.id) == value
    ensures r.None? <==> forall i :: 0 <= i < |drafts| ==> IntToString(drafts[i].id) != value
  {
    if |drafts| == 0 then None
    else if IntToString(drafts[0].id) == value then Some(drafts[0])
    else FindDraft(drafts[1..], value)
  }

  /** The page's view of a fetched draft. */
  function AsPageBlog(d: Row): PageBlog
  {
    PageBlog(Some(d.id), d.title, d.content, TagList(d.tags))
  }

  /** `handleDraftSelect(value)`. */
  function DraftSelected(s: PageState, value: string): PageState
  {
    match FindDraft(s.drafts, value)
    case None => s
    case Some(d) => s.(blog := AsPageBlog(d))
  }

  /** `handleChange`. */
  function Changed(s: PageState, f: Field, value: string): PageState
  {
    s.(blog := WithField(s.blog, f, value))
  }

  /** The endpoint of a save: the blog's own path when it has a truthy id,
      otherwise the route for the requested status. */
  function SavePath(b: PageBlog, status: string): string
  {
    if HasId(b.id) then "/blogs/" + IntToString(b.id.value)
    else if status == "published" then "/blogs/publish" else "/blogs/save-draft"
  }

  /** The request `saveToServer(status)` sends, if any. */
  function SaveRequest(s: PageState, status: string, token: Option<string>): Option<Fetch>
  {
    if !HasToken(token) then None
    else
      var body := PostBody(s.blog.id, s.blog.title, s.blog.content, NormalizeTags(s.blog.tags), status);
      Some(Fetch(if HasId(s.blog.id) then "PUT" else "POST", SavePath(s.blog, status), "Bearer " + token.value,
                 Some(body)))
  }

  /** The server's answer to a save: `response.ok`, and `result[0]?.id`. */
  datatype SaveReply = SaveReply(ok: bool, firstId: Option<int>)

  /** The state after `saveToServer(status)` got `reply`. */
  function ServerSaved(s: PageState, token: Option<string>, reply: SaveReply): PageState
  {
    var saving := s.(isSaving := true);
    if HasToken(token) && reply.ok && !HasId(s.blog.id) && HasId(reply.firstId)
    then saving.(blog := saving.blog.(id := reply.firstId))
    else saving
  }

  /** The page, with its state held in fields. */
  class EditorPage {
    var blog: PageBlog
    var drafts: seq<Row>
    var isSaving: bool

    function State(): PageState
      reads this
    {
      PageState(blog, drafts, isSaving)
    }

    constructor ()
      ensures State() == Initial
    {
      blog := EmptyBlog;
      drafts := [];
      isSaving := false;
    }

    /** The mount effect: returns the drafts request it sends and takes the
        server's answer to it. */
    method FetchDrafts(token: Option<string>, reply: DraftsReply) returns (request: Option<Fetch>)
      modifies this
      ensures request == DraftsRequest(token)
      ensures State() == DraftsLoaded(old(State()), token, reply)
    {
      if !HasToken(token) {
        return None;
      }
      request := Some(Fetch("GET", "/blogs/drafts", "Bearer " + token.value, None));
      if !reply.ok {
        return;
      }
      match reply.data
      case NotArray =>
      case DraftArray(items) => drafts := items;
    }

    method HandleChange(f: Field, value: string)
      modifies this
      ensures State() == Changed(old(State()), f, value)
    {
      blog := WithField(blog, f, value);
    }

    method HandleDraftSelect(value: string)
      modifies this
      ensures State() == DraftSelected(old(State()), value)
    {
      var selected := FindDraft(drafts, value);
      if selected.Some? {
        var d := selected.value;
        blog := PageBlog(Some(d.id), d.title, d.content, TagList(d.tags));
      }
    }

    /** `saveToServer(status)`: returns the request it sends and takes the
        server's answer to it. */
    method SaveToServer(status: string, token: Option<string>, reply: SaveReply) returns (request: Option<Fetch>)
      requires status == "draft" || status == "published"
      modifies this
      ensures request == SaveRequest(old(State()), status, token)
      ensures State() == ServerSaved(old(State()), token, reply)
    {
      isSaving := true;
      if !HasToken(token) {
        return None;
      }
      var verb := if HasId(blog.id) then "PUT" else "POST";
      var endpoint := if HasId(blog.id) then "/blogs/" + IntToString(blog.id.value)
                      else "/blogs/" + (if status == "published" then "publish" else "save-draft");
      assert endpoint == SavePath(blog, status);
      var body := PostBody(blog.id, blog.title, blog.content, NormalizeTags(blog.tags), status);
      request := Some(Fetch(verb, endpoint, "Bearer " + token.value, Some(body)));
      if !reply.ok {
        return;
      }
      if !HasId(blog.id) && HasId(reply.firstId) {
        blog := blog.(id := reply.firstId);
      }
    }
  }

  // ---------------------------------------------------------------------------
  // Properties
  // ---------------------------------------------------------------------------

  /** Without a stored token the page fetches no drafts and sends no save;
      the save still leaves `isSaving` set. */
  lemma NoTokenNoRequest(s: PageState, status: string, reply: SaveReply, drafts: DraftsReply, token: Option<string>)
    requires !HasToken(token)
    ensures DraftsRequest(token) == None && DraftsLoaded(s, token, drafts) == s
    ensures SaveRequest(s, status, token) == None
    ensures ServerSaved(s, token, reply) == s.(isSaving := true)
  {
  }

  /** The drafts list is replaced only by an array from an ok response. */
  lemma DraftsAcceptance(s: PageState, token: Option<string>, reply: DraftsReply)
    ensures var n := DraftsLoaded(s, token, reply);
      && n.blog == s.blog && n.isSaving == s.isSaving
      && (n.drafts == s.drafts || (HasToken(token) && reply.ok && reply.data.DraftArray? && n.drafts == reply.data.items))
      && (HasToken(token) && reply.ok && reply.data.DraftArray? ==> n.drafts == reply.data.items)
  {
  }

  /** A change replaces the named field only. */
  lemma ChangeIsLocal(s: PageState, f: Field, value: string)
    ensures var n := Changed(s, f, value);
      && n.drafts == s.drafts && n.isSaving == s.isSaving && n.blog.id == s.blog.id
      && (f == TitleField ==> n.blog == s.blog.(title := value))
      && (f == ContentField ==> n.blog == s.blog.(content := value))
      && (f == TagsField ==> n.blog == s.blog.(tags := TagText(value)))
  {
  }

  /** Selecting a draft loads the first draft whose decimal id is the selected
      value; with no such draft the blog stays as it was. */
  lemma {:induction false} SelectionCases(s: PageState, value: string)
    ensures var n := DraftSelected(s, value);
      && n.drafts == s.drafts && n.isSaving == s.isSaving
      && ((forall i :: 0 <= i < |s.drafts| ==> IntToString(s.drafts[i].id) != value) ==> n == s)
      && (forall i :: (0 <= i < |s.drafts| && IntToString(s.drafts[i].id) == value &&
                       (forall j :: 0 <= j < i ==> IntToString(s.drafts[j].id) != value)) ==>
            n.blog == AsPageBlog(s.drafts[i]))
  {
    forall i | 0 <= i < |s.drafts| && IntToString(s.drafts[i].id) == value &&
               (forall j :: 0 <= j < i ==> IntToString(s.drafts[j].id) != value)
      ensures FindDraft(s.drafts, value) == Some(s.drafts[i])
    {
      FindFirst(s.drafts, value, i);
    }
  }

  /** `FindDraft` returns the first match. */
  lemma {:induction false} FindFirst(drafts: seq<Row>, value: string, i: int)
    requires 0 <= i < |drafts| && IntToString(drafts[i].id) == value
    requires forall j :: 0 <= j < i ==> IntToString(drafts[j].id) != value
    ensures FindDraft(drafts, value) == Some(drafts[i])
    decreases i
  {
    if i > 0 {
      assert IntToString(drafts[0].id) != value;
      FindFirst(drafts[1..], value, i - 1);
    }
  }

  /** Choosing a draft from the list by its own id loads exactly that draft:
      the drafts are rows of one table, so their ids are distinct, and
      different ids have different decimal forms. */
  lemma SelectingOwnIdLoadsIt(s: PageState, i: int)
    requires 0 <= i < |s.drafts|
    requires forall j, k :: 0 <= j < k < |s.drafts| ==> s.drafts[j].id != s.drafts[k].id
    ensures DraftSelected(s, IntToString(s.drafts[i].id)).blog == AsPageBlog(s.drafts[i])
  {
    var value := IntToString(s.drafts[i].id);
    forall j | 0 <= j < i
      ensures IntToString(s.drafts[j].id) != value
    {
      if IntToString(s.drafts[j].id) == value {
        IntToStringInjective(s.drafts[j].id, s.drafts[i].id);
      }
    }
    FindFirst(s.drafts, value, i);
  }

  /** A save with a token is a `PUT` to the blog's own path exactly when the
      blog has a truthy id, and otherwise a `POST` to the route of the
      requested status; it carries the bearer token and the blog. */
  lemma SaveRouting(s: PageState, status: string, token: Option<string>)
    requires HasToken(token)
    ensures var r := SaveRequest(s, status, token);
      && r.Some?
      && (r.value.verb == "PUT" <==> HasId(s.blog.id))
      && (r.value.verb != "PUT" ==> r.value.verb == "POST")
      && (HasId(s.blog.id) ==> r.value.path == "/blogs/" + IntToString(s.blog.id.value))
      && (!HasId(s.blog.id) && status == "published" ==> r.value.path == "/blogs/publish")
      && (!HasId(s.blog.id) && status == "draft" ==> r.value.path == "/blogs/save-draft")
      && r.value.authorization == "Bearer " + token.value
      && r.value.body == Some(PostBody(s.blog.id, s.blog.title, s.blog.content, NormalizeTags(s.blog.tags), status))
  {
  }

  /** The body's tags: text is parsed like the other editor does; a list is
      trimmed and cleaned in order; and a cleaned list stays as it is. */
  lemma TagNormalisation(v: TagsValue)
    ensures v.TagText? ==> NormalizeTags(v) == ParseTagString(v.text)
    ensures v.TagList? ==> IsSubsequence(NormalizeTags(v), TrimAll(v.items))
    ensures v.TagList? ==> forall t :: t in NormalizeTags(v) <==> t != "" && t in TrimAll(v.items)
    ensures v.TagList? ==> multiset(NormalizeTags(v)) == multiset(TrimAll(v.items))["" := 0]
    ensures NormalizeTags(TagList(NormalizeTags(v))) == NormalizeTags(v)
  {
    var pieces := match v case TagText(s) => Split(s, ',') case TagList(l) => l;
    CleanTagsMembers(pieces);
    CleanTagsInOrder(pieces);
    CleanTagsMultiset(pieces);
    CleanTagsOfClean(NormalizeTags(v));
  }

  /** A save either adopts the server's id (only for a blog without one, after
      an ok reply with a truthy first id) or leaves the blog alone; `isSaving`
      is set and never cleared. */
  lemma SaveAdoptsId(s: PageState, token: Option<string>, reply: SaveReply)
    ensures var n := ServerSaved(s, token, reply);
      && n.isSaving
      && n.drafts == s.drafts
      && n.blog == s.blog.(id := n.blog.id)
      && n.blog.id == (if HasToken(token) && reply.ok && !HasId(s.blog.id) && HasId(reply.firstId)
                       then reply.firstId else s.blog.id)
  {
  }

  /** Once set, `isSaving` stays set whatever the page does next. */
  lemma SavingStaysSet(s: PageState, f: Field, value: string, sel: string, token: Option<string>,
                        drafts: DraftsReply, reply: SaveReply)
    requires s.isSaving
    ensures Changed(s, f, value).isSaving
    ensures DraftSelected(s, sel).isSaving
    ensures DraftsLoaded(s, token, drafts).isSaving
    ensures ServerSaved(s, token, reply).isSaving
  {
  }

  /** The save buttons are rendered `disabled={isSaving}`: a save can be
      started only while `isSaving` is clear. */
  predicate CanSave(s: PageState)
  {
    !s.isSaving
  }

  /** One thing the user or the page can do. */
  datatype PageStep =
    | Change(f: Field, value: string)
    | Select(value: string)
    | LoadDrafts(token: Option<string>, drafts: DraftsReply)
    | Save(status: string, token: Option<string>, reply: SaveReply)

  /** The state after one step; a save whose button is disabled does nothing. */
  function Step(s: PageState, step: PageStep): PageState
  {
    match step
    case Change(f, value) => Changed(s, f, value)
    case Select(value) => DraftSelected(s, value)
    case LoadDrafts(token, drafts) => DraftsLoaded(s, token, drafts)
    case Save(status, token, reply) => if CanSave(s) then ServerSaved(s, token, reply) else s
  }

  /** The number of saves a run of steps actually starts from `s`. */
  function SavesStarted(s: PageState, steps: seq<PageStep>): nat
    decreases |steps|
  {
    if |steps| == 0 then 0
    else (if steps[0].Save? && CanSave(s) then 1 else 0) + SavesStarted(Step(s, steps[0]), steps[1..])
  }

  /** Because `isSaving` is set by a save and never cleared, a page performs at
      most one save in its lifetime, and none once a save has started: the id
      it adopts from the reply is never used by a second save. */
  lemma {:induction false} AtMostOneSave(s: PageState, steps: seq<PageStep>)
    ensures SavesStarted(s, steps) <= (if CanSave(s) then 1 else 0)
    decreases |steps|
  {
    if |steps| > 0 {
      var next := Step(s, steps[0]);
      AtMostOneSave(next, steps[1..]);
      if steps[0].Save? && CanSave(s) {
        assert !CanSave(next);
      }
    }
  }
}
