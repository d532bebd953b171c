/**
 * The editor component of frontend/components/BlogEditor.tsx: the blog being
 * written with its comma-separated tag text, the "edited since the last local
 * save" flag, the time of that save, the signed-in user, and the browser's
 * `localStorage` as a string map. Saving to the store sends an insert or an
 * update; the store's answer is a parameter.
 */
module LocalEditor {
  import opened Wrappers
  import opened Tags

  /** The `localStorage` key of the local draft. */
  const StorageKey: string := "blog-draft"

  /** `BlogData`: the id is set once the store has assigned one; the tags are
      the text of the tags input. */
  datatype LocalBlog = LocalBlog(id: Option<string>, title: string, content: string, tags: string)

  /** The blog the component starts with. */
  const EmptyBlog := LocalBlog(None, "", "", "")

  /** JavaScript truthiness of an optional string: absent and `""` are falsy. */
  predicate Truthy(s: Option<string>)
  {
    s.Some? && s.value != ""
  }

  /** The `name` of an input of the form. */
  datatype Field = TitleField | ContentField | TagsField

  function FieldValue(b: LocalBlog, f: Field): string
  {
    match f
    case TitleField => b.title
    case ContentField => b.content
    case TagsField => b.tags
  }

  /** `{ ...prev, [name]: value }`. */
  function WithField(b: LocalBlog, f: Field, value: string): LocalBlog
  {
    match f
    case TitleField => b.(title := value)
    case ContentField => b.(content := value)
    case TagsField => b.(tags := value)
  }

  /** The component's state: its four `useState` values and `localStorage`. */
  datatype EditorState = EditorState(blog: LocalBlog, isEdited: bool, lastSaved: Option<int>,
                                     userId: Option<string>, storage: map<string, string>)

  /** The state just after mounting, before the effects run. */
  function Initial(storage: map<string, string>): EditorState
  {
    EditorState(EmptyBlog, false, None, None, storage)
  }

  /** `checkAuth`: the signed-in user's id, if the credential store knows one. */
  function SignedIn(s: EditorState, user: Option<string>): EditorState
  {
    if user.Some? then s.(userId := user) else s
  }

  /** The load effect: a non-empty stored draft that parses replaces the blog.
      `parse` stands for `JSON.parse` (`None` when it throws). */
  function Loaded(s: EditorState, parse: string -> Option<LocalBlog>): EditorState
  {
    if StorageKey in s.storage && s.storage[StorageKey] != "" && parse(s.storage[StorageKey]).Some?
    then s.(blog := parse(s.storage[StorageKey]).value)
    else s
  }

  /** `handleInputChange`. */
  function Edited(s: EditorState, f: Field, value: string): EditorState
  {
    s.(blog := WithField(s.blog, f, value), isEdited := true)
  }

  /** `localSaveDraft` at time `now`. `stringify` stands for `JSON.stringify`;
      `storageFull` for `setItem` throwing, which changes nothing. */
  function LocallySaved(s: EditorState, now: int, stringify: LocalBlog -> string, storageFull: bool): EditorState
  {
    if !s.isEdited || storageFull then s
    else s.(storage := s.storage[StorageKey := stringify(s.blog)], lastSaved := Some(now), isEdited := false)
  }

  /** The columns `saveToSupabase` writes. */
  datatype Payload = Payload(title: string, content: string, tags: seq<string>, status: string, userId: string)

  /** The store call `saveToSupabase` makes. */
  datatype StoreWrite =
    | UpdateById(id: string, payload: Payload)   // .update(payload).eq('id', id)
    | InsertRow(payload: Payload)                // .insert(payload)

  /** The store's answer: whether it reported an error (or threw), and the id
      of the returned row, if any. */
  datatype StoreReply = StoreReply(failed: bool, id: Option<string>)

  /** The store call of `saveToSupabase(status)`, if it makes one. */
  function SupabaseWrite(s: EditorState, status: string): Option<StoreWrite>
  {
    if !Truthy(s.userId) then None
    else
      var p := Payload(s.blog.title, s.blog.content, ParseTagString(s.blog.tags), status, s.userId.value);
      if Truthy(s.blog.id) then Some(UpdateById(s.blog.id.value, p)) else Some(InsertRow(p))
  }

  /** The state after `saveToSupabase(status)` got `reply`. */
  function SupabaseSaved(s: EditorState, reply: StoreReply): EditorState
  {
    if !Truthy(s.userId) || reply.failed then s
    else if !Truthy(s.blog.id) && Truthy(reply.id) then s.(blog := s.blog.(id := reply.id))
    else s
  }

  /** The component, with its state held in fields. */
  class BlogEditor {
    var blog: LocalBlog
    var isEdited: bool
    var lastSaved: Option<int>
    var userId: Option<string>
    var storage: map<string, string>

    function State(): EditorState
      reads this
    {
      EditorState(blog, isEdited, lastSaved, userId, storage)
    }

    /** The `useState` initial values, over the browser's current storage. */
    constructor (stored: map<string, string>)
      ensures State() == Initial(stored)
    {
      blog := EmptyBlog;
      isEdited := false;
      lastSaved := None;
      userId := None;
      storage := stored;
    }

    method CheckAuth(user: Option<string>)
      modifies this
      ensures State() == SignedIn(old(State()), user)
    {
      if user.Some? {
        userId := user;
      }
    }

    method LoadLocalDraft(parse: string -> Option<LocalBlog>)
      modifies this
      ensures State() == Loaded(old(State()), parse)
    {
      if StorageKey in storage {
        var saved := storage[StorageKey];
        if saved != "" {
          match parse(saved)
          case Some(b) => blog := b;
          case None =>
        }
      }
    }

    method HandleInputChange(f: Field, value: string)
      modifies this
      ensures State() == Edited(old(State()), f, value)
    {
      blog := WithField(blog, f, value);
      isEdited := true;
    }

    method LocalSaveDraft(now: int, stringify: LocalBlog -> string, storageFull: bool)
      modifies this
      ensures State() == LocallySaved(old(State()), now, stringify, storageFull)
    {
      if !isEdited {
        return;
      }
      if storageFull {
        return;
      }
      storage := storage[StorageKey := stringify(blog)];
      lastSaved := Some(now);
      isEdited := false;
    }

    /** `saveToSupabase(status)`: returns the store call it makes, and takes the
        store's answer to it. */
    method SaveToSupabase(status: string, reply: StoreReply) returns (write: Option<StoreWrite>)
      requires status == "draft" || status == "published"
      modifies this
      ensures write == SupabaseWrite(old(State()), status)
      ensures State() == SupabaseSaved(old(State()), reply)
    {
      if !Truthy(userId) {
        return None;
      }
      var tagsArray := ParseTagString(blog.tags);
      var payload := Payload(blog.title, blog.content, tagsArray, status, userId.value);
      if Truthy(blog.id) {
        write := Some(UpdateById(blog.id.value, payload));
      } else {
        write := Some(InsertRow(payload));
      }
      if reply.failed {
        return;
      }
      if !Truthy(blog.id) && Truthy(reply.id) {
        blog := blog.(id := reply.id);
      }
    }
  }

  // ---------------------------------------------------------------------------
  // Properties
  // ---------------------------------------------------------------------------

  /** A field change replaces the named field only and marks the blog edited;
      nothing else changes. */
  lemma FieldChangeIsLocal(s: EditorState, f: Field, value: string)
    ensures var e := Edited(s, f, value);
      && FieldValue(e.blog, f) == value
      && (forall g :: g != f ==> FieldValue(e.blog, g) == FieldValue(s.blog, g))
      && e.blog.id == s.blog.id
      && e.isEdited
      && e.lastSaved == s.lastSaved && e.userId == s.userId && e.storage == s.storage
  {
  }

  /** A local save does nothing unless the blog was edited; otherwise it stores
      the blog under "blog-draft", records the time and clears the flag,
      leaving every other key and the blog itself alone. */
  lemma LocalSaveOnlyWhenEdited(s: EditorState, now: int, stringify: LocalBlog -> string)
    ensures !s.isEdited ==> LocallySaved(s, now, stringify, false) == s
    ensures LocallySaved(s, now, stringify, true) == s
    ensures s.isEdited ==> var l := LocallySaved(s, now, stringify, false);
      && l.storage[StorageKey] == stringify(s.blog)
      && (forall k :: k in s.storage && k != StorageKey ==> k in l.storage && l.storage[k] == s.storage[k])
      && l.lastSaved == Some(now)
      && !l.isEdited
      && l.blog == s.blog && l.userId == s.userId
  {
  }

  /** Saving twice without an edit in between stores nothing new. */
  lemma SecondLocalSaveIsNoOp(s: EditorState, now: int, later: int, stringify: LocalBlog -> string, full: bool)
    ensures var once := LocallySaved(s, now, stringify, false);
      LocallySaved(once, later, stringify, full) == once
  {
  }

  /** On load, a stored draft that is missing, empty or does not parse leaves
      the blog as it was; one that parses replaces it. */
  lemma LoadCases(s: EditorState, parse: string -> Option<LocalBlog>)
    ensures var l := Loaded(s, parse);
      && l.isEdited == s.isEdited && l.lastSaved == s.lastSaved && l.userId == s.userId && l.storage == s.storage
      && (l.blog != s.blog ==> StorageKey in s.storage && parse(s.storage[StorageKey]) == Some(l.blog))
      && (StorageKey in s.storage && s.storage[StorageKey] != "" && parse(s.storage[StorageKey]).Some? ==>
            l.blog == parse(s.storage[StorageKey]).value)
  {
  }

  /** A draft saved locally comes back when the editor is opened again, as long
      as `JSON.parse` reads back what `JSON.stringify` wrote (a serialised
      object is never the empty string). */
  lemma LocalDraftSurvivesReload(s: EditorState, now: int, stringify: LocalBlog -> string,
                                 parse: string -> Option<LocalBlog>, user: Option<string>)
    requires s.isEdited
    requires stringify(s.blog) != "" && parse(stringify(s.blog)) == Some(s.blog)
    ensures var saved := LocallySaved(s, now, stringify, false);
      Loaded(SignedIn(Initial(saved.storage), user), parse).blog == s.blog
  {
  }

  /** Without a signed-in user, `saveToSupabase` sends nothing and changes
      nothing. */
  lemma NoUserSendsNothing(s: EditorState, status: string, reply: StoreReply)
    requires !Truthy(s.userId)
    ensures SupabaseWrite(s, status) == None
    ensures SupabaseSaved(s, reply) == s
  {
  }

  /** With a signed-in user, the blog is updated by id when it has one and
      inserted otherwise; the payload carries the title, the content, the
      cleaned-up tag list, the requested status and the user's id. */
  lemma WriteCarriesBlog(s: EditorState, status: string)
    requires Truthy(s.userId)
    ensures var w := SupabaseWrite(s, status);
      && w.Some?
      && (w.value.UpdateById? <==> Truthy(s.blog.id))
      && (w.value.UpdateById? ==> w.value.id == s.blog.id.value)
      && w.value.payload.title == s.blog.title
      && w.value.payload.content == s.blog.content
      && w.value.payload.tags == ParseTagString(s.blog.tags)
      && (forall t :: t in w.value.payload.tags ==> IsCleanTag(t) && ',' !in t)
      && w.value.payload.status == status
      && w.value.payload.userId == s.userId.value
  {
  }

  /** The store's id is adopted only by a blog without one, after a reply
      without error that carries an id; nothing else in the state changes. */
  lemma IdAdoption(s: EditorState, reply: StoreReply)
    ensures var n := SupabaseSaved(s, reply);
      && n == s.(blog := s.blog.(id := n.blog.id))
      && n.blog.id == (if Truthy(s.userId) && !reply.failed && !Truthy(s.blog.id) && Truthy(reply.id)
                       then reply.id else s.blog.id)
  {
  }

  /** Once an insert has returned an id, the next save of the same blog is an
      update of that row. */
  lemma InsertThenUpdate(s: EditorState, reply: StoreReply, status: string, next: string)
    requires Truthy(s.userId) && !Truthy(s.blog.id)
    requires !reply.failed && Truthy(reply.id)
    ensures SupabaseWrite(s, status).value.InsertRow?
    ensures var w := SupabaseWrite(SupabaseSaved(s, reply), next);
      w.Some? && w.value.UpdateById? && w.value.id == reply.id.value
  {
  }
}
