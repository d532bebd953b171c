# Blog platform: server routes and editor components

This project models a small blogging platform. An Express backend
(`backend/server.js`) issues JSON web tokens at login. It checks them in
`tokenMiddleware` and answers these routes on one `blogs` table of a hosted
store:
- save-draft, publish and drafts;
- the caller's own list, get, put and delete;
- the public list and the public get.

On the Next.js client the model covers four components:
- the local-draft editor `BlogEditor`, which autosaves to `localStorage` and writes straight to the store;
- the server-backed editor page `blog-editor/page.tsx`, which picks a draft and saves through the backend;
- the post list `BlogList`, with its tag cloud, its search and tag filter, and the featured first card;
- `BlogCard`, which draws the badges, the "+N more" badge, the props' defaults and the link.

Modules, one per file:

- `Strings.dfy`:
  - `Wrappers`, the `Option` type;
  - `Seqs`, the subsequence order;
  - `Strings`, the JavaScript string operations the code uses (`split`, `join`, `trim` over the ECMAScript whitespace set, ASCII `toLowerCase`, `includes`, `slice(0, n)`, the default `sort` order, and number-to-decimal conversion).
- `Tags.dfy`: the `split(',')` / `trim` / `filter(Boolean)` tag pipeline that both editors share.
- `Auth.dfy`: the login claims, token verification with its expiry rule, the bearer-header parse, and the middleware's three verdicts.
- `BlogTable.dfy`: the store table.
  - It is a map from id to row and a next-id counter.
  - A chain of `.eq` filters is a conjunction.
  - It covers select, update, delete, insert and the newest-first ordering.
- `Server.dfy`: every route handler as a function from the table to a response and a new table, the class `BlogServer` whose methods update the table in place, and the lemmas about ownership and visibility.
- `LocalEditor.dfy`: the class `BlogEditor`, holding the blog, `isEdited`, `lastSaved`, the user and `localStorage`.
- `EditorPage.dfy`: the class `EditorPage`, holding the blog, the drafts and `isSaving`.
- `BlogList.dfy` and `BlogCard.dfy`: the pure list and card logic.

Each class method is proved against a specification function of the old state, `State() == Spec(old(State()), …)`, and the properties are lemmas about those functions.

Several places where the code differs from its stated intent are modelled as the code is written:
- **DELETE answers 500 on every call.** The handler binds the whole store result to `error`, and that result is always truthy.
- **An update that matches no row answers 200.** This holds for save-draft, publish and put when the id belongs to someone else or does not exist.
- **The public list's author name is always "Unknown".** Its query never selects the `users` join.
- **`saveToServer` never clears `isSaving`.** Both save buttons are rendered disabled while it is set, so a page starts at most one save.
- **The local editor's store update is filtered by id alone.** `BlogEditor` writes straight to the store with `user_id: userId` in the payload and `.eq('id', blog.id)` as its only filter, so that client write is not scoped by owner the way the backend's routes are.

## Model

| member | source | states |
|---|---|---|
| Strings.Split | frontend/components/BlogEditor.tsx:90-91 | `split` returns at least one piece, and no piece contains the separator |
| Strings.JoinSplit | frontend/components/BlogEditor.tsx:90-91 | joining the pieces of a split with the separator gives back the original string |
| Strings.SplitJoin | frontend/components/BlogEditor.tsx:90-91 | splitting a join of separator-free pieces gives back the pieces |
| Strings.SplitFirstPiece | backend/server.js:36 | a string that starts with a separator-free piece and a separator splits into that piece followed by the split of the rest |
| Strings.SplitSepFree | backend/server.js:36 | a string without the separator splits into itself alone |
| Strings.Trim | frontend/components/BlogEditor.tsx:92 | `trim` removes only whitespace from both ends and leaves a result that neither starts nor ends with whitespace |
| Strings.TrimOfUnpadded | frontend/components/BlogEditor.tsx:92 | trimming a string with no whitespace at either end leaves it unchanged |
| Strings.TrimIdempotent | frontend/components/BlogEditor.tsx:92 | trimming twice is trimming once |
| Strings.LowerChar | frontend/components/BlogList.tsx:42 | a lower-cased character is never an upper-case ASCII letter, and a character that is not one is left alone |
| Strings.ToLower | frontend/components/BlogList.tsx:42 | `toLowerCase` keeps the length, turns each upper-case ASCII letter into its lower-case letter in place, keeps every other character in place, leaves no upper-case ASCII letter, and leaves a string without upper-case letters unchanged |
| Strings.IncludesIffOccurs | frontend/components/BlogList.tsx:42-43 | `includes` holds exactly when the needle occurs at some position of the haystack |
| Strings.Take | frontend/components/BlogList.tsx:39 | `slice(0, n)` has length `min(n, length)`, counted in code points, and is a prefix of the string |
| Strings.LessIrreflexive | frontend/components/BlogList.tsx:36 | the default sort order puts no string before itself |
| Strings.LessTransitive | frontend/components/BlogList.tsx:36 | the default sort order is transitive |
| Strings.LessTotal | frontend/components/BlogList.tsx:36 | any two different strings are ordered one way or the other |
| Strings.LessAsymmetric | frontend/components/BlogList.tsx:36 | no two strings are each before the other |
| Strings.NatToString | frontend/app/blog-editor/page.tsx:72 | a natural number's decimal text is non-empty, made of digits only, and has no leading zero |
| Strings.IntToString | frontend/app/blog-editor/page.tsx:72 | an integer's decimal text is non-empty and starts with `-` exactly when the integer is negative |
| Strings.IntToStringInjective | frontend/app/blog-editor/page.tsx:72 | different ids give different `toString` texts, so matching a draft by its text matches it by id |
| Strings.NatToStringInjective | frontend/app/blog-editor/page.tsx:72 | different natural numbers have different decimal texts |
| Tags.CleanTags | frontend/components/BlogEditor.tsx:93 | after `filter(Boolean)` every tag is non-empty and already trimmed |
| Tags.CleanTagsMembers | frontend/components/BlogEditor.tsx:92-93 | a tag is kept exactly when it is a non-empty trimmed piece |
| Tags.CleanTagsMultiset | frontend/components/BlogEditor.tsx:92-93 | `filter(Boolean)` drops only the empty pieces: the kept tags are the trimmed pieces copy for copy, duplicates included, and their number is the number of pieces less the empty ones |
| Tags.CleanTagsInOrder | frontend/components/BlogEditor.tsx:92-93 | the kept tags keep the order of the pieces |
| Tags.ParseTagString | frontend/components/BlogEditor.tsx:90-93 | every tag parsed from the comma text is non-empty, trimmed and free of commas |
| Tags.TrimKeepsOut | frontend/components/BlogEditor.tsx:92 | trimming adds no new character, so a comma-free piece stays comma-free |
| Tags.CleanTagsOfClean | frontend/app/blog-editor/page.tsx:105-108 | filtering a list that is already clean changes nothing |
| Tags.TrimOfClean | frontend/app/blog-editor/page.tsx:105-108 | trimming a clean tag changes nothing |
| Tags.ParseJoinedTags | frontend/components/BlogEditor.tsx:90-93 | joining clean, comma-free tags with commas and parsing the text back gives the same tags |
| Tags.ParseExample | frontend/components/BlogEditor.tsx:90-93 | the text `a, b , ` parses to exactly `[a, b]`: the padding is trimmed and the blank last piece is dropped |
| Tags.ParseExampleInstance | frontend/components/BlogEditor.tsx:90-93 | `"tech, programming , "` parses to `["tech", "programming"]` |
| Auth.Login | backend/server.js:62-68 | login fails with invalid credentials exactly when the store returns no session; otherwise the token's claims name the session user and expire seven days after `now` |
| Auth.Verify | backend/server.js:39 | a token verifies exactly when it decodes and the current time is before its expiry, and then yields the decoded claims |
| Auth.BearerToken | backend/server.js:36 | the extracted token, when there is one, is non-empty and contains no space |
| Auth.Middleware | backend/server.js:35-45 | the request is refused as unauthorized exactly when there is no token, refused as invalid exactly when there is a token that does not verify, and otherwise proceeds with the verified claims |
| Auth.MissingTokenCases | backend/server.js:36-37 | a missing header, a header with no second field, or an empty second field is refused as unauthorized |
| Auth.LaterFieldsIgnored | backend/server.js:36 | only the second space-separated field is the token: `Bearer abc def` carries `abc` |
| Auth.SchemeIgnored | backend/server.js:36 | the scheme word before the space is never checked: any scheme followed by a token yields that token |
| Auth.TokenSchemeExample | backend/server.js:36 | `Token abc` yields the token `abc` |
| Auth.BearerHeaderVerdict | backend/server.js:35-45 | with a `Bearer` header the verdict is exactly what verifying its token says: invalid, or proceed with the claims |
| Auth.LoginTokenLifetime | backend/server.js:39-66 | a token minted at login is accepted, with its claims, exactly until seven days after issue, and is refused as invalid from then on |
| BlogTable.Scan | backend/server.js:85-89 | reading the id range gives every row in it, each at its own id, once each (in ascending id order, the order the model fixes for an unordered select) |
| BlogTable.AllRows | backend/server.js:109 | the whole table reads as all its rows, each once (in the model's ascending id order) |
| BlogTable.Where | backend/server.js:85-89 | a chain of `.eq` filters keeps exactly the rows that match every filter, in their original order |
| BlogTable.Select | backend/server.js:85-89 | a filtered query returns exactly the table rows that match every filter, each once (in the model's ascending id order) |
| BlogTable.SelectById | backend/server.js:114-118 | a query filtered first by id returns a single row exactly when that row exists and matches the other filters, and then returns it |
| BlogTable.OwnedBy | backend/server.js:74 | the `id` and `user_id` filters match exactly the row with that id and that owner |
| BlogTable.OwnerIs | backend/server.js:109 | the `user_id` filter matches exactly the caller's rows |
| BlogTable.OwnerAndStatus | backend/server.js:87-88 | the drafts query's filters match exactly the caller's rows with status `draft` |
| BlogTable.StatusOf | backend/server.js:163 | the public list's filter matches exactly the published rows |
| BlogTable.IdAndStatus | backend/server.js:183-184 | the public get's filters match exactly the published row with that id |
| BlogTable.UpdateOwned | backend/server.js:122-126 | an `id` and `user_id` update patches the caller's row and leaves the table's ids and every other row as they were; if the caller does not own the id nothing changes |
| BlogTable.DeleteOwned | backend/server.js:137-141 | an `id` and `user_id` delete removes exactly the caller's row with that id, or nothing |
| BlogTable.DeleteIdempotent | backend/server.js:137-141 | deleting with the same filters twice is deleting once |
| BlogTable.InsertAddsOne | backend/server.js:78 | an insert adds one row, at the next free id, and leaves every existing row unchanged |
| BlogTable.InsertNewestFirst | backend/server.js:164 | inserting into a newest-first list keeps it newest first and adds exactly that row |
| BlogTable.SortNewestFirst | backend/server.js:164 | `order('created_at', descending)` gives a newest-first permutation of the rows |
| BlogTable.SortKeepsRows | backend/server.js:164 | sorting keeps exactly the same rows |
| BlogTable.SortedNoRepeats | backend/server.js:164 | sorting the rows of a query newest first repeats none of them |
| Server.BlogServer.constructor | backend/server.js:27 | the server starts with an empty table whose first id is 1 |
| Server.BlogServer.UpsertBlog | backend/server.js:71-106 | the save writes the table and answers as the upsert specification says: 400 on a store error, an owner-scoped update answering a message when the body has an id, otherwise an insert answering the new row |
| Server.BlogServer.SaveDraft | backend/server.js:71-82 | save-draft changes the table and answers as its route specification says, forcing the status to `draft` |
| Server.BlogServer.Publish | backend/server.js:95-106 | publish changes the table and answers as its route specification says, forcing the status to `published` |
| Server.BlogServer.PutBlog | backend/server.js:120-130 | put changes the table and answers as its route specification says, updating only the caller's row with that id |
| Server.BlogServer.DeleteBlog | backend/server.js:133-148 | delete changes the table and answers as its route specification says |
| Server.BlogServer.Handle | backend/server.js:35-192 | a request is gated by the middleware where the route needs a token, then routed, and the table and the response are what the serve specification says |
| Server.UpsertFrame | backend/server.js:71-106 | a save keeps the table well formed, leaves every row other than the caller's target untouched, and adds only a row of the caller's at the next id |
| Server.RouteFrame | backend/server.js:71-148 | every authenticated route changes, at most, the caller's own row with the id it names, and adds only a row owned by the caller |
| Server.RequestTouchesOnlyCallersTarget | backend/server.js:35-192 | no request changes another user's row; a request without a verified caller changes nothing; any new row belongs to the caller |
| Server.RefusedRequestChangesNothing | backend/server.js:35-45 | a protected request without a token is answered 401 `Unauthorized`, and one with a bad token 403 `Invalid token`, with the table unchanged |
| Server.NewPostIsCallers | backend/server.js:77-104 | saving a post without an id inserts it at the next id, owned by the caller, with the route's status, and answers the inserted row |
| Server.SaveWithIdForcesStatus | backend/server.js:73-100 | saving a post with an id updates only the caller's row with that id, to the route's status, keeps every other row and the next id, and answers the route's message even when no row matched |
| Server.PutWritesGivenStatus | backend/server.js:120-130 | put writes the status given in the body to the caller's row, keeps every other row and the next id, and answers `Blog updated` whether or not a row matched |
| Server.DeleteAnswers500 | backend/server.js:133-148 | delete removes the caller's row when there is one, yet always answers 500 with an empty object |
| Server.DeleteTwiceIsDeleteOnce | backend/server.js:133-148 | a second identical delete changes nothing and answers the same |
| Server.DraftsAreCallersDrafts | backend/server.js:84-93 | the drafts route answers exactly the caller's draft rows, each once (in the model's ascending id order) |
| Server.MyBlogsAreCallersRows | backend/server.js:108-112 | the caller's list holds exactly the caller's rows, each once |
| Server.GetBlogOnlyOwned | backend/server.js:114-118 | get answers 200 with the row exactly when the caller owns it and the store succeeds, and 404 `Blog not found` otherwise |
| Server.PublicListingShowsPublished | backend/server.js:152-174 | the public list shows exactly the published rows, each once, newest first, each with author `Unknown`, and never a draft |
| Server.SummariesOfSorted | backend/server.js:168-171 | summarising a newest-first, repeat-free list of all published rows keeps each of the public list's properties, ids included once each |
| Server.SortedPublishedRows | backend/server.js:153-164 | the sorted published query holds exactly the published rows, newest first, none twice |
| Server.PublicBlogHidesDrafts | backend/server.js:177-192 | the public get needs no token, changes nothing, and answers 200 exactly for a published row, else 404 `Blog not found` |
| Server.PublishedPostOf | backend/server.js:180-189 | the public post exists exactly for a published id, and is that row's projection |
| Server.DraftThenPublish | backend/server.js:71-174 | a new draft can be read back by its owner at the next id, and once published under that id it appears in the public list |
| LocalEditor.BlogEditor.constructor | frontend/components/BlogEditor.tsx:22-32 | the editor starts with the empty blog, nothing edited, never saved, no user, and the given storage |
| LocalEditor.BlogEditor.CheckAuth | frontend/components/BlogEditor.tsx:34-41 | the user id is set to the user the auth check reports |
| LocalEditor.BlogEditor.LoadLocalDraft | frontend/components/BlogEditor.tsx:44-51 | the blog is replaced by the stored draft exactly when one is stored and parses |
| LocalEditor.BlogEditor.HandleInputChange | frontend/components/BlogEditor.tsx:54-60 | the named field takes the new value and the editor is marked edited |
| LocalEditor.BlogEditor.LocalSaveDraft | frontend/components/BlogEditor.tsx:62-75 | an edited blog is written under `blog-draft` and stamped saved; nothing happens when nothing was edited |
| LocalEditor.BlogEditor.SaveToSupabase | frontend/components/BlogEditor.tsx:84-137 | the write sent to the store and the new editor state are those of the store-save specification |
| LocalEditor.FieldChangeIsLocal | frontend/components/BlogEditor.tsx:54-60 | an edit changes only the named field, marks the blog edited, and keeps the id, the user, the storage and the last-save time |
| LocalEditor.LocalSaveOnlyWhenEdited | frontend/components/BlogEditor.tsx:62-75 | a local save without edits, or one whose `setItem` throws, changes nothing; with edits it writes the serialised blog under `blog-draft`, leaves other keys alone, stamps the time and clears the edited flag |
| LocalEditor.SecondLocalSaveIsNoOp | frontend/components/BlogEditor.tsx:62-75 | a second local save right after a first changes nothing |
| LocalEditor.LoadCases | frontend/components/BlogEditor.tsx:44-51 | loading changes only the blog, and only to a stored draft that parses, and it does load such a draft |
| LocalEditor.LocalDraftSurvivesReload | frontend/components/BlogEditor.tsx:44-75 | an edited blog saved locally is loaded back unchanged by a new editor over the same storage |
| LocalEditor.NoUserSendsNothing | frontend/components/BlogEditor.tsx:85-88 | without a signed-in user nothing is sent and nothing changes |
| LocalEditor.WriteCarriesBlog | frontend/components/BlogEditor.tsx:90-118 | with a user, the write is an update by id exactly when the blog has an id, otherwise an insert, and it carries the title, the content, the parsed clean tags, the status and the user id |
| LocalEditor.IdAdoption | frontend/components/BlogEditor.tsx:120-128 | a save changes at most the blog's id, and adopts the returned id only after a successful insert by a signed-in user |
| LocalEditor.InsertThenUpdate | frontend/components/BlogEditor.tsx:105-128 | a first save inserts, and after it succeeds the next save updates the adopted id |
| EditorPage.NormalizeTags | frontend/app/blog-editor/page.tsx:105-108 | the tags sent are all non-empty and trimmed, whether the field holds text or a list |
| EditorPage.FindDraft | frontend/app/blog-editor/page.tsx:72 | `find` returns a draft whose id text equals the value, and returns none exactly when no draft's id text equals it |
| EditorPage.EditorPage.constructor | frontend/app/blog-editor/page.tsx:18-22 | the page starts with the empty blog, no drafts and not saving |
| EditorPage.EditorPage.FetchDrafts | frontend/app/blog-editor/page.tsx:27-64 | the drafts request and the new state are those of the drafts-load specification |
| EditorPage.EditorPage.HandleChange | frontend/app/blog-editor/page.tsx:66-69 | the state becomes the edit specification's state |
| EditorPage.EditorPage.HandleDraftSelect | frontend/app/blog-editor/page.tsx:71-81 | the state becomes the draft-selection specification's state |
| EditorPage.EditorPage.SaveToServer | frontend/app/blog-editor/page.tsx:83-134 | the save request and the new state are those of the server-save specification |
| EditorPage.NoTokenNoRequest | frontend/app/blog-editor/page.tsx:28-87 | without a token no drafts request and no save request is sent, and a save only sets `isSaving` |
| EditorPage.DraftsAcceptance | frontend/app/blog-editor/page.tsx:44-52 | the drafts are replaced only by, and always by, the data of an ok reply that is an array sent with a token |
| EditorPage.ChangeIsLocal | frontend/app/blog-editor/page.tsx:66-69 | an edit sets only the named field, with tags typed as text, and keeps the id, the drafts and `isSaving` |
| EditorPage.SelectionCases | frontend/app/blog-editor/page.tsx:71-81 | choosing a value no draft's id text matches changes nothing; otherwise the blog becomes the first matching draft |
| EditorPage.FindFirst | frontend/app/blog-editor/page.tsx:72 | `find` returns the first draft whose id text equals the value |
| EditorPage.SelectingOwnIdLoadsIt | frontend/app/blog-editor/page.tsx:71-81 | with drafts of distinct ids, in any order, selecting a draft's own id loads that draft |
| EditorPage.SaveRouting | frontend/app/blog-editor/page.tsx:89-109 | with a token the save is a PUT to `/blogs/<id>` exactly when the blog has an id, otherwise a POST to `/blogs/publish` or `/blogs/save-draft` by status; it sends the bearer token and the blog with normalised tags and the status |
| EditorPage.TagNormalisation | frontend/app/blog-editor/page.tsx:105-108 | text tags are parsed as in the local editor, list tags are trimmed with blanks dropped in their order and duplicates kept, and normalising twice is normalising once |
| EditorPage.SaveAdoptsId | frontend/app/blog-editor/page.tsx:84-121 | a save leaves `isSaving` set, keeps the drafts, changes at most the id, and adopts the first returned id only after an ok reply to a save without an id |
| EditorPage.AtMostOneSave | frontend/app/blog-editor/page.tsx:184-190 | with the save buttons disabled while `isSaving`, a page starts at most one save in any run of steps, and none once a save has started |
| EditorPage.SavingStaysSet | frontend/app/blog-editor/page.tsx:83-134 | once set, `isSaving` is never cleared by any operation of the page |
| BlogList.FlatTags | frontend/components/BlogList.tsx:36 | `flatMap` yields exactly the tags of some post |
| BlogList.InsertSorted | frontend/components/BlogList.tsx:36 | inserting a tag into a strictly sorted list keeps it strictly sorted and adds just that tag |
| BlogList.SortedDistinct | frontend/components/BlogList.tsx:36 | the de-duplicated sorted tags are strictly sorted and hold the same tags |
| BlogList.AllTagsIsSortedUnion | frontend/components/BlogList.tsx:36 | the tag cloud is sorted, has no duplicates, and holds exactly the tags of some post |
| BlogList.SortedByMembers | frontend/components/BlogList.tsx:36 | two strictly sorted lists with the same members are equal |
| BlogList.AllTagsIgnoresOrder | frontend/components/BlogList.tsx:36 | the tag cloud does not depend on the order of the posts |
| BlogList.FilteredBlogs | frontend/components/BlogList.tsx:38-49 | the filter keeps, in their order, exactly the posts that match the search and carry every selected tag |
| BlogList.FilteredBlogsCounts | frontend/components/BlogList.tsx:38-49 | each matching post is kept as many times as it is listed, and a post that does not match is dropped entirely |
| BlogList.NoFilterKeepsAll | frontend/components/BlogList.tsx:38-49 | an empty search with no selected tag keeps every post |
| BlogList.KeptPostsMatch | frontend/components/BlogList.tsx:40-46 | every kept post carries each selected tag, and its lower-cased title or excerpt contains the lower-cased search term unless the term is empty |
| BlogList.ExcerptIsContentStart | frontend/components/BlogList.tsx:39 | the excerpt is at most 150 code points, a prefix of the content, and all of a content that short |
| BlogList.ToLowerIdempotent | frontend/components/BlogList.tsx:42 | lower-casing twice is lower-casing once |
| BlogList.SearchIgnoresTermCase | frontend/components/BlogList.tsx:40-43 | searching for a term matches the same posts as searching for its lower-cased form |
| BlogList.PublicPostsMatchTitleOnly | frontend/components/BlogList.tsx:39-43 | a post without content matches a non-empty search exactly when its title does |
| BlogList.Without | frontend/components/BlogList.tsx:54 | `filter(t => t !== tag)` keeps every other tag, in order and copy for copy, and drops every copy of the tag |
| BlogList.ToggleCases | frontend/components/BlogList.tsx:52-56 | toggling a selected tag removes it and keeps the others in order; toggling an unselected tag appends it |
| BlogList.WithoutAbsent | frontend/components/BlogList.tsx:54 | removing a tag that is not there changes nothing |
| BlogList.WithoutAppended | frontend/components/BlogList.tsx:54 | removing a freshly appended tag restores the list |
| BlogList.ToggleTwiceRestores | frontend/components/BlogList.tsx:52-56 | toggling an unselected tag twice restores the selection |
| BlogList.Cards | frontend/components/BlogList.tsx:86-95 | there is one card per shown post |
| BlogList.OnlyFirstCardFeatured | frontend/components/BlogList.tsx:86-95 | only the first card is featured, and each card links to its post and carries its tags |
| BlogCard.BadgesAccountForAllTags | frontend/components/BlogCard.tsx:48-57 | at most three badges are shown, the first tags in order; a "+N more" badge appears exactly when there are more than three, and the badges plus N count every tag |
| BlogCard.Defaults | frontend/components/BlogCard.tsx:20-23 | a card without tags shows no badge, one without a variant is not featured, and a card is featured exactly when its variant is `featured` |
| BlogCard.LinkTarget | frontend/components/BlogCard.tsx:26 | the card links to `/posts/` followed by the id, and different ids give different links |

## Left out

- Registration, password hashing, session issuance inside the hosted auth service, CORS and the Express wiring: these are outside the modelled routes. The store's session lookup is a parameter of `Auth.Login`.
- JSON web token signatures: decoding a token is an abstract function parameter. The model keeps only the expiry rule (valid while `now < exp`) and the claims.
- The clock: `now` is a parameter of every operation that reads the time.
- Store failures: one `storeError` flag selects each handler's `if (error)` branch. This includes a non-numeric `:id` that the store rejects. Path ids are integers.
- Server.BlogServer.UpsertBlog: the id counter does not advance on a failed insert. Whether the hosted store burns an id there cannot be seen from this code.
- An omitted field in a request body: JSON drops `undefined` keys, so the store leaves that column untouched. The page client always sends every field, so bodies are modelled with all fields present.
- The public list's `users(display_name)` join: the query never selects it. `Server.AuthorName` models the `|| 'Unknown'` rule, and the listing always takes its `None` branch.
- Asynchrony: React state batching, racing saves, the 2-second autosave debounce timer and component teardown are left out. Each handler runs to completion on the state it starts from.
- Toasts, router redirects and console output: they have no effect on the modelled state.
- The network: each `fetch` is modelled as the request it sends plus the reply passed in.
- `JSON.parse` and `JSON.stringify` of the local draft: they are function parameters. A parse that yields an object which is not a blog is outside the model.
- Store ids in `BlogEditor.tsx`: they are typed as strings there and kept as strings in `LocalEditor`. The backend and the page use the integer ids of the table.
- `BlogList`'s own fetch from `/public/blogs`: the list receives its posts as a parameter. `BlogList.FromPublicList` turns the public listing's result into those posts, and `BlogList.PublicPostsMatchTitleOnly` states what the search does with them.
- The `created_at` display and `formatDistanceToNow` on the card: date formatting needs the clock and a locale.
- Null `tags` on a listed post: `BlogList` takes every post's tags to be a list. `tags?.includes` on a null list is not modelled.
- Unicode in strings: `toLowerCase` is modelled for ASCII letters only. The sort order compares code points, which may differ from JavaScript's UTF-16 unit order outside the basic plane.
- Strings.Take: `slice(0, n)` is modelled in code points, while JavaScript counts UTF-16 code units. On content outside the basic plane the program's 150-unit excerpt is shorter than the model's 150-code-point one and can split a surrogate pair, so a search term lying past the program's cut matches only in the model. BlogList.ExcerptIsContentStart's "150 characters" are code points for the same reason.
- Row-level access policies of the hosted store: they would decide whether the local editor's id-only update can reach another user's row, and they are not part of this model.
- Row order of unordered selects: the drafts, own-list and single-row queries ask for no `.order`, so the store's order is unspecified. The model reads rows in ascending id order.
- Ties in the public list's `created_at` order: they keep ascending id order, while the store leaves their order unspecified.
- The other pages (`posts`, `edit`, `login`, `register`, `Header`, `auth-provider`) and the markdown rendering of content: they are outside the modelled core.
