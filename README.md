# Wellness sessions: a verified model

This project models the core of a small wellness-session platform. Users write
sessions: a title, comma-separated tags and the URL of a JSON file that holds
the session's content. They can save a session as a draft or publish it. Anyone
can list the published sessions. An owner can list, open and edit their own.

The model covers five parts of the repository:

- **`Schema`** (`schema.dfy`) is the Mongoose session schema. It models:
  - the `trim` and `lowercase` setters;
  - the title's required, minimum-length and maximum-length validators;
  - the `^https?:\/\/.+` URL validator, which accepts an empty value;
  - the `draft` default for `status`.
- **`Sessions`** (`sessions.dfy`) is the session controller over an in-memory
  document store. It has three parts:
  - pure transition functions for the three read handlers and the two save
    handlers (`Save` covers both `saveDraft` and `publishSession`);
  - a `Store` class whose methods change the store in place and are proved
    equal to those functions;
  - lemmas about the store invariant, the error cases, ownership, and the
    split between the update path and the create path.
- **`Form`** (`form.dfy`) is the session form component. It models:
  - the field updates;
  - the client-side checks;
  - the payload sent to the save endpoints;
  - the handling of a failed reply.
  The `SessionFormState` class holds the component's state.
- **`Editor`** (`editor.dfy`) is the session editor page. It models:
  - loading a session into the fields;
  - the debounced auto-save;
  - the save-draft and publish buttons.
  The `SessionEditorState` class holds the page's state. Time is a parameter.
- **`JsonView`** (`jsonview.dfy`) is the viewer's recursive JSON renderer. A
  JSON value becomes a tree of styled spans and indented blocks. The lemmas
  prove three things:
  - the rendered text is the value's JSON text, without string escaping;
  - the layout of items, margins and commas is as described;
  - the brackets of every rendering balance.

`Text` (`text.dfy`) holds the JavaScript string primitives the code relies on:
`trim`, `split`, `join`, `toLowerCase`, `includes` and `length`, which counts
UTF-16 code units. `toLowerCase` is modelled for the Latin, Greek and Cyrillic
capitals listed in `Text.IsUpper` (see "Left out"). `Wrappers`
(`wrappers.dfy`) holds `Option`.

Some behaviours are worth stating explicitly. Each one is proved by a lemma
named in the table below.

- **The update path runs no validators.** An update goes through
  `findOneAndUpdate`, which applies the setters but not the validators.
  - An update can therefore store a URL that the schema validator refuses,
    such as `ftp://x` (`Sessions.UpdateSkipsValidators`).
  - A create with the same body fails with 500.
  - An update can also store a title longer than 200 code units.
  - So the stored-document invariant (`Sessions.WellFormed`) does not claim
    that the URL is valid or that the title length is bounded.
- **Create-path validation failures come back as 500.** They surface as the
  handler's generic "Failed to save draft" or "Failed to publish session",
  not as a 400.
- **The client and the server check different strings.**
  - The form measures the title's length before trimming, and the server
    after trimming.
  - The form checks the URL as typed. The server trims it first. So
    `"http:// "` passes the form but fails a create (`Form.SchemeOnlyUrl`).
- **Auto-save keeps firing.** A successful auto-save stamps `lastSaved`, and
  the page re-arms its timer only after it re-renders, so slightly later.
  When the timer fires 5 s after that, the last save is more than 5 s old, so
  it saves again. The one exception is a timer armed at the very instant of
  the save that also fires exactly on time (`Editor.TimerSavesUnlessOnTheDot`).
- **Auto-save on the create page duplicates documents.** The page's `id` never
  changes there, so each accepted auto-save creates another document
  (`Editor.AutoSaveCreates`, `Editor.AutoSavesOnNewPageDuplicate`).
- **Lengths are UTF-16 lengths.** The schema's `maxlength` and the form's
  `title.length` count code units, so a title of 101 emoji is 202 long and is
  refused (`Schema.EmojiTitleTooLong`).
- **The form's backend-error mapping never fires.** The controller never sends
  an `errors` array, so the form never maps backend errors onto its fields
  (`Form.ServerFailureShown`).

## Model

| member | source | states |
|---|---|---|
| Text.Trim | backend/models/Session.js:12 | `trim()`. The result is a slice of the input with only whitespace cut off before and after it. It has no leading or trailing whitespace, and it is empty exactly when the input is all whitespace. |
| Text.TrimIdempotent | backend/models/Session.js:12 | Trimming twice is the same as trimming once. So the controller's `title.trim()` followed by the schema's trim setter stores the once-trimmed title. |
| Text.Split | backend/controllers/sessionController.js:80 | `split(',')`. It always gives at least one piece. |
| Text.SplitPiecesFree | backend/controllers/sessionController.js:80 | No piece of a split contains the delimiter. |
| Text.JoinSplit | backend/controllers/sessionController.js:80 | Joining the pieces of a split with the delimiter gives back the original string. |
| Text.SplitWithout | backend/controllers/sessionController.js:80 | A string without the delimiter splits into itself alone. |
| Text.SplitGlue | backend/controllers/sessionController.js:80 | Splitting `a + d + b` on `d` gives the pieces of `a` followed by the pieces of `b`. |
| Text.ToLower | backend/models/Session.js:19 | The `lowercase` setter. The result has the same length, each character is lowered, and the result has no capitals left. |
| Text.LowerChar | backend/models/Session.js:19 | One character lowered: a capital (A-Z, Latin-1, Greek but sigma, basic Cyrillic) becomes a small letter and changes, anything else is kept. Spaces and commas stay what they are. |
| Text.Utf16LengthAppend | frontend/src/components/SessionForm.js:45 | `length` in code units is additive over concatenation. |
| Text.Utf16LengthBmp | frontend/src/components/SessionForm.js:45 | Within the Basic Multilingual Plane, the code-unit length is the number of characters. |
| Text.TrimUtf16Length | frontend/src/components/SessionForm.js:43-45 | Trimming never makes a string longer in code units. |
| Text.ContainsOccurs | frontend/src/components/SessionForm.js:94 | `err.includes(word)` holds exactly when the word occurs at some position. |
| Schema.NormaliseTag | backend/models/Session.js:16-20 | Applies a tag's setters (trim, then lower-case). The result is trimmed and lower-case, and it is empty exactly when the tag was all whitespace. |
| Schema.NormaliseCleanTags | backend/models/Session.js:16-20 | A list of clean tags passes through the setters unchanged, so running the setters again on stored tags changes nothing. |
| Schema.TitleError | backend/models/Session.js:9-15 | The title passes its validators exactly when it is present and 1 to 200 UTF-16 code units long. It gets "Title too long" exactly when it is longer than 200. |
| Schema.EmojiTitleTooLong | backend/models/Session.js:14 | A title of 101 emoji has only 101 characters, but `maxlength` refuses it as too long. |
| Schema.UrlError | backend/models/Session.js:21-30 | The URL passes exactly when it is absent, or when it is empty or matches `^https?:\/\/.+`. |
| Schema.Validate | backend/models/Session.js:3-38 | A new document is valid iff it has an owner, a trimmed title of 1 to 200 UTF-16 code units, and a trimmed URL that is empty or http(s). A valid document holds the trimmed title, the normalised tags, the trimmed URL (or `""`) and the status, defaulting to draft. An invalid one reports at least one error. |
| Schema.UrlExamples | backend/models/Session.js:24-29 | `ftp://x` and `http://` are refused. The empty string and an https address are accepted. |
| Sessions.TrimAll | backend/controllers/sessionController.js:80 | `.map(tag => tag.trim())`: each piece is trimmed, in order. |
| Sessions.DropEmptyKeeps | backend/controllers/sessionController.js:80 | `.filter(tag => tag)` keeps exactly the non-empty pieces, as a set. |
| Sessions.DropEmptyAppend | backend/controllers/sessionController.js:80 | `.filter` keeps order and multiplicity: filtering a concatenation is the concatenation of the filtered parts. |
| Sessions.TrimAllAppend | backend/controllers/sessionController.js:80 | `.map(trim)` keeps order: trimming a concatenation is the concatenation of the trimmed parts. |
| Sessions.ParseTags | backend/controllers/sessionController.js:80 | An absent or empty `tags` gives no tags. A field without a comma gives its trimmed self, or nothing when it is blank. Every parsed tag is non-empty, trimmed and comma-free. |
| Sessions.ParseTagsSplit | backend/controllers/sessionController.js:80 | Every string, the empty one too, parses to the filtered, trimmed pieces of its split. |
| Sessions.ParseTagsAppend | backend/controllers/sessionController.js:80 | The tags of `a + "," + b` are the tags of `a` followed by the tags of `b`. With the comma-free case of `ParseTags`, this fixes the result's order and multiplicity. |
| Sessions.ParseTagsExample | backend/controllers/sessionController.js:80 | `"b, ,a, b"` parses to `["b", "a", "b"]`. |
| Sessions.ParseTagsOfJoin | backend/controllers/sessionController.js:80 | Tags joined with `", "` parse back to the same list, when each tag is non-empty, trimmed and comma-free. |
| Sessions.Find | backend/controllers/sessionController.js:6-8 | `find(filter).sort(...)` returns every stored document that matches, exactly once, and nothing else, newest first by the key. |
| Sessions.PublicSessions | backend/controllers/sessionController.js:4-16 | Returns the published documents only, each exactly once, newest-created first. |
| Sessions.UserSessions | backend/controllers/sessionController.js:19-34 | Without a caller, 401. Otherwise exactly the caller's documents, each once, most recently updated first. |
| Sessions.UserSession | backend/controllers/sessionController.js:37-57 | Without a caller, 401. The document is returned exactly when it exists and belongs to the caller. Otherwise the same 404, so a document owned by someone else looks like a missing one. |
| Sessions.Update | backend/controllers/sessionController.js:75-89 | A document that is missing or owned by someone else gives 404 and no change. Otherwise the document keeps its id, owner and creation time, takes the trimmed title, the normalised tags, the trimmed URL and the target status, and is stamped with the next clock tick. |
| Sessions.Create | backend/controllers/sessionController.js:90-99 | Succeeds iff the trimmed title is 1 to 200 UTF-16 code units and the trimmed URL is empty or http(s). On failure, 500 and no change. On success, exactly one new document under the fresh id, created and updated at the new tick. |
| Sessions.Save | backend/controllers/sessionController.js:60-107 | No caller gives 401, and a missing or blank title gives 400. Every error leaves the store unchanged. |
| Sessions.SaveWrites | backend/controllers/sessionController.js:74-102 | A successful save writes one document under the body's id, or else the next fresh id. The document is owned by the caller and has the target status, the trimmed title, the parsed and normalised tags and the trimmed URL (or `""`). It is stamped with the next clock tick. |
| Sessions.SaveErrors | backend/controllers/sessionController.js:60-157 | Every error a save or publish can return is 401, 400 "Title is required", 404 "Session not found or unauthorized", or 500 with the handler's failure message. |
| Sessions.SaveUpdatesOwnedOnly | backend/controllers/sessionController.js:125-139 | A save with an id succeeds exactly when that document exists and belongs to the caller; otherwise 404 with no change. It never changes the set of ids, the id counter or the creation time. |
| Sessions.SaveCreatesOne | backend/controllers/sessionController.js:140-149 | A save without an id succeeds exactly when the trimmed title (at most 200 code units) and URL pass the schema; otherwise 500 with no change. A success adds exactly one fresh id, leaves every other document as it was, and has creation time equal to update time. |
| Sessions.UpdateSkipsValidators | backend/controllers/sessionController.js:76-85 | An update stores a URL the schema validator refuses, while a create with the same body is refused with 500. |
| Sessions.StoredTagsClean | backend/controllers/sessionController.js:94 | The tags a save stores are all clean: non-empty, trimmed, comma-free and without the capitals the model lowers. |
| Sessions.SaveKeepsInvariant | backend/controllers/sessionController.js:60-157 | Every save and publish keeps the store invariant: ids match keys and are below the counter, timestamps are in order and not ahead of the clock, and titles, tags and URLs are normalised. |
| Sessions.Store.GetPublicSessions | backend/controllers/sessionController.js:4-16 | The handler's reply on the current store is `PublicSessions` of that store. |
| Sessions.Store.GetUserSessions | backend/controllers/sessionController.js:19-34 | The handler's reply on the current store is `UserSessions` of that store. |
| Sessions.Store.GetUserSession | backend/controllers/sessionController.js:37-57 | The handler's reply on the current store is `UserSession` of that store. |
| Sessions.Store.SaveDraft | backend/controllers/sessionController.js:60-107 | The reply and the new store are those of `Save` with target draft, and the store invariant is kept. |
| Sessions.Store.PublishSession | backend/controllers/sessionController.js:110-157 | The reply and the new store are those of `Save` with target published, and the store invariant is kept. |
| Sessions.Store.UpdateOwned | backend/controllers/sessionController.js:76-89 | The in-place `findOneAndUpdate` leaves the reply and the store that `Update` specifies. |
| Sessions.Store.Insert | backend/controllers/sessionController.js:91-98 | The in-place `new Session(...).save()` leaves the reply and the store that `Create` specifies. |
| Form.FormData.Set | frontend/src/components/SessionForm.js:26-29 | `{ ...prev, [name]: value }`: the named field takes the value and the other fields keep theirs. |
| Form.TitleProblem | frontend/src/components/SessionForm.js:43-47 | No problem iff the title is not blank and, as typed and untrimmed, at most 200 UTF-16 code units. Otherwise "required" for a blank title, else "too long". |
| Form.UrlProblem | frontend/src/components/SessionForm.js:49-51 | No problem iff the URL, as typed, is empty or matches `^https?:\/\/.+`. |
| Form.NewErrors | frontend/src/components/SessionForm.js:41-51 | The statements that build `newErrors` check by check produce exactly `ValidationErrors` of the fields. |
| Form.ValidationErrors | frontend/src/components/SessionForm.js:40-55 | The title and URL fields each have an entry exactly when their check fails, with its message. Tags never have one. The map is empty iff both checks pass. |
| Form.Payload | frontend/src/components/SessionForm.js:68-71 | The request body carries the raw fields and the component's session id, absent when creating. |
| Form.FailureToast | frontend/src/components/SessionForm.js:87 | Shows the reply's message when it is present and non-empty, else "Failed to publish session" or "Failed to draft session". It is never empty. |
| Form.LastMatchingIsLast | frontend/src/components/SessionForm.js:93-96 | A field gets a backend error iff some error mentions its word, and the error it gets is the last such one. |
| Form.MapBackendErrors | frontend/src/components/SessionForm.js:91-97 | The `forEach` loop builds exactly the map `BackendErrors` specifies. |
| Form.TagPreview | frontend/src/components/SessionForm.js:140-146 | An empty field shows no chips. Otherwise there is one chip per comma-separated piece, trimmed, empty ones included. |
| Form.PreviewThenDrop | frontend/src/components/SessionForm.js:142-146 | The tags the server stores are the preview's chips without the empty ones. |
| Form.SessionFormState.constructor | frontend/src/components/SessionForm.js:5-12 | The form starts with empty fields, no errors and the given session id. |
| Form.SessionFormState.HandleChange | frontend/src/components/SessionForm.js:24-38 | One field changes. That field's error is blanked only if it was present and non-empty; the other errors are kept. |
| Form.SessionFormState.SelectSample | frontend/src/components/SessionForm.js:16-22 | A quick-select button sets the URL field to its sample URL and keeps the errors. |
| Form.SessionFormState.ValidateForm | frontend/src/components/SessionForm.js:40-55 | The errors become `ValidationErrors` of the fields, and the answer is true iff there are none. |
| Form.SessionFormState.HandleSubmit | frontend/src/components/SessionForm.js:57-71 | Nothing is sent iff validation fails, and then the toast is "Please fix the errors before submitting". Otherwise exactly the chosen endpoint's request with the payload is sent, with no toast. |
| Form.SessionFormState.HandleFailure | frontend/src/components/SessionForm.js:85-98 | The toast is `FailureToast`. An `errors` array replaces the field errors with `BackendErrors`; otherwise they are kept. |
| Form.ServerFailureShown | frontend/src/components/SessionForm.js:85-98 | Against the controller, a failed save shows the server's own message and never touches the field errors. |
| Form.ValidFormHasTitle | frontend/src/components/SessionForm.js:43-44 | A form that passes its checks never gets the server's 400 "Title is required". |
| Form.ValidFormCreate | frontend/src/components/SessionForm.js:40-55 | A client-valid new session is created iff its trimmed URL passes the schema. |
| Form.SchemeOnlyUrl | frontend/src/components/SessionForm.js:49 | `"http:// "` passes the form's URL check, but once trimmed it fails the schema validator. |
| Form.SampleUrlsValid | frontend/src/components/SessionForm.js:16-22 | Every quick-select URL passes the form's check, is already trimmed and passes the schema validator. |
| Editor.FormOf | frontend/src/pages/SessionEditor.js:28-32 | A loaded session fills the fields with its title and URL. When each tag is non-empty, trimmed and comma-free, the joined tags parse back to the same list. |
| Editor.TimerSavesUnlessOnTheDot | frontend/src/pages/SessionEditor.js:61-69 | For a timer armed no earlier than the last save and firing no earlier than 5 s after it was armed, the test `title.trim() && Date.now() - lastSaved > 5000` passes iff the title is not blank and the timer was armed after the save or fires late. So a re-armed timer after an auto-save saves again. |
| Editor.SessionEditorState.constructor | frontend/src/pages/SessionEditor.js:7-16 | The page starts with empty fields, nothing in flight, the last save stamped at mount time and the timer armed then, so the timer is not armed before the last save. |
| Editor.SessionEditorState.Load | frontend/src/pages/SessionEditor.js:24-37 | A fetched session fills the fields and re-arms the timer. A failure keeps the fields, shows "Failed to load session" and goes back to the list. |
| Editor.SessionEditorState.HandleChange | frontend/src/pages/SessionEditor.js:71-76 | One field takes the value, and the timer re-arms. |
| Editor.SessionEditorState.TimerFired | frontend/src/pages/SessionEditor.js:61-66 | When the timer fires, at or after 5 s from arming, a draft save of the fields is sent iff the title is not blank and the last save is more than 5 s old. Equivalently, iff the title is not blank and the timer was armed after the last save or fires late. |
| Editor.SessionEditorState.AutoSave | frontend/src/pages/SessionEditor.js:40-46 | A blank title sends nothing. Otherwise a draft save of the data under the page's id is sent and the indicator goes on. |
| Editor.SessionEditorState.AutoSaveDone | frontend/src/pages/SessionEditor.js:47-69 | The indicator goes off. A success stamps the last save at the reply's time, the timer re-arms at the later re-render time, and the toast is "Auto-saved!". A failure shows the server message and changes neither time. |
| Editor.SessionEditorState.HandleSaveDraft | frontend/src/pages/SessionEditor.js:78-83 | Saving a draft has no client check: the fields go out as a draft save under the page's id. |
| Editor.SessionEditorState.SaveDraftDone | frontend/src/pages/SessionEditor.js:84-96 | Only a successful save on the create page moves to the new session's editor. The toast reports success or the server message. |
| Editor.SessionEditorState.HandlePublish | frontend/src/pages/SessionEditor.js:99-116 | A blank title, then a blank URL, stops the publish with its message. Otherwise the fields go out as a publish. |
| Editor.SessionEditorState.PublishDone | frontend/src/pages/SessionEditor.js:117-125 | Success returns to the list. A failure stays and shows the server message. |
| Editor.LoadSaveRoundTrip | frontend/src/pages/SessionEditor.js:28-32 | Loading an owned stored session and saving it straight back succeeds and keeps its title, tags and URL. |
| Editor.TagsRoundTrip | frontend/src/pages/SessionEditor.js:30 | Clean tags survive the editor's `join(', ')`, the server's parse and the setters unchanged. |
| Editor.PublishGuardsTitle | frontend/src/pages/SessionEditor.js:103-106 | A publish whose title passes the page's check can fail on the server only with 404 or 500, never with the 400 for a missing title. |
| Editor.AutoSaveCreates | frontend/src/pages/SessionEditor.js:40-58 | On the create page, an auto-save of fields the schema accepts is stored under the next fresh id, which was unused, as a draft of those fields. It keeps the store invariant, so the next auto-save does the same again. |
| Editor.AutoSavesOnNewPageDuplicate | frontend/src/pages/SessionEditor.js:40-58 | On the create page, two accepted auto-saves in a row create two stored drafts of the same fields under two different ids. |
| JsonView.TextIsSerialize | frontend/src/components/SessionJsonViewer.js:50-100 | The text of a rendering, read in order, is the value's JSON text without string escaping (as the page draws it), with `": "` after keys and commas between items. |
| JsonView.ArrayLayout | frontend/src/components/SessionJsonViewer.js:67-80 | An array renders as its brackets around one item per element. Each item has margin `(level + 1) * 20` and renders its element one level deeper. Every item but the last ends with a comma. |
| JsonView.ObjectLayout | frontend/src/components/SessionJsonViewer.js:82-97 | An object renders as braces around one item per entry: the quoted key, `": "`, then the value one level deeper at margin `(level + 1) * 20`. Every item but the last ends with a comma. |
| JsonView.ScalarRendering | frontend/src/components/SessionJsonViewer.js:51-65 | null, strings, numbers and booleans render as one span with their class and JSON text, independent of the level. |
| JsonView.RenderBalanced | frontend/src/components/SessionJsonViewer.js:67-97 | Every rendering's brackets and braces balance and nest properly. |

## Left out

- Authentication middleware: the caller is a parameter (`None` when no user is attached). The routes and the server setup are not part of this model.
- Database failures: the 500 replies of the read handlers ("Failed to load sessions", "Server error" and the like) come only from storage errors or exceptions, which the in-memory store does not have.
- Malformed ids and non-string fields: an id that is not a valid ObjectId, or a `title` or `tags` that is not a string, throws in the handler and gives 500. Ids here are naturals and body fields are strings or absent. An empty-string `id` counts as absent.
- `populate('user_id', 'email')` in the public list: user documents are not modelled, so the owner stays an id.
- The schema's indexes: they affect only query speed.
- Concurrency: the handlers' awaits and the page's overlapping requests are not modelled. Each request and its reply are separate steps that the caller sequences.
- Clocks: the store uses a logical clock that ticks once per write, and the editor takes the time as a parameter. Real timer scheduling and `clearTimeout` are modelled by re-arming times only. The caller supplies the re-arm time after a save and the firing time, which may be late. The model does not say how late a real timer fires.
- Network and rendering: axios calls, toasts (kept as strings), `loading` button labels, the character counter, the quick-select labels and navigation (kept as a `Navigation` value) are not drawn.
- Editor.SessionEditorState.Load: does not model the fetch itself, nor a session whose stored URL is absent (the store always holds a string).
- JsonView.Render: numbers are kept as the text the page prints for them. JavaScript's number formatting is not modelled.
- JsonView.Render: `undefined` is treated as `null`. The final `String(obj)` fallback is unreachable for parsed JSON and is not modelled.
- JsonView.Render: object entries are taken in the order given. JavaScript's ordering of integer-like keys in `Object.entries` is not modelled.
- Text.ToLower: only the capitals in `Text.IsUpper` are lowered: A-Z, the Latin-1 capitals, Greek but sigma and basic Cyrillic. JavaScript's `toLowerCase` follows the full Unicode case tables. The model keeps the other capitals, sigma (whose small form depends on its position) and `İ` (which lowers to two characters) unchanged.
- Schema.NormaliseTag: inherits `Text.ToLower`'s coverage, so a tag with a capital outside those ranges is stored with it here.
- Sessions.ParseTags: its own contract states the no-comma case and that every tag is clean. The order and multiplicity of the tags between commas are stated by `Sessions.ParseTagsAppend`.
- The rest of the JSON viewer page (fetching the session and its content, the loading and "no content" states) is not part of this model.
