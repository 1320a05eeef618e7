/** The session editor page: it loads an existing session into its fields,
    auto-saves a draft on a debounce timer, and saves or publishes on demand.
    Time is a parameter (milliseconds); each server call is split into the
    request the page sends and the handling of the reply it gets back. */
module Editor {
  import opened Wrappers
  import opened Text
  import opened Schema
  import Sessions
  import opened Form

  /** The debounce delay, and the minimum age of the last save, in ms. */
  const AutoSaveDelay := 5000

  const MySessionsPath := "/my-sessions"
  const LoadFailedMessage := "Failed to load session"
  const JsonUrlRequiredMessage := "JSON file URL is required"

  /** Where the page goes after a reply. */
  datatype Navigation = Stay | ToMySessions | ToEditor(id: Sessions.SessionId)

  /** A loaded session as the fields show it: tags joined with `", "`, an
      absent URL as the empty string. Joined tags that each pass the server's
      tag parser parse back to the same list. */
  function FormOf(s: Sessions.Session): (d: FormData)
    ensures d.title == s.title && d.jsonFileUrl == s.jsonFileUrl
    ensures Sessions.AllTagPieces(s.tags) ==> Sessions.ParseTags(Some(d.tags)) == s.tags
  {
    JoinParses(s.tags);
    FormData(s.title, Join(s.tags, ", "), s.jsonFileUrl)
  }

  lemma JoinParses(xs: seq<string>)
    ensures Sessions.AllTagPieces(xs) ==> Sessions.ParseTags(Some(Join(xs, ", "))) == xs
  {
    if Sessions.AllTagPieces(xs) {
      Sessions.ParseTagsOfJoin(xs);
    }
  }

  /** The timer's test `formData.title.trim() && Date.now() - lastSaved > 5000`
      at the time `now` it fires. */
  predicate TimerSaves(title: string, now: int, lastSaved: int) {
    !IsBlank(title) && now - lastSaved > AutoSaveDelay
  }

  /** What the test comes to. The timer is armed no earlier than the last
      save and fires no earlier than `AutoSaveDelay` after it was armed, so it
      saves a non-blank title unless it was armed at the very instant of the
      last save and fires exactly on time. In particular a successful
      auto-save, which re-arms the timer only after the page re-renders, is
      followed by another one. */
  lemma TimerSavesUnlessOnTheDot(title: string, lastSaved: int, armedAt: int, now: int)
    requires lastSaved <= armedAt && armedAt + AutoSaveDelay <= now
    ensures TimerSaves(title, now, lastSaved) <==>
      !IsBlank(title) && (lastSaved < armedAt || armedAt + AutoSaveDelay < now)
  {
  }

  /** `handleSaveDraft`'s text when the call fails. */
  function DraftFailureToast(message: string): string {
    "Failed to save draft: " + message
  }

  /** `handlePublish`'s text when the call fails. */
  function PublishFailureToast(message: string): string {
    "Failed to publish session: " + message
  }

  class SessionEditorState {
    /** The `:id` route parameter; absent on the "create" page. */
    const id: Option<Sessions.SessionId>
    var formData: FormData
    var loading: bool
    var autoSaving: bool
    var lastSaved: int
    /** When the debounce timer was last (re)armed. */
    var armedAt: int

    /** The timer is never armed before the last save. */
    ghost predicate Valid()
      reads this
    {
      lastSaved <= armedAt
    }

    /** Mounting the page at time `now`: empty fields, the last save stamped
      `now`, the timer armed. */
    constructor (id: Option<Sessions.SessionId>, now: int)
      ensures Valid()
      ensures this.id == id
      ensures formData == EmptyForm && !loading && !autoSaving
      ensures lastSaved == now && armedAt == now
    {
      this.id := id;
      formData := EmptyForm;
      loading, autoSaving := false, false;
      lastSaved, armedAt := now, now;
    }

    /** `fetchSession`'s reply at time `now`: a session fills the fields (and
      re-arms the timer); a failure sends the page back to the list. */
    method Load(reply: Sessions.Response<Sessions.Session>, now: int) returns (nav: Navigation, toast: Option<string>)
      requires Valid() && armedAt <= now
      modifies this
      ensures Valid()
      ensures reply.Ok? ==> formData == FormOf(reply.value) && armedAt == now && nav == Stay && toast.None?
      ensures reply.Error? ==> formData == old(formData) && armedAt == old(armedAt)
                               && nav == ToMySessions && toast == Some(LoadFailedMessage)
      ensures unchanged(`lastSaved, `loading, `autoSaving)
    {
      if reply.Ok? {
        formData := FormOf(reply.value);
        armedAt := now;
        nav, toast := Stay, None;
      } else {
        nav, toast := ToMySessions, Some(LoadFailedMessage);
      }
    }

    /** `handleChange` at time `now`: one field takes the typed value; the
      timer re-arms. */
    method HandleChange(f: Field, value: string, now: int)
      requires Valid() && armedAt <= now
      modifies this
      ensures Valid()
      ensures formData == old(formData).Set(f, value) && armedAt == now
      ensures unchanged(`lastSaved, `loading, `autoSaving)
    {
      formData := formData.Set(f, value);
      armedAt := now;
    }

    /** The debounce timer firing at time `now`, no earlier than
      `AutoSaveDelay` after it was armed; when its test passes,
      `autoSave(formData)` sends a draft save of the fields. */
    method TimerFired(now: int) returns (request: Option<Request>)
      requires Valid() && armedAt + AutoSaveDelay <= now
      modifies this
      ensures Valid()
      ensures request.Some? <==> !IsBlank(formData.title) && now - lastSaved > AutoSaveDelay
      ensures request.Some? <==>
        !IsBlank(formData.title) && (lastSaved < armedAt || armedAt + AutoSaveDelay < now)
      ensures request.Some? ==> request.value == Request(Draft, Payload(formData, id))
      ensures autoSaving == (request.Some? || old(autoSaving))
      ensures unchanged(`formData, `lastSaved, `armedAt, `loading)
    {
      TimerSavesUnlessOnTheDot(formData.title, lastSaved, armedAt, now);
      request := None;
      if !IsBlank(formData.title) && now - lastSaved > AutoSaveDelay {
        request := AutoSave(formData);
      }
    }

    /** `autoSave(data)`: nothing for a blank title; otherwise a draft save
      of `data` under the page's id. */
    method AutoSave(data: FormData) returns (request: Option<Request>)
      modifies this
      ensures request.Some? <==> !IsBlank(data.title)
      ensures request.Some? ==> request.value == Request(Draft, Payload(data, id))
      ensures autoSaving == (request.Some? || old(autoSaving))
      ensures unchanged(`formData, `lastSaved, `armedAt, `loading)
    {
      request := None;
      var blank := IsBlank(data.title);
      if !blank {
        autoSaving := true;
        request := Some(Request(Draft, Payload(data, id)));
      }
    }

    /** The auto-save's reply, stamped at time `now`: a success sets
      `lastSaved` to `now`, and the effect, which depends on `lastSaved`,
      re-arms the timer at `rearmedAt`, once the page has re-rendered; the
      indicator goes off either way. */
    method AutoSaveDone(reply: Sessions.Response<Sessions.Saved>, now: int, rearmedAt: int) returns (toast: string)
      requires Valid() && armedAt <= now <= rearmedAt
      modifies this
      ensures Valid()
      ensures !autoSaving
      ensures reply.Ok? ==> lastSaved == now && armedAt == rearmedAt && toast == "Auto-saved!"
      ensures reply.Error? ==> lastSaved == old(lastSaved) && armedAt == old(armedAt)
                               && toast == "Auto-save failed: " + reply.message
      ensures unchanged(`formData, `loading)
    {
      autoSaving := false;
      if reply.Ok? {
        lastSaved, armedAt := now, rearmedAt;
        toast := "Auto-saved!";
      } else {
        toast := "Auto-save failed: " + reply.message;
      }
    }

    /** `handleSaveDraft`: no client check at all; the fields go out as a
      draft save under the page's id. */
    method HandleSaveDraft() returns (request: Request)
      modifies this
      ensures request == Request(Draft, Payload(formData, id))
      ensures loading
      ensures unchanged(`formData, `lastSaved, `armedAt, `autoSaving)
    {
      loading := true;
      request := Request(Draft, Payload(formData, id));
    }

    /** The draft save's reply: a new session (no id on the page) that the
      server stored sends the page to that session's editor. */
    method SaveDraftDone(reply: Sessions.Response<Sessions.Saved>) returns (nav: Navigation, toast: string)
      modifies this
      ensures !loading
      ensures nav == if reply.Ok? && id.None? then ToEditor(reply.value.session.id) else Stay
      ensures toast == if reply.Ok? then "Draft saved successfully!" else DraftFailureToast(reply.message)
      ensures unchanged(`formData, `lastSaved, `armedAt, `autoSaving)
    {
      loading := false;
      if reply.Ok? {
        toast := "Draft saved successfully!";
        nav := if id.None? then ToEditor(reply.value.session.id) else Stay;
      } else {
        toast := DraftFailureToast(reply.message);
        nav := Stay;
      }
    }

    /** `handlePublish`: a blank title, then a blank URL, stop it with a
      message; otherwise the fields go out as a publish under the page's id. */
    method HandlePublish() returns (request: Option<Request>, toast: Option<string>)
      modifies this
      ensures IsBlank(formData.title) ==> request.None? && toast == Some(TitleRequiredMessage)
      ensures !IsBlank(formData.title) && IsBlank(formData.jsonFileUrl) ==>
        request.None? && toast == Some(JsonUrlRequiredMessage)
      ensures request.Some? <==> !IsBlank(formData.title) && !IsBlank(formData.jsonFileUrl)
      ensures request.Some? ==> request.value == Request(Published, Payload(formData, id)) && toast.None?
      ensures loading == (request.Some? || old(loading))
      ensures unchanged(`formData, `lastSaved, `armedAt, `autoSaving)
    {
      if IsBlank(formData.title) {
        return None, Some(TitleRequiredMessage);
      }
      if IsBlank(formData.jsonFileUrl) {
        return None, Some(JsonUrlRequiredMessage);
      }
      loading := true;
      request, toast := Some(Request(Published, Payload(formData, id))), None;
    }

    /** The publish reply: success goes back to the list. */
    method PublishDone(reply: Sessions.Response<Sessions.Saved>) returns (nav: Navigation, toast: string)
      modifies this
      ensures !loading
      ensures nav == if reply.Ok? then ToMySessions else Stay
      ensures toast == if reply.Ok? then "Session published successfully!" else PublishFailureToast(reply.message)
      ensures unchanged(`formData, `lastSaved, `armedAt, `autoSaving)
    {
      loading := false;
      if reply.Ok? {
        nav, toast := ToMySessions, "Session published successfully!";
      } else {
        nav, toast := Stay, PublishFailureToast(reply.message);
      }
    }
  }

  // ---------------------------------------------------------------------------
  // The page against the server

  /** Loading a stored session and saving the fields straight back keeps its
      title, tags and URL: the joined tags parse back to the same list. */
  lemma LoadSaveRoundTrip(st: Sessions.State, owner: UserId, s: Sessions.Session, target: Status)
    requires Sessions.Invariant(st)
    requires s.id in st.sessions && st.sessions[s.id] == s && s.userId == owner
    ensures var out := Sessions.Save(st, Some(owner), Payload(FormOf(s), Some(s.id)), target);
      && out.0.Ok?
      && out.0.value.session.title == s.title
      && out.0.value.session.tags == s.tags
      && out.0.value.session.jsonFileUrl == s.jsonFileUrl
  {
    assert Sessions.WellFormed(s);
    var body := Payload(FormOf(s), Some(s.id));
    assert !Sessions.TitleMissing(body.title) by {
      TrimOfTrimmed(s.title);
    }
    Sessions.SaveUpdatesOwnedOnly(st, Some(owner), body, target);
    var out := Sessions.Save(st, Some(owner), body, target);
    assert out.0.value.session.title == s.title by {
      TrimOfTrimmed(s.title);
    }
    assert out.0.value.session.jsonFileUrl == s.jsonFileUrl by {
      TrimOfTrimmed(s.jsonFileUrl);
    }
    assert out.0.value.session.tags == s.tags by {
      TagsRoundTrip(s.tags);
    }
  }

  /** Clean tags survive the editor's join, the server's parse and the
      setters unchanged. */
  lemma TagsRoundTrip(tags: seq<string>)
    requires forall i :: 0 <= i < |tags| ==> IsCleanTag(tags[i])
    ensures NormaliseTags(Sessions.ParseTags(Some(Join(tags, ", ")))) == tags
  {
    assert Sessions.AllTagPieces(tags) by {
      forall i | 0 <= i < |tags| ensures Sessions.IsTagPiece(tags[i]) {
        assert IsCleanTag(tags[i]);
      }
    }
    Sessions.ParseTagsOfJoin(tags);
    NormaliseCleanTags(tags);
  }

  /** A publish the page lets through is never refused for its title: the
      server can still answer 404 (an id the caller does not own) or 500 (a
      new session the schema refuses), but never 400. */
  lemma PublishGuardsTitle(st: Sessions.State, owner: UserId, d: FormData, id: Option<Sessions.SessionId>)
    requires !IsBlank(d.title)
    ensures var out := Sessions.Save(st, Some(owner), Payload(d, id), Published);
      out.0.Error? ==> out.0.code == 404 || out.0.code == 500
  {
    Sessions.SaveUnfolds(st, Some(owner), Payload(d, id), Published);
  }

  /** `s` is a draft of the fields `d` owned by `owner`, as the server stores it. */
  predicate DraftOf(s: Sessions.Session, owner: UserId, d: FormData) {
    && s.userId == owner && s.title == Trim(d.title)
    && s.tags == NormaliseTags(Sessions.ParseTags(Some(d.tags)))
    && s.jsonFileUrl == Trim(d.jsonFileUrl) && s.status == Draft
  }

  /** On the "create" page every auto-save that the server accepts adds a
      new document, because the page's id stays absent: two in a row leave
      two drafts of the same fields under two different ids. */
  lemma AutoSavesOnNewPageDuplicate(st: Sessions.State, owner: UserId, d: FormData)
    requires Sessions.Invariant(st)
    requires !IsBlank(d.title) && Utf16Length(Trim(d.title)) <= MaxTitleLength && UrlValidator(Trim(d.jsonFileUrl))
    ensures var first := Sessions.Save(st, Some(owner), Payload(d, None), Draft);
      var second := Sessions.Save(first.1, Some(owner), Payload(d, None), Draft);
      && first.0.Ok? && second.0.Ok?
      && first.0.value.session.id != second.0.value.session.id
      && first.0.value.session.id in second.1.sessions
      && second.0.value.session.id in second.1.sessions
      && DraftOf(second.1.sessions[first.0.value.session.id], owner, d)
      && DraftOf(second.1.sessions[second.0.value.session.id], owner, d)
  {
    var first := Sessions.Save(st, Some(owner), Payload(d, None), Draft);
    AutoSaveCreates(st, owner, d);
    AutoSaveCreates(first.1, owner, d);
    Sessions.SaveCreatesOne(st, Some(owner), Payload(d, None), Draft);
    Sessions.SaveCreatesOne(first.1, Some(owner), Payload(d, None), Draft);
  }

  /** One accepted auto-save on the "create" page: a draft of the fields goes
      under the next fresh id, which was unused, and the counter moves on. */
  lemma AutoSaveCreates(st: Sessions.State, owner: UserId, d: FormData)
    requires Sessions.Invariant(st)
    requires !IsBlank(d.title) && Utf16Length(Trim(d.title)) <= MaxTitleLength && UrlValidator(Trim(d.jsonFileUrl))
    ensures var out := Sessions.Save(st, Some(owner), Payload(d, None), Draft);
      && out.0.Ok? && Sessions.Invariant(out.1)
      && st.nextId !in st.sessions
      && out.1.sessions == st.sessions[st.nextId := out.0.value.session]
      && out.1.nextId == st.nextId + 1
      && DraftOf(out.0.value.session, owner, d)
  {
    var body := Payload(d, None);
    assert !Sessions.TitleMissing(body.title);
    Sessions.SaveCreatesOne(st, Some(owner), body, Draft);
    Sessions.SaveWrites(st, Some(owner), body, Draft);
    Sessions.SaveKeepsInvariant(st, Some(owner), body, Draft);
    Sessions.SaveUnfolds(st, Some(owner), body, Draft);
  }
}
