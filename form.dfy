/** The session form: three text fields, the checks it runs before it sends
    anything, the payload it sends to the save endpoints, and how it reads a
    failed reply. */
module Form {
  import opened Wrappers
  import opened Text
  import opened Schema
  import Sessions

  datatype Field = Title | Tags | JsonFileUrl

  /** The controlled inputs, exactly as typed: nothing is trimmed here. */
  datatype FormData = FormData(title: string, tags: string, jsonFileUrl: string)
  {
    function Get(f: Field): string {
      match f
      case Title => title
      case Tags => tags
      case JsonFileUrl => jsonFileUrl
    }

    /** `{ ...prev, [name]: value }`: one field replaced, the others kept. */
    function Set(f: Field, v: string): (r: FormData)
      ensures r.Get(f) == v
      ensures forall g :: g != f ==> r.Get(g) == Get(g)
    {
      match f
      case Title => this.(title := v)
      case Tags => this.(tags := v)
      case JsonFileUrl => this.(jsonFileUrl := v)
    }
  }

  const EmptyForm := FormData("", "", "")

  const TitleRequiredMessage := "Title is required"
  const TitleTooLongMessage := "Title is too long (max 200 characters)"
  const InvalidUrlMessage := "Please enter a valid HTTP/HTTPS URL"
  const FixErrorsMessage := "Please fix the errors before submitting"

  /** The quick-select buttons' URLs: one folder, one `.json` file each; the
      file's base name is the button's label. */
  const SampleHost := "localhost:5000/api/sessions-data/"
  const SampleNames: seq<string> :=
    ["morning-yoga", "stress-relief-meditation", "hiit-workout", "evening-relaxation", "breathwork-energy"]

  function SampleUrl(name: string): string {
    "http://" + SampleHost + name + ".json"
  }

  // ---------------------------------------------------------------------------
  // validateForm

  /** The title check: blank after trimming, or longer than 200 UTF-16 code
      units as typed (the length is taken before trimming). */
  function TitleProblem(title: string): (r: Option<string>)
    ensures r.None? <==> !IsBlank(title) && Utf16Length(title) <= MaxTitleLength
    ensures r.Some? ==> r.value == if IsBlank(title) then TitleRequiredMessage else TitleTooLongMessage
  {
    if IsBlank(title) then Some(TitleRequiredMessage)
    else if Utf16Length(title) > MaxTitleLength then Some(TitleTooLongMessage)
    else None
  }

  /** The URL check: a non-empty value must match `^https?:\/\/.+` as typed. */
  function UrlProblem(url: string): (r: Option<string>)
    ensures r.None? <==> UrlValidator(url)
    ensures r.Some? ==> r.value == InvalidUrlMessage
  {
    if url != [] && !MatchesUrlPattern(url) then Some(InvalidUrlMessage) else None
  }

  function Put(m: map<Field, string>, f: Field, v: Option<string>): map<Field, string> {
    if v.Some? then m[f := v.value] else m
  }

  /** The `newErrors` object `validateForm` builds: an entry for a field
      exactly when that field fails its check; tags are never checked. */
  function ValidationErrors(d: FormData): (r: map<Field, string>)
    ensures Title in r <==> IsBlank(d.title) || Utf16Length(d.title) > MaxTitleLength
    ensures JsonFileUrl in r <==> !UrlValidator(d.jsonFileUrl)
    ensures Tags !in r
    ensures Title in r ==> r[Title] == if IsBlank(d.title) then TitleRequiredMessage else TitleTooLongMessage
    ensures JsonFileUrl in r ==> r[JsonFileUrl] == InvalidUrlMessage
    ensures r == map[] <==> !IsBlank(d.title) && Utf16Length(d.title) <= MaxTitleLength && UrlValidator(d.jsonFileUrl)
  {
    var withTitle := Put(map[], Title, TitleProblem(d.title));
    var r := Put(withTitle, JsonFileUrl, UrlProblem(d.jsonFileUrl));
    assert Title in withTitle ==> Title in r;
    r
  }

  /** The body of `validateForm` that builds `newErrors`, check by check. */
  method NewErrors(d: FormData) returns (newErrors: map<Field, string>)
    ensures newErrors == ValidationErrors(d)
  {
    newErrors := map[];
    var title := TitleProblem(d.title);
    if title.Some? {
      newErrors := newErrors[Title := title.value];
    }
    var url := UrlProblem(d.jsonFileUrl);
    if url.Some? {
      newErrors := newErrors[JsonFileUrl := url.value];
    }
    ValidationErrorsUnfold(d);
  }

  lemma ValidationErrorsUnfold(d: FormData)
    ensures ValidationErrors(d) ==
      Put(Put(map[], Title, TitleProblem(d.title)), JsonFileUrl, UrlProblem(d.jsonFileUrl))
  {
  }

  // ---------------------------------------------------------------------------
  // handleSubmit: what is sent, and how a failure is read

  /** `{ ...formData, id: sessionId }`: the raw fields and the component's
      session id, absent when the form creates a new session. */
  function Payload(d: FormData, sessionId: Option<Sessions.SessionId>): (r: Sessions.Body)
    ensures r.id == sessionId
    ensures r.title == Some(d.title) && r.tags == Some(d.tags) && r.jsonFileUrl == Some(d.jsonFileUrl)
  {
    Sessions.Body(sessionId, Some(d.title), Some(d.tags), Some(d.jsonFileUrl))
  }

  /** A call the form makes: `publishSession` or `saveDraft`, and its body. */
  datatype Request = Request(target: Status, body: Sessions.Body)

  /** What a failed call hands back: `error.response?.data` with its optional
      `message` and `errors`, or nothing at all when no response came. */
  datatype ErrorReply = ErrorReply(message: Option<string>, errors: Option<seq<string>>)

  /** The action's name as the form spells it in its fallback message. */
  function ActionName(target: Status): string {
    match target
    case Published => "publish"
    case Draft => "draft"
  }

  /** `error.response?.data?.message || \`Failed to ${action} session\``: an
      absent or empty message falls back to the generic one. */
  function FailureToast(target: Status, reply: Option<ErrorReply>): (r: string)
    ensures r != []
    ensures reply.Some? && reply.value.message.Some? && reply.value.message.value != [] ==>
      r == reply.value.message.value
    ensures !(reply.Some? && reply.value.message.Some? && reply.value.message.value != []) ==>
      r == "Failed to " + ActionName(target) + " session"
  {
    if reply.Some? && reply.value.message.Some? && reply.value.message.value != [] then
      reply.value.message.value
    else
      "Failed to " + ActionName(target) + " session"
  }

  /** The last entry of `errs` that mentions `word`, if any. */
  function LastMatching(errs: seq<string>, word: string): Option<string> {
    if errs == [] then None
    else if Contains(errs[|errs| - 1], word) then Some(errs[|errs| - 1])
    else LastMatching(errs[..|errs| - 1], word)
  }

  /** The `backendErrors` object: the last error mentioning "Title" goes to
      the title field, the last one mentioning "URL" to the URL field. */
  function BackendErrors(errs: seq<string>): map<Field, string> {
    Put(Put(map[], Title, LastMatching(errs, "Title")), JsonFileUrl, LastMatching(errs, "URL"))
  }

  /** `LastMatching` finds an entry exactly when one mentions the word, and
      the one it finds is the last such entry. */
  lemma {:induction false} LastMatchingIsLast(errs: seq<string>, word: string)
    ensures LastMatching(errs, word).Some? <==>
      exists i :: 0 <= i < |errs| && Contains(errs[i], word)
    ensures LastMatching(errs, word).Some? ==>
      exists i :: 0 <= i < |errs| && errs[i] == LastMatching(errs, word).value
        && Contains(errs[i], word)
        && forall j :: i < j < |errs| ==> !Contains(errs[j], word)
  {
    if errs != [] {
      var n := |errs| - 1;
      var init := errs[..n];
      var found := LastMatching(errs, word);
      if Contains(errs[n], word) {
        assert found == Some(errs[n]);
        assert 0 <= n < |errs| && errs[n] == found.value && Contains(errs[n], word);
      } else {
        assert found == LastMatching(init, word);
        LastMatchingIsLast(init, word);
        if found.Some? {
          var i :| 0 <= i < |init| && init[i] == found.value
            && Contains(init[i], word)
            && forall j :: i < j < |init| ==> !Contains(init[j], word);
          assert errs[i] == init[i];
          assert forall j :: i < j < |errs| ==> !Contains(errs[j], word) by {
            forall j | i < j < |errs| ensures !Contains(errs[j], word) {
              if j < n {
                assert errs[j] == init[j];
              }
            }
          }
        }
        forall i | 0 <= i < |errs| && Contains(errs[i], word) ensures found.Some? {
          assert i < n && init[i] == errs[i];
        }
      }
    }
  }

  lemma LastMatchingSnoc(errs: seq<string>, e: string, word: string)
    ensures LastMatching(errs + [e], word) ==
      if Contains(e, word) then Some(e) else LastMatching(errs, word)
  {
    assert (errs + [e])[..|errs|] == errs;
  }

  /** The `forEach` over the reply's `errors`: each entry may overwrite the
      title or the URL error. */
  method MapBackendErrors(errs: seq<string>) returns (m: map<Field, string>)
    ensures m == BackendErrors(errs)
  {
    m := map[];
    var i := 0;
    while i < |errs|
      invariant 0 <= i <= |errs|
      invariant m == BackendErrors(errs[..i])
    {
      var err := errs[i];
      assert errs[..i + 1] == errs[..i] + [err];
      LastMatchingSnoc(errs[..i], err, "Title");
      LastMatchingSnoc(errs[..i], err, "URL");
      if Contains(err, "Title") {
        m := m[Title := err];
      }
      if Contains(err, "URL") {
        m := m[JsonFileUrl := err];
      }
      i := i + 1;
    }
    assert errs[..|errs|] == errs;
  }

  // ---------------------------------------------------------------------------
  // The tag preview

  /** The preview chips: the field split on commas, each piece trimmed,
      nothing dropped; no chips for an empty field. */
  function TagPreview(tags: string): (r: seq<string>)
    ensures tags == [] ==> r == []
    ensures tags != [] ==> |r| == |Split(tags, ',')|
    ensures forall i :: 0 <= i < |r| ==> r[i] == Trim(Split(tags, ',')[i])
  {
    if tags == [] then [] else Sessions.TrimAll(Split(tags, ','))
  }

  /** What the server stores is the preview with its empty chips removed. */
  lemma PreviewThenDrop(tags: string)
    ensures Sessions.ParseTags(Some(tags)) == Sessions.DropEmpty(TagPreview(tags))
  {
  }

  // ---------------------------------------------------------------------------
  // The component

  lemma NoKeys(m: map<Field, string>)
    ensures |m.Keys| == 0 <==> m == map[]
  {
    if m != map[] {
      var f :| f in m;
      assert f in m.Keys;
    }
  }

  class SessionFormState {
    const sessionId: Option<Sessions.SessionId>
    var formData: FormData
    var errors: map<Field, string>

    /** A fresh form: empty fields, no errors. */
    constructor (sessionId: Option<Sessions.SessionId>)
      ensures this.sessionId == sessionId
      ensures formData == EmptyForm && errors == map[]
    {
      this.sessionId := sessionId;
      formData := EmptyForm;
      errors := map[];
    }

    /** `handleChange`: the field takes the typed value; a shown error on that
      field is blanked, any other error stays. */
    method HandleChange(f: Field, value: string)
      modifies this
      ensures formData == old(formData).Set(f, value)
      ensures f in old(errors) && old(errors)[f] != [] ==> errors == old(errors)[f := []]
      ensures !(f in old(errors) && old(errors)[f] != []) ==> errors == old(errors)
    {
      formData := formData.Set(f, value);
      if f in errors && errors[f] != [] {
        errors := errors[f := []];
      }
    }

    /** A quick-select button: the URL field takes a sample URL; errors are
      left as they are. */
    method SelectSample(i: nat)
      requires i < |SampleNames|
      modifies this
      ensures formData == old(formData).Set(JsonFileUrl, SampleUrl(SampleNames[i]))
      ensures errors == old(errors)
    {
      formData := formData.(jsonFileUrl := SampleUrl(SampleNames[i]));
    }

    /** `validateForm`: the shown errors become exactly the failed checks, and
      the form is valid when there are none. */
    method ValidateForm() returns (ok: bool)
      modifies this
      ensures formData == old(formData)
      ensures errors == ValidationErrors(formData)
      ensures ok <==> errors == map[]
    {
      var newErrors := NewErrors(formData);
      errors := newErrors;
      ok := |newErrors.Keys| == 0;
      NoKeys(newErrors);
    }

    /** `handleSubmit`: a form that fails its checks sends nothing and shows
      the "fix the errors" toast; otherwise the call for the action carries
      the raw fields and the session id. */
    method HandleSubmit(target: Status) returns (request: Option<Request>, toast: Option<string>)
      modifies this
      ensures formData == old(formData)
      ensures errors == ValidationErrors(formData)
      ensures request.None? <==> ValidationErrors(formData) != map[]
      ensures request.None? ==> toast == Some(FixErrorsMessage)
      ensures request.Some? ==> request.value == Request(target, Payload(formData, sessionId)) && toast.None?
    {
      var ok := ValidateForm();
      if !ok {
        return None, Some(FixErrorsMessage);
      }
      request, toast := Some(Request(target, Payload(formData, sessionId))), None;
    }

    /** The `catch` branch: the toast to show, and the shown errors replaced
      by the mapped backend errors when the reply lists any. */
    method HandleFailure(target: Status, reply: Option<ErrorReply>) returns (toast: string)
      modifies this
      ensures formData == old(formData)
      ensures toast == FailureToast(target, reply)
      ensures reply.Some? && reply.value.errors.Some? ==> errors == BackendErrors(reply.value.errors.value)
      ensures !(reply.Some? && reply.value.errors.Some?) ==> errors == old(errors)
    {
      toast := FailureToast(target, reply);
      if reply.Some? && reply.value.errors.Some? {
        errors := MapBackendErrors(reply.value.errors.value);
      }
    }
  }

  // ---------------------------------------------------------------------------
  // The form against the server

  /** The body of a failed server reply: the controller sends a message and
      never an `errors` list. */
  function ReplyOf<T>(r: Sessions.Response<T>): (reply: Option<ErrorReply>)
    requires r.Error?
    ensures reply.Some? && reply.value.errors.None?
  {
    Some(ErrorReply(Some(r.message), None))
  }

  /** Every failed save shows the server's own message, and the
      backend-error mapping never runs. */
  lemma ServerFailureShown(st: Sessions.State, caller: Option<UserId>, body: Sessions.Body, target: Status)
    ensures var out := Sessions.Save(st, caller, body, target);
      out.0.Error? ==>
        && FailureToast(target, ReplyOf(out.0)) == out.0.message
        && ReplyOf(out.0).value.errors.None?
  {
    Sessions.SaveErrors(st, caller, body, target);
  }

  /** A form that passes its own checks is never turned away by the server
      with a 400, whatever the session id. */
  lemma ValidFormHasTitle(d: FormData, sessionId: Option<Sessions.SessionId>)
    requires ValidationErrors(d) == map[]
    ensures !Sessions.TitleMissing(Payload(d, sessionId).title)
  {
  }

  /** A new session from a form that passes its own checks is stored exactly
      when the trimmed URL still passes the schema validator: the title the
      form allows always satisfies the schema. */
  lemma ValidFormCreate(st: Sessions.State, caller: UserId, d: FormData, target: Status)
    requires Sessions.Invariant(st)
    requires ValidationErrors(d) == map[]
    ensures Sessions.Save(st, Some(caller), Payload(d, None), target).0.Ok? <==>
      UrlValidator(Trim(d.jsonFileUrl))
  {
    TrimUtf16Length(d.title);
    Sessions.SaveCreatesOne(st, Some(caller), Payload(d, None), target);
  }

  /** The two checks disagree on a URL that is only the scheme followed by
      spaces: the form accepts `"http:// "`, and the server trims it to
      `"http://"` and refuses it. */
  lemma SchemeOnlyUrl()
    ensures UrlProblem("http:// ").None?
    ensures !UrlValidator(Trim("http:// "))
  {
    var u := "http:// ";
    assert u[..7] == "http://" && u[7] == ' ';
    TrimSchemeOnly();
  }

  lemma TrimSchemeOnly()
    ensures Trim("http:// ") == "http://"
  {
    var u, v := "http:// ", "http://";
    assert !IsSpace(u[0]) && TrimStart(u) == u;
    assert u[..|u| - 1] == v && IsSpace(u[|u| - 1]) && !IsSpace(v[|v| - 1]);
    assert TrimEnd(v) == v;
  }

  /** Every quick-select URL passes both the form's and the schema's check. */
  lemma SampleUrlsValid(name: string)
    ensures UrlProblem(SampleUrl(name)).None? && IsTrimmed(SampleUrl(name))
    ensures UrlValidator(Trim(SampleUrl(name)))
  {
    var u := SampleUrl(name);
    assert |u| > 7 && u[..7] == "http://" && u[7] == 'l' && u[|u| - 1] == 'n' by {
      var scheme, rest := "http://", SampleHost + name + ".json";
      assert u == scheme + rest;
      assert |scheme| == 7 && rest[0] == 'l' && rest[|rest| - 1] == 'n';
    }
    assert MatchesUrlPattern(u) && IsTrimmed(u);
    TrimOfTrimmed(u);
  }
}
