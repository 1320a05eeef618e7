/** The Mongoose schema of a session (backend/models/Session.js): the setters
    that normalise each path and the validators that `save()` runs on a new
    document. */
module Schema {
  import opened Wrappers
  import opened Text

  /** The owner's identifier; ObjectIds are treated as opaque numbers. */
  type UserId = nat

  /** The `status` enum: exactly two values. */
  datatype Status = Draft | Published

  const DefaultStatus: Status := Draft
  const MinTitleLength := 1
  const MaxTitleLength := 200

  const UserIdRequired := "Path `user_id` is required."
  const TitleRequired := "Title is required"
  const TitleEmpty := "Title cannot be empty"
  const TitleTooLong := "Title too long"
  const InvalidUrl := "Must be a valid HTTP/HTTPS URL"

  /** The regular expression `^https?:\/\/.+`: the scheme `http://` or
      `https://`, then at least one character that `.` matches. */
  predicate MatchesUrlPattern(v: string) {
    (|v| > 7 && v[..7] == "http://" && !IsLineTerminator(v[7]))
    || (|v| > 8 && v[..8] == "https://" && !IsLineTerminator(v[8]))
  }

  /** The `json_file_url` validator `!v || /^https?:\/\/.+/.test(v)`. */
  predicate UrlValidator(v: string) {
    v == [] || MatchesUrlPattern(v)
  }

  /** The `trim` setter on `title` and on `json_file_url`. */
  function NormaliseText(s: string): (r: string)
    ensures IsTrimmed(r)
  {
    Trim(s)
  }

  /** The `trim` and `lowercase` setters on each element of `tags`. */
  function NormaliseTag(t: string): (r: string)
    ensures IsTrimmed(r) && IsLower(r)
    ensures r == [] <==> AllSpace(t)
    ensures ',' in r <==> ',' in Trim(t)
  {
    var r := ToLower(Trim(t));
    assert forall i :: 0 <= i < |r| ==> (r[i] == ',' <==> Trim(t)[i] == ',');
    r
  }

  function NormaliseTags(ts: seq<string>): (r: seq<string>)
    ensures |r| == |ts|
    ensures forall i :: 0 <= i < |ts| ==> r[i] == NormaliseTag(ts[i])
  {
    if ts == [] then [] else [NormaliseTag(ts[0])] + NormaliseTags(ts[1..])
  }

  /** A tag as every stored session holds it: non-empty, trimmed, lower-case
      and free of commas. */
  predicate IsCleanTag(t: string) {
    t != [] && IsTrimmed(t) && IsLower(t) && ',' !in t
  }

  /** Normalising a clean tag changes nothing. */
  lemma NormaliseCleanTag(t: string)
    requires IsCleanTag(t)
    ensures NormaliseTag(t) == t
  {
    TrimOfTrimmed(t);
    ToLowerOfLower(t);
  }

  lemma {:induction false} NormaliseCleanTags(ts: seq<string>)
    requires forall i :: 0 <= i < |ts| ==> IsCleanTag(ts[i])
    ensures NormaliseTags(ts) == ts
  {
    if ts != [] {
      NormaliseCleanTag(ts[0]);
      NormaliseCleanTags(ts[1..]);
    }
  }

  /** What `new Session({...})` is given. */
  datatype Candidate = Candidate(
    userId: Option<UserId>,
    title: Option<string>,
    tags: seq<string>,
    jsonFileUrl: Option<string>,
    status: Option<Status>)

  /** The paths of a document that passed validation. */
  datatype Fields = Fields(
    userId: UserId,
    title: string,
    tags: seq<string>,
    jsonFileUrl: string,
    status: Status)

  datatype Validated = Valid(fields: Fields) | Invalid(errors: seq<string>)

  /** The `trim` setter applied to a path that may be absent. */
  function NormaliseOptional(s: Option<string>): (r: Option<string>)
    ensures r.Some? <==> s.Some?
    ensures r.Some? ==> r.value == Trim(s.value)
  {
    if s.Some? then Some(NormaliseText(s.value)) else None
  }

  function OwnerError(userId: Option<UserId>): Option<string> {
    if userId.None? then Some(UserIdRequired) else None
  }

  /** The first failing validator of `title`, as Mongoose reports it (the
      `required` check comes first, and an empty string fails it). The
      lengths are JavaScript lengths, in UTF-16 code units. */
  function TitleError(title: Option<string>): (r: Option<string>)
    ensures r.None? <==> title.Some? && MinTitleLength <= Utf16Length(title.value) <= MaxTitleLength
    ensures r == Some(TitleTooLong) <==> title.Some? && Utf16Length(title.value) > MaxTitleLength
  {
    if title.None? || title.value == [] then Some(TitleRequired)
    else if Utf16Length(title.value) < MinTitleLength then Some(TitleEmpty)
    else if Utf16Length(title.value) > MaxTitleLength then Some(TitleTooLong)
    else None
  }

  /** A title of 101 emoji is 101 characters but 202 code units long, so
      `maxlength` refuses it. */
  lemma EmojiTitleTooLong()
    ensures var t := seq(101, _ => '\U{1F600}');
      |t| <= MaxTitleLength && TitleError(Some(t)) == Some(TitleTooLong)
  {
    var t := seq(101, _ => '\U{1F600}');
    Utf16LengthAstral(t);
  }

  function UrlError(url: Option<string>): (r: Option<string>)
    ensures r.None? <==> url.None? || UrlValidator(url.value)
  {
    if url.Some? && !UrlValidator(url.value) then Some(InvalidUrl) else None
  }

  /** The messages of the failing validators, in path order. */
  function Errors(owner: Option<string>, title: Option<string>, url: Option<string>): (r: seq<string>)
    ensures r == [] <==> owner.None? && title.None? && url.None?
  {
    (if owner.Some? then [owner.value] else [])
    + (if title.Some? then [title.value] else [])
    + (if url.Some? then [url.value] else [])
  }

  /** `save()` on a new document: the setters run, then the validators; a
      document that passes gets the `status` default. */
  function Validate(c: Candidate): (r: Validated)
    ensures r.Valid? <==>
      && c.userId.Some?
      && c.title.Some? && MinTitleLength <= Utf16Length(Trim(c.title.value)) <= MaxTitleLength
      && (c.jsonFileUrl.Some? ==> UrlValidator(Trim(c.jsonFileUrl.value)))
    ensures r.Valid? ==>
      && r.fields.userId == c.userId.value
      && r.fields.title == Trim(c.title.value)
      && r.fields.tags == NormaliseTags(c.tags)
      && r.fields.jsonFileUrl == Trim(c.jsonFileUrl.GetOr([]))
      && r.fields.status == c.status.GetOr(DefaultStatus)
    ensures r.Invalid? ==> r.errors != []
  {
    var title := NormaliseOptional(c.title);
    var url := NormaliseOptional(c.jsonFileUrl);
    var errors := Errors(OwnerError(c.userId), TitleError(title), UrlError(url));
    if errors == [] then
      Valid(Fields(c.userId.value, title.value, NormaliseTags(c.tags), url.GetOr([]),
                   c.status.GetOr(DefaultStatus)))
    else
      Invalid(errors)
  }

  /** The URL examples: `ftp://x` is refused, the empty string and an https
      address are accepted, and a scheme with nothing after it is refused. */
  lemma UrlExamples()
    ensures !UrlValidator("ftp://x")
    ensures UrlValidator("")
    ensures UrlValidator("https://x.com/a.json")
    ensures !UrlValidator("http://")
  {
  }
}
