/** The session controller (backend/controllers/sessionController.js) over an
    in-memory store of session documents. The caller stands for `req.user`:
    `None` when the authentication middleware attached nobody. */
module Sessions {
  import opened Wrappers
  import opened Text
  import opened Schema

  /** Document ids are opaque; a counter hands out fresh ones. */
  type SessionId = nat

  /** A stored session document. */
  datatype Session = Session(
    id: SessionId,
    userId: UserId,
    title: string,
    tags: seq<string>,
    jsonFileUrl: string,
    status: Status,
    createdAt: nat,
    updatedAt: nat)

  /** The request body `{ id, title, tags, json_file_url }`; an absent field
      (or, for `id`, an empty one) is `None`. */
  datatype Body = Body(
    id: Option<SessionId>,
    title: Option<string>,
    tags: Option<string>,
    jsonFileUrl: Option<string>)

  /** What a handler sends: a JSON payload, or an HTTP error status with the
      handler's message. */
  datatype Response<T> = Ok(value: T) | Error(code: nat, message: string)

  /** The `{ message, session }` payload of a successful save. */
  datatype Saved = Saved(message: string, session: Session)

  /** The whole store: documents by id, the next fresh id, the logical clock. */
  datatype State = State(sessions: map<SessionId, Session>, nextId: SessionId, clock: nat)

  const NotAuthenticated := "User not authenticated"
  const SessionNotFound := "Session not found"
  const NotFoundOrUnauthorized := "Session not found or unauthorized"

  function SavedMessage(target: Status): string {
    match target
    case Draft => "Draft saved successfully"
    case Published => "Session published successfully"
  }

  function FailedMessage(target: Status): string {
    match target
    case Draft => "Failed to save draft"
    case Published => "Failed to publish session"
  }

  // ---------------------------------------------------------------------------
  // The tag parser: tags.split(',').map(tag => tag.trim()).filter(tag => tag)

  /** `.map(tag => tag.trim())`. */
  function TrimAll(pieces: seq<string>): (r: seq<string>)
    ensures |r| == |pieces|
    ensures forall i :: 0 <= i < |pieces| ==> r[i] == Trim(pieces[i])
  {
    if pieces == [] then [] else [Trim(pieces[0])] + TrimAll(pieces[1..])
  }

  /** `.filter(tag => tag)`: keeps the non-empty strings, in order. */
  function DropEmpty(pieces: seq<string>): (r: seq<string>)
    ensures |r| <= |pieces|
  {
    if pieces == [] then []
    else (if pieces[0] == [] then [] else [pieces[0]]) + DropEmpty(pieces[1..])
  }

  lemma DropEmptyCons(p: string, rest: seq<string>)
    ensures DropEmpty([p] + rest) == (if p == [] then [] else [p]) + DropEmpty(rest)
  {
    assert ([p] + rest)[1..] == rest;
  }

  lemma TrimAllCons(p: string, rest: seq<string>)
    ensures TrimAll([p] + rest) == [Trim(p)] + TrimAll(rest)
  {
    assert ([p] + rest)[1..] == rest;
  }

  /** The filter keeps exactly the non-empty strings. */
  lemma {:induction false} DropEmptyKeeps(pieces: seq<string>)
    ensures forall t :: t in DropEmpty(pieces) <==> t in pieces && t != []
  {
    if pieces != [] {
      DropEmptyKeeps(pieces[1..]);
      assert pieces == [pieces[0]] + pieces[1..];
    }
  }

  /** A tag as the parser hands it on: non-empty, trimmed, without a comma. */
  predicate IsTagPiece(t: string) {
    t != [] && IsTrimmed(t) && ',' !in t
  }

  predicate AllTagPieces(ts: seq<string>) {
    forall i :: 0 <= i < |ts| ==> IsTagPiece(ts[i])
  }

  /** Trimming comma-free pieces and dropping the empty ones leaves tag pieces. */
  lemma {:induction false} TrimmedPiecesAreTags(pieces: seq<string>)
    requires forall i :: 0 <= i < |pieces| ==> ',' !in pieces[i]
    ensures AllTagPieces(DropEmpty(TrimAll(pieces)))
  {
    if pieces != [] {
      var p := pieces[0];
      assert pieces == [p] + pieces[1..];
      var head := if Trim(p) == [] then [] else [Trim(p)];
      var tail := DropEmpty(TrimAll(pieces[1..]));
      assert DropEmpty(TrimAll(pieces)) == head + tail by {
        TrimAllCons(p, pieces[1..]);
        DropEmptyCons(Trim(p), TrimAll(pieces[1..]));
      }
      assert AllTagPieces(head) by {
        if ',' in Trim(p) {
          TrimKeeps(p, ',');
        }
      }
      TrimmedPiecesAreTags(pieces[1..]);
      TagPiecesAppend(head, tail);
    }
  }

  lemma TagPiecesAppend(a: seq<string>, b: seq<string>)
    requires AllTagPieces(a) && AllTagPieces(b)
    ensures AllTagPieces(a + b)
  {
    forall i | 0 <= i < |a + b| ensures IsTagPiece((a + b)[i]) {
      if i >= |a| {
        assert (a + b)[i] == b[i - |a|];
      }
    }
  }

  /** The controller's tag rule. An absent or empty `tags` is falsy and gives
      `[]`; a field without a comma gives its trimmed self, or nothing when it
      is blank; every tag that comes out is a non-empty, trimmed, comma-free
      piece of the input. How the pieces between commas combine is
      `ParseTagsAppend`. */
  function ParseTags(tags: Option<string>): (r: seq<string>)
    ensures tags.None? || tags.value == [] ==> r == []
    ensures tags.Some? && ',' !in tags.value ==> r == if IsBlank(tags.value) then [] else [Trim(tags.value)]
    ensures AllTagPieces(r)
  {
    if tags.None? || tags.value == [] then []
    else
      var pieces := Split(tags.value, ',');
      SplitPiecesFree(tags.value, ',');
      TrimmedPiecesAreTags(pieces);
      var r := DropEmpty(TrimAll(pieces));
      assert ',' !in tags.value ==> r == if IsBlank(tags.value) then [] else [Trim(tags.value)] by {
        if ',' !in tags.value {
          SplitWithout(tags.value, ',');
          TrimAllCons(tags.value, []);
          DropEmptyCons(Trim(tags.value), []);
        }
      }
      r
  }

  /** `.filter` keeps order: filtering a concatenation filters each part. */
  lemma {:induction false} DropEmptyAppend(a: seq<string>, b: seq<string>)
    ensures DropEmpty(a + b) == DropEmpty(a) + DropEmpty(b)
  {
    if a == [] {
      assert a + b == b;
    } else {
      var x, t := a[0], a[1..];
      FrontOfAppend(a, b);
      DropEmptyAppend(t, b);
      DropEmptyCons(x, t + b);
      DropEmptyCons(x, t);
      AppendAssoc(if x == [] then [] else [x], DropEmpty(t), DropEmpty(b));
    }
  }

  /** `.map` keeps order: trimming a concatenation trims each part. */
  lemma {:induction false} TrimAllAppend(a: seq<string>, b: seq<string>)
    ensures TrimAll(a + b) == TrimAll(a) + TrimAll(b)
  {
    if a == [] {
      assert a + b == b;
    } else {
      var x, t := a[0], a[1..];
      FrontOfAppend(a, b);
      TrimAllAppend(t, b);
      TrimAllCons(x, t + b);
      TrimAllCons(x, t);
      AppendAssoc([Trim(x)], TrimAll(t), TrimAll(b));
    }
  }

  lemma FrontOfAppend<T>(a: seq<T>, b: seq<T>)
    requires a != []
    ensures a == [a[0]] + a[1..] && a + b == [a[0]] + (a[1..] + b)
  {
  }

  lemma AppendAssoc<T>(p: seq<T>, q: seq<T>, r: seq<T>)
    ensures p + (q + r) == (p + q) + r
  {
  }

  /** Any string, the empty one included, parses to the filtered trimmed
      pieces of its split. */
  lemma ParseTagsSplit(tags: string)
    ensures ParseTags(Some(tags)) == DropEmpty(TrimAll(Split(tags, ',')))
  {
    if tags == [] {
      assert DropEmpty(TrimAll([[]])) == [] by {
        TrimAllCons([], []);
        DropEmptyCons([], []);
      }
    }
  }

  /** The parse keeps order and multiplicity: the tags of `a + "," + b` are
      the tags of `a` followed by the tags of `b`. */
  lemma ParseTagsAppend(a: string, b: string)
    ensures ParseTags(Some(a + "," + b)) == ParseTags(Some(a)) + ParseTags(Some(b))
  {
    ParseTagsSplit(a + "," + b);
    ParseTagsSplit(a);
    ParseTagsSplit(b);
    SplitGlue(a, b, ',');
    TrimAllAppend(Split(a, ','), Split(b, ','));
    DropEmptyAppend(TrimAll(Split(a, ',')), TrimAll(Split(b, ',')));
  }

  /** A worked case: `"b, ,a, b"` gives `["b", "a", "b"]`; the blank piece
      goes, and the repeated tag stays in its place. */
  lemma ParseTagsExample()
    ensures ParseTags(Some("b, ,a, b")) == ["b", "a", "b"]
  {
    var s3 := "a" + "," + " b";
    var s2 := " " + "," + s3;
    assert "b, ,a, b" == "b" + "," + s2;
    ParseLetter('a');
    ParseLetter('b');
    ParseSpacedLetter('b');
    ParseBlank();
    ParseTagsAppend("a", " b");
    ParseTagsAppend(" ", s3);
    ParseTagsAppend("b", s2);
  }

  /** A one-letter field is that letter. */
  lemma ParseLetter(c: char)
    requires 'a' <= c <= 'z'
    ensures ParseTags(Some([c])) == [[c]]
  {
    TrimOfTrimmed([c]);
  }

  /** A space and a letter give that letter. */
  lemma ParseSpacedLetter(c: char)
    requires 'a' <= c <= 'z'
    ensures ParseTags(Some([' ', c])) == [[c]]
  {
    TrimOfTrimmed([c]);
    TrimDropsLeadingSpace(' ', [c]);
    assert [' '] + [c] == [' ', c];
    assert ',' !in [' ', c];
  }

  /** A field of one space gives no tag. */
  lemma ParseBlank()
    ensures ParseTags(Some(" ")) == []
  {
    assert AllSpace(" ") by {
      assert " "[0] == ' ';
    }
    assert ',' !in " ";
  }

  /** A tag piece in front survives trimming and the empty-piece filter. */
  lemma ParsePieceCons(x: string, rest: seq<string>)
    requires IsTagPiece(x)
    ensures DropEmpty(TrimAll([x] + rest)) == [x] + DropEmpty(TrimAll(rest))
  {
    TrimOfTrimmed(x);
    TrimAllCons(x, rest);
    DropEmptyCons(x, TrimAll(rest));
  }

  /** The space that `", "` leaves in front of a piece is trimmed away. */
  lemma ParseSpaced(h: string, t: seq<string>)
    ensures DropEmpty(TrimAll([[' '] + h] + t)) == DropEmpty(TrimAll([h] + t))
  {
    TrimDropsLeadingSpace(' ', h);
    TrimAllCons([' '] + h, t);
    TrimAllCons(h, t);
  }

  /** Splitting `x + ", " + j` on commas: `x`, then the first piece of `j`
      with a space in front, then the other pieces of `j`. */
  lemma SplitJoined(x: string, j: string)
    requires ',' !in x
    ensures Split(x + ", " + j, ',') == [x] + ([[' '] + Split(j, ',')[0]] + Split(j, ',')[1..])
  {
    var rest := [','] + ([' '] + j);
    assert x + ", " + j == x + rest;
    var h := Split(j, ',')[0];
    var t := Split(j, ',')[1..];
    SplitPrefix([' '], j, ',');
    assert Split([' '] + j, ',') == [[' '] + h] + t;
    SplitAtDelimiter([' '] + j, ',');
    assert Split(rest, ',') == [[]] + ([[' '] + h] + t);
    SplitPrefix(x, rest, ',');
    assert x + [] == x;
  }

  /** A single tag piece parses to itself. */
  lemma ParseSingle(x: string)
    requires IsTagPiece(x)
    ensures DropEmpty(TrimAll(Split(x, ','))) == [x]
  {
    assert Split(x, ',') == [x] by {
      SplitPrefix(x, [], ',');
      assert x + [] == x;
    }
    ParsePieceCons(x, []);
  }

  /** The step of the round trip: a tag piece glued in front with `", "`
      comes back in front. */
  lemma ParseGlued(x: string, j: string, ys: seq<string>)
    requires IsTagPiece(x)
    requires DropEmpty(TrimAll(Split(j, ','))) == ys
    ensures DropEmpty(TrimAll(Split(x + ", " + j, ','))) == [x] + ys
  {
    var h := Split(j, ',')[0];
    var t := Split(j, ',')[1..];
    assert Split(j, ',') == [h] + t;
    SplitJoined(x, j);
    calc {
      DropEmpty(TrimAll(Split(x + ", " + j, ',')));
      DropEmpty(TrimAll([x] + ([[' '] + h] + t)));
      { ParsePieceCons(x, [[' '] + h] + t); }
      [x] + DropEmpty(TrimAll([[' '] + h] + t));
      { ParseSpaced(h, t); }
      [x] + ys;
    }
  }

  /** Parsing the pieces `xs` glued by `", "` gives back `xs`. */
  lemma {:induction false} CleanSplitJoin(xs: seq<string>)
    requires xs != []
    requires AllTagPieces(xs)
    ensures DropEmpty(TrimAll(Split(Join(xs, ", "), ','))) == xs
  {
    if |xs| == 1 {
      ParseSingle(xs[0]);
    } else {
      CleanSplitJoin(xs[1..]);
      ParseGlued(xs[0], Join(xs[1..], ", "), xs[1..]);
      assert xs == [xs[0]] + xs[1..];
    }
  }

  /** Round trip: the client's `tags.join(', ')` parsed with the controller's
      rule gives back the original tags, when each is non-empty, trimmed and
      comma-free. */
  lemma ParseTagsOfJoin(xs: seq<string>)
    requires AllTagPieces(xs)
    ensures ParseTags(Some(Join(xs, ", "))) == xs
  {
    if xs != [] {
      CleanSplitJoin(xs);
      assert Join(xs, ", ") != [] by {
        if |xs| > 1 {
          assert Join(xs, ", ") == xs[0] + ", " + Join(xs[1..], ", ");
        }
      }
    }
  }

  /** `!title || !title.trim()`. */
  predicate TitleMissing(title: Option<string>) {
    title.None? || IsBlank(title.value)
  }

  // ---------------------------------------------------------------------------
  // The store invariant

  /** What every stored document satisfies, whichever path wrote it: a
      non-empty trimmed title, clean tags, a trimmed URL, and timestamps in
      order. (Length and URL format are NOT invariant: updates skip the
      validators.) */
  predicate WellFormed(s: Session) {
    && s.title != [] && IsTrimmed(s.title)
    && (forall i :: 0 <= i < |s.tags| ==> IsCleanTag(s.tags[i]))
    && IsTrimmed(s.jsonFileUrl)
    && s.createdAt <= s.updatedAt
  }

  predicate Invariant(st: State) {
    forall id :: id in st.sessions ==>
      && st.sessions[id].id == id
      && id < st.nextId
      && st.sessions[id].updatedAt <= st.clock
      && WellFormed(st.sessions[id])
  }

  /** `s` is the document the store holds under its id. */
  predicate Stored(st: State, s: Session) {
    s.id in st.sessions && st.sessions[s.id] == s
  }

  // ---------------------------------------------------------------------------
  // Queries: Session.find(filter).sort(key: -1)

  datatype Filter = PublishedOnly | OwnedBy(owner: UserId)

  predicate Matches(s: Session, f: Filter) {
    match f
    case PublishedOnly => s.status == Published
    case OwnedBy(u) => s.userId == u
  }

  datatype SortKey = CreatedAt | UpdatedAt

  function Key(s: Session, k: SortKey): nat {
    match k
    case CreatedAt => s.createdAt
    case UpdatedAt => s.updatedAt
  }

  /** Newest first. */
  predicate SortedDesc(xs: seq<Session>, k: SortKey) {
    forall i, j :: 0 <= i < j < |xs| ==> Key(xs[i], k) >= Key(xs[j], k)
  }

  /** The documents whose ids are below `n`, in id order. */
  function Records(m: map<SessionId, Session>, n: nat): (r: seq<Session>)
    requires forall id :: id in m ==> m[id].id == id
    ensures forall s :: multiset(r)[s] == if s.id < n && s.id in m && m[s.id] == s then 1 else 0
  {
    if n == 0 then []
    else
      var prev := Records(m, n - 1);
      var last := if n - 1 in m then [m[n - 1]] else [];
      assert multiset(prev + last) == multiset(prev) + multiset(last);
      prev + last
  }

  /** The documents that match the filter, each as often as in `xs`. */
  function Select(xs: seq<Session>, f: Filter): (r: seq<Session>)
    ensures forall s :: multiset(r)[s] == if Matches(s, f) then multiset(xs)[s] else 0
  {
    if xs == [] then []
    else
      var rest := Select(xs[1..], f);
      var head := if Matches(xs[0], f) then [xs[0]] else [];
      assert xs == [xs[0]] + xs[1..];
      assert multiset(xs) == multiset{xs[0]} + multiset(xs[1..]);
      assert multiset(head + rest) == multiset(head) + multiset(rest);
      head + rest
  }

  /** Putting `a` in front of a list sorted newest first keeps it sorted when
      `a` is at least as new as the list's head. */
  lemma ConsSorted(a: Session, rest: seq<Session>, k: SortKey)
    requires SortedDesc(rest, k)
    requires rest != [] ==> Key(a, k) >= Key(rest[0], k)
    ensures SortedDesc([a] + rest, k)
  {
    forall i, j | 0 <= i < j < |rest| + 1
      ensures Key(([a] + rest)[i], k) >= Key(([a] + rest)[j], k)
    {
      if i == 0 && j > 1 {
        assert Key(rest[0], k) >= Key(rest[j - 1], k);
      }
    }
  }

  /** One step of insertion sort: `x` goes before the first element that is
      not newer than it. */
  function InsertDesc(x: Session, xs: seq<Session>, k: SortKey): (r: seq<Session>)
    requires SortedDesc(xs, k)
    ensures SortedDesc(r, k)
    ensures multiset(r) == multiset(xs) + multiset{x}
    ensures r[0] == x || (xs != [] && r[0] == xs[0])
  {
    if xs == [] then [x]
    else if Key(x, k) >= Key(xs[0], k) then
      ConsSorted(x, xs, k);
      [x] + xs
    else
      var rest := InsertDesc(x, xs[1..], k);
      assert xs == [xs[0]] + xs[1..];
      ConsSorted(xs[0], rest, k);
      [xs[0]] + rest
  }

  /** `.sort({ key: -1 })`: the same documents, newest first. */
  function SortDesc(xs: seq<Session>, k: SortKey): (r: seq<Session>)
    ensures SortedDesc(r, k)
    ensures multiset(r) == multiset(xs)
  {
    if xs == [] then []
    else
      assert xs == [xs[0]] + xs[1..];
      InsertDesc(xs[0], SortDesc(xs[1..], k), k)
  }

  /** A list that holds each matching stored document once holds nothing else. */
  lemma CountedMembers(r: seq<Session>, st: State, f: Filter)
    requires forall s :: multiset(r)[s] == if Stored(st, s) && Matches(s, f) then 1 else 0
    ensures forall i :: 0 <= i < |r| ==> Stored(st, r[i]) && Matches(r[i], f)
  {
    forall i | 0 <= i < |r| ensures Stored(st, r[i]) && Matches(r[i], f) {
      assert r[i] in multiset(r);
    }
  }

  /** `Session.find(filter).sort(...)`: every stored document that matches
      the filter, exactly once, nothing else, in the requested order. */
  function Find(st: State, f: Filter, k: SortKey): (r: seq<Session>)
    requires Invariant(st)
    ensures SortedDesc(r, k)
    ensures forall s :: multiset(r)[s] == if Stored(st, s) && Matches(s, f) then 1 else 0
    ensures forall i :: 0 <= i < |r| ==> Stored(st, r[i]) && Matches(r[i], f)
  {
    var r := SortDesc(Select(Records(st.sessions, st.nextId), f), k);
    CountedMembers(r, st, f);
    r
  }

  /** getPublicSessions: the published documents, newest-created first, each
      exactly once; no draft is ever listed. */
  function PublicSessions(st: State): (r: seq<Session>)
    requires Invariant(st)
    ensures SortedDesc(r, CreatedAt)
    ensures forall s :: multiset(r)[s] == if Stored(st, s) && s.status == Published then 1 else 0
    ensures forall i :: 0 <= i < |r| ==> r[i].status == Published
  {
    Find(st, PublishedOnly, CreatedAt)
  }

  /** getUserSessions: 401 without a caller; otherwise exactly the caller's
      documents, each once, most recently updated first. */
  function UserSessions(st: State, caller: Option<UserId>): (r: Response<seq<Session>>)
    requires Invariant(st)
    ensures caller.None? ==> r == Error(401, NotAuthenticated)
    ensures caller.Some? ==> r.Ok? && SortedDesc(r.value, UpdatedAt)
    ensures caller.Some? ==> forall s ::
                               multiset(r.value)[s] == if Stored(st, s) && s.userId == caller.value then 1 else 0
  {
    if caller.None? then Error(401, NotAuthenticated)
    else Ok(Find(st, OwnedBy(caller.value), UpdatedAt))
  }

  /** getUserSession: 401 without a caller; the document when it exists AND
      belongs to the caller; otherwise one and the same 404, so a caller
      cannot tell someone else's document from a missing one. */
  function UserSession(st: State, caller: Option<UserId>, id: SessionId): (r: Response<Session>)
    ensures caller.None? ==> r == Error(401, NotAuthenticated)
    ensures caller.Some? ==>
      (r.Ok? <==> id in st.sessions && st.sessions[id].userId == caller.value)
    ensures r.Ok? ==> r.value == st.sessions[id]
    ensures caller.Some? && !r.Ok? ==> r == Error(404, SessionNotFound)
  {
    if caller.None? then Error(401, NotAuthenticated)
    else if id in st.sessions && st.sessions[id].userId == caller.value then Ok(st.sessions[id])
    else Error(404, SessionNotFound)
  }

  // ---------------------------------------------------------------------------
  // saveDraft and publishSession

  /** The update path: `findOneAndUpdate({ _id: id, user_id: owner }, {...},
      { new: true })`. The setters run, the validators do not; `updatedAt` is
      refreshed; `user_id` and `createdAt` are not in the update. */
  function Update(st: State, owner: UserId, id: SessionId, title: string,
                  tags: seq<string>, url: string, target: Status): (out: (Response<Saved>, State))
    ensures !(id in st.sessions && st.sessions[id].userId == owner) ==>
      out == (Error(404, NotFoundOrUnauthorized), st)
    ensures id in st.sessions && st.sessions[id].userId == owner ==> out.0.Ok?
    ensures id in st.sessions && st.sessions[id].userId == owner ==>
      var old_ := st.sessions[id];
      var s := out.0.value.session;
      && out.0 == Ok(Saved(SavedMessage(target), s))
      && s.id == old_.id && s.userId == old_.userId && s.createdAt == old_.createdAt
      && s.title == Trim(title) && s.tags == NormaliseTags(tags) && s.jsonFileUrl == Trim(url)
      && s.status == target && s.updatedAt == st.clock + 1
      && out.1 == State(st.sessions[id := s], st.nextId, st.clock + 1)
  {
    if id in st.sessions && st.sessions[id].userId == owner then
      var now := st.clock + 1;
      var s := st.sessions[id].(
        title := NormaliseText(title),
        tags := NormaliseTags(tags),
        jsonFileUrl := NormaliseText(url),
        status := target,
        updatedAt := now);
      (Ok(Saved(SavedMessage(target), s)), st.(sessions := st.sessions[id := s], clock := now))
    else
      (Error(404, NotFoundOrUnauthorized), st)
  }

  /** The create path: `new Session({...}).save()`. A validation failure is
      thrown, caught, and reported as 500. */
  function Create(st: State, owner: UserId, title: string, tags: seq<string>,
                  url: string, target: Status): (out: (Response<Saved>, State))
    ensures out.0.Ok? <==> MinTitleLength <= Utf16Length(Trim(title)) <= MaxTitleLength && UrlValidator(Trim(url))
    ensures !out.0.Ok? ==> out == (Error(500, FailedMessage(target)), st)
    ensures out.0.Ok? ==>
      var s := out.0.value.session;
      && out.0 == Ok(Saved(SavedMessage(target), s))
      && s.id == st.nextId && s.userId == owner
      && s.title == Trim(title) && s.tags == NormaliseTags(tags) && s.jsonFileUrl == Trim(url)
      && s.status == target && s.createdAt == s.updatedAt == st.clock + 1
      && out.1 == State(st.sessions[st.nextId := s], st.nextId + 1, st.clock + 1)
  {
    match Validate(Candidate(Some(owner), Some(title), tags, Some(url), Some(target)))
    case Invalid(_) => (Error(500, FailedMessage(target)), st)
    case Valid(f) =>
      var now := st.clock + 1;
      var s := Session(st.nextId, f.userId, f.title, f.tags, f.jsonFileUrl, f.status, now, now);
      (Ok(Saved(SavedMessage(target), s)), State(st.sessions[st.nextId := s], st.nextId + 1, now))
  }

  /** saveDraft (target Draft) and publishSession (target Published): 401
      without a caller, 400 without a title, and every error leaves the store
      as it was. What a success writes is `SaveWrites`. */
  function Save(st: State, caller: Option<UserId>, body: Body, target: Status): (out: (Response<Saved>, State))
    ensures caller.None? ==> out == (Error(401, NotAuthenticated), st)
    ensures caller.Some? && TitleMissing(body.title) ==> out == (Error(400, TitleRequired), st)
    ensures out.0.Error? ==> out.1 == st
  {
    if caller.None? then (Error(401, NotAuthenticated), st)
    else if TitleMissing(body.title) then (Error(400, TitleRequired), st)
    else
      var title := Trim(body.title.value);
      var tags := ParseTags(body.tags);
      var url := body.jsonFileUrl.GetOr([]);
      if body.id.Some? then Update(st, caller.value, body.id.value, title, tags, url, target)
      else Create(st, caller.value, title, tags, url, target)
  }

  // ---------------------------------------------------------------------------
  // The store as the handlers see it

  /** The session collection as the handlers see it. One field holds the
      whole store, so that each handler's effect is a single update of it. */
  class Store {
    var state: State

    ghost predicate Valid()
      reads this
    {
      Invariant(state)
    }

    constructor ()
      ensures Valid()
      ensures state == State(map[], 0, 0)
    {
      state := State(map[], 0, 0);
    }

    /** GET /sessions (no authentication). */
    method GetPublicSessions() returns (r: Response<seq<Session>>)
      requires Valid()
      ensures r == Ok(PublicSessions(state))
    {
      var found := Select(Records(state.sessions, state.nextId), PublishedOnly);
      r := Ok(SortDesc(found, CreatedAt));
    }

    /** GET /my-sessions. */
    method GetUserSessions(caller: Option<UserId>) returns (r: Response<seq<Session>>)
      requires Valid()
      ensures r == UserSessions(state, caller)
    {
      if caller.None? {
        return Error(401, NotAuthenticated);
      }
      var found := Select(Records(state.sessions, state.nextId), OwnedBy(caller.value));
      r := Ok(SortDesc(found, UpdatedAt));
    }

    /** GET /my-sessions/:id. */
    method GetUserSession(caller: Option<UserId>, id: SessionId) returns (r: Response<Session>)
      ensures r == UserSession(state, caller, id)
    {
      if caller.None? {
        return Error(401, NotAuthenticated);
      }
      var sessions := state.sessions;
      if id in sessions && sessions[id].userId == caller.value {
        r := Ok(sessions[id]);
      } else {
        r := Error(404, SessionNotFound);
      }
    }

    /** POST /my-sessions/save-draft. */
    method SaveDraft(caller: Option<UserId>, body: Body) returns (r: Response<Saved>)
      requires Valid()
      modifies this
      ensures Valid()
      ensures (r, state) == Save(old(state), caller, body, Draft)
    {
      r := Upsert(caller, body, Draft);
    }

    /** POST /my-sessions/publish. */
    method PublishSession(caller: Option<UserId>, body: Body) returns (r: Response<Saved>)
      requires Valid()
      modifies this
      ensures Valid()
      ensures (r, state) == Save(old(state), caller, body, Published)
    {
      r := Upsert(caller, body, Published);
    }

    /** The body both save handlers share, step by step. */
    method Upsert(caller: Option<UserId>, body: Body, target: Status) returns (r: Response<Saved>)
      requires Valid()
      modifies this
      ensures Valid()
      ensures (r, state) == Save(old(state), caller, body, target)
    {
      SaveKeepsInvariant(state, caller, body, target);
      if caller.None? {
        return Error(401, NotAuthenticated);
      }
      if TitleMissing(body.title) {
        return Error(400, TitleRequired);
      }
      var title := Trim(body.title.value);
      var tags := ParseTags(body.tags);
      var url := body.jsonFileUrl.GetOr([]);
      if body.id.Some? {
        r := UpdateOwned(caller.value, body.id.value, title, tags, url, target);
      } else {
        r := Insert(caller.value, title, tags, url, target);
      }
    }

    /** `findOneAndUpdate` scoped by both `_id` and `user_id`. */
    method UpdateOwned(owner: UserId, id: SessionId, title: string, tags: seq<string>,
                       url: string, target: Status) returns (r: Response<Saved>)
      modifies this
      ensures (r, state) == Update(old(state), owner, id, title, tags, url, target)
    {
      var st := state;
      if id in st.sessions && st.sessions[id].userId == owner {
        var now := st.clock + 1;
        var s := st.sessions[id].(
          title := NormaliseText(title),
          tags := NormaliseTags(tags),
          jsonFileUrl := NormaliseText(url),
          status := target,
          updatedAt := now);
        UpdateAccepts(st, owner, id, title, tags, url, target);
        state := State(st.sessions[id := s], st.nextId, now);
        r := Ok(Saved(SavedMessage(target), s));
      } else {
        r := Error(404, NotFoundOrUnauthorized);
      }
    }

    /** `new Session({...}).save()`: the setters and validators run on the
      new document, which is stored under a fresh id only if it passes. */
    method Insert(owner: UserId, title: string, tags: seq<string>, url: string,
                  target: Status) returns (r: Response<Saved>)
      modifies this
      ensures (r, state) == Create(old(state), owner, title, tags, url, target)
    {
      var st := state;
      var v := Validate(Candidate(Some(owner), Some(title), tags, Some(url), Some(target)));
      if v.Invalid? {
        CreateRejects(st, owner, title, tags, url, target);
        return Error(500, FailedMessage(target));
      }
      var f := v.fields;
      var now := st.clock + 1;
      var s := Session(st.nextId, f.userId, f.title, f.tags, f.jsonFileUrl, f.status, now, now);
      CreateAccepts(st, owner, title, tags, url, target, f);
      state := State(st.sessions[st.nextId := s], st.nextId + 1, now);
      r := Ok(Saved(SavedMessage(target), s));
    }
  }

  // The two write paths unfolded one step, for the store's methods.

  lemma UpdateAccepts(st: State, owner: UserId, id: SessionId, title: string,
                      tags: seq<string>, url: string, target: Status)
    requires id in st.sessions && st.sessions[id].userId == owner
    ensures var s := st.sessions[id].(title := NormaliseText(title), tags := NormaliseTags(tags),
                                      jsonFileUrl := NormaliseText(url), status := target,
                                      updatedAt := st.clock + 1);
      Update(st, owner, id, title, tags, url, target) ==
        (Ok(Saved(SavedMessage(target), s)), State(st.sessions[id := s], st.nextId, st.clock + 1))
  {
  }

  lemma CreateRejects(st: State, owner: UserId, title: string, tags: seq<string>,
                      url: string, target: Status)
    requires Validate(Candidate(Some(owner), Some(title), tags, Some(url), Some(target))).Invalid?
    ensures Create(st, owner, title, tags, url, target) == (Error(500, FailedMessage(target)), st)
  {
  }

  lemma CreateAccepts(st: State, owner: UserId, title: string, tags: seq<string>,
                      url: string, target: Status, f: Fields)
    requires Validate(Candidate(Some(owner), Some(title), tags, Some(url), Some(target))) == Valid(f)
    ensures var s := Session(st.nextId, f.userId, f.title, f.tags, f.jsonFileUrl, f.status,
                             st.clock + 1, st.clock + 1);
      Create(st, owner, title, tags, url, target) ==
        (Ok(Saved(SavedMessage(target), s)), State(st.sessions[st.nextId := s], st.nextId + 1, st.clock + 1))
  {
  }

  /** The tags a save stores are clean: the parser leaves them non-empty,
      trimmed and comma-free, and the setters lower-case them. */
  lemma {:induction false} StoredTagsClean(body: Body)
    ensures forall i :: 0 <= i < |NormaliseTags(ParseTags(body.tags))| ==>
      IsCleanTag(NormaliseTags(ParseTags(body.tags))[i])
  {
    var tags := ParseTags(body.tags);
    forall i | 0 <= i < |tags| ensures IsCleanTag(NormaliseTags(tags)[i]) {
      TrimOfTrimmed(tags[i]);
    }
  }

  /** Writing one well-formed document, stamped no later than the advanced
      clock, under an id that is either stored already or the next fresh one,
      keeps the invariant. */
  lemma WriteKeepsInvariant(st: State, s: Session, nextId: SessionId)
    requires Invariant(st)
    requires WellFormed(s) && s.updatedAt <= st.clock + 1
    requires (s.id in st.sessions && nextId == st.nextId) || (s.id == st.nextId && nextId == st.nextId + 1)
    ensures Invariant(State(st.sessions[s.id := s], nextId, st.clock + 1))
  {
  }

  lemma UpdateKeepsInvariant(st: State, owner: UserId, id: SessionId, title: string,
                             tags: seq<string>, url: string, target: Status)
    requires Invariant(st)
    requires Trim(title) != []
    requires forall i :: 0 <= i < |NormaliseTags(tags)| ==> IsCleanTag(NormaliseTags(tags)[i])
    ensures Invariant(Update(st, owner, id, title, tags, url, target).1)
  {
    var out := Update(st, owner, id, title, tags, url, target);
    if out.0.Ok? {
      WriteKeepsInvariant(st, out.0.value.session, st.nextId);
    }
  }

  lemma CreateKeepsInvariant(st: State, owner: UserId, title: string,
                             tags: seq<string>, url: string, target: Status)
    requires Invariant(st)
    requires forall i :: 0 <= i < |NormaliseTags(tags)| ==> IsCleanTag(NormaliseTags(tags)[i])
    ensures Invariant(Create(st, owner, title, tags, url, target).1)
  {
    var out := Create(st, owner, title, tags, url, target);
    if out.0.Ok? {
      WriteKeepsInvariant(st, out.0.value.session, st.nextId + 1);
    }
  }

  /** Every save keeps the store invariant. */
  lemma SaveKeepsInvariant(st: State, caller: Option<UserId>, body: Body, target: Status)
    requires Invariant(st)
    ensures Invariant(Save(st, caller, body, target).1)
  {
    if caller.Some? && !TitleMissing(body.title) {
      var title := Trim(body.title.value);
      var tags := ParseTags(body.tags);
      var url := body.jsonFileUrl.GetOr([]);
      StoredTagsClean(body);
      TrimIdempotent(body.title.value);
      if body.id.Some? {
        UpdateKeepsInvariant(st, caller.value, body.id.value, title, tags, url, target);
      } else {
        CreateKeepsInvariant(st, caller.value, title, tags, url, target);
      }
    }
  }
  /** A save by a caller with a title, one step unfolded. */
  lemma SaveUnfolds(st: State, caller: Option<UserId>, body: Body, target: Status)
    requires caller.Some? && !TitleMissing(body.title)
    ensures Save(st, caller, body, target) ==
      if body.id.Some? then
        Update(st, caller.value, body.id.value, Trim(body.title.value), ParseTags(body.tags),
               body.jsonFileUrl.GetOr([]), target)
      else
        Create(st, caller.value, Trim(body.title.value), ParseTags(body.tags),
               body.jsonFileUrl.GetOr([]), target)
  {
  }

  /** A successful save writes exactly one document, owned by the caller,
      with the target status, the trimmed title, the parsed and normalised
      tags and the trimmed URL (or `""`), stamped with the new clock, under
      the body's id or else the next fresh one. */
  lemma SaveWrites(st: State, caller: Option<UserId>, body: Body, target: Status)
    ensures var out := Save(st, caller, body, target);
      out.0.Ok? ==>
      var s := out.0.value.session;
      && caller.Some? && body.title.Some?
      && out.0.value.message == SavedMessage(target)
      && s.userId == caller.value
      && s.status == target
      && s.title == Trim(body.title.value)
      && s.tags == NormaliseTags(ParseTags(body.tags))
      && s.jsonFileUrl == Trim(body.jsonFileUrl.GetOr([]))
      && out.1.sessions == st.sessions[body.id.GetOr(st.nextId) := s]
      && out.1.clock == st.clock + 1 && s.updatedAt == out.1.clock
  {
    if caller.Some? && !TitleMissing(body.title) {
      SaveUnfolds(st, caller, body, target);
      TrimIdempotent(body.title.value);
    }
  }

  /** Every failed save is one of four: 401 without a caller, 400 without a
      title, 404 for an id the caller does not own, 500 when the schema
      refuses a new document. */
  lemma SaveErrors(st: State, caller: Option<UserId>, body: Body, target: Status)
    ensures var out := Save(st, caller, body, target);
      out.0.Error? ==>
        (out.0.code, out.0.message) in
          {(401, NotAuthenticated), (400, TitleRequired), (404, NotFoundOrUnauthorized),
           (500, FailedMessage(target))}
  {
    if caller.Some? && !TitleMissing(body.title) {
      SaveUnfolds(st, caller, body, target);
    }
  }

  /** An update touches only a document the caller owns: with an id in the
      body, the save succeeds exactly when that id is stored and owned by the
      caller; otherwise the same 404 comes back and nothing changes. A
      success keeps the id, the owner and `createdAt`, and adds no id. */
  lemma SaveUpdatesOwnedOnly(st: State, caller: Option<UserId>, body: Body, target: Status)
    requires Invariant(st)
    requires caller.Some? && !TitleMissing(body.title) && body.id.Some?
    ensures var out := Save(st, caller, body, target);
      var id := body.id.value;
      && (out.0.Ok? <==> id in st.sessions && st.sessions[id].userId == caller.value)
      && (!out.0.Ok? ==> out == (Error(404, NotFoundOrUnauthorized), st))
      && (out.0.Ok? ==>
            && out.0.value.session.id == id
            && out.0.value.session.createdAt == st.sessions[id].createdAt
            && out.1.sessions.Keys == st.sessions.Keys
            && out.1.nextId == st.nextId)
  {
    SaveUnfolds(st, caller, body, target);
    UpdateWritesInPlace(st, caller.value, body.id.value, Trim(body.title.value), ParseTags(body.tags),
                        body.jsonFileUrl.GetOr([]), target);
  }

  lemma UpdateWritesInPlace(st: State, owner: UserId, id: SessionId, title: string,
                            tags: seq<string>, url: string, target: Status)
    requires Invariant(st)
    ensures var out := Update(st, owner, id, title, tags, url, target);
      out.0.Ok? ==>
        && out.0.value.session.id == id
        && out.0.value.session.createdAt == st.sessions[id].createdAt
        && out.1.sessions.Keys == st.sessions.Keys
        && out.1.nextId == st.nextId
  {
    var out := Update(st, owner, id, title, tags, url, target);
    if out.0.Ok? {
      assert out.1.sessions == st.sessions[id := out.0.value.session];
    }
  }

  /** A save without an id inserts exactly one document under a fresh id and
      leaves every stored document as it was; it fails, with a 500 and no
      change, exactly when the schema validators refuse the title length or
      the URL. */
  lemma SaveCreatesOne(st: State, caller: Option<UserId>, body: Body, target: Status)
    requires Invariant(st)
    requires caller.Some? && !TitleMissing(body.title) && body.id.None?
    ensures var out := Save(st, caller, body, target);
      && (out.0.Ok? <==> Utf16Length(Trim(body.title.value)) <= MaxTitleLength
                         && UrlValidator(Trim(body.jsonFileUrl.GetOr([]))))
      && (!out.0.Ok? ==> out == (Error(500, FailedMessage(target)), st))
      && (out.0.Ok? ==>
            && out.0.value.session.id == st.nextId
            && st.nextId !in st.sessions
            && out.1.sessions.Keys == st.sessions.Keys + {st.nextId}
            && (forall id :: id in st.sessions ==> out.1.sessions[id] == st.sessions[id])
            && out.0.value.session.createdAt == out.0.value.session.updatedAt)
  {
    SaveUnfolds(st, caller, body, target);
    TrimIdempotent(body.title.value);
    CreateWritesOne(st, caller.value, Trim(body.title.value), ParseTags(body.tags),
                    body.jsonFileUrl.GetOr([]), target);
  }

  lemma CreateWritesOne(st: State, owner: UserId, title: string, tags: seq<string>,
                        url: string, target: Status)
    requires Invariant(st)
    ensures var out := Create(st, owner, title, tags, url, target);
      out.0.Ok? ==>
        && st.nextId !in st.sessions
        && out.1.sessions.Keys == st.sessions.Keys + {st.nextId}
        && (forall id :: id in st.sessions ==> out.1.sessions[id] == st.sessions[id])
  {
    var out := Create(st, owner, title, tags, url, target);
    if out.0.Ok? {
      assert st.nextId !in st.sessions;
      AddFresh(st.sessions, st.nextId, out.0.value.session);
    }
  }

  lemma AddFresh(m: map<SessionId, Session>, k: SessionId, v: Session)
    requires k !in m
    ensures m[k := v].Keys == m.Keys + {k}
    ensures forall id :: id in m ==> m[k := v][id] == m[id]
  {
  }

  /** The update path runs the setters but not the validators: an owner can
      store a URL the schema validator refuses, one that the create path
      turns away with a 500. */
  lemma UpdateSkipsValidators(st: State, owner: UserId, id: SessionId, title: string, url: string)
    requires id in st.sessions && st.sessions[id].userId == owner
    requires IsTrimmed(title) && title != [] && IsTrimmed(url) && !UrlValidator(url)
    ensures var out := Save(st, Some(owner), Body(Some(id), Some(title), None, Some(url)), Draft);
      out.0.Ok? && out.0.value.session.jsonFileUrl == url
    ensures Save(st, Some(owner), Body(None, Some(title), None, Some(url)), Draft)
      == (Error(500, FailedMessage(Draft)), st)
  {
    TrimOfTrimmed(url);
    TrimOfTrimmed(title);
    SaveUnfolds(st, Some(owner), Body(Some(id), Some(title), None, Some(url)), Draft);
    SaveUnfolds(st, Some(owner), Body(None, Some(title), None, Some(url)), Draft);
  }
}
