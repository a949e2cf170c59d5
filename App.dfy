/** The page's view state and its handlers. Each handler that awaits a
    response is split at its `await` into a start step, which returns the
    request to send, and a finish step, which takes what came back. The
    `disabled={loading}` controls and the conditionally rendered ones become
    preconditions. */
module App {
  import opened Json
  import opened EmailCheck
  import opened Responses

  const LookupUrl := "/auth/parents/lookup-id-by-email"
  const ClearUrl := "/user/delete-parent-child"

  datatype Verb = Post | Delete

  /** An outgoing `fetch`. Header values are strings; the body is the JSON
      value that `JSON.stringify` serialises. */
  datatype Request = Request(verb: Verb, url: string, headers: seq<(string, string)>, body: Option<Json>)

  /** The lookup POST for an already trimmed email. */
  function LookupRequest(email: string): Request
  {
    Request(Post, LookupUrl, [("Content-Type", "application/json")], Some(Obj(map["email" := Str(email)])))
  }

  /** The clear DELETE, whose header value is the id converted to a string,
      or `None` where that conversion throws: `fetch` then rejects without
      sending anything. */
  function ClearRequest(parentId: Json): Option<Request>
  {
    match JsString(parentId)
    case Some(value) => Some(Request(Delete, ClearUrl, [("parent-id", value)], None))
    case None => None
  }

  /** A string id goes into the `parent-id` header as it is. */
  lemma ClearHeaderIsId(parentId: Json)
    requires parentId.Str?
    ensures ClearRequest(parentId) == Some(Request(Delete, ClearUrl, [("parent-id", parentId.s)], None))
  {
  }

  /** No DELETE is sent exactly when the id's string conversion throws. */
  lemma ClearRequestRefused(parentId: Json)
    ensures ClearRequest(parentId).None? <==> ToStringThrows(parentId)
  {
    JsStringThrowsExactly(parentId);
  }

  /** What a submit does before any await: a validation error, or a request. */
  datatype LookupStart = Rejected(notice: Notice) | Sent(request: Request)

  /** What an awaited `fetch` delivers: a response, or a rejection. */
  datatype Reply = Received(response: Response) | NetworkFailure

  /** Which handler is suspended at its `await`. `ClearRefused` is the clear
      handler whose `fetch` rejected before sending: only a network failure
      can come back. */
  datatype Awaiting = Idle | LookupReply | ClearReply | ClearRefused

  class AppState {
    var email: string
    var loading: bool
    var parentId: Json
    var showConfirm: bool
    var raw: Json
    ghost var awaiting: Awaiting

    /** `loading` is set exactly while a request is outstanding, and a
        lookup in flight has cleared the result fields. */
    ghost predicate Valid()
      reads this
    {
      && (loading <==> awaiting != Idle)
      && (awaiting == LookupReply ==> parentId == Str("") && raw == Null)
    }

    /** The initial `useState` values. */
    constructor ()
      ensures Valid()
      ensures email == "" && !loading && parentId == Str("") && !showConfirm && raw == Null
    {
      email := "";
      loading := false;
      parentId := Str("");
      showConfirm := false;
      raw := Null;
      awaiting := Idle;
    }

    /** Typing in the email field, which is disabled while loading. */
    method EditEmail(text: string)
      requires Valid() && !loading
      modifies this`email
      ensures Valid() && email == text
    {
      email := text;
    }

    /** `handleLookup` up to its `await`. */
    method StartLookup() returns (out: LookupStart)
      requires Valid() && !loading
      modifies this`parentId, this`raw, this`loading, this`awaiting
      ensures Valid()
      ensures parentId == Str("") && raw == Null
      ensures EmailIsValid(email) ==>
        out == Sent(LookupRequest(Trim(email))) && loading && awaiting == LookupReply
      ensures !EmailIsValid(email) ==>
        out == Rejected(InvalidEmailNotice) && loading == old(loading) && awaiting == Idle
    {
      parentId := Str("");
      raw := Null;
      var trimmed := Trim(email);
      ValidEmailIsLong(email);
      if trimmed == "" || !EmailIsValid(email) {
        return Rejected(InvalidEmailNotice);
      }
      loading := true;
      awaiting := LookupReply;
      out := Sent(LookupRequest(trimmed));
    }

    /** `handleLookup` after its `await`, through its `finally`. */
    method FinishLookup(reply: Reply) returns (notice: Notice)
      requires Valid() && awaiting == LookupReply
      modifies this`parentId, this`raw, this`loading, this`awaiting
      ensures Valid() && !loading && awaiting == Idle
      ensures reply.Received? ==>
        var outcome := ClassifyLookup(reply.response);
        && raw == BodyJson(reply.response.body)
        && notice == LookupNotice(outcome)
        && parentId == (if outcome.Found? then outcome.parentId else Str(""))
      ensures reply.NetworkFailure? ==>
        raw == Null && parentId == Str("") && notice == LookupNetworkNotice
    {
      match reply {
        case Received(res) =>
          var json := BodyJson(res.body);
          raw := json;
          var outcome := ClassifyLookup(res);
          if outcome.Found? {
            parentId := outcome.parentId;
          }
          notice := LookupNotice(outcome);
        case NetworkFailure =>
          notice := LookupNetworkNotice;
      }
      loading := false;
      awaiting := Idle;
    }

    /** `confirmClear`: the Clear Data button is rendered only while
        `parentId` is truthy and is disabled while loading. */
    method OpenConfirm()
      requires Valid() && !loading && Truthy(Some(parentId))
      modifies this`showConfirm
      ensures Valid() && showConfirm
    {
      showConfirm := true;
    }

    /** The dialog's Cancel button, rendered while the dialog is open and
        disabled while loading. */
    method CancelButton()
      requires Valid() && showConfirm && !loading
      modifies this`showConfirm
      ensures Valid() && !showConfirm
    {
      showConfirm := false;
    }

    /** The overlay's click handler. Nothing disables it, so the model lets
        it close the dialog even while a clear is outstanding. By the styles
        (src/App.jsx:144-159) the dialog's centring layer lies above the
        overlay and covers it, so a pointer click outside the card lands on
        that layer, which has no handler; the page may never run this
        transition, and keeping it only adds behaviour. */
    method OverlayClick()
      requires Valid() && showConfirm
      modifies this`showConfirm
      ensures Valid() && !showConfirm
    {
      showConfirm := false;
    }

    /** `handleClear` up to its `await`: the dialog's confirm button,
        rendered while the dialog is open and disabled while loading. */
    method StartClear() returns (request: Option<Request>)
      requires Valid() && showConfirm && !loading
      modifies this`loading, this`awaiting
      ensures Valid() && loading && showConfirm
      ensures request == ClearRequest(parentId)
      ensures awaiting == if request.Some? then ClearReply else ClearRefused
    {
      loading := true;
      request := ClearRequest(parentId);
      awaiting := if request.Some? then ClearReply else ClearRefused;
    }

    /** `handleClear` after its `await`, through its `finally`. */
    method FinishClear(reply: Reply) returns (notice: Notice)
      requires Valid()
      requires awaiting == ClearReply || (awaiting == ClearRefused && reply.NetworkFailure?)
      modifies this`loading, this`showConfirm, this`awaiting
      ensures Valid() && !loading && !showConfirm && awaiting == Idle
      ensures parentId == old(parentId) && raw == old(raw)
      ensures notice == match reply
        case Received(res) => ClearNotice(res)
        case NetworkFailure => ClearNetworkNotice
    {
      match reply {
        case Received(res) =>
          notice := ClearNotice(res);
        case NetworkFailure =>
          notice := ClearNetworkNotice;
      }
      loading := false;
      showConfirm := false;
      awaiting := Idle;
    }
  }

  /** A lookup that finds "p1", then confirm and a successful clear: one
      DELETE carrying the found id, and the dialog closed. */
  method FoundThenCleared(app: AppState) returns (clear: Option<Request>, notice: Notice)
    requires app.Valid() && app.awaiting == LookupReply
    modifies app
    ensures clear == Some(Request(Delete, ClearUrl, [("parent-id", "p1")], None))
    ensures notice == ClearedNotice
    ensures app.Valid() && !app.loading && !app.showConfirm && app.parentId == Str("p1")
  {
    FoundP1IsFound();
    var n := app.FinishLookup(Received(FoundP1));
    app.OpenConfirm();
    ClearHeaderIsId(Str("p1"));
    clear := app.StartClear();
    ClearedOkIsCleared();
    notice := app.FinishClear(Received(ClearedOk));
  }

  /** The dialog does not hold on to the id it was opened for. The dialog's
      layers take pointer clicks but not a keyboard submit of the form
      behind it, and a submit clears `parentId` before validating. Submitting
      an invalid address leaves the dialog open, with nothing in flight, over an
      empty id. */
  method SubmitBehindDialog(app: AppState) returns (lookup: LookupStart)
    requires app.Valid() && !app.loading && app.showConfirm
    requires !EmailIsValid(app.email)
    modifies app
    ensures lookup == Rejected(InvalidEmailNotice)
    ensures app.Valid() && !app.loading && app.showConfirm && app.parentId == Str("")
  {
    lookup := app.StartLookup();
  }

  /** The confirm button then sends whatever `parentId` holds: after
      `SubmitBehindDialog`, a DELETE with an empty `parent-id`. */
  method ConfirmOverEmptyId(app: AppState) returns (clear: Option<Request>)
    requires app.Valid() && !app.loading && app.showConfirm && app.parentId == Str("")
    modifies app
    ensures clear == Some(Request(Delete, ClearUrl, [("parent-id", "")], None))
    ensures app.loading && app.awaiting == ClearReply
  {
    ClearHeaderIsId(Str(""));
    clear := app.StartClear();
  }

  /** An id whose string conversion throws: confirming sends nothing, the
      rejected `fetch` lands in the `catch`, and the dialog closes with the
      network-error notification. This is `handleClear` on its own; the page
      renders a truthy `parentId` as a React child, which throws on such an
      id before the dialog can be shown. */
  method ConfirmOverThrowingId(app: AppState) returns (clear: Option<Request>, notice: Notice)
    requires app.Valid() && !app.loading && app.showConfirm && ToStringThrows(app.parentId)
    modifies app
    ensures clear == None && notice == ClearNetworkNotice
    ensures app.Valid() && !app.loading && !app.showConfirm
  {
    ClearRequestRefused(app.parentId);
    clear := app.StartClear();
    notice := app.FinishClear(NetworkFailure);
  }

  /** Opening the dialog and cancelling issues no request and leaves the
      result in place. */
  method CancelIssuesNothing(app: AppState)
    requires app.Valid() && !app.loading && Truthy(Some(app.parentId))
    modifies app
    ensures app.Valid() && !app.showConfirm && !app.loading
    ensures app.parentId == old(app.parentId) && app.raw == old(app.raw)
  {
    app.OpenConfirm();
    app.CancelButton();
  }
}
