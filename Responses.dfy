/** The decisions the page takes on an HTTP response: how a lookup response
    is classified, whether a clear succeeded, and the notification text for
    each outcome. */
module Responses {
  import opened Json

  /** The body as `res.json().catch(() => ({}))` yields it. */
  datatype Body = Parsed(value: Json) | Unparseable

  datatype Response = Response(status: nat, body: Body)

  /** The parsed body, with `{}` for a body that does not parse. */
  function BodyJson(b: Body): Json
  {
    match b
    case Parsed(v) => v
    case Unparseable => Obj(map[])
  }

  /** `res.ok`: the status is an ok status (200 to 299). */
  predicate Ok(status: nat)
  {
    200 <= status <= 299
  }

  /** `toast.success` and `toast.error`. */
  datatype Level = Success | Error

  datatype Notice = Notice(level: Level, text: string)

  const InvalidEmailNotice := Notice(Error, "Enter a valid email.")
  const FoundNotice := Notice(Success, "Parent found.")
  const NotFoundNotice := Notice(Error, "Parent not found for the given email.")
  const LookupNetworkNotice := Notice(Error, "Network or server error during lookup.")
  const ClearedNotice := Notice(Success, "Data cleared successfully.")
  const ClearNetworkNotice := Notice(Error, "Network or server error during clear.")

  // ---------------------------------------------------------------------
  // Lookup

  datatype LookupOutcome = Found(parentId: Json) | NotFound | Unexpected(status: nat)

  /** `json?.success` */
  function SuccessFlag(j: Json): Option<Json>
  {
    Member(Some(j), "success")
  }

  /** `json?.data?.parentId` */
  function ParentIdOf(j: Json): Option<Json>
  {
    Member(Member(Some(j), "data"), "parentId")
  }

  /** `json?.statusCode === 404`: the number 404, not the string "404". */
  predicate ReportsNotFound(j: Json)
  {
    Member(Some(j), "statusCode") == Some(Num(404))
  }

  /** The three-way decision on a lookup response. */
  function ClassifyLookup(res: Response): (r: LookupOutcome)
    ensures r.Found? ==> Truthy(Some(r.parentId))
    ensures r.Found? ==> ParentIdOf(BodyJson(res.body)) == Some(r.parentId)
    ensures r.Unexpected? ==> r.status == res.status
  {
    var json := BodyJson(res.body);
    if Truthy(SuccessFlag(json)) && Truthy(ParentIdOf(json)) then Found(ParentIdOf(json).value)
    else if ReportsNotFound(json) then NotFound
    else Unexpected(res.status)
  }

  function LookupNotice(o: LookupOutcome): Notice
  {
    match o
    case Found(_) => FoundNotice
    case NotFound => NotFoundNotice
    case Unexpected(status) => Notice(Error, "Unexpected response (HTTP " + Decimal(status) + ").")
  }

  /** The order of the checks: found wins over not-found, and not-found over
      unexpected. */
  lemma LookupOrder(res: Response)
    ensures var j := BodyJson(res.body);
      && (ClassifyLookup(res).Found? <==> Truthy(SuccessFlag(j)) && Truthy(ParentIdOf(j)))
      && (ClassifyLookup(res).NotFound? <==>
            !(Truthy(SuccessFlag(j)) && Truthy(ParentIdOf(j))) && ReportsNotFound(j))
      && (ClassifyLookup(res).Unexpected? <==>
            !(Truthy(SuccessFlag(j)) && Truthy(ParentIdOf(j))) && !ReportsNotFound(j))
  {
  }

  /** The transport status decides nothing: it is only carried by an
      unexpected outcome. In particular not-found is read from the body alone. */
  lemma LookupIgnoresTransportStatus(s1: nat, s2: nat, b: Body)
    ensures ClassifyLookup(Response(s1, b)).Found? == ClassifyLookup(Response(s2, b)).Found?
    ensures ClassifyLookup(Response(s1, b)).NotFound? == ClassifyLookup(Response(s2, b)).NotFound?
    ensures !ClassifyLookup(Response(s1, b)).Unexpected? ==>
      ClassifyLookup(Response(s1, b)) == ClassifyLookup(Response(s2, b))
  {
  }

  /** A body that does not parse reads as `{}`, which is unexpected. */
  lemma UnparseableLookupIsUnexpected(status: nat)
    ensures ClassifyLookup(Response(status, Unparseable)) == Unexpected(status)
  {
  }

  /** The unexpected-response notification names the transport status
      unambiguously: two such texts are equal only for equal statuses. */
  lemma UnexpectedTextNamesStatus(s1: nat, s2: nat)
    requires LookupNotice(Unexpected(s1)) == LookupNotice(Unexpected(s2))
    ensures s1 == s2
  {
    var prefix := "Unexpected response (HTTP ";
    var t := LookupNotice(Unexpected(s1)).text;
    assert t == prefix + (Decimal(s1) + [')'] + ".");
    assert t == prefix + (Decimal(s2) + [')'] + ".");
    assert t[|prefix|..] == Decimal(s1) + [')'] + "." == Decimal(s2) + [')'] + ".";
    DecimalDelimited(s1, s2, ')', ".", ".");
  }

  /** `{"success": true, "data": {"parentId": "p1"}}` at status 200. */
  const FoundP1 := Response(200, Parsed(Obj(map["success" := Bool(true), "data" := Obj(map["parentId" := Str("p1")])])))

  /** `{"success": true}` at status 200. */
  const ClearedOk := Response(200, Parsed(Obj(map["success" := Bool(true)])))

  lemma FoundP1IsFound()
    ensures ClassifyLookup(FoundP1) == Found(Str("p1"))
  {
  }

  lemma ClearedOkIsCleared()
    ensures ClearNotice(ClearedOk) == ClearedNotice
  {
  }

  /** The lookup responses the page is built around: not-found is read from
      the number 404 in the body, and neither the string "404" nor an empty
      id counts. */
  lemma LookupExamples()
    ensures ClassifyLookup(Response(200, Parsed(Obj(map["statusCode" := Num(404)])))) == NotFound
    ensures ClassifyLookup(Response(404, Parsed(Obj(map["statusCode" := Str("404")]))))
      == Unexpected(404)
    ensures ClassifyLookup(Response(200, Parsed(Obj(map["success" := Bool(true),
      "data" := Obj(map["parentId" := Str("")])])))) == Unexpected(200)
  {
  }

  /** The unexpected-response text for status 502. */
  lemma UnexpectedTextExample()
    ensures LookupNotice(Unexpected(502)) == Notice(Error, "Unexpected response (HTTP " + "502" + ").")
  {
    assert Decimal(502) == Decimal(50) + "2" == Decimal(5) + "0" + "2" == "502";
  }

  // ---------------------------------------------------------------------
  // Clear

  /** `json?.message || 'Unknown'` as the template literal renders it, or
      `None` where rendering the message throws. */
  function FailureDetail(j: Json): Option<string>
  {
    var m := Member(Some(j), "message");
    if Truthy(m) then JsString(m.value) else Some("Unknown")
  }

  /** The notification after a clear response. Rendering the failure text
      happens inside the `try`, so a message whose conversion throws ends in
      the `catch` and its network-error notification. */
  function ClearNotice(res: Response): Notice
  {
    var json := BodyJson(res.body);
    if Ok(res.status) && Truthy(SuccessFlag(json)) then ClearedNotice
    else
      match FailureDetail(json)
      case Some(detail) => Notice(Error, "Clear failed (HTTP " + Decimal(res.status) + "). " + detail)
      case None => ClearNetworkNotice
  }

  /** A clear succeeds iff the transport status is ok and the body's
      `success` is truthy; otherwise the text names the status and the
      server's message, or "Unknown" when that is falsy, unless rendering
      the message throws. */
  lemma ClearOutcome(res: Response)
    ensures var j := BodyJson(res.body);
      && (ClearNotice(res).level == Success <==> Ok(res.status) && Truthy(SuccessFlag(j)))
      && (ClearNotice(res) == ClearedNotice <==> ClearNotice(res).level == Success)
      && (ClearNotice(res).level == Error && FailureDetail(j).Some? ==>
            ClearNotice(res).text == "Clear failed (HTTP " + Decimal(res.status) + "). " + FailureDetail(j).value)
      && (ClearNotice(res).level == Error && FailureDetail(j).None? ==> ClearNotice(res) == ClearNetworkNotice)
  {
  }

  /** A string message is shown verbatim, a positive number as its numeral,
      a falsy message or none as "Unknown"; rendering fails exactly for a
      message whose string conversion throws. */
  lemma FailureDetailCases(j: Json)
    ensures Member(Some(j), "message") == Some(Str("")) ==> FailureDetail(j) == Some("Unknown")
    ensures forall s :: s != "" && Member(Some(j), "message") == Some(Str(s)) ==> FailureDetail(j) == Some(s)
    ensures forall n :: n > 0 && Member(Some(j), "message") == Some(Num(n)) ==>
      FailureDetail(j).Some? && AllDigits(FailureDetail(j).value) && ParseDecimal(FailureDetail(j).value) == n
    ensures !j.Obj? || "message" !in j.fields ==> FailureDetail(j) == Some("Unknown")
    ensures FailureDetail(j).None? <==>
      Member(Some(j), "message").Some? && ToStringThrows(Member(Some(j), "message").value)
  {
    var m := Member(Some(j), "message");
    if m.Some? {
      JsStringThrowsExactly(m.value);
      if m.value.Num? {
        JsStringOfNumber(m.value.n);
      }
    }
  }

  /** A status outside 200-299 fails whatever the body says, and a body
      that does not parse fails whatever the status. */
  lemma ClearNeedsBoth(res: Response)
    ensures !Ok(res.status) ==> ClearNotice(res).level == Error
    ensures res.body.Unparseable? ==>
      ClearNotice(res).text == "Clear failed (HTTP " + Decimal(res.status) + "). Unknown"
  {
  }

  /** A failure notification other than the network error is the status
      text followed by the rendered message. */
  lemma ClearFailureText(r: Response)
    requires ClearNotice(r).level == Error && ClearNotice(r).text != ClearNetworkNotice.text
    ensures FailureDetail(BodyJson(r.body)).Some?
    ensures ClearNotice(r).text
      == "Clear failed (HTTP " + (Decimal(r.status) + [')'] + (". " + FailureDetail(BodyJson(r.body)).value))
  {
  }

  /** The clear-failure notification names the transport status
      unambiguously, whatever the messages. */
  lemma ClearFailureTextNamesStatus(r1: Response, r2: Response)
    requires ClearNotice(r1).level == Error && ClearNotice(r2).level == Error
    requires ClearNotice(r1).text == ClearNotice(r2).text != ClearNetworkNotice.text
    ensures r1.status == r2.status
    ensures FailureDetail(BodyJson(r1.body)) == FailureDetail(BodyJson(r2.body))
  {
    var prefix := "Clear failed (HTTP ";
    ClearFailureText(r1);
    ClearFailureText(r2);
    var d1, d2 := FailureDetail(BodyJson(r1.body)).value, FailureDetail(BodyJson(r2.body)).value;
    var t := ClearNotice(r1).text;
    assert t[|prefix|..] == Decimal(r1.status) + [')'] + (". " + d1)
      == Decimal(r2.status) + [')'] + (". " + d2);
    DecimalDelimited(r1.status, r2.status, ')', ". " + d1, ". " + d2);
    assert d1 == (". " + d1)[2..] == (". " + d2)[2..] == d2;
  }

  /** A server error fails even when the body claims success, and with no
      message the detail is "Unknown". */
  lemma ServerErrorClearExample()
    ensures ClearNotice(Response(500, Parsed(Obj(map["success" := Bool(true)]))))
      == Notice(Error, "Clear failed (HTTP " + "500" + "). " + "Unknown")
  {
    assert Decimal(500) == Decimal(50) + "0" == Decimal(5) + "0" + "0" == "500";
  }

  /** An ok status without `success` fails, and the server's message is
      appended as it is. */
  lemma MessageClearExample()
    ensures ClearNotice(Response(200, Parsed(Obj(map["message" := Str("No such parent")]))))
      == Notice(Error, "Clear failed (HTTP " + "200" + "). " + "No such parent")
  {
    assert Decimal(200) == Decimal(20) + "0" == Decimal(2) + "0" + "0" == "200";
  }

  /** A message that is an object with its own `toString` member makes the
      failure text throw, and the page reports a network error. */
  lemma ThrowingMessageClearExample()
    ensures ClearNotice(Response(500, Parsed(Obj(map["message" := Obj(map["toString" := Num(1)])]))))
      == ClearNetworkNotice
  {
  }
}
