/** The two calls to the exchange-rate service (`fetch_currencies` and
    `fetch_rate`): the requests they send and the decisions they take on
    what comes back. The HTTP exchange itself is a value of type `Response`. */
module ExchangeService {

  import opened Options
  import opened Json
  import opened Calendar
  import opened Failures

  /** A `requests.post` call: URL, query parameters and form fields. */
  datatype Request = Request(url: string, query: map<string, string>, form: map<string, string>)

  /** What `requests.post` produced: an exception before any response
      (connection failure, timeout), or a status with a body that is or is
      not JSON. */
  datatype Response = NoResponse | Reply(status: int, body: Body)
  datatype Body = NotJson | JsonBody(payload: Json)

  /** `raise_for_status()` raises for client and server errors. */
  predicate IsHttpError(status: int)
  {
    400 <= status < 600
  }

  /** The response got past `raise_for_status`, decoded to a JSON object, and
      that object carries no truthy `error` field. */
  predicate Delivered(resp: Response)
  {
    && resp.Reply?
    && !IsHttpError(resp.status)
    && resp.body.JsonBody?
    && resp.body.payload.JObject?
    && !Truthy(Get(resp.body.payload.fields, "error"))
  }

  /** The `data` field of a delivered response (`None` when absent). */
  function Data(resp: Response): Json
    requires Delivered(resp)
  {
    Get(resp.body.payload.fields, "data")
  }

  // ---------------------------------------------------------------------
  // Currency discovery
  // ---------------------------------------------------------------------

  /** The codes used when discovery fails. */
  function Fallback(): (s: set<Json>)
    ensures |s| == 6
  {
    var s := {JStr("MDL"), JStr("USD"), JStr("EUR"), JStr("RON"), JStr("RUS"), JStr("UAH")};
    assert JStr("MDL") != JStr("USD");
    s
  }

  /** The discovery request: an empty `currencies` query parameter and the
      key as a form field. */
  function DiscoveryRequest(url: string, key: string): (q: Request)
    ensures q.url == url
    ensures q.query.Keys == {"currencies"} && q.query["currencies"] == ""
    ensures q.form.Keys == {"key"} && q.form["key"] == key
  {
    Request(url, map["currencies" := ""], map["key" := key])
  }

  /** `fetch_currencies`: every failure is swallowed. A request that raises, a
      4xx/5xx status, a body that is not JSON or not an object, a truthy
      `error` field, and a `data` value that `set()` rejects all give the
      fallback set; otherwise the result is `set(data or [])`. */
  function FetchCurrencies(resp: Response): (allowed: set<Json>)
    ensures !Delivered(resp) ==> allowed == Fallback()
    ensures Delivered(resp) && !Truthy(Data(resp)) ==> allowed == {}
    ensures Delivered(resp) && Data(resp).JArray?
            && (forall i :: 0 <= i < |Data(resp).items| ==> Hashable(Data(resp).items[i]))
            ==> forall x :: x in allowed <==> x in Data(resp).items
    ensures Delivered(resp) && Data(resp).JArray?
            && (exists i :: 0 <= i < |Data(resp).items| && !Hashable(Data(resp).items[i]))
            ==> allowed == Fallback()
    ensures Delivered(resp) && Data(resp).JObject?
            ==> forall x :: x in allowed <==> x.JStr? && x.s in Data(resp).fields
    ensures Delivered(resp) && Truthy(Data(resp)) && Data(resp).JStr? ==> allowed == CharSet(Data(resp).s)
    ensures Delivered(resp) && Truthy(Data(resp)) && (Data(resp).JNum? || Data(resp).JBool?)
            ==> allowed == Fallback()
  {
    if !Delivered(resp) then Fallback()
    else
      var data := Data(resp);
      if !Truthy(data) then {}
      else match PySet(data)
        case Some(s) => s
        case None => Fallback()
  }

  /** A discovery reply listing currency codes yields exactly those codes. */
  lemma DiscoveryListsCodes(codes: seq<string>, status: int)
    requires !IsHttpError(status)
    ensures FetchCurrencies(Reply(status, JsonBody(JObject(map["data" := JArray(Wrap(codes))]))))
            == set c | c in codes :: JStr(c)
  {
    var items := Wrap(codes);
    var resp := Reply(status, JsonBody(JObject(map["data" := JArray(items)])));
    var expected := set c | c in codes :: JStr(c);
    assert Get(resp.body.payload.fields, "error") == JNull;
    assert Delivered(resp) && Data(resp) == JArray(items);
    if codes == [] {
      assert expected == {};
    } else {
      assert Truthy(Data(resp));
      assert PySet(JArray(items)) == Some(set x | x in items);
      assert (set x | x in items) == expected;
    }
  }

  /** Each string as a JSON string. */
  function Wrap(codes: seq<string>): (items: seq<Json>)
    ensures |items| == |codes|
    ensures forall i :: 0 <= i < |items| ==> items[i] == JStr(codes[i])
    ensures forall x :: x in items <==> x.JStr? && x.s in codes
  {
    if codes == [] then [] else [JStr(codes[0])] + Wrap(codes[1..])
  }

  // ---------------------------------------------------------------------
  // Rate lookup
  // ---------------------------------------------------------------------

  /** The rate request: `from`, `to` and the ISO text of the date as query
      parameters, the key as a form field. */
  function RateRequest(url: string, key: string, from: string, to: string, d: Date): (q: Request)
    requires IsValid(d)
    ensures q.url == url && q.form == map["key" := key]
    ensures q.query.Keys == {"from", "to", "date"}
    ensures q.query["from"] == from && q.query["to"] == to
    ensures ParseIso(q.query["date"]) == Some(d)
  {
    IsoRoundTrip(d);
    Request(url, map["from" := from, "to" := to, "date" := IsoFormat(d)], map["key" := key])
  }

  /** `fetch_rate`: failures propagate. A request that raises, a 4xx/5xx
      status, a body that is not JSON or not an object each fail; a truthy
      `error` field fails carrying that field; a `data` value that is not an
      object fails as malformed; otherwise `data` is returned unchanged. */
  function FetchRate(resp: Response): (r: Result<map<string, Json>>)
    ensures r.Success? <==> Delivered(resp) && Data(resp).JObject?
    ensures r.Success? ==> r.value == Data(resp).fields
    ensures resp.NoResponse? ==> r == Failure(RequestFailed)
    ensures resp.Reply? && IsHttpError(resp.status) ==> r == Failure(BadStatus(resp.status))
    ensures resp.Reply? && !IsHttpError(resp.status) && resp.body.NotJson? ==> r == Failure(UndecodableBody)
    ensures resp.Reply? && !IsHttpError(resp.status) && resp.body.JsonBody? && !resp.body.payload.JObject?
            ==> r == Failure(PayloadNotObject)
    ensures resp.Reply? && resp.body.JsonBody? && resp.body.payload.JObject?
            && !IsHttpError(resp.status) && Truthy(Get(resp.body.payload.fields, "error"))
            ==> r == Failure(ApiError(resp.body.payload.fields["error"]))
    ensures Delivered(resp) && !Data(resp).JObject? ==> r == Failure(MissingData)
  {
    match resp
    case NoResponse => Failure(RequestFailed)
    case Reply(status, body) =>
      if IsHttpError(status) then Failure(BadStatus(status))
      else match body
        case NotJson => Failure(UndecodableBody)
        case JsonBody(payload) =>
          if !payload.JObject? then Failure(PayloadNotObject)
          else if Truthy(Get(payload.fields, "error")) then Failure(ApiError(payload.fields["error"]))
          else match Get(payload.fields, "data")
            case JObject(fields) => Success(fields)
            case _ => Failure(MissingData)
  }

  /** The two calls treat the same response differently: every failure the
      rate lookup reports, other than a `data` value that is not an object,
      is one that discovery absorbs into the fallback set. */
  lemma DiscoveryAbsorbsRateFailures(resp: Response)
    ensures FetchRate(resp).Failure? && FetchRate(resp).error != MissingData
            <==> !Delivered(resp)
    ensures FetchRate(resp).Failure? && FetchRate(resp).error != MissingData
            ==> FetchCurrencies(resp) == Fallback()
  {
  }
}
