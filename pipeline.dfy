/** One run of the command (`main`): resolve the key, discover the allowed
    currencies, validate both codes and the date, fetch the rate, and save
    it, stopping at the first step that fails. The service is a function
    from request to response; the run reports the requests it sent, in
    order, and how it ended. */
module Pipeline {

  import opened Options
  import opened Json
  import opened Text
  import opened Calendar
  import opened Failures
  import opened Credentials
  import opened Validators
  import opened ExchangeService
  import opened Artifact

  /** The command-line arguments: `--from`, `--to`, `--date` (as matched by
      the date pattern), the optional `--api-key`, and the base URL. */
  datatype Args = Args(from: string, to: string, date: DateText, apiKey: Option<string>, baseUrl: string)

  /** Either the artifact written (its file name and the record saved in it),
      or the one error reported on standard error and in the error log. */
  datatype Outcome = Saved(file: string, record: map<string, Json>) | Failed(error: Error)

  datatype Report = Report(sent: seq<Request>, outcome: Outcome)

  /** The checks of lines 117-119 in their order: the source code, the
      target code, the date text, the date window. */
  function Checked(args: Args, allowed: set<Json>): (r: Result<(string, string, Date)>)
    ensures r.Success? <==>
              && ValidateCurrency(Some(args.from), allowed).Success?
              && ValidateCurrency(Some(args.to), allowed).Success?
              && ParseDate(args.date).Success?
              && CheckRange(ParseDate(args.date).value).Success?
    ensures r.Success? ==> r.value == (Upper(args.from), Upper(args.to), ParseDate(args.date).value)
    ensures r.Success? ==> IsCurrencyCode(r.value.0) && IsCurrencyCode(r.value.1) && IsValid(r.value.2)
    ensures r.Success? ==> !Before(r.value.2, WINDOW_START) && !Before(WINDOW_END, r.value.2)
    ensures ValidateCurrency(Some(args.from), allowed).Failure?
            ==> r == Failure(ValidateCurrency(Some(args.from), allowed).error)
    ensures ValidateCurrency(Some(args.from), allowed).Success? && ValidateCurrency(Some(args.to), allowed).Failure?
            ==> r == Failure(ValidateCurrency(Some(args.to), allowed).error)
    ensures ValidateCurrency(Some(args.from), allowed).Success? && ValidateCurrency(Some(args.to), allowed).Success?
            && ParseDate(args.date).Failure?
            ==> r == Failure(InvalidDate)
    ensures ValidateCurrency(Some(args.from), allowed).Success? && ValidateCurrency(Some(args.to), allowed).Success?
            && ParseDate(args.date).Success? && CheckRange(ParseDate(args.date).value).Failure?
            ==> r == Failure(DateOutOfRange(ParseDate(args.date).value))
  {
    match ValidateCurrency(Some(args.from), allowed)
    case Failure(e) => Failure(e)
    case Success(from) =>
      match ValidateCurrency(Some(args.to), allowed)
      case Failure(e) => Failure(e)
      case Success(to) =>
        match ParseDate(args.date)
        case Failure(e) => Failure(e)
        case Success(d) =>
          match CheckRange(d)
          case Failure(e) => Failure(e)
          case Success(d) => Success((from, to, d))
  }

  /** The allowed set a run validates against, once the key is known. */
  function AllowedFor(args: Args, key: string, service: Request -> Response): set<Json>
  {
    FetchCurrencies(service(DiscoveryRequest(args.baseUrl, key)))
  }

  /** `main`. No request is sent without a key; the rate request is sent only
      when every check has passed, and carries the validated codes and the
      date; an artifact is written only when the rate lookup succeeded, and
      then it holds exactly the `data` object the service returned. */
  function Execute(args: Args, env: map<string, string>, service: Request -> Response): (r: Report)
    ensures LoadApiKey(args.apiKey, env).Failure? ==> r == Report([], Failed(MissingApiKey))
    ensures LoadApiKey(args.apiKey, env).Success? ==>
              var key := LoadApiKey(args.apiKey, env).value;
              var checked := Checked(args, AllowedFor(args, key, service));
              && 1 <= |r.sent| <= 2
              && r.sent[0] == DiscoveryRequest(args.baseUrl, key)
              && (|r.sent| == 2 <==> checked.Success?)
              && (checked.Failure? ==> r.outcome == Failed(checked.error))
              && (checked.Success? ==>
                    var (from, to, d) := checked.value;
                    && r.sent[1] == RateRequest(args.baseUrl, key, from, to, d)
                    && (r.outcome.Saved? <==> FetchRate(service(r.sent[1])).Success?)
                    && (r.outcome.Saved? ==> r.outcome == Saved(ArtifactName(from, to, d),
                                                               FetchRate(service(r.sent[1])).value))
                    && (r.outcome.Failed? ==> r.outcome.error == FetchRate(service(r.sent[1])).error))
  {
    match LoadApiKey(args.apiKey, env)
    case Failure(e) => Report([], Failed(e))
    case Success(key) =>
      var discovery := DiscoveryRequest(args.baseUrl, key);
      match Checked(args, FetchCurrencies(service(discovery)))
      case Failure(e) => Report([discovery], Failed(e))
      case Success((from, to, d)) =>
        var rate := RateRequest(args.baseUrl, key, from, to, d);
        match FetchRate(service(rate))
        case Failure(e) => Report([discovery, rate], Failed(e))
        case Success(data) => Report([discovery, rate], Saved(ArtifactName(from, to, d), data))
  }

  /** Whatever the service answers, an artifact's name is the canonical
      `FROM_to_TO_YYYY-MM-DD.json` of a validated pair and a date inside the
      window. */
  lemma SavedNameIsCanonical(args: Args, env: map<string, string>, service: Request -> Response)
    requires Execute(args, env, service).outcome.Saved?
    ensures var p := ParseArtifactName(Execute(args, env, service).outcome.file);
            && p.Some?
            && p.value == (Upper(args.from), Upper(args.to), ParseDate(args.date).value)
            && CheckRange(p.value.2).Success?
  {
    var key := LoadApiKey(args.apiKey, env).value;
    var checked := Checked(args, AllowedFor(args, key, service));
    var (from, to, d) := checked.value;
    ArtifactNameRoundTrip(from, to, d);
  }

  /** A malformed currency code is reported as such whatever the service
      does, and the rate lookup is never reached: format checks do not
      depend on discovery. */
  lemma MalformedCodeNeverFetches(args: Args, env: map<string, string>, service: Request -> Response)
    requires LoadApiKey(args.apiKey, env).Success?
    requires !IsCurrencyCode(Upper(args.from))
    ensures Execute(args, env, service).sent == [DiscoveryRequest(args.baseUrl, LoadApiKey(args.apiKey, env).value)]
    ensures Execute(args, env, service).outcome == Failed(InvalidCurrencyFormat(Upper(args.from)))
  {
  }

  /** `--from US1`: fails on the code's format, sending no rate request. */
  lemma ScenarioMalformedFrom(to: string, date: DateText, apiKey: Option<string>, url: string,
                              env: map<string, string>, service: Request -> Response)
    requires LoadApiKey(apiKey, env).Success?
    ensures var r := Execute(Args("US1", to, date, apiKey, url), env, service);
            |r.sent| == 1 && r.outcome == Failed(InvalidCurrencyFormat("US1"))
  {
    ValidateMalformed();
  }

  /** A valid pair with `--date 2025-10-01`: fails on the date window and
      writes nothing. */
  lemma ScenarioDateOutsideWindow(from: string, to: string, apiKey: Option<string>, url: string,
                                  env: map<string, string>, service: Request -> Response)
    requires LoadApiKey(apiKey, env).Success?
    requires var key := LoadApiKey(apiKey, env).value;
             var allowed := FetchCurrencies(service(DiscoveryRequest(url, key)));
             ValidateCurrency(Some(from), allowed).Success? && ValidateCurrency(Some(to), allowed).Success?
    ensures var r := Execute(Args(from, to, Fields(2025, 10, 1), apiKey, url), env, service);
            |r.sent| == 1 && r.outcome == Failed(DateOutOfRange(Date(2025, 10, 1)))
  {
    var key := LoadApiKey(apiKey, env).value;
    var args := Args(from, to, Fields(2025, 10, 1), apiKey, url);
    var d := Date(2025, 10, 1);
    assert ParseDate(args.date) == Success(d);
    assert CheckRange(d) == Failure(DateOutOfRange(d));
    assert Checked(args, AllowedFor(args, key, service)) == Failure(DateOutOfRange(d));
  }

  /** The end-to-end run: discovery answers `{"data": ["USD","EUR","MDL"]}`,
      the rate lookup answers `{"data": {"rate": 19.85}}`; `--from usd --to eur
      --date 2025-03-10` saves `{"rate": 19.85}` as
      `USD_to_EUR_2025-03-10.json`. */
  lemma ScenarioUsdToEur(apiKey: Option<string>, url: string, env: map<string, string>,
                         service: Request -> Response)
    requires LoadApiKey(apiKey, env).Success?
    requires var key := LoadApiKey(apiKey, env).value;
             && service(DiscoveryRequest(url, key))
                == Reply(200, JsonBody(JObject(map["data" := JArray([JStr("USD"), JStr("EUR"), JStr("MDL")])])))
             && service(RateRequest(url, key, "USD", "EUR", Date(2025, 3, 10)))
                == Reply(200, JsonBody(JObject(map["data" := JObject(map["rate" := JNum(19.85)])])))
    ensures Execute(Args("usd", "eur", Fields(2025, 3, 10), apiKey, url), env, service)
            == Report([DiscoveryRequest(url, LoadApiKey(apiKey, env).value),
                       RateRequest(url, LoadApiKey(apiKey, env).value, "USD", "EUR", Date(2025, 3, 10))],
                      Saved("USD_to_EUR_2025-03-10.json", map["rate" := JNum(19.85)]))
  {
    var key := LoadApiKey(apiKey, env).value;
    var args := Args("usd", "eur", Fields(2025, 3, 10), apiKey, url);
    var d := Date(2025, 3, 10);
    DiscoveryExample(url, key, service);
    ChecksExample(args);
    ArtifactNameExample();
    var rate := RateRequest(url, key, "USD", "EUR", d);
    assert FetchRate(service(rate)) == Success(map["rate" := JNum(19.85)]);
  }

  lemma ChecksExample(args: Args)
    requires args.from == "usd" && args.to == "eur" && args.date == Fields(2025, 3, 10)
    ensures Checked(args, {JStr("USD"), JStr("EUR"), JStr("MDL")}) == Success(("USD", "EUR", Date(2025, 3, 10)))
  {
    UpperExamples();
    ValidateAccepts("usd", {JStr("USD"), JStr("EUR"), JStr("MDL")});
    ValidateAccepts("eur", {JStr("USD"), JStr("EUR"), JStr("MDL")});
  }

  lemma DiscoveryExample(url: string, key: string, service: Request -> Response)
    requires service(DiscoveryRequest(url, key))
             == Reply(200, JsonBody(JObject(map["data" := JArray([JStr("USD"), JStr("EUR"), JStr("MDL")])])))
    ensures FetchCurrencies(service(DiscoveryRequest(url, key))) == {JStr("USD"), JStr("EUR"), JStr("MDL")}
  {
    var resp := service(DiscoveryRequest(url, key));
    var items := [JStr("USD"), JStr("EUR"), JStr("MDL")];
    assert Get(resp.body.payload.fields, "error") == JNull;
    assert Delivered(resp) && Data(resp) == JArray(items);
    var allowed := FetchCurrencies(resp);
    assert forall x :: x in allowed <==> x in items;
    assert forall x :: x in items <==> x in {JStr("USD"), JStr("EUR"), JStr("MDL")};
  }

  lemma UpperExamples()
    ensures Upper("usd") == "USD" && Upper("eur") == "EUR"
  {
    ValidateLowerCase();
    assert "eur" == ['e'] + "ur" && "ur" == ['u'] + "r";
    assert Upper("r") == "R";
  }
}
