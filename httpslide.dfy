/** httpslide.go: the fetch helper shared by the data-driven slides. Its
    ticker goroutine is left to the caller, which calls `Fetch` per tick; the
    request builder's, the transport's and the parser's outcomes are inputs. */
module HttpSlide {
  import opened GoInt
  import opened GoTime
  import opened Wrappers

  datatype Request = Request(verb: string, url: string)

  datatype Response = Response(StatusCode: int, Body: seq<uint8>)

  /** `HttpConfig`. `ParseCallback` is the slide's parser, reduced to its
      verdict on a body; whether `RequestUrlCallback` is set is a flag, and
      what it returns on a given call is an input of `Fetch`. */
  datatype HttpConfig = HttpConfig(
    SlideId: string,
    RefreshInterval: Duration,
    RequestUrl: string,
    HasRequestUrlCallback: bool,
    ParseCallback: seq<uint8> -> bool)

  /** What the outside world answers during one `Fetch`: the URL callback's
      result, whether `http.NewRequest` accepts `RequestUrl`, and the
      transport's outcome. */
  datatype FetchInputs = FetchInputs(
    callback: Result<Request>,
    urlParses: bool,
    transport: Result<Response>)

  /** `BuildRequest`: the callback's result when one is configured, else a GET
      of the configured URL. */
  function BuildRequest(config: HttpConfig, inputs: FetchInputs): (r: Result<Request>)
    ensures config.HasRequestUrlCallback ==> r == inputs.callback
    ensures !config.HasRequestUrlCallback ==>
              (r.Ok? <==> inputs.urlParses) && (r.Ok? ==> r.value == Request("GET", config.RequestUrl))
  {
    if config.HasRequestUrlCallback then inputs.callback
    else if inputs.urlParses then Ok(Request("GET", config.RequestUrl))
    else Err("invalid request URL")
  }

  /** The body handed to the parser, if any: only a built request, a
      delivered response and a status of exactly 200 get that far. */
  function BodyToParse(config: HttpConfig, inputs: FetchInputs): (b: Option<seq<uint8>>)
    ensures b.Some? <==>
              BuildRequest(config, inputs).Ok? && inputs.transport.Ok? && inputs.transport.value.StatusCode == 200
    ensures b.Some? ==> b.value == inputs.transport.value.Body
  {
    if BuildRequest(config, inputs).Err? then None
    else if inputs.transport.Err? then None
    else if inputs.transport.value.StatusCode != 200 then None
    else Some(inputs.transport.value.Body)
  }

  /** The `LastFetchSuccess` a fetch leaves: false on every failure, else the
      parser's verdict. */
  function FetchVerdict(config: HttpConfig, inputs: FetchInputs): (ok: bool)
    ensures ok <==> BodyToParse(config, inputs).Some? && config.ParseCallback(BodyToParse(config, inputs).value)
  {
    match BodyToParse(config, inputs)
    case None => false
    case Some(body) => config.ParseCallback(body)
  }

  class HttpHelper {
    const Config: HttpConfig
    var LastFetchSuccess: bool
    /** `RefreshTicker != nil`. */
    var TickerActive: bool
    /** Bodies handed to `ParseCallback`, and fetches made, so far. */
    ghost var Parsed: seq<seq<uint8>>
    ghost var Fetches: nat

    /** `NewHttpHelper`. */
    constructor (config: HttpConfig)
      ensures Config == config && !LastFetchSuccess && !TickerActive && Parsed == [] && Fetches == 0
    {
      Config := config;
      LastFetchSuccess := false;
      TickerActive := false;
      Parsed := [];
      Fetches := 0;
    }

    /** `Fetch`: failures short-circuit before the parser; it leaves the
        configuration (a constant here) and the loop state alone. */
    method Fetch(inputs: FetchInputs)
      modifies this`LastFetchSuccess, this`Parsed, this`Fetches
      ensures LastFetchSuccess == FetchVerdict(Config, inputs)
      ensures Parsed == old(Parsed) + match BodyToParse(Config, inputs) case Some(b) => [b] case None => []
      ensures Fetches == old(Fetches) + 1
    {
      var body := Request(inputs);
      if body.Some? {
        Deliver(body.value, Config.ParseCallback(body.value));
      }
    }

    /** The part of `Fetch` before the parser: builds the request, sends it
        and checks the status. A failure records an unsuccessful fetch; the
        body that reaches the parser is returned. */
    method Request(inputs: FetchInputs) returns (body: Option<seq<uint8>>)
      modifies this`LastFetchSuccess, this`Fetches
      ensures body == BodyToParse(Config, inputs)
      ensures body.None? ==> !LastFetchSuccess
      ensures body.Some? ==> LastFetchSuccess == old(LastFetchSuccess)
      ensures Fetches == old(Fetches) + 1
    {
      Fetches := Fetches + 1;
      var req := BuildRequest(Config, inputs);
      if req.Err? {
        LastFetchSuccess := false;
        return None;
      }
      if inputs.transport.Err? {
        LastFetchSuccess := false;
        return None;
      }
      var res := inputs.transport.value;
      if res.StatusCode != 200 {
        LastFetchSuccess := false;
        return None;
      }
      return Some(res.Body);
    }

    /** The rest of `Fetch`: the parser's verdict `ok` on `body` becomes
        `LastFetchSuccess`. */
    method Deliver(body: seq<uint8>, ok: bool)
      modifies this`LastFetchSuccess, this`Parsed
      ensures LastFetchSuccess == ok && Parsed == old(Parsed) + [body]
    {
      Parsed := Parsed + [body];
      LastFetchSuccess := ok;
    }

    /** `StartLoop`: a no-op when already started; otherwise it starts the
        loop and fetches once, synchronously. */
    method StartLoop(inputs: FetchInputs) returns (started: bool)
      modifies this`LastFetchSuccess, this`Parsed, this`Fetches, this`TickerActive
      ensures started <==> !old(TickerActive)
      ensures TickerActive
      ensures !started ==> LastFetchSuccess == old(LastFetchSuccess) && Parsed == old(Parsed) && Fetches == old(Fetches)
      ensures started ==> LastFetchSuccess == FetchVerdict(Config, inputs) && Fetches == old(Fetches) + 1 &&
                          Parsed == old(Parsed) + match BodyToParse(Config, inputs) case Some(b) => [b] case None => []
    {
      started := StartTicker();
      if started {
        Fetch(inputs);
      }
    }

    /** The part of `StartLoop` before its first fetch: a no-op when a ticker
        already runs, otherwise it sets one. */
    method StartTicker() returns (started: bool)
      modifies this`TickerActive
      ensures started <==> !old(TickerActive)
      ensures TickerActive
    {
      if TickerActive {
        return false;
      }
      TickerActive := true;
      return true;
    }

    /** `StopLoop`: a no-op when not started; otherwise it clears the ticker,
        so a later `StartLoop` starts again. */
    method StopLoop() returns (stopped: bool)
      modifies this`TickerActive
      ensures stopped <==> old(TickerActive)
      ensures !TickerActive
    {
      if !TickerActive {
        return false;
      }
      TickerActive := false;
      return true;
    }
  }
}
