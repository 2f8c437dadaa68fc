/**
 * One HTTP endpoint: a FIFO of API jobs, request building from the configured URL, header and
 * payload templates, and the shared retry rule. The HTTP client is an oracle that answers with
 * a status code or a network error.
 */
module Api {
  import opened Wrappers
  import opened Strings
  import opened Messages
  import opened Retry

  const DefaultMethod := "POST"
  const DefaultTimeout := 10
  const UserAgentKey := "User-Agent"
  const UserAgentPrefix := "SMS-Gateway/"

  /** A JSON value of a header or payload template. */
  datatype Value = Str(s: string) | Num(n: int) | Flag(b: bool) | Null

  /** One entry of the `api_providers` section; a field is None when its key is absent. */
  datatype ApiConfig = ApiConfig(
    name: Option<string>,
    httpMethod: Option<string>,
    endpoint: Option<string>,
    headers: Option<map<string, Value>>,
    payload: Option<map<string, Value>>,
    timeout: Option<int>)

  /** A queued API job: `{sender, timestamp, text, retry_count}`. */
  datatype ApiJob = ApiJob(sender: string, timestamp: string, text: string, retryCount: nat)

  /** The values substituted for `{sender}`, `{timestamp}` and `{message}`. */
  datatype Fields = Fields(sender: string, timestamp: string, message: string)

  datatype Request = Request(
    httpMethod: string,
    url: string,
    headers: map<string, Value>,
    json: Option<map<string, Value>>,
    params: Option<map<string, Value>>,
    timeout: int)

  /** The HTTP client's answer: a network-level error, or a response with a status code. */
  datatype Response = NetworkError | Status(code: int)

  /** How one call of `send_api_request` ended. */
  datatype Attempt = Accepted | Failed | Unsupported

  predicate StartsWith(s: string, prefix: string) {
    |prefix| <= |s| && s[..|prefix|] == prefix
  }

  /** `str.format` restricted to the three named placeholders. */
  function Format(t: string, f: Fields): string
    decreases |t|
  {
    if t == [] then []
    else if StartsWith(t, "{sender}") then f.sender + Format(t[8..], f)
    else if StartsWith(t, "{timestamp}") then f.timestamp + Format(t[11..], f)
    else if StartsWith(t, "{message}") then f.message + Format(t[9..], f)
    else [t[0]] + Format(t[1..], f)
  }

  /** Literal text without a brace is copied unchanged in front of the rest's rendering. */
  lemma {:induction false} FormatLiteralPrefix(lit: string, t: string, f: Fields)
    requires '{' !in lit
    ensures Format(lit + t, f) == lit + Format(t, f)
    decreases |lit|
  {
    if lit == [] {
      assert lit + t == t;
    } else {
      var c, more := lit[0], lit[1..];
      assert lit == [c] + more;
      assert c != '{' && '{' !in more;
      assert lit + t == [c] + (more + t);
      FormatLiteralChar(c, more + t, f);
      FormatLiteralPrefix(more, t, f);
      assert [c] + (more + Format(t, f)) == lit + Format(t, f);
    }
  }

  /** A character other than a brace is copied as it is. */
  lemma FormatLiteralChar(c: char, t: string, f: Fields)
    requires c != '{'
    ensures Format([c] + t, f) == [c] + Format(t, f)
  {
    var s := [c] + t;
    assert s[0] == c && s[1..] == t;
    assert !StartsWith(s, "{sender}") && !StartsWith(s, "{timestamp}") && !StartsWith(s, "{message}");
  }

  /** A template without a brace is its own rendering. */
  lemma FormatLiteral(t: string, f: Fields)
    requires '{' !in t
    ensures Format(t, f) == t
  {
    FormatLiteralPrefix(t, [], f);
    assert t + [] == t;
  }

  /** Each of the three placeholders renders as its field's value. */
  lemma FormatPlaceholders(rest: string, f: Fields)
    ensures Format("{sender}" + rest, f) == f.sender + Format(rest, f)
    ensures Format("{timestamp}" + rest, f) == f.timestamp + Format(rest, f)
    ensures Format("{message}" + rest, f) == f.message + Format(rest, f)
  {
    var s := "{sender}" + rest;
    assert StartsWith(s, "{sender}") && s[8..] == rest;
    var t := "{timestamp}" + rest;
    assert !StartsWith(t, "{sender}") by { assert t[1] == 't'; }
    assert StartsWith(t, "{timestamp}") && t[11..] == rest;
    var m := "{message}" + rest;
    assert !StartsWith(m, "{sender}") && !StartsWith(m, "{timestamp}") by { assert m[1] == 'm'; }
    assert StartsWith(m, "{message}") && m[9..] == rest;
  }

  /** A string value gets the placeholders substituted; any other value is kept. */
  function Substitute(v: Value, f: Fields): Value {
    match v
    case Str(s) => Str(Format(s, f))
    case _ => v
  }

  /** The payload: the template with every string value rendered, keys unchanged. */
  function BuildPayload(template: map<string, Value>, f: Fields): (p: map<string, Value>)
    ensures p.Keys == template.Keys
    ensures forall k :: k in template && !template[k].Str? ==> p[k] == template[k]
    ensures forall k :: k in template && template[k].Str? ==> p[k] == Str(Format(template[k].s, f))
  {
    map k | k in template :: Substitute(template[k], f)
  }

  /** The headers: the rendered template, plus a User-Agent when the template has none. */
  function BuildHeaders(template: map<string, Value>, f: Fields, name: string): (h: map<string, Value>)
    ensures h.Keys == template.Keys + {UserAgentKey}
    ensures forall k :: k in template ==> h[k] == Substitute(template[k], f)
    ensures UserAgentKey !in template ==> h[UserAgentKey] == Str(UserAgentPrefix + name)
  {
    var h := BuildPayload(template, f);
    if UserAgentKey in h then h else h[UserAgentKey := Str(UserAgentPrefix + name)]
  }

  /** `raise_for_status` raises for client and server errors only. */
  predicate IsHttpError(code: int) {
    400 <= code < 600
  }

  class ApiHandler {
    const name: string
    const httpMethod: string
    const endpoint: string
    const headersTemplate: map<string, Value>
    const payloadTemplate: map<string, Value>
    const timeout: int
    const maxRetries: int
    const initialDelay: int
    var queue: seq<ApiJob>
    /** False once an exception the worker does not catch has ended its thread. */
    var alive: bool

    ghost predicate Valid()
      reads this
    {
      forall i :: 0 <= i < |queue| ==> WithinBudget(queue[i].retryCount, maxRetries)
    }

    constructor (config: ApiConfig, retry: RetrySettings)
      requires config.name.Some? && config.endpoint.Some?
      ensures name == config.name.value && endpoint == config.endpoint.value
      ensures httpMethod == Upper(config.httpMethod.GetOr(DefaultMethod))
      ensures headersTemplate == config.headers.GetOr(map[])
      ensures payloadTemplate == config.payload.GetOr(map[])
      ensures timeout == config.timeout.GetOr(DefaultTimeout)
      ensures maxRetries == retry.maxRetries.GetOr(DefaultMaxRetries)
      ensures initialDelay == retry.initialDelay.GetOr(DefaultInitialDelay)
      ensures queue == [] && alive && Valid()
    {
      name := config.name.value;
      httpMethod := Upper(config.httpMethod.GetOr(DefaultMethod));
      endpoint := config.endpoint.value;
      headersTemplate := config.headers.GetOr(map[]);
      payloadTemplate := config.payload.GetOr(map[]);
      timeout := config.timeout.GetOr(DefaultTimeout);
      maxRetries := retry.maxRetries.GetOr(DefaultMaxRetries);
      initialDelay := retry.initialDelay.GetOr(DefaultInitialDelay);
      queue := [];
      alive := true;
    }

    /**
     * The request `send_api_request` makes for a job: POST and PUT send the payload as JSON,
     * GET sends it as query parameters when it is not empty; any other method is refused.
     */
    function BuildRequest(job: ApiJob): (r: Result<Request, string>)
      ensures r.Failure? <==> httpMethod !in {"POST", "GET", "PUT"}
      ensures r.Success? ==>
        var f := Fields(job.sender, job.timestamp, job.text);
        && r.value.httpMethod == httpMethod && r.value.timeout == timeout
        && r.value.url == Format(endpoint, f)
        && r.value.headers == BuildHeaders(headersTemplate, f, name)
        && (httpMethod == "GET" ==> r.value.json.None? && r.value.params == if |payloadTemplate| > 0 then Some(BuildPayload(payloadTemplate, f)) else None)
        && (httpMethod != "GET" ==> r.value.json == Some(BuildPayload(payloadTemplate, f)) && r.value.params.None?)
    {
      var f := Fields(job.sender, job.timestamp, job.text);
      var url := Format(endpoint, f);
      var headers := BuildHeaders(headersTemplate, f, name);
      var payload := BuildPayload(payloadTemplate, f);
      if httpMethod == "POST" || httpMethod == "PUT" then
        Success(Request(httpMethod, url, headers, Some(payload), None, timeout))
      else if httpMethod == "GET" then
        Success(Request(httpMethod, url, headers, None, if |payload| > 0 then Some(payload) else None, timeout))
      else
        Failure("Unsupported method: " + httpMethod)
    }

    /**
     * One delivery attempt: the request is accepted unless the client reports a network error
     * or an HTTP error status; an unsupported method raises ValueError instead.
     */
    function SendApiRequest(job: ApiJob, response: Response): (r: Attempt)
      ensures r == Unsupported <==> httpMethod !in {"POST", "GET", "PUT"}
      ensures r == Accepted <==> httpMethod in {"POST", "GET", "PUT"} && response.Status? && !IsHttpError(response.code)
    {
      match BuildRequest(job)
      case Failure(_) => Unsupported
      case Success(_) =>
        if response.NetworkError? || IsHttpError(response.code) then Failed else Accepted
    }

    /** Queues a new API job with retry count 0 at the tail. */
    method SendApi(sender: string, timestamp: string, text: string)
      requires Valid()
      modifies this
      ensures Valid()
      ensures queue == old(queue) + [ApiJob(sender, timestamp, text, 0)]
      ensures alive == old(alive)
    {
      queue := queue + [ApiJob(sender, timestamp, text, 0)];
    }

    /** `retry_message`, the same rule as the other handlers. */
    method RetryMessage(job: ApiJob) returns (delay: Option<int>)
      requires Valid()
      modifies this
      ensures Valid()
      ensures delay == RetryDelay(maxRetries, initialDelay, job.retryCount)
      ensures queue == if delay.Some? then old(queue) + [job.(retryCount := job.retryCount + 1)]
                       else old(queue)
      ensures alive == old(alive)
    {
      delay := RetryDelay(maxRetries, initialDelay, job.retryCount);
      if delay.Some? {
        queue := queue + [job.(retryCount := job.retryCount + 1)];
      }
    }

    /**
     * One iteration of the API worker. A ValueError for an unsupported method is not caught
     * by the worker: the thread ends, the job it took is lost and nothing is consumed later.
     */
    method ProcessApiQueue(response: Response) returns (step: Step<ApiJob>)
      requires Valid()
      modifies this
      ensures Valid()
      ensures (!old(alive) || old(queue) == []) ==> step == Idle && queue == old(queue) && alive == old(alive)
      ensures old(alive) && old(queue) != [] ==>
        var job, rest := old(queue)[0], old(queue)[1..];
        match SendApiRequest(job, response)
        case Accepted => step == Sent(job) && queue == rest && alive
        case Unsupported => step == Lost(job) && queue == rest && !alive
        case Failed =>
          alive &&
          match RetryDelay(maxRetries, initialDelay, job.retryCount)
          case Some(d) => step == Retried(job, d) && queue == rest + [job.(retryCount := job.retryCount + 1)]
          case None => step == Dropped(job) && queue == rest
    {
      if !alive || queue == [] {
        return Idle;
      }
      var job := queue[0];
      queue := queue[1..];
      var attempt := SendApiRequest(job, response);
      match attempt
      case Accepted =>
        step := Sent(job);
      case Unsupported =>
        alive := false;
        step := Lost(job);
      case Failed =>
        var delay := RetryMessage(job);
        step := if delay.Some? then Retried(job, delay.value) else Dropped(job);
    }
  }
}
