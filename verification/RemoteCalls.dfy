/**
 * How an answer of the remote service becomes an error of the client, how the client renders it,
 * and which rendered errors make a tool call reconnect and send again.
 */
module RemoteCalls {

  import opened Whitespace
  import opened Wrappers

  // -------------------------------------------------------- which errors retry

  predicate Contains(s: string, needle: string) {
    needle <= s || (s != "" && Contains(s[1..], needle))
  }

  predicate Digits(s: string) {
    s != "" && forall i :: 0 <= i < |s| ==> '0' <= s[i] <= '9'
  }

  function Value(s: string): nat
    requires s == "" || Digits(s)
  {
    if s == "" then 0
    else
      assert s[|s| - 1] as int >= '0' as int;
      10 * Value(s[..|s| - 1]) + (s[|s| - 1] as int - '0' as int)
  }

  /** Parsing a 16-bit unsigned number: an optional plus sign and digits. */
  function ParseU16(s: string): Option<nat> {
    var body := if s != "" && s[0] == '+' then s[1..] else s;
    if Digits(body) && Value(body) <= 0xFFFF then Some(Value(body)) else None
  }

  /** The first word, and none of a blank text. */
  function FirstWord(s: string): string {
    if s == "" then ""
    else if BridgeSpace(s[0]) then FirstWord(s[1..])
    else WordHere(s)
  }

  function WordHere(s: string): string {
    if s == "" || BridgeSpace(s[0]) then "" else [s[0]] + WordHere(s[1..])
  }

  const HTTP := "MCP HTTP "
  const REMOTE := "MCP remote error: "
  const SESSION_GONE := "unknown mcp-session-id"

  predicate StableRefusal(message: string) {
    || Contains(message, REMOTE + "capacity_exhausted")
    || Contains(message, REMOTE + "restart_required")
    || Contains(message, REMOTE + "cursor_expired")
  }

  /** `should_reconnect_remote_error`, on the rendered error. */
  predicate ShouldReconnect(message: string) {
    if HTTP <= message then
      var status := ParseU16(FirstWord(message[|HTTP|..]));
      Contains(message, SESSION_GONE) || (status.Some? && (status.value == 408 || status.value == 429 || status.value >= 500))
    else
      && !("MCP error:" <= message) && !("missing required argument " <= message)
      && !("unexpected argument " <= message) && !("unknown tool " <= message)
      && !("MCP client not initialized" <= message) && !StableRefusal(message)
  }

  /** The errors the client raises. A remote error carries its code only if the client knows it. */
  datatype ClientError = Transport | HttpStatus | TooLarge | Malformed | Remote(code: Option<string>)

  function Rendered(e: ClientError): string {
    match e
    case Transport => "MCP transport error"
    case HttpStatus => "MCP HTTP status error"
    case TooLarge => "MCP response exceeded its byte ceiling"
    case Malformed => "MCP response was malformed"
    case Remote(code) => REMOTE + if code.Some? then code.value else "unknown"
  }

  /** A refusal the comment calls stable, seen in a remote error's code. */
  predicate StableCode(code: string) {
    "capacity_exhausted" <= code || "restart_required" <= code || "cursor_expired" <= code || StableRefusal(code)
  }

  /** A needle is not found where its first character is not. */
  lemma {:induction false} SkipPrefix(p: string, rest: string, needle: string)
    requires needle != "" && needle[0] !in p
    ensures Contains(p + rest, needle) <==> Contains(rest, needle)
  {
    if p == "" {
      assert p + rest == rest;
    } else {
      assert (p + rest)[1..] == p[1..] + rest;
      assert (p + rest)[0] == p[0];
      SkipPrefix(p[1..], rest, needle);
    }
  }

  lemma {:induction false} TooLong(s: string, needle: string)
    requires |s| < |needle|
    ensures !Contains(s, needle)
  {
    if s != "" { TooLong(s[1..], needle); }
  }

  /** The client's prefix holds one capital M, its first character. */
  lemma RemoteIsFound(word: string, code: string)
    ensures Contains(REMOTE + code, REMOTE + word) <==> word <= code || Contains(code, REMOTE + word)
  {
    var s, needle := REMOTE + code, REMOTE + word;
    assert needle[0] == 'M' && 'M' !in REMOTE[1..];
    assert s[1..] == REMOTE[1..] + code;
    SkipPrefix(REMOTE[1..], code, needle);
    if word <= code {
      assert needle == s[..|needle|];
    }
    if needle <= s {
      assert word == needle[|REMOTE|..] == s[|REMOTE|..|needle|] == code[..|word|];
    }
  }

  /** An error text without a second capital M that is not itself a refusal holds none. */
  lemma NoRefusalInside(s: string)
    requires |s| > 6 && 'M' !in s[1..] && s[6] != 'm'
    ensures !StableRefusal(s)
  {
    NotRemote(s, "capacity_exhausted");
    NotRemote(s, "restart_required");
    NotRemote(s, "cursor_expired");
  }

  lemma NotRemote(s: string, word: string)
    requires |s| > 6 && 'M' !in s[1..] && s[6] != 'm'
    ensures !Contains(s, REMOTE + word)
  {
    var needle := REMOTE + word;
    assert needle[0] == 'M';
    assert s[1..] == s[1..] + "";
    SkipPrefix(s[1..], "", needle);
    assert needle[6] == 'm';
  }

  /** An error text that begins none of the listed ways and is no refusal reconnects. */
  lemma PlainErrorReconnects(s: string)
    requires |s| > 6 && 'M' !in s[1..] && s[0] == 'M' && s[4] != 'H' && s[4] != 'e' && s[4] != 'c' && s[6] != 'm'
    ensures ShouldReconnect(s)
  {
    hide Contains;
    NoRefusalInside(s);
    assert HTTP[4] == 'H' && "MCP error:"[4] == 'e' && "MCP client not initialized"[4] == 'c';
    assert "missing required argument "[0] == 'm' && "unexpected argument "[0] == 'u' && "unknown tool "[0] == 'u';
  }

  lemma TransportTextReconnects()
    ensures ShouldReconnect("MCP transport error")
  {
    hide ShouldReconnect;
    assert 'M' !in "CP transport error" && "MCP transport error"[1..] == "CP transport error";
    PlainErrorReconnects("MCP transport error");
  }

  lemma TooLargeTextReconnects()
    ensures ShouldReconnect("MCP response exceeded its byte ceiling")
  {
    hide ShouldReconnect;
    var rest := "CP response exceeded its byte ceiling";
    assert 'M' !in rest && "MCP response exceeded its byte ceiling"[1..] == rest;
    PlainErrorReconnects("MCP response exceeded its byte ceiling");
  }

  lemma MalformedTextReconnects()
    ensures ShouldReconnect("MCP response was malformed")
  {
    hide ShouldReconnect;
    assert 'M' !in "CP response was malformed" && "MCP response was malformed"[1..] == "CP response was malformed";
    PlainErrorReconnects("MCP response was malformed");
  }

  lemma StatusTextDoesNot()
    ensures !ShouldReconnect("MCP HTTP status error")
  {
    hide Contains;
    var s := "MCP HTTP status error";
    TooLong(s, SESSION_GONE);
    assert HTTP <= s && s[|HTTP|..] == "status error";
    assert FirstWord("status error") == WordHere("status error") && WordHere("status error")[0] == 's';
  }

  lemma RemoteTextReconnects(code: string)
    ensures ShouldReconnect(REMOTE + code) <==> !StableCode(code)
  {
    hide Contains;
    RemoteIsFound("capacity_exhausted", code);
    RemoteIsFound("restart_required", code);
    RemoteIsFound("cursor_expired", code);
    var s := REMOTE + code;
    assert s[0] == 'M' && s[4] == 'r';
    assert HTTP[4] == 'H' && "MCP error:"[4] == 'e' && "MCP client not initialized"[4] == 'c';
    assert "missing required argument "[0] == 'm' && "unexpected argument "[0] == 'u' && "unknown tool "[0] == 'u';
  }

  /**
   * Which of the client's errors lead to a second send: lost or unreadable answers always, the
   * status error never, because it does not render the status the check looks for, and a remote
   * error exactly when its code is not one of the stable refusals.
   */
  lemma ReconnectsExactly(e: ClientError)
    ensures ShouldReconnect(Rendered(e)) <==>
              || e.Transport? || e.TooLarge? || e.Malformed?
              || (e.Remote? && !StableCode(if e.code.Some? then e.code.value else "unknown"))
  {
    hide ShouldReconnect, StableCode;
    TransportTextReconnects();
    TooLargeTextReconnects();
    MalformedTextReconnects();
    StatusTextDoesNot();
    if e.Remote? { RemoteTextReconnects(if e.code.Some? then e.code.value else "unknown"); }
  }

  /** A status written in decimal. */
  function Decimal(n: nat): (s: string)
    ensures Digits(s)
  {
    var digit := ('0' as int + n % 10) as char;
    if n < 10 then [digit] else Decimal(n / 10) + [digit]
  }

  lemma {:induction false} ValueOfDecimal(n: nat)
    ensures Value(Decimal(n)) == n
  {
    if n >= 10 {
      ValueOfDecimal(n / 10);
      var s := Decimal(n);
      assert s[..|s| - 1] == Decimal(n / 10) && s[|s| - 1] as int - '0' as int == n % 10;
    }
  }

  lemma {:induction false} WordEnds(word: string, rest: string)
    requires forall i :: 0 <= i < |word| ==> !BridgeSpace(word[i])
    ensures WordHere(word + " " + rest) == word
  {
    var s := word + " " + rest;
    if word != "" {
      assert s[1..] == word[1..] + " " + rest;
      WordEnds(word[1..], rest);
    } else {
      assert s[0] == ' ' && BridgeSpace(' ');
    }
  }

  /**
   * An error text that does carry its status is sent again for a request timeout, for too many
   * requests and for every server error, whatever follows the status, and for a session the server
   * no longer knows.
   */
  lemma RenderedStatusReconnects(status: nat, rest: string)
    requires status <= 0xFFFF
    ensures var text := HTTP + (Decimal(status) + " " + rest);
            ShouldReconnect(text) <==> status == 408 || status == 429 || status >= 500 || Contains(text, SESSION_GONE)
  {
    hide Contains, Value;
    var word := Decimal(status);
    var text := HTTP + (word + " " + rest);
    WordEnds(word, rest);
    ValueOfDecimal(status);
    assert HTTP <= text && text[|HTTP|..] == word + " " + rest;
    assert FirstWord(word + " " + rest) == word;
  }

  // ------------------------------------------------------ which answers retry

  /** What the body of an answer turns out to be. `code` is the `data.code` of its error, if it is a text. */
  datatype Body =
    | Oversized
    | Interrupted
    | NotJson
    | RpcError(code: Option<string>)
    | Json(version: Option<string>)

  datatype Answer = NoAnswer | Answer(status: nat, body: Body)

  predicate Success(status: nat) {
    200 <= status < 300
  }

  predicate Stable(code: string) {
    code == "capacity_exhausted" || code == "restart_required" || code == "cursor_expired"
  }

  /** The codes the client lets through. */
  predicate Known(code: string) {
    || Stable(code)
    || code in ["unauthenticated", "forbidden_scope", "workspace_mismatch", "session_busy", "stale_version",
                "internal", "timeout", "invalid_request", "unsupported", "conflict"]
  }

  /** `rpc`: the body is read and parsed, and an error in it taken, before the status is looked at. */
  function Classify(a: Answer): Option<ClientError> {
    if a.NoAnswer? then Some(Transport)
    else
      match a.body
      case Oversized => Some(TooLarge)
      case Interrupted => Some(Transport)
      case NotJson => Some(Malformed)
      case RpcError(code) => Some(Remote(if code.Some? && Known(code.value) then code else None))
      case Json(version) =>
        if !Success(a.status) then Some(HttpStatus)
        else if version.Some? && version.value != "2.0" then Some(Malformed)
        else None
  }

  /** An answer to one request, listing the tools or calling one, after which the call starts again. */
  predicate SentAgain(a: Answer) {
    Classify(a).Some? && ShouldReconnect(Rendered(Classify(a).value))
  }

  lemma KnownCodesAreStableOrNot(code: string)
    requires Known(code) || code == "unknown"
    ensures StableCode(code) <==> Stable(code)
  {
    hide Contains;
    assert |code| <= 18;
    TooLong(code, REMOTE + "capacity_exhausted");
    TooLong(code, REMOTE + "restart_required");
    TooLong(code, REMOTE + "cursor_expired");
    if !Stable(code) {
      assert |code| < 14 || (code[0] != 'c' && code[0] != 'r');
      assert "capacity_exhausted"[0] == 'c' && "restart_required"[0] == 'r' && "cursor_expired"[0] == 'c';
    }
  }

  /**
   * An answer is sent again exactly when it was lost, or its body is too large, cut off or not
   * JSON, or carries an error that is not one of the three stable refusals, or is a successful
   * answer of another protocol version. The status decides nothing else.
   */
  lemma SentAgainExactly(a: Answer)
    ensures SentAgain(a) <==>
              || a.NoAnswer? || a.body.Oversized? || a.body.Interrupted? || a.body.NotJson?
              || (a.body.RpcError? && !(a.body.code.Some? && Stable(a.body.code.value)))
              || (a.body.Json? && Success(a.status) && a.body.version.Some? && a.body.version.value != "2.0")
  {
    hide ShouldReconnect, StableCode, Rendered;
    if Classify(a).Some? {
      var e := Classify(a).value;
      ReconnectsExactly(e);
      if e.Remote? { KnownCodesAreStableOrNot(if e.code.Some? then e.code.value else "unknown"); }
    }
  }

  /**
   * An answer with an error status is sent again exactly when its body is too large, cut off, not
   * JSON, or carries an error that is not a stable refusal; which error status it is plays no part.
   */
  lemma ErrorStatusSentAgainExactly(status: nat, other: nat, body: Body)
    requires !Success(status) && !Success(other)
    ensures SentAgain(Answer(status, body)) <==>
              || body.Oversized? || body.Interrupted? || body.NotJson?
              || (body.RpcError? && !(body.code.Some? && Stable(body.code.value)))
    ensures SentAgain(Answer(status, body)) <==> SentAgain(Answer(other, body))
  {
    hide SentAgain;
    SentAgainExactly(Answer(status, body));
    SentAgainExactly(Answer(other, body));
  }

  /**
   * Where this parts from the comment on the check: an unavailable service that answers in plain
   * JSON is not asked again, one that answers with an empty body is, and so is one that reports a
   * conflict, which is an application error.
   */
  lemma RetryableStatusesAndConflicts(version: Option<string>, status: nat)
    ensures !SentAgain(Answer(503, Json(version)))
    ensures SentAgain(Answer(503, NotJson))
    ensures SentAgain(Answer(status, RpcError(Some("conflict"))))
  {
    hide SentAgain;
    SentAgainExactly(Answer(503, Json(version)));
    SentAgainExactly(Answer(503, NotJson));
    SentAgainExactly(Answer(status, RpcError(Some("conflict"))));
  }

  // ------------------------------------------------- which tool listings retry

  /** What a call makes of the listed tools before it sends its own request. */
  datatype ToolError =
    | NotInitialized
    | Unnamed
    | BadRequired
    | NoSchema(tool: string)
    | SchemaType(tool: string)
    | UnknownTool(tool: string)
    | MissingArgument(key: string)
    | UnexpectedArgument(key: string)

  function ToolErrorText(e: ToolError): string {
    match e
    case NotInitialized => "MCP client not initialized" + "; call initialize() first"
    case Unnamed => "tool missing name"
    case BadRequired => "invalid required entry"
    case NoSchema(tool) => "tool " + tool + " missing inputSchema"
    case SchemaType(tool) => "tool " + tool + " inputSchema.type must be object"
    case UnknownTool(tool) => "unknown tool " + tool
    case MissingArgument(key) => "missing required argument " + key
    case UnexpectedArgument(key) => "unexpected argument " + key
  }

  /**
   * A malformed listing reconnects, unless the tool's own name quotes a stable refusal; a client
   * that is not initialized, a tool that is not listed and arguments that do not fit never do.
   */
  lemma ToolErrorsReconnectExactly(e: ToolError)
    ensures ShouldReconnect(ToolErrorText(e)) <==>
              || e.Unnamed? || e.BadRequired?
              || ((e.NoSchema? || e.SchemaType?) && !StableRefusal(ToolErrorText(e)))
  {
    hide ShouldReconnect, StableRefusal, Contains;
    var text := ToolErrorText(e);
    match e
    case Unnamed =>
      UnlistedText(text);
      ShortText(text);
    case BadRequired =>
      UnlistedText(text);
      ShortText(text);
    case NoSchema(_) => UnlistedText(text);
    case SchemaType(_) => UnlistedText(text);
    case NotInitialized =>
      assert "MCP client not initialized" <= text;
      ListedText(text);
    case UnknownTool(_) =>
      assert "unknown tool " <= text;
      ListedText(text);
    case MissingArgument(_) =>
      assert "missing required argument " <= text;
      ListedText(text);
    case UnexpectedArgument(_) =>
      assert "unexpected argument " <= text;
      ListedText(text);
  }

  /** A text that begins none of the listed ways is judged by the stable refusals alone. */
  lemma UnlistedText(text: string)
    requires text != "" && (text[0] == 't' || text[0] == 'i')
    ensures ShouldReconnect(text) <==> !StableRefusal(text)
  {
    hide Contains;
    assert HTTP[0] == 'M' && "MCP error:"[0] == 'M' && "MCP client not initialized"[0] == 'M';
    assert "missing required argument "[0] == 'm' && "unexpected argument "[0] == 'u' && "unknown tool "[0] == 'u';
  }

  lemma ListedText(text: string)
    requires || "unknown tool " <= text || "missing required argument " <= text || "unexpected argument " <= text
             || ("MCP client not initialized" <= text)
    ensures !ShouldReconnect(text)
  {
    hide Contains;
    assert HTTP[0] == 'M' && HTTP[4] == 'H' && "MCP client not initialized"[4] == 'c';
    assert "missing required argument "[0] == 'm' && "unexpected argument "[0] == 'u' && "unknown tool "[0] == 'u';
  }

  lemma ShortText(text: string)
    requires |text| < 32
    ensures !StableRefusal(text)
  {
    TooLong(text, REMOTE + "capacity_exhausted");
    TooLong(text, REMOTE + "restart_required");
    TooLong(text, REMOTE + "cursor_expired");
  }
}
