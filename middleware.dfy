/** The CORS and bearer-token middleware. A request context is an object
    whose response state the middleware updates in place; running "the next
    handler" is recorded, not modelled. Token validation is outside the model
    and arrives as a function. */
module Middleware {
  import opened Common

  const Bearer: string := "Bearer "
  const MissingHeaderMessage: string := "缺少认证头"
  const MalformedHeaderMessage: string := "无效的认证头格式"
  const InvalidTokenMessage: string := "无效的token"

  const StatusNoContent: nat := 204
  const StatusUnauthorized: nat := 401

  const AllowOrigin: string := "*"
  const AllowMethods: string := "GET, POST, PUT, DELETE, OPTIONS"
  const AllowHeaders: string :=
    "Origin, Content-Type, Content-Length, Accept-Encoding, X-CSRF-Token, Authorization"

  /** What the token validator extracts from a valid token. */
  datatype Claims = Claims(userId: nat, username: string)

  /** The JSON error body `{"success": false, "message": ...}`. */
  datatype ErrorBody = ErrorBody(success: bool, message: string)

  /** Go's strings.TrimPrefix: `s` without one leading `prefix`, or `s`
      unchanged when it does not start with `prefix`. */
  function TrimPrefix(s: string, prefix: string): (t: string)
    ensures prefix <= s ==> s == prefix + t
    ensures !(prefix <= s) ==> t == s
  {
    if prefix <= s then s[|prefix|..] else s
  }

  /** How Auth reads the Authorization header. */
  datatype HeaderClass = Missing | Malformed | Token(token: string)

  /** An empty header is missing; one that trimming "Bearer " leaves
      unchanged is malformed; otherwise exactly one "Bearer " is stripped
      and the rest is the token. */
  function ClassifyAuthHeader(header: string): (c: HeaderClass)
    ensures c == Missing <==> header == ""
    ensures c == Malformed <==> header != "" && !(Bearer <= header)
    ensures c.Token? <==> Bearer <= header
    ensures c.Token? ==> header == Bearer + c.token
  {
    if header == "" then Missing
    else
      var token := TrimPrefix(header, Bearer);
      if token == header then Malformed else Token(token)
  }

  /** The bare prefix passes an empty token on to the validator. */
  lemma BarePrefixGivesEmptyToken()
    ensures ClassifyAuthHeader("Bearer ") == Token("")
  {
    assert Bearer + "" == Bearer;
  }

  /** Only the first "Bearer " is stripped. */
  lemma OnlyOnePrefixStripped(rest: string)
    ensures ClassifyAuthHeader(Bearer + Bearer + rest) == Token(Bearer + rest)
  {
    assert Bearer + Bearer + rest == Bearer + (Bearer + rest);
  }

  /** The Content-Type gin's JSON rendering writes. */
  const JsonContentType: string := "application/json; charset=utf-8"

  /** The response headers after gin renders a JSON body: Content-Type is
      set to JSON unless a Content-Type is already present. */
  function WithJsonContentType(headers: map<string, string>): map<string, string> {
    if "Content-Type" in headers then headers else headers["Content-Type" := JsonContentType]
  }

  /** Rendering a JSON error keeps every header already set, CORS headers
      included, and a Content-Type set earlier is not replaced. */
  lemma {:induction false} JsonRenderingKeepsHeaders(headers: map<string, string>)
    ensures headers.Keys <= WithJsonContentType(headers).Keys
    ensures forall name | name in headers :: WithJsonContentType(headers)[name] == headers[name]
    ensures WithJsonContentType(headers).Keys == headers.Keys + {"Content-Type"}
    ensures "Content-Type" !in headers ==> WithJsonContentType(headers)["Content-Type"] == JsonContentType
  {
  }

  /** The state of one request as the middleware sees it. Request headers
      are keyed by their canonical names ("Authorization"), the form gin's
      GetHeader looks a name up in. */
  class Context {
    const requestMethod: string
    const requestHeaders: map<string, string>
    var responseHeaders: map<string, string>
    /** 0 while no status has been written. */
    var status: nat
    var body: Option<ErrorBody>
    var keys: map<string, Value>
    var aborted: bool
    var nextCalled: bool

    constructor (requestMethod: string, requestHeaders: map<string, string>)
      ensures this.requestMethod == requestMethod && this.requestHeaders == requestHeaders
      ensures responseHeaders == map[] && status == 0 && body == None
      ensures keys == map[] && !aborted && !nextCalled
    {
      this.requestMethod := requestMethod;
      this.requestHeaders := requestHeaders;
      responseHeaders := map[];
      status := 0;
      body := None;
      keys := map[];
      aborted := false;
      nextCalled := false;
    }

    /** gin's GetHeader: an absent header reads as the empty string. */
    function GetHeader(name: string): (value: string)
    {
      if name in requestHeaders then requestHeaders[name] else ""
    }
  }

  /** CORS: sets the three allow headers, then answers a preflight OPTIONS
      request with 204 and stops; any other method continues down the
      chain. */
  method Cors(c: Context)
    modifies c
    ensures c.responseHeaders == old(c.responseHeaders)[
      "Access-Control-Allow-Origin" := AllowOrigin][
      "Access-Control-Allow-Methods" := AllowMethods][
      "Access-Control-Allow-Headers" := AllowHeaders]
    ensures c.requestMethod == "OPTIONS" ==>
      c.status == StatusNoContent && c.aborted && c.nextCalled == old(c.nextCalled)
    ensures c.requestMethod != "OPTIONS" ==>
      c.status == old(c.status) && c.aborted == old(c.aborted) && c.nextCalled
    ensures c.body == old(c.body) && c.keys == old(c.keys)
  {
    c.responseHeaders := c.responseHeaders["Access-Control-Allow-Origin" := AllowOrigin];
    c.responseHeaders := c.responseHeaders["Access-Control-Allow-Methods" := AllowMethods];
    c.responseHeaders := c.responseHeaders["Access-Control-Allow-Headers" := AllowHeaders];
    if c.requestMethod == "OPTIONS" {
      c.status := StatusNoContent;
      c.aborted := true;
      return;
    }
    c.nextCalled := true;
  }

  /** Rejects the request with 401 and a JSON error body carrying the
      message, then aborts. Rendering JSON gives the response a JSON
      Content-Type unless it already has one. */
  method Reject(c: Context, message: string)
    modifies c
    ensures c.status == StatusUnauthorized && c.body == Some(ErrorBody(false, message)) && c.aborted
    ensures "Content-Type" in c.responseHeaders
    ensures c.responseHeaders == WithJsonContentType(old(c.responseHeaders))
    ensures c.keys == old(c.keys) && c.nextCalled == old(c.nextCalled)
  {
    c.responseHeaders := WithJsonContentType(c.responseHeaders);
    c.status := StatusUnauthorized;
    c.body := Some(ErrorBody(false, message));
    c.aborted := true;
  }

  /** Auth: a missing or malformed Authorization header, or a token the
      validator refuses, ends the request with 401 and the matching message
      without running the next handler; the error body is rendered as JSON.
      A valid token stores the claims' user id and username in the context
      and continues. */
  method Auth(c: Context, validate: string -> Result<Claims>)
    modifies c
    ensures var h := ClassifyAuthHeader(c.GetHeader("Authorization"));
      match h
      case Missing =>
        c.status == StatusUnauthorized && c.body == Some(ErrorBody(false, MissingHeaderMessage))
        && c.responseHeaders == WithJsonContentType(old(c.responseHeaders))
        && c.aborted && c.nextCalled == old(c.nextCalled) && c.keys == old(c.keys)
      case Malformed =>
        c.status == StatusUnauthorized && c.body == Some(ErrorBody(false, MalformedHeaderMessage))
        && c.responseHeaders == WithJsonContentType(old(c.responseHeaders))
        && c.aborted && c.nextCalled == old(c.nextCalled) && c.keys == old(c.keys)
      case Token(t) =>
        match validate(t)
        case Err(_) =>
          c.status == StatusUnauthorized && c.body == Some(ErrorBody(false, InvalidTokenMessage))
          && c.responseHeaders == WithJsonContentType(old(c.responseHeaders))
          && c.aborted && c.nextCalled == old(c.nextCalled) && c.keys == old(c.keys)
        case Ok(claims) =>
          c.keys == old(c.keys)["user_id" := Int(claims.userId)]["username" := Str(claims.username)]
          && c.nextCalled && c.status == old(c.status) && c.body == old(c.body)
          && c.aborted == old(c.aborted) && c.responseHeaders == old(c.responseHeaders)
  {
    var header := c.GetHeader("Authorization");
    if header == "" {
      Reject(c, MissingHeaderMessage);
      return;
    }
    var token := TrimPrefix(header, Bearer);
    if token == header {
      Reject(c, MalformedHeaderMessage);
      return;
    }
    var claims := validate(token);
    if claims.Err? {
      Reject(c, InvalidTokenMessage);
      return;
    }
    c.keys := c.keys["user_id" := Int(claims.value.userId)];
    c.keys := c.keys["username" := Str(claims.value.username)];
    c.nextCalled := true;
  }
}
