/** What the relay makes of the completion service's answer. The network
    exchange and JSON.parse are inputs: the exchange says whether a response
    arrived and carries its `ok` flag, status and raw body, together with
    what parsing that body yields. */
module Upstream {
  import opened JsString

  /** Where `choices[0].message.content` leads in a parsed body. */
  datatype ContentPath =
      /** An object on the way to `message` is missing, so plain property
          access throws a TypeError with the given engine message. */
    | Broken(typeError: string)
      /** `message` exists; its `content` is absent (None) or a string. */
    | Reached(content: Option<string>)

  /** The result of `JSON.parse(raw)`. */
  datatype Parse = NotJson(syntaxError: string) | Json(path: ContentPath)

  datatype Exchange =
      /** `fetch` itself rejected (no response), with the given message. */
    | NoResponse(message: string)
    | Received(ok: bool, status: nat, raw: string, parsed: Parse)

  /** The errors a completion caller throws. */
  datatype UpstreamError =
    | HttpError(status: nat, raw: string)
    | ParseError(raw: string)
    | ShapeError
      /** An error raised by the runtime rather than by the relay's own code. */
    | Thrown(message: string)

  /** What a completion caller returns: the content, or the error it throws.
      The content is absent when the text-mode caller reads a missing field. */
  datatype Outcome = Completed(content: Option<string>) | Failed(error: UpstreamError)

  const HttpErrorPrefix := "LLaMA HTTP error "
  const ParseErrorPrefix := "Failed to parse LLaMA JSON: "
  const ShapeErrorMessage := "Unexpected LLaMA response format"

  /** The message of an HTTP error: it carries the status and the whole raw
      body, in a form that can be read back exactly. */
  function HttpErrorMessage(status: nat, raw: string): (m: string)
    ensures ReadHttpErrorMessage(m) == Some((status, raw))
  {
    StatusAndBodyReadable(status, raw);
    HttpErrorPrefix + DecimalString(status) + ": " + raw
  }

  /** The `message` of each error. */
  function ErrorMessage(e: UpstreamError): (m: string)
    ensures e.HttpError? ==> ReadHttpErrorMessage(m) == Some((e.status, e.raw))
    ensures e.ParseError? ==>
              |ParseErrorPrefix| <= |m| && m[..|ParseErrorPrefix|] == ParseErrorPrefix
              && m[|ParseErrorPrefix|..] == e.raw
    ensures e.ShapeError? ==> m == ShapeErrorMessage
    ensures e.Thrown? ==> m == e.message
  {
    match e
    case HttpError(status, raw) => HttpErrorMessage(status, raw)
    case ParseError(raw) => ParseErrorPrefix + raw
    case ShapeError => ShapeErrorMessage
    case Thrown(message) => message
  }

  /** Reading an HTTP error message back: the status and the raw body it
      carries, or None for any other text. */
  function ReadHttpErrorMessage(m: string): Option<(nat, string)> {
    if |m| < |HttpErrorPrefix| || m[..|HttpErrorPrefix|] != HttpErrorPrefix then None
    else
      var rest := m[|HttpErrorPrefix|..];
      var k := DigitRun(rest);
      if k == 0 || k + 2 > |rest| || rest[k..k + 2] != ": " then None
      else Some((ParseDecimal(rest[..k]), rest[k + 2..]))
  }

  lemma StatusAndBodyReadable(status: nat, raw: string)
    ensures ReadHttpErrorMessage(HttpErrorPrefix + DecimalString(status) + ": " + raw) == Some((status, raw))
  {
    var d := DecimalString(status);
    var m := HttpErrorPrefix + DecimalString(status) + ": " + raw;
    var rest := d + ": " + raw;
    assert m == HttpErrorPrefix + rest;
    assert m[|HttpErrorPrefix|..] == rest;
    assert rest[|d|] == ':';
    assert DigitRun(rest) == |d|;
    assert rest[..|d|] == d;
    assert rest[|d|..|d| + 2] == ": ";
    assert rest[|d| + 2..] == raw;
    DecimalRoundTrip(status);
  }

  /** The form-mode caller: a response that is not ok is an HTTP error; a
      body that is not JSON is a parse error; a missing or empty
      `choices[0].message.content` is a shape error; otherwise that content. */
  function ClassifyForm(x: Exchange): (r: Outcome)
    ensures r.Completed? <==>
              x.Received? && x.ok && x.parsed.Json? && x.parsed.path.Reached?
              && Truthy(x.parsed.path.content)
    ensures r.Completed? ==> r.content == x.parsed.path.content
    ensures x.Received? && !x.ok ==> r == Failed(HttpError(x.status, x.raw))
    ensures x.Received? && x.ok && x.parsed.NotJson? ==> r == Failed(ParseError(x.raw))
    ensures (x.Received? && x.ok && x.parsed.Json?
             && !(x.parsed.path.Reached? && Truthy(x.parsed.path.content))) ==> r == Failed(ShapeError)
    ensures x.NoResponse? ==> r == Failed(Thrown(x.message))
    ensures r.Failed? && r.error.Thrown? ==> x.NoResponse?
  {
    match x
    case NoResponse(message) => Failed(Thrown(message))
    case Received(ok, status, raw, parsed) =>
      if !ok then Failed(HttpError(status, raw))
      else
        match parsed
        case NotJson(_) => Failed(ParseError(raw))
        case Json(path) =>
          if path.Broken? || !Truthy(path.content) then Failed(ShapeError)
          else Completed(path.content)
  }

  /** The text-mode caller checks the status only: parsing and the property
      reads throw the runtime's own errors, and whatever `content` holds,
      empty or absent, is returned. */
  function ClassifyText(x: Exchange): (r: Outcome)
    ensures r.Completed? <==> x.Received? && x.ok && x.parsed.Json? && x.parsed.path.Reached?
    ensures r.Completed? ==> r.content == x.parsed.path.content
    ensures x.Received? && !x.ok ==> r == Failed(HttpError(x.status, x.raw))
    ensures x.Received? && x.ok && x.parsed.NotJson? ==> r == Failed(Thrown(x.parsed.syntaxError))
    ensures (x.Received? && x.ok && x.parsed.Json? && x.parsed.path.Broken?) ==>
              r == Failed(Thrown(x.parsed.path.typeError))
    ensures x.NoResponse? ==> r == Failed(Thrown(x.message))
    ensures r.Failed? ==> !r.error.ParseError? && !r.error.ShapeError?
  {
    match x
    case NoResponse(message) => Failed(Thrown(message))
    case Received(ok, status, raw, parsed) =>
      if !ok then Failed(HttpError(status, raw))
      else
        match parsed
        case NotJson(syntaxError) => Failed(Thrown(syntaxError))
        case Json(Broken(typeError)) => Failed(Thrown(typeError))
        case Json(Reached(content)) => Completed(content)
  }

  /** The two callers agree whenever the form-mode one succeeds, and on every
      failure to get an ok response; the text-mode caller only accepts more. */
  lemma FormClassificationRefinesText(x: Exchange)
    ensures ClassifyForm(x).Completed? ==> ClassifyText(x) == ClassifyForm(x)
    ensures ClassifyText(x).Failed? ==> ClassifyForm(x).Failed?
    ensures !(x.Received? && x.ok) ==> ClassifyText(x) == ClassifyForm(x)
  {
  }

  /** An ok response whose content is empty is returned as it is by the text
      caller, where the form caller reports a shape error. */
  lemma TextCallerAcceptsEmptyContent(status: nat, raw: string)
    ensures ClassifyText(Received(true, status, raw, Json(Reached(Some(""))))) == Completed(Some(""))
    ensures ClassifyForm(Received(true, status, raw, Json(Reached(Some(""))))) == Failed(ShapeError)
  {
  }
}
