/**
 The `POST /api/generative-tool` handler (route.ts:20-103): count the attempt,
 refuse over the limit, validate the body, build the prompt, ask the
 generator, extract and parse the JSON of its reply, and fall back to the raw
 reply when it does not parse. Any exception on the way is a 500.

 The generator and `JSON.parse` are parameters: `generate` answers a prompt
 with the reply text or `None` when the call throws, and `parse` answers a
 text with the parsed value or `None` when it is not JSON.
 */
module Route {
  import opened JsText
  import opened ClientKey
  import opened Limiter
  import opened Extract

  /** One element of `stacks`; a field missing from the request renders as "undefined". */
  datatype StackEntry = StackEntry(category: Option<string>, technology: Option<string>)

  /** The decoded request body; a missing field is `None`. */
  datatype Body = Body(role: Option<string>, stacks: Option<seq<StackEntry>>, complexity: Option<string>)

  /** What the prompt is built from: the prompt text interpolates these three strings. */
  datatype Prompt = Prompt(role: string, techStack: string, complexity: string)

  /** The handler's responses. */
  datatype Outcome<V> =
    | TooMany          // 429
    | Invalid          // 400
    | Parsed(value: V) // 200, the parsed reply as the body
    | Raw(text: string) // 200, `{ message: rawText }`
    | ServerError      // 500
  {
    function Status(): nat {
      match this
      case TooMany => 429
      case Invalid => 400
      case ServerError => 500
      case _ => 200
    }

    /** The `message` field of the response body, for every outcome that has one. */
    function Message(): Option<string> {
      match this
      case TooMany => Some(LimitMessage)
      case Invalid => Some("Invalid input.")
      case Raw(text) => Some(text)
      case ServerError => Some("Internal server error.")
      case Parsed(_) => None
    }
  }

  const LimitMessage: string := "🚫 You’ve reached the 3-generation limit for this IP."

  /** `!role || !stacks?.length || !complexity` fails. */
  predicate ValidInput(b: Body) {
    Truthy(b.role) && b.stacks.Some? && |b.stacks.value| > 0 && Truthy(b.complexity)
  }

  /** A template literal's rendering of a possibly missing field. */
  function Show(v: Option<string>): string {
    match v
    case Some(s) => s
    case None => "undefined"
  }

  /** `${s.technology} (${s.category})`. */
  function Render(e: StackEntry): string {
    Show(e.technology) + " (" + Show(e.category) + ")"
  }

  function RenderAll(stacks: seq<StackEntry>): (items: seq<string>)
    ensures |items| == |stacks|
    ensures forall i :: 0 <= i < |stacks| ==> items[i] == Render(stacks[i])
  {
    if stacks == [] then [] else [Render(stacks[0])] + RenderAll(stacks[1..])
  }

  /** `stacks.map(…).join(", ")`. */
  function TechStack(stacks: seq<StackEntry>): string {
    Join(RenderAll(stacks), ", ")
  }

  /** A single entry is rendered alone, with no separator. */
  lemma TechStackSingle(e: StackEntry)
    ensures TechStack([e]) == Show(e.technology) + " (" + Show(e.category) + ")"
  {
  }

  /** Entries appear in input order, one ", " between neighbours. */
  lemma TechStackAppend(stacks: seq<StackEntry>, e: StackEntry)
    requires stacks != []
    ensures TechStack(stacks + [e]) == TechStack(stacks) + ", " + Render(e)
  {
    assert RenderAll(stacks + [e]) == RenderAll(stacks) + [Render(e)];
    JoinSnoc(RenderAll(stacks), ", ", Render(e));
  }

  /** The interpolated values of the prompt at route.ts:50-82. */
  function PromptFor(b: Body): Prompt
    requires ValidInput(b)
  {
    Prompt(b.role.value, TechStack(b.stacks.value), b.complexity.value)
  }

  /**
   The handler after the limiter step, given the attempt count it produced:
   the whole outcome as a function of the count, the body (`None` when
   `req.json()` throws), the generator and the parser.
   */
  function Respond<V>(count: nat, body: Option<Body>, generate: Prompt -> Option<string>,
                      parse: string -> Option<V>): (o: Outcome<V>)
    ensures o.TooMany? <==> Refused(count)
    ensures o.Invalid? <==> !Refused(count) && body.Some? && !ValidInput(body.value)
    ensures o.Parsed? || o.Raw? ==> !Refused(count) && body.Some? && ValidInput(body.value)
                                    && generate(PromptFor(body.value)).Some?
  {
    if Refused(count) then TooMany
    else match body
      case None => ServerError
      case Some(b) =>
        if !ValidInput(b) then Invalid
        else match generate(PromptFor(b))
          case None => ServerError
          case Some(reply) => ReplyOutcome(Trim(reply), parse)
  }

  /**
   The end of the handler, from the trimmed reply: extract the JSON text
   (a throw is a 500), then parse it, falling back to the trimmed reply as
   the message when it does not parse. A 200 comes exactly from a reply
   that extracts, and a parsed body exactly from one whose extracted text parses.
   */
  function ReplyOutcome<V>(rawText: string, parse: string -> Option<V>): (o: Outcome<V>)
    ensures o.Status() == 200 <==> ExtractJson(rawText).Json?
    ensures o.Parsed? <==> ExtractJson(rawText).Json? && parse(ExtractJson(rawText).text).Some?
    ensures o.Raw? ==> o.text == rawText
  {
    match ExtractJson(rawText)
    case Thrown => ServerError
    case Json(jsonText) =>
      match parse(jsonText)
      case Some(data) => Parsed(data)
      case None => Raw(rawText)
  }

  /**
   The handler on the shared store: the attempt is counted under the client
   key before anything else, whatever the outcome, and no other key changes.
   */
  method Post<V>(store: UsageStore, headers: RouteHeaders, body: Option<Body>,
                 generate: Prompt -> Option<string>, parse: string -> Option<V>) returns (o: Outcome<V>)
    modifies store
    ensures store.usage == Bump(old(store.usage), RouteKey(headers))
    ensures o == Respond(Count(store.usage, RouteKey(headers)), body, generate, parse)
  {
    var clientIP := RouteKey(headers);
    var count, allowed := store.Hit(clientIP);
    if !allowed {
      return TooMany;
    }
    o := Answer(count, body, generate, parse);
  }

  /**
   The handler past the limiter, for a count within the limit: decode,
   validate, generate, extract, parse, each failure ending the request.
   */
  method Answer<V>(count: nat, body: Option<Body>, generate: Prompt -> Option<string>,
                   parse: string -> Option<V>) returns (o: Outcome<V>)
    requires !Refused(count)
    ensures o == Respond(count, body, generate, parse)
  {
    if body.None? {
      return ServerError;
    }
    var b := body.value;
    if !ValidInput(b) {
      return Invalid;
    }
    var response := generate(PromptFor(b));
    if response.None? {
      return ServerError;
    }
    var rawText := Trim(response.value);
    o := ParseReply(rawText, parse);
  }

  /**
   `extractJSON` and `JSON.parse` on the trimmed reply: a throw while
   extracting is a 500, and a text that does not parse is answered with the
   trimmed reply.
   */
  method ParseReply<V>(rawText: string, parse: string -> Option<V>) returns (o: Outcome<V>)
    ensures o == ReplyOutcome(rawText, parse)
  {
    var jsonText := ExtractJson(rawText);
    if jsonText.Thrown? {
      return ServerError;
    }
    var data := parse(jsonText.text);
    if data.None? {
      return Raw(rawText);
    }
    return Parsed(data.value);
  }

  // The outcome once the request is within the limit, valid, and answered.

  /** A reply whose extracted text parses is returned as the parsed value, unchanged. */
  lemma ParsedReply<V>(count: nat, b: Body, generate: Prompt -> Option<string>, parse: string -> Option<V>)
    requires !Refused(count) && ValidInput(b) && generate(PromptFor(b)).Some?
    requires ExtractJson(Trim(generate(PromptFor(b)).value)).Json?
    requires parse(ExtractJson(Trim(generate(PromptFor(b)).value)).text).Some?
    ensures Respond(count, Some(b), generate, parse)
            == Parsed(parse(ExtractJson(Trim(generate(PromptFor(b)).value)).text).value)
    ensures Respond(count, Some(b), generate, parse).Status() == 200
  {
  }

  /**
   Once the trimmed reply extracts to a text, the outcome is that text's
   parsed value, or, when it does not parse, the trimmed reply itself.
   */
  lemma ExtractedReply<V>(count: nat, b: Body, generate: Prompt -> Option<string>, parse: string -> Option<V>,
                          raw: string, text: string)
    requires !Refused(count) && ValidInput(b) && generate(PromptFor(b)).Some?
    requires Trim(generate(PromptFor(b)).value) == raw && ExtractJson(raw) == Json(text)
    ensures Respond(count, Some(b), generate, parse)
            == if parse(text).Some? then Parsed(parse(text).value) else Raw(raw)
  {
  }

  /**
   A reply whose extracted text does not parse is returned with status 200 and
   the whole trimmed reply as the message, fences included, not the extracted text.
   */
  lemma UnparsableReply<V>(count: nat, b: Body, generate: Prompt -> Option<string>, parse: string -> Option<V>)
    requires !Refused(count) && ValidInput(b) && generate(PromptFor(b)).Some?
    requires ExtractJson(Trim(generate(PromptFor(b)).value)).Json?
    requires parse(ExtractJson(Trim(generate(PromptFor(b)).value)).text).None?
    ensures Respond(count, Some(b), generate, parse) == Raw(Trim(generate(PromptFor(b)).value))
    ensures Respond(count, Some(b), generate, parse).Status() == 200
    ensures Respond(count, Some(b), generate, parse).Message() == Some(Trim(generate(PromptFor(b)).value))
  {
  }

  /**
   A reply that begins with an empty fenced block is a 500, whatever the
   parser would say: `extractJSON` throws before `JSON.parse` is reached.
   */
  lemma EmptyFencedReply<V>(count: nat, b: Body, generate: Prompt -> Option<string>, parse: string -> Option<V>,
                            w: string, tail: string)
    requires !Refused(count) && ValidInput(b)
    requires AllWhitespace(w) && '`' !in w
    requires generate(PromptFor(b)) == Some(JsonOpen + w + Fence + tail)
             || generate(PromptFor(b)) == Some(Fence + Fence + tail)
    ensures Respond(count, Some(b), generate, parse) == ServerError
  {
    var reply := generate(PromptFor(b)).value;
    var open := if reply == JsonOpen + w + Fence + tail then JsonOpen + w + Fence else Fence + Fence;
    assert reply == open + tail;
    EmptyBlockAfterTrim(open, w, tail);
  }

  /** A failed generator call is a 500. */
  lemma GeneratorFailure<V>(count: nat, b: Body, generate: Prompt -> Option<string>, parse: string -> Option<V>)
    requires !Refused(count) && ValidInput(b) && generate(PromptFor(b)).None?
    ensures Respond(count, Some(b), generate, parse) == ServerError
    ensures Respond(count, Some(b), generate, parse).Message() == Some("Internal server error.")
  {
  }

  /** A body that cannot be decoded is a 500, after the attempt was counted. */
  lemma UndecodableBody<V>(count: nat, generate: Prompt -> Option<string>, parse: string -> Option<V>)
    requires !Refused(count)
    ensures Respond(count, None, generate, parse) == ServerError
  {
  }

  /**
   A reply that is a bare JSON text (after trimming it does not begin with a
   backtick) is parsed whole: when it parses the value is echoed back, and
   when it does not the whole trimmed reply is the message.
   */
  lemma BareReply<V>(count: nat, b: Body, generate: Prompt -> Option<string>, parse: string -> Option<V>)
    requires !Refused(count) && ValidInput(b) && generate(PromptFor(b)).Some?
    requires var raw := Trim(generate(PromptFor(b)).value); raw == [] || raw[0] != '`'
    ensures var raw := Trim(generate(PromptFor(b)).value);
            Respond(count, Some(b), generate, parse)
            == if parse(raw).Some? then Parsed(parse(raw).value) else Raw(raw)
  {
    var raw := Trim(generate(PromptFor(b)).value);
    ExtractBareRoundTrip(raw);
  }

  /**
   A reply that is a JSON text in a fenced block, labeled or not, surrounded
   by any whitespace, is parsed on the text inside the block; when that does
   not parse the message is the whole block, fences included.
   */
  lemma FencedReply<V>(count: nat, b: Body, generate: Prompt -> Option<string>, parse: string -> Option<V>,
                       core: string, lead: string, w1: string, w2: string, trail: string, labeled: bool)
    requires !Refused(count) && ValidInput(b)
    requires core != [] && Trimmed(core) && '`' !in core
    requires AllWhitespace(lead) && AllWhitespace(w1) && AllWhitespace(w2) && AllWhitespace(trail)
    requires !labeled ==> w1 != [] || core[0] != 'j'
    requires generate(PromptFor(b))
             == Some(lead + (if labeled then JsonOpen else Fence) + w1 + core + w2 + Fence + trail)
    ensures var block := (if labeled then JsonOpen else Fence) + w1 + core + w2 + Fence;
            Respond(count, Some(b), generate, parse)
            == if parse(core).Some? then Parsed(parse(core).value) else Raw(block)
  {
    var reply := generate(PromptFor(b)).value;
    var block := (if labeled then JsonOpen else Fence) + w1 + core + w2 + Fence;
    assert reply == lead + block + trail;
    FencedBlockAfterTrim(lead, w1, core, w2, trail, labeled);
    ExtractedReply(count, b, generate, parse, block, core);
  }
}
