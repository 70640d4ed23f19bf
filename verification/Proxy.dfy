/** `proxy_mcp`: the gates in front of the upstream, the request that is forwarded, and what
    becomes of the response. Lexing, token decoding, the upstream and the client are given
    by the environment. */
module Proxy {
  import opened Texts
  import opened JsonTrees
  import opened JsonTokens
  import opened JsonRpc
  import opened ScopePolicies
  import opened ToolPolicies
  import opened Scopes
  import opened Streaming
  import ToolsList

  // ----- configuration and environment -----

  datatype Settings = Settings(
    requireAuth: bool, hasVerifier: bool, allowedOrigins: set<Text>,
    maxRequestBytes: nat, maxResponseBytes: nat, maxToolsListBytes: nat,
    policy: ScopePolicy, toolPolicy: Option<ToolPolicy>)

  /** A Content-Length header: absent or not all digits, a number, or digits in the sense of
      `str.isdigit` that `int` refuses, as a superscript or thousands of them are. */
  datatype Declared = Undeclared | Length(n: nat) | Unreadable

  /** Origins are normalized; an absent bearer token is the empty text. The body arrives in
      chunks, after which the client may be found gone. `forwarded` are the values of the
      client's headers that may cross to the upstream. */
  datatype Request = Request(
    origin: Option<Text>, declared: Declared, chunks: seq<Bytes>, disconnects: bool, token: Text,
    forwarded: seq<Text>)

  /** Subject and claims of a token whose signature and registered claims check out. */
  datatype Decoded = Decoded(subject: Text, claims: Claims)

  datatype Upstream =
    | Unreachable
    | Responds(status: nat, isJson: bool, declared: Declared, chunks: seq<Bytes>, ending: Ending)

  /** `starts`: a streamed response gets as far as being read. */
  datatype Client = Client(starts: bool, leavesAt: Option<nat>)

  datatype Environment = Environment(
    lex: Bytes -> seq<Token>, decode: Text -> Option<Decoded>, upstream: Upstream, client: Client)

  // ----- audit -----

  datatype Decision = Pending | Allowed | Denied | Rejected | Errored

  datatype Code =
    | OriginNotAllowed | PayloadTooLarge | ServerMisconfigured | MissingToken | InvalidToken
    | BadRpc(error: RpcError)
    | InsufficientScope | InvalidToolCall | ToolNotAllowed | BadGateway
    | UnsupportedMediaType | ListTooLarge | ListReadFailed | ListFilterFailed | ListUpstreamError
    | ResponseTooLarge

  datatype AuditLine = AuditLine(
    decision: Decision, code: Option<Code>, name: Option<Text>, tool: Option<Text>,
    returned: Option<nat>, removed: Option<nat>)

  const BLANK := AuditLine(Pending, None, None, None, None, None)

  /** The record that a request fills in on its way, and that `emit` writes out as it
      stands. */
  class AuditContext {
    var record: AuditLine

    constructor ()
      ensures record == BLANK
    {
      record := BLANK;
    }

    method Resolved(name: Text, tool: Option<Text>)
      modifies this
      ensures record == old(record).(name := Some(name), tool := tool)
    {
      record := record.(name := Some(name), tool := tool);
    }

    method Counted(returned: nat, removed: nat)
      modifies this
      ensures record == old(record).(returned := Some(returned), removed := Some(removed))
    {
      record := record.(returned := Some(returned), removed := Some(removed));
    }

    /** Set the decision and `emit`. */
    method Emit(decision: Decision, code: Option<Code>) returns (e: Event)
      modifies this
      ensures record == old(record).(decision := decision, code := code) && e == Emitted(record)
    {
      record := record.(decision := decision, code := code);
      return Emitted(record);
    }
  }

  datatype Event =
    | Emitted(line: AuditLine)
    | Sent(body: seq<Token>, subject: Option<Text>, scopes: Option<Text>)
    | Connected
    | Closed
    | Yielded(chunk: Bytes)
    | StreamEmitted(result: StreamResult, bytes: nat)

  datatype Reply =
    | Answer(code: Code)
    | FilteredPage(body: seq<Token>)
    | Streaming
    | Unhandled  // an exception that no handler turns into an audited answer

  // ----- identity -----

  datatype Verified = Verified(subject: Text, scopes: set<Text>, claims: Claims)

  /** `verify`, from the decoded token on; None is `TokenError`. */
  function Verify(decoded: Option<Decoded>): Option<Verified> {
    match decoded
    case None => None
    case Some(d) =>
      if !SubjectAccepted(d.subject) then None
      else match ScopesOf(d.claims) case None => None case Some(s) => Some(Verified(d.subject, s, d.claims))
  }

  /** The token decodes to this subject, safe in a header, and these claims, which grant
      these scopes. */
  ghost predicate Carries(decoded: Option<Decoded>, subject: Text, scopes: set<Text>, claims: Claims) {
    decoded == Some(Decoded(subject, claims)) && HeaderSafe(subject) && ScopesOf(claims) == Some(scopes)
  }

  /** Verification hands on what the token carries, and nothing else. */
  lemma VerifyExactly(decoded: Option<Decoded>, subject: Text, scopes: set<Text>, claims: Claims)
    ensures Verify(decoded) == Some(Verified(subject, scopes, claims)) <==> Carries(decoded, subject, scopes, claims)
    ensures Verify(decoded).Some? ==> var v := Verify(decoded).value; Carries(decoded, v.subject, v.scopes, v.claims)
  {
    if decoded.Some? {
      SubjectIsHeaderSafe(decoded.value.subject);
    }
  }

  function Identity(s: Settings, req: Request, env: Environment): Option<Verified> {
    if s.requireAuth then Verify(env.decode(req.token)) else None
  }

  function HeldScopes(identity: Option<Verified>): set<Text> {
    if identity.Some? then identity.value.scopes else {}
  }

  function ClaimsOf(identity: Option<Verified>): Option<Claims> {
    if identity.Some? then Some(identity.value.claims) else None
  }

  // ----- the gates, as the documentation lists them -----

  /** What a failed gate does to the request: an answer, with the line it is audited by, or
      an exception that leaves the handler. */
  datatype Verdict = Refuse(decision: Decision, code: Code, name: Option<Text>, tool: Option<Text>) | Crash

  datatype Gate = Gate(passes: bool, otherwise: Verdict)

  function BodyOf(req: Request, env: Environment): seq<Token> {
    env.lex(Concat(req.chunks))
  }

  predicate ToolGate(tp: Option<ToolPolicy>, claims: Option<Claims>, parse: RpcParse) {
    parse.Accepted? &&
    (tp.Some? && parse.name == TOOLS_CALL ==> parse.tool.Some? && Decide(tp.value, parse.tool.value, claims).allowed)
  }

  predicate OriginAllowed(s: Settings, req: Request) {
    req.origin.None? || req.origin.value in s.allowedOrigins
  }

  predicate DeclaredReadable(s: Settings, req: Request) {
    s.maxRequestBytes == 0 || !req.declared.Unreadable?
  }

  predicate DeclaredFits(s: Settings, req: Request) {
    s.maxRequestBytes > 0 && req.declared.Length? ==> req.declared.n <= s.maxRequestBytes
  }

  predicate BodyFits(s: Settings, req: Request) {
    s.maxRequestBytes == 0 || Size(req.chunks) <= s.maxRequestBytes
  }

  /** Before the body is looked at: origin, size, authentication. No method or tool is on
      record yet. */
  ghost function AdmissionGates(s: Settings, req: Request, identity: Option<Verified>): seq<Gate> {
    [ Gate(OriginAllowed(s, req), Refuse(Rejected, OriginNotAllowed, None, None)),
      Gate(DeclaredReadable(s, req), Crash),
      Gate(DeclaredFits(s, req), Refuse(Rejected, PayloadTooLarge, None, None)),
      Gate(BodyFits(s, req), Refuse(Rejected, PayloadTooLarge, None, None)),
      Gate(!req.disconnects, Crash),
      Gate(!s.requireAuth || s.hasVerifier, Refuse(Errored, ServerMisconfigured, None, None)),
      Gate(!s.requireAuth || req.token != [], Refuse(Rejected, MissingToken, None, None)),
      Gate(!s.requireAuth || identity.Some?, Refuse(Rejected, InvalidToken, None, None)) ]
  }

  function NameOf(parse: RpcParse): Option<Text> {
    if parse.Accepted? then Some(parse.name) else None
  }

  function ToolOf(parse: RpcParse): Option<Text> {
    if parse.Accepted? then parse.tool else None
  }

  /** On the parsed body: shape, scopes, tool. A refusal by policy records what was asked
      for. */
  ghost function AuthorizationGates(s: Settings, identity: Option<Verified>, parse: RpcParse): seq<Gate> {
    var name, tool := NameOf(parse), ToolOf(parse);
    [ Gate(!parse.Refused?, Refuse(Rejected, BadRpc(if parse.Refused? then parse.error else InvalidJson), None, None)),
      Gate(parse.Accepted?, Crash),
      Gate(parse.Accepted? && ScopePolicies.Check(s.policy, parse.name, HeldScopes(identity)).allowed,
           Refuse(Denied, InsufficientScope, name, tool)),
      Gate(s.toolPolicy.Some? && parse.Accepted? && parse.name == TOOLS_CALL ==> parse.tool.Some?,
           Refuse(Rejected, InvalidToolCall, name, tool)),
      Gate(ToolGate(s.toolPolicy, ClaimsOf(identity), parse), Refuse(Denied, ToolNotAllowed, name, tool)) ]
  }

  ghost function PolicyGates(s: Settings, req: Request, env: Environment): seq<Gate> {
    AdmissionGates(s, req, Identity(s, req, env)) +
    AuthorizationGates(s, Identity(s, req, env), ParseJsonRpc(BodyOf(req, env)))
  }

  /** Header values travel as ASCII. */
  predicate HeadersEncode(values: seq<Text>) {
    forall i | 0 <= i < |values| :: Ascii(values[i])
  }

  /** Last, the client library encodes the headers of the request to send. */
  ghost function ForwardingGates(req: Request): seq<Gate> {
    [ Gate(HeadersEncode(req.forwarded), Crash) ]
  }

  ghost function Gates(s: Settings, req: Request, env: Environment): seq<Gate> {
    PolicyGates(s, req, env) + ForwardingGates(req)
  }

  ghost predicate AllPass(gates: seq<Gate>) {
    forall i | 0 <= i < |gates| :: gates[i].passes
  }

  /** Gate `i` is the one that stops the request. */
  ghost predicate StopsAt(gates: seq<Gate>, i: nat) {
    i < |gates| && !gates[i].passes && forall k | 0 <= k < i :: gates[k].passes
  }

  // ----- what is sent -----

  function SubjectHeader(identity: Option<Verified>): Option<Text> {
    if identity.Some? then Some(identity.value.subject) else None
  }

  function ScopesHeader(identity: Option<Verified>): Option<Text> {
    if identity.Some? then Some(Header(identity.value.scopes)) else None
  }

  /** The values of all headers sent: those let through and the verified identity. */
  function HeadersOf(req: Request, identity: Option<Verified>): seq<Text> {
    req.forwarded +
    (match identity case None => [] case Some(v) => [v.subject, Header(v.scopes)])
  }

  /** An identity that `Verify` gave out never keeps a request from being encoded. */
  lemma IdentityEncodes(s: Settings, req: Request, env: Environment)
    ensures HeadersEncode(HeadersOf(req, Identity(s, req, env))) <==> HeadersEncode(req.forwarded)
  {
    var identity := Identity(s, req, env);
    var values := HeadersOf(req, identity);
    if identity.Some? {
      AcceptedScopesAreValid(env.decode(req.token).value.claims);
      HeaderIsAscii(identity.value.scopes);
    }
    assert forall i | 0 <= i < |req.forwarded| :: values[i] == req.forwarded[i];
  }

  // ----- the response -----

  /** The tools/list page is buffered and filtered instead of streamed. */
  predicate Filters(s: Settings, parse: RpcParse, up: Upstream) {
    s.toolPolicy.Some? && parse.Accepted? && parse.name == TOOLS_LIST && up.Responds? && up.status == 200
  }

  /** The reply to a request that passed the gates, and its audit line, if one is written. */
  datatype Outcome = Outcome(reply: Reply, line: Option<AuditLine>)

  function Failed(parse: RpcParse, decision: Decision, code: Code): Outcome {
    Outcome(Answer(code), Some(AuditLine(decision, Some(code), NameOf(parse), ToolOf(parse), None, None)))
  }

  ghost function PageOf(s: Settings, identity: Option<Verified>, env: Environment): ToolsList.FilterOutcome
    requires s.toolPolicy.Some? && env.upstream.Responds?
  {
    ToolsList.FilterSpec(env.lex(Concat(env.upstream.chunks)), s.toolPolicy.value, ClaimsOf(identity))
  }

  /** What the list branch ends with. Cancellation while the page is buffered closes the
      connection and propagates. */
  ghost function ListOutcome(s: Settings, identity: Option<Verified>, parse: RpcParse, env: Environment): Outcome
    requires s.toolPolicy.Some? && env.upstream.Responds?
  {
    var up := env.upstream;
    if !up.isJson then Failed(parse, Rejected, UnsupportedMediaType)
    else if Size(up.chunks) > s.maxToolsListBytes then Failed(parse, Rejected, ListTooLarge)
    else
      match up.ending
      case ReadError => Failed(parse, Rejected, ListReadFailed)
      case Cancelled => Outcome(Unhandled, None)
      case Ends =>
        match PageOf(s, identity, env)
        case Filtered(body, returned, removed) =>
          Outcome(FilteredPage(body),
                  Some(AuditLine(Allowed, None, NameOf(parse), ToolOf(parse), Some(returned), Some(removed))))
        case FilterFailed => Failed(parse, Rejected, ListFilterFailed)
        case UpstreamError => Failed(parse, Rejected, ListUpstreamError)
  }

  /** The declared length already breaks the response cap. */
  predicate DeclaredTooLarge(s: Settings, up: Upstream) {
    s.maxResponseBytes > 0 && up.Responds? && up.declared.Length? && up.declared.n > s.maxResponseBytes
  }

  /** The answer was to be streamed, but its declared length cannot be read: the handler dies
      holding the connection. */
  predicate AbandonsAnswer(s: Settings, parse: RpcParse, up: Upstream) {
    s.maxResponseBytes > 0 && up.Responds? && !Filters(s, parse, up) && up.declared.Unreadable?
  }

  ghost function OutcomeOf(s: Settings, identity: Option<Verified>, parse: RpcParse, env: Environment): Outcome {
    if env.upstream.Unreachable? then Failed(parse, Errored, BadGateway)
    else if Filters(s, parse, env.upstream) then ListOutcome(s, identity, parse, env)
    else if AbandonsAnswer(s, parse, env.upstream) then Outcome(Unhandled, None)
    else if DeclaredTooLarge(s, env.upstream) then Failed(parse, Rejected, ResponseTooLarge)
    else Outcome(Streaming, Some(AuditLine(Allowed, None, NameOf(parse), ToolOf(parse), None, None)))
  }

  function Written(line: Option<AuditLine>): seq<Event> {
    match line case None => [] case Some(l) => [Emitted(l)]
  }

  // ----- being stopped -----

  /** The request was stopped by gate `i`, in the manner that gate prescribes, down to every
      field of its audit line. */
  ghost predicate StoppedBy(gates: seq<Gate>, i: nat, reply: Reply, trace: seq<Event>) {
    StopsAt(gates, i) &&
    match gates[i].otherwise
    case Crash => reply == Unhandled && trace == []
    case Refuse(decision, code, name, tool) =>
      reply == Answer(code) && trace == [Emitted(AuditLine(decision, Some(code), name, tool, None, None))]
  }

  ghost predicate Stopped(gates: seq<Gate>, reply: Reply, trace: seq<Event>) {
    exists i: nat :: StoppedBy(gates, i, reply, trace)
  }

  lemma StoppedEarly(a: seq<Gate>, b: seq<Gate>, reply: Reply, trace: seq<Event>)
    requires Stopped(a, reply, trace)
    ensures Stopped(a + b, reply, trace) && !AllPass(a + b)
  {
    var i: nat :| StoppedBy(a, i, reply, trace);
    assert forall k | 0 <= k <= i :: (a + b)[k] == a[k];
    assert StoppedBy(a + b, i, reply, trace);
  }

  lemma StoppedLate(a: seq<Gate>, b: seq<Gate>, reply: Reply, trace: seq<Event>)
    requires AllPass(a) && Stopped(b, reply, trace)
    ensures Stopped(a + b, reply, trace) && !AllPass(a + b)
  {
    var i: nat :| StoppedBy(b, i, reply, trace);
    var gates := a + b;
    assert gates[|a| + i] == b[i];
    forall k | 0 <= k < |a| + i ensures gates[k].passes {
      if k < |a| {
        assert gates[k] == a[k];
      } else {
        assert gates[k] == b[k - |a|];
      }
    }
    assert StoppedBy(gates, |a| + i, reply, trace);
  }

  lemma BothPass(a: seq<Gate>, b: seq<Gate>)
    ensures AllPass(a + b) <==> AllPass(a) && AllPass(b)
  {
    assert forall k | 0 <= k < |a| :: (a + b)[k] == a[k];
    assert forall k | 0 <= k < |b| :: (a + b)[|a| + k] == b[k];
  }

  /** Origin, body size and authentication. A refusal leaves one audit line and nothing
      else. */
  method Admit(s: Settings, req: Request, env: Environment, audit: AuditContext)
    returns (refused: Option<Reply>, trace: seq<Event>, identity: Option<Verified>, body: Bytes)
    requires audit.record == BLANK
    modifies audit
    ensures refused.None? ==>
              AllPass(AdmissionGates(s, req, Identity(s, req, env))) && trace == [] &&
              identity == Identity(s, req, env) && body == Concat(req.chunks) && audit.record == BLANK
    ensures refused.Some? ==> Stopped(AdmissionGates(s, req, Identity(s, req, env)), refused.value, trace)
  {
    trace, identity, body := [], None, [];
    ghost var gates := AdmissionGates(s, req, Identity(s, req, env));
    if req.origin.Some? && req.origin.value !in s.allowedOrigins {
      var e := audit.Emit(Rejected, Some(OriginNotAllowed));
      refused, trace := Some(Answer(OriginNotAllowed)), [e];
      assert StoppedBy(gates, 0, refused.value, trace);
      return;
    }
    if s.maxRequestBytes > 0 && req.declared.Unreadable? {
      refused := Some(Unhandled);
      assert StoppedBy(gates, 1, refused.value, trace);
      return;
    }
    if s.maxRequestBytes > 0 && req.declared.Length? && req.declared.n > s.maxRequestBytes {
      var e := audit.Emit(Rejected, Some(PayloadTooLarge));
      refused, trace := Some(Answer(PayloadTooLarge)), [e];
      assert StoppedBy(gates, 2, refused.value, trace);
      return;
    }
    var buffered := Buffer(req.chunks, s.maxRequestBytes);
    if buffered.None? {
      var e := audit.Emit(Rejected, Some(PayloadTooLarge));
      refused, trace := Some(Answer(PayloadTooLarge)), [e];
      assert StoppedBy(gates, 3, refused.value, trace);
      return;
    }
    body := buffered.value;
    if req.disconnects {
      refused := Some(Unhandled);
      assert StoppedBy(gates, 4, refused.value, trace);
      return;
    }
    if s.requireAuth {
      if !s.hasVerifier {
        var e := audit.Emit(Errored, Some(ServerMisconfigured));
        refused, trace := Some(Answer(ServerMisconfigured)), [e];
        assert StoppedBy(gates, 5, refused.value, trace);
        return;
      }
      if req.token == [] {
        var e := audit.Emit(Rejected, Some(MissingToken));
        refused, trace := Some(Answer(MissingToken)), [e];
        assert StoppedBy(gates, 6, refused.value, trace);
        return;
      }
      identity := Verify(env.decode(req.token));
      if identity.None? {
        var e := audit.Emit(Rejected, Some(InvalidToken));
        refused, trace := Some(Answer(InvalidToken)), [e];
        assert StoppedBy(gates, 7, refused.value, trace);
        return;
      }
    }
    refused := None;
  }

  /** The parsed request against the scope policy and the tool policy. */
  method Authorize(s: Settings, identity: Option<Verified>, parse: RpcParse, audit: AuditContext)
    returns (refused: Option<Reply>, trace: seq<Event>)
    requires audit.record == BLANK
    modifies audit
    ensures refused.None? ==> AllPass(AuthorizationGates(s, identity, parse)) && trace == [] && parse.Accepted?
    ensures refused.None? ==> audit.record == BLANK.(name := Some(parse.name), tool := parse.tool)
    ensures refused.Some? ==> Stopped(AuthorizationGates(s, identity, parse), refused.value, trace)
  {
    trace := [];
    ghost var gates := AuthorizationGates(s, identity, parse);
    if parse.Refused? {
      var e := audit.Emit(Rejected, Some(BadRpc(parse.error)));
      refused, trace := Some(Answer(BadRpc(parse.error))), [e];
      assert StoppedBy(gates, 0, refused.value, trace);
      return;
    }
    if parse.Uncaught? {
      refused := Some(Unhandled);
      assert StoppedBy(gates, 1, refused.value, trace);
      return;
    }
    audit.Resolved(parse.name, parse.tool);
    var scopeDecision := ScopePolicies.Check(s.policy, parse.name, HeldScopes(identity));
    if !scopeDecision.allowed {
      var e := audit.Emit(Denied, Some(InsufficientScope));
      refused, trace := Some(Answer(InsufficientScope)), [e];
      assert StoppedBy(gates, 2, refused.value, trace);
      return;
    }
    if s.toolPolicy.Some? && parse.name == TOOLS_CALL {
      if parse.tool.None? {
        var e := audit.Emit(Rejected, Some(InvalidToolCall));
        refused, trace := Some(Answer(InvalidToolCall)), [e];
        assert StoppedBy(gates, 3, refused.value, trace);
        return;
      }
      var toolDecision := ToolPolicies.Check(s.toolPolicy.value, parse.tool.value, ClaimsOf(identity));
      if !toolDecision.allowed {
        var e := audit.Emit(Denied, Some(ToolNotAllowed));
        refused, trace := Some(Answer(ToolNotAllowed)), [e];
        assert StoppedBy(gates, 4, refused.value, trace);
        return;
      }
    }
    refused := None;
  }

  // ----- authorized is executed -----

  ghost predicate CallsAllowedTool(tp: ToolPolicy, claims: Option<Claims>, doc: Json, wins: Wins) {
    exists tool: Text :: ReadTool(doc, wins) == Some(Str(tool)) && Decide(tp, tool, claims).allowed
  }

  ghost predicate CallsAllowedMethod(s: Settings, held: set<Text>, claims: Option<Claims>, doc: Json, wins: Wins) {
    exists name: Text ::
      ReadMethod(doc, wins) == Some(Str(name)) &&
      ScopePolicies.Check(s.policy, name, held).allowed &&
      (s.toolPolicy.Some? && name == TOOLS_CALL ==> CallsAllowedTool(s.toolPolicy.value, claims, doc, wins))
  }

  /** Whatever JSON reader the upstream uses on `body` (first-wins or last-wins, keeping
      repeats or not, strict or tolerant about non-finite numbers), the method it reads is
      one these scopes may call, and a tools/call under a tool policy names a tool these
      claims may call; and a tolerant reader does read the body. */
  ghost predicate ExecutesOnlyAuthorized(s: Settings, held: set<Text>, claims: Option<Claims>, body: seq<Token>) {
    (forall hook :: Loads(body, Reader(hook, true)).Doc?) &&
    forall rd, wins, doc | Loads(body, rd) == Doc(doc) :: CallsAllowedMethod(s, held, claims, doc, wins)
  }

  lemma ReadsAuthorized(s: Settings, identity: Option<Verified>, raw: seq<Token>, rd: Reader, wins: Wins, doc: Json)
    requires ParseJsonRpc(raw).Accepted? && AllPass(AuthorizationGates(s, identity, ParseJsonRpc(raw)))
    requires Loads(ParseJsonRpc(raw).canonical, rd) == Doc(doc)
    ensures var name := ParseJsonRpc(raw).name;
            ReadMethod(doc, wins) == Some(Str(name)) &&
            ScopePolicies.Check(s.policy, name, HeldScopes(identity)).allowed &&
            (s.toolPolicy.Some? && name == TOOLS_CALL ==> CallsAllowedTool(s.toolPolicy.value, ClaimsOf(identity), doc, wins))
  {
    var gates := AuthorizationGates(s, identity, ParseJsonRpc(raw));
    assert gates[2].passes && gates[4].passes;
    CanonicalReads(raw, rd, doc, wins);
  }

  /** Once every gate has passed, what the upstream can execute from the forwarded body is
      what was authorized. */
  lemma AuthorizedIsExecuted(s: Settings, identity: Option<Verified>, raw: seq<Token>)
    requires AllPass(AuthorizationGates(s, identity, ParseJsonRpc(raw)))
    ensures ParseJsonRpc(raw).Accepted?
    ensures ExecutesOnlyAuthorized(s, HeldScopes(identity), ClaimsOf(identity), ParseJsonRpc(raw).canonical)
  {
    assert AuthorizationGates(s, identity, ParseJsonRpc(raw))[1].passes;
    forall hook ensures Loads(ParseJsonRpc(raw).canonical, Reader(hook, true)).Doc? {
      var tree := CanonicalLoads(raw, Reader(hook, true));
    }
    forall rd, wins, doc | Loads(ParseJsonRpc(raw).canonical, rd) == Doc(doc)
      ensures CallsAllowedMethod(s, HeldScopes(identity), ClaimsOf(identity), doc, wins)
    {
      ReadsAuthorized(s, identity, raw, rd, wins, doc);
    }
  }

  // ----- the whole request -----

  /** How the exchange with the upstream goes: no answer, an answer that is closed before
      the reply, or one that is left open for a stream. */
  datatype Branch = NoAnswer | ClosedFirst | LeftOpen

  function BranchOf(s: Settings, parse: RpcParse, up: Upstream): Branch {
    if up.Unreachable? then NoAnswer
    else if Filters(s, parse, up) || DeclaredTooLarge(s, up) then ClosedFirst
    else LeftOpen
  }

  /** The upstream events of a branch, all before its audit line. */
  function Prior(b: Branch, send: Event): seq<Event> {
    match b
    case NoAnswer => [send]
    case ClosedFirst => [send, Connected, Closed]
    case LeftOpen => [send, Connected]
  }

  function SendOf(s: Settings, req: Request, env: Environment): (e: Event)
    requires ParseJsonRpc(BodyOf(req, env)).Accepted?
    ensures e.Sent?
  {
    var identity := Identity(s, req, env);
    Sent(ParseJsonRpc(BodyOf(req, env)).canonical, SubjectHeader(identity), ScopesHeader(identity))
  }

  /** A request that passed every gate: its upstream events in order, then its audit line. */
  ghost predicate Exchange(s: Settings, req: Request, env: Environment, reply: Reply, trace: seq<Event>) {
    var parse := ParseJsonRpc(BodyOf(req, env));
    parse.Accepted? &&
    var outcome := OutcomeOf(s, Identity(s, req, env), parse, env);
    reply == outcome.reply &&
    trace == Prior(BranchOf(s, parse, env.upstream), SendOf(s, req, env)) + Written(outcome.line)
  }

  /** What becomes of a request, and its events up to the response. */
  ghost predicate Handled(s: Settings, req: Request, env: Environment, reply: Reply, trace: seq<Event>) {
    (AllPass(Gates(s, req, env)) ==> Exchange(s, req, env, reply, trace)) &&
    (!AllPass(Gates(s, req, env)) ==> Stopped(Gates(s, req, env), reply, trace))
  }

  /** The tools/list branch: buffer, filter, and audit with the counts. The connection is
      closed on every way out of the buffering. */
  method RelayList(s: Settings, identity: Option<Verified>, parse: RpcParse, env: Environment, audit: AuditContext)
    returns (reply: Reply, tail: seq<Event>)
    requires s.toolPolicy.Some? && env.upstream.Responds? && s.maxToolsListBytes > 0
    requires parse.Accepted? && audit.record == BLANK.(name := Some(parse.name), tool := parse.tool)
    modifies audit
    ensures reply == ListOutcome(s, identity, parse, env).reply
    ensures tail == Written(ListOutcome(s, identity, parse, env).line)
  {
    var up := env.upstream;
    if !up.isJson {
      var e := audit.Emit(Rejected, Some(UnsupportedMediaType));
      return Answer(UnsupportedMediaType), [e];
    }
    var body := Buffer(up.chunks, s.maxToolsListBytes);
    if body.None? {
      var e := audit.Emit(Rejected, Some(ListTooLarge));
      return Answer(ListTooLarge), [e];
    }
    if up.ending.Cancelled? {
      return Unhandled, [];
    }
    if up.ending.ReadError? {
      var e := audit.Emit(Rejected, Some(ListReadFailed));
      return Answer(ListReadFailed), [e];
    }
    var outcome := ToolsList.FilterToolsList(env.lex(body.value), s.toolPolicy.value, ClaimsOf(identity));
    if !outcome.Filtered? {
      var code := if outcome.UpstreamError? then ListUpstreamError else ListFilterFailed;
      var e := audit.Emit(Rejected, Some(code));
      return Answer(code), [e];
    }
    audit.Counted(outcome.returned, outcome.removed);
    var e := audit.Emit(Allowed, None);
    return FilteredPage(outcome.body), [e];
  }

  /** Step 3 of the handler: send, and deal with the answer. */
  method Forward(s: Settings, req: Request, identity: Option<Verified>, parse: RpcParse, env: Environment, audit: AuditContext)
    returns (reply: Reply, trace: seq<Event>)
    requires parse.Accepted? && s.maxToolsListBytes > 0 && identity == Identity(s, req, env)
    requires audit.record == BLANK.(name := Some(parse.name), tool := parse.tool)
    modifies audit
    ensures HeadersEncode(req.forwarded) ==>
              reply == OutcomeOf(s, identity, parse, env).reply &&
              trace == Prior(BranchOf(s, parse, env.upstream),
                             Sent(parse.canonical, SubjectHeader(identity), ScopesHeader(identity))) +
                       Written(OutcomeOf(s, identity, parse, env).line)
    ensures !HeadersEncode(req.forwarded) ==> reply == Unhandled && trace == []
  {
    IdentityEncodes(s, req, env);
    if !HeadersEncode(HeadersOf(req, identity)) {
      return Unhandled, [];
    }
    trace := [Sent(parse.canonical, SubjectHeader(identity), ScopesHeader(identity))];
    if env.upstream.Unreachable? {
      var e := audit.Emit(Errored, Some(BadGateway));
      return Answer(BadGateway), trace + [e];
    }
    var up := env.upstream;
    trace := trace + [Connected];
    if s.toolPolicy.Some? && parse.name == TOOLS_LIST && up.status == 200 {
      var tail;
      reply, tail := RelayList(s, identity, parse, env, audit);
      return reply, trace + [Closed] + tail;
    }
    if s.maxResponseBytes > 0 && up.declared.Unreadable? {
      return Unhandled, trace;
    }
    if s.maxResponseBytes > 0 && up.declared.Length? && up.declared.n > s.maxResponseBytes {
      var e := audit.Emit(Rejected, Some(ResponseTooLarge));
      return Answer(ResponseTooLarge), trace + [Closed] + [e];
    }
    var e := audit.Emit(Allowed, None);
    return Streaming, trace + [e];
  }

  /** `proxy_mcp`, up to the response it returns. */
  method ProxyMcp(s: Settings, req: Request, env: Environment) returns (reply: Reply, trace: seq<Event>)
    requires s.maxToolsListBytes > 0
    ensures AllPass(Gates(s, req, env)) ==> Exchange(s, req, env, reply, trace)
    ensures !AllPass(Gates(s, req, env)) ==> Stopped(Gates(s, req, env), reply, trace)
  {
    var audit := new AuditContext();
    ghost var admission := AdmissionGates(s, req, Identity(s, req, env));
    ghost var authorization := AuthorizationGates(s, Identity(s, req, env), ParseJsonRpc(BodyOf(req, env)));
    ghost var forwarding := ForwardingGates(req);
    var refused, events, identity, body := Admit(s, req, env, audit);
    if refused.Some? {
      StoppedEarly(admission, authorization, refused.value, events);
      StoppedEarly(admission + authorization, forwarding, refused.value, events);
      return refused.value, events;
    }
    var parse := ParseJsonRpc(env.lex(body));
    refused, events := Authorize(s, identity, parse, audit);
    if refused.Some? {
      StoppedLate(admission, authorization, refused.value, events);
      StoppedEarly(admission + authorization, forwarding, refused.value, events);
      return refused.value, events;
    }
    BothPass(admission, authorization);
    BothPass(admission + authorization, forwarding);
    reply, trace := Forward(s, req, identity, parse, env, audit);
    if !HeadersEncode(req.forwarded) {
      assert StoppedBy(forwarding, 0, reply, trace);
      StoppedLate(admission + authorization, forwarding, reply, trace);
    }
  }

  // ----- counting -----

  function One(b: bool): nat {
    if b then 1 else 0
  }

  function Count(trace: seq<Event>, p: Event -> bool): nat {
    if trace == [] then 0 else Count(trace[..|trace| - 1], p) + One(p(trace[|trace| - 1]))
  }

  lemma CountOne(trace: seq<Event>, e: Event, p: Event -> bool)
    ensures Count(trace + [e], p) == Count(trace, p) + One(p(e))
  {
    assert (trace + [e])[..|trace|] == trace;
  }

  function Yields(chunks: seq<Bytes>): (r: seq<Event>)
    ensures |r| == |chunks| && forall i | 0 <= i < |chunks| :: r[i] == Yielded(chunks[i])
  {
    seq(|chunks|, i requires 0 <= i < |chunks| => Yielded(chunks[i]))
  }

  lemma {:induction false} CountYields(trace: seq<Event>, chunks: seq<Bytes>, p: Event -> bool)
    requires forall c :: !p(Yielded(c))
    ensures Count(trace + Yields(chunks), p) == Count(trace, p)
    decreases |chunks|
  {
    if chunks == [] {
      assert trace + Yields(chunks) == trace;
    } else {
      var last := |chunks| - 1;
      CountYields(trace, chunks[..last], p);
      assert trace + Yields(chunks) == trace + Yields(chunks[..last]) + [Yielded(chunks[last])];
      CountOne(trace + Yields(chunks[..last]), Yielded(chunks[last]), p);
    }
  }

  datatype Kind = Audited | SentUp | ConnectedUp | ClosedUp | StreamAudited

  function Is(k: Kind): Event -> bool {
    match k
    case Audited => (e: Event) => e.Emitted?
    case SentUp => (e: Event) => e.Sent?
    case ConnectedUp => (e: Event) => e.Connected?
    case ClosedUp => (e: Event) => e.Closed?
    case StreamAudited => (e: Event) => e.StreamEmitted?
  }

  /** How a request went: every gate passed; the upstream answered; its answer was
      abandoned, as its declared length could not be read; its answer was streamed to a
      client that started to read it. */
  datatype Course = Course(passed: bool, answered: bool, abandoned: bool, streamed: bool)

  ghost function CourseOf(s: Settings, req: Request, env: Environment, streamed: bool): Course {
    var passed := AllPass(Gates(s, req, env));
    Course(passed, passed && env.upstream.Responds?,
           passed && AbandonsAnswer(s, ParseJsonRpc(BodyOf(req, env)), env.upstream), streamed)
  }

  /** How often each kind of event occurs: one decision unless the request died unhandled;
      one send, exactly if every gate passed; one connection, if the upstream answered it;
      one close for the connection, unless the answer was abandoned, or it was to be
      streamed and the client never started to read it; one stream event, exactly if it
      did. */
  function Expected(k: Kind, reply: Reply, c: Course): nat {
    match k
    case Audited => One(!reply.Unhandled?)
    case SentUp => One(c.passed)
    case ConnectedUp => One(c.answered)
    case ClosedUp => One(c.answered && !c.abandoned && (reply.Streaming? ==> c.streamed))
    case StreamAudited => One(c.streamed)
  }

  lemma CountPrior(b: Branch, send: Event, p: Event -> bool)
    ensures Count(Prior(b, send), p) ==
            One(p(send)) + One(!b.NoAnswer? && p(Connected)) + One(b.ClosedFirst? && p(Closed))
  {
    CountOne([], send, p);
    assert [] + [send] == [send];
    if !b.NoAnswer? {
      CountOne([send], Connected, p);
      assert [send] + [Connected] == [send, Connected];
    }
    if b.ClosedFirst? {
      CountOne([send, Connected], Closed, p);
      assert [send, Connected] + [Closed] == [send, Connected, Closed];
    }
  }

  lemma CountWritten(prior: seq<Event>, line: Option<AuditLine>, k: Kind)
    ensures Count(prior + Written(line), Is(k)) == Count(prior, Is(k)) + One(line.Some? && k.Audited?)
  {
    match line
    case None => assert prior + [] == prior;
    case Some(l) => CountOne(prior, Emitted(l), Is(k));
  }

  lemma OutcomeShape(s: Settings, identity: Option<Verified>, parse: RpcParse, env: Environment)
    ensures var outcome := OutcomeOf(s, identity, parse, env);
            var branch := BranchOf(s, parse, env.upstream);
            (outcome.line.None? <==> outcome.reply.Unhandled?) &&
            (branch.NoAnswer? <==> env.upstream.Unreachable?) &&
            (branch.LeftOpen? <==> outcome.reply.Streaming? || AbandonsAnswer(s, parse, env.upstream)) &&
            (AbandonsAnswer(s, parse, env.upstream) ==> outcome.reply.Unhandled?)
  {}

  lemma CountParts(b: Branch, send: Event, line: Option<AuditLine>, k: Kind)
    requires send.Sent?
    ensures Count(Prior(b, send) + Written(line), Is(k)) ==
            match k
            case Audited => One(line.Some?)
            case SentUp => 1
            case ConnectedUp => One(!b.NoAnswer?)
            case ClosedUp => One(b.ClosedFirst?)
            case StreamAudited => 0
  {
    CountPrior(b, send, Is(k));
    CountWritten(Prior(b, send), line, k);
  }

  lemma CountExchange(s: Settings, req: Request, env: Environment, reply: Reply, trace: seq<Event>, k: Kind)
    requires AllPass(Gates(s, req, env)) && Exchange(s, req, env, reply, trace)
    ensures Count(trace, Is(k)) == Expected(k, reply, CourseOf(s, req, env, false))
  {
    var parse := ParseJsonRpc(BodyOf(req, env));
    var identity := Identity(s, req, env);
    CountParts(BranchOf(s, parse, env.upstream), SendOf(s, req, env), OutcomeOf(s, identity, parse, env).line, k);
    OutcomeShape(s, identity, parse, env);
  }

  lemma StoppedShape(gates: seq<Gate>, reply: Reply, trace: seq<Event>)
    requires Stopped(gates, reply, trace)
    ensures reply.Unhandled? || reply.Answer?
    ensures if reply.Unhandled? then trace == [] else |trace| == 1 && trace[0].Emitted?
  {
    var i: nat :| StoppedBy(gates, i, reply, trace);
  }

  lemma CountLine(e: Event, k: Kind)
    requires e.Emitted?
    ensures Count([e], Is(k)) == One(k.Audited?)
  {
    CountOne([], e, Is(k));
    assert [] + [e] == [e];
  }

  lemma CountStopped(gates: seq<Gate>, reply: Reply, trace: seq<Event>, k: Kind)
    requires Stopped(gates, reply, trace)
    ensures Count(trace, Is(k)) == Expected(k, reply, Course(false, false, false, false))
  {
    StoppedShape(gates, reply, trace);
    if trace != [] {
      CountLine(trace[0], k);
      assert trace == [trace[0]];
    }
  }

  lemma CountHandled(s: Settings, req: Request, env: Environment, reply: Reply, trace: seq<Event>, k: Kind)
    requires Handled(s, req, env, reply, trace)
    ensures Count(trace, Is(k)) == Expected(k, reply, CourseOf(s, req, env, false))
  {
    if AllPass(Gates(s, req, env)) {
      CountExchange(s, req, env, reply, trace, k);
    } else {
      CountStopped(Gates(s, req, env), reply, trace, k);
    }
  }

  // ----- dying without an audit line -----

  /** The size of the upload is limited, and the length it declares cannot be read. */
  predicate DiesOnLength(s: Settings, req: Request) {
    OriginAllowed(s, req) && s.maxRequestBytes > 0 && req.declared.Unreadable?
  }

  /** The client leaves during an upload that nothing refused. */
  predicate DiesUploading(s: Settings, req: Request) {
    OriginAllowed(s, req) && DeclaredReadable(s, req) && DeclaredFits(s, req) && BodyFits(s, req) && req.disconnects
  }

  /** The request is admitted, and its canonical body holds a lone surrogate. */
  ghost predicate DiesEncoding(s: Settings, req: Request, env: Environment) {
    AllPass(AdmissionGates(s, req, Identity(s, req, env))) && CannotEncode(BodyOf(req, env))
  }

  /** The request is authorized, and a client header to be forwarded is not ASCII. */
  ghost predicate DiesForwarding(s: Settings, req: Request, env: Environment) {
    AllPass(PolicyGates(s, req, env)) && exists i | 0 <= i < |req.forwarded| :: !Ascii(req.forwarded[i])
  }

  /** The handler is cancelled while it buffers a tools/list page that is not yet too large. */
  ghost predicate DiesBuffering(s: Settings, req: Request, env: Environment) {
    AllPass(Gates(s, req, env)) && Filters(s, ParseJsonRpc(BodyOf(req, env)), env.upstream) &&
    env.upstream.isJson && Size(env.upstream.chunks) <= s.maxToolsListBytes && env.upstream.ending.Cancelled?
  }

  /** The size of the response is limited, and the length it declares cannot be read. */
  ghost predicate DiesOnAnswer(s: Settings, req: Request, env: Environment) {
    AllPass(Gates(s, req, env)) && AbandonsAnswer(s, ParseJsonRpc(BodyOf(req, env)), env.upstream)
  }

  /** The ways a request can die before it is sent. */
  ghost predicate DiesEarly(s: Settings, req: Request, env: Environment) {
    DiesOnLength(s, req) || DiesUploading(s, req) || DiesEncoding(s, req, env) || DiesForwarding(s, req, env)
  }

  /** The ways a request can die without an audit line. */
  ghost predicate Dies(s: Settings, req: Request, env: Environment) {
    DiesEarly(s, req, env) || DiesBuffering(s, req, env) || DiesOnAnswer(s, req, env)
  }

  lemma StopsInside(a: seq<Gate>, b: seq<Gate>, i: nat)
    requires StopsAt(a + b, i)
    ensures if i < |a| then StopsAt(a, i) && (a + b)[i] == a[i] && !AllPass(a)
            else AllPass(a) && StopsAt(b, i - |a|) && (a + b)[i] == b[i - |a|]
  {
    assert forall k | 0 <= k < |a| :: (a + b)[k] == a[k];
    assert forall k | 0 <= k < |b| :: (a + b)[|a| + k] == b[k];
  }

  lemma AdmissionCrash(s: Settings, req: Request, identity: Option<Verified>, i: nat)
    requires StopsAt(AdmissionGates(s, req, identity), i)
    ensures AdmissionGates(s, req, identity)[i].otherwise.Crash? <==> DiesOnLength(s, req) || DiesUploading(s, req)
  {
    var gates := AdmissionGates(s, req, identity);
    assert gates[0].passes || i == 0;
    assert gates[1].passes || i <= 1;
    assert gates[2].passes || i <= 2;
    assert gates[3].passes || i <= 3;
    assert gates[4].passes || i <= 4;
  }

  lemma AuthorizationCrash(s: Settings, identity: Option<Verified>, parse: RpcParse, i: nat)
    requires StopsAt(AuthorizationGates(s, identity, parse), i)
    ensures AuthorizationGates(s, identity, parse)[i].otherwise.Crash? <==> parse.Uncaught?
  {
    var gates := AuthorizationGates(s, identity, parse);
    assert gates[0].passes || i == 0;
    assert gates[1].passes || i <= 1;
  }

  /** An admitted request has got past the crashes of admission. */
  lemma AdmittedLives(s: Settings, req: Request, identity: Option<Verified>)
    requires AllPass(AdmissionGates(s, req, identity))
    ensures !DiesOnLength(s, req) && !DiesUploading(s, req)
  {
    assert AdmissionGates(s, req, identity)[1].passes;
    assert AdmissionGates(s, req, identity)[4].passes;
  }

  lemma PolicyCrash(s: Settings, req: Request, env: Environment, i: nat)
    requires StopsAt(PolicyGates(s, req, env), i)
    ensures PolicyGates(s, req, env)[i].otherwise.Crash? <==>
            DiesOnLength(s, req) || DiesUploading(s, req) || DiesEncoding(s, req, env)
  {
    var identity := Identity(s, req, env);
    var parse := ParseJsonRpc(BodyOf(req, env));
    var a := AdmissionGates(s, req, identity);
    StopsInside(a, AuthorizationGates(s, identity, parse), i);
    UncaughtExactly(BodyOf(req, env));
    if i < |a| {
      AdmissionCrash(s, req, identity, i);
    } else {
      AdmittedLives(s, req, identity);
      AuthorizationCrash(s, identity, parse, i - |a|);
    }
  }

  lemma AuthorizedLives(s: Settings, req: Request, env: Environment)
    requires AllPass(PolicyGates(s, req, env))
    ensures !DiesOnLength(s, req) && !DiesUploading(s, req) && !DiesEncoding(s, req, env)
    ensures ParseJsonRpc(BodyOf(req, env)).Accepted?
  {
    var identity := Identity(s, req, env);
    var parse := ParseJsonRpc(BodyOf(req, env));
    BothPass(AdmissionGates(s, req, identity), AuthorizationGates(s, identity, parse));
    AdmittedLives(s, req, identity);
    assert AuthorizationGates(s, identity, parse)[1].passes;
    UncaughtExactly(BodyOf(req, env));
  }

  /** A request that some gate stops dies of it exactly if one of the four conditions
      holds. */
  lemma CrashGates(s: Settings, req: Request, env: Environment, i: nat)
    requires StopsAt(Gates(s, req, env), i)
    ensures Gates(s, req, env)[i].otherwise.Crash? <==> DiesEarly(s, req, env)
  {
    var policy := PolicyGates(s, req, env);
    StopsInside(policy, ForwardingGates(req), i);
    if i < |policy| {
      PolicyCrash(s, req, env, i);
    } else {
      AuthorizedLives(s, req, env);
    }
  }

  lemma NoCrashGates(s: Settings, req: Request, env: Environment)
    requires AllPass(Gates(s, req, env))
    ensures !DiesEarly(s, req, env)
  {
    BothPass(PolicyGates(s, req, env), ForwardingGates(req));
    assert ForwardingGates(req)[0].passes;
    AuthorizedLives(s, req, env);
  }

  lemma DeadOutcome(s: Settings, req: Request, env: Environment)
    requires AllPass(Gates(s, req, env))
    ensures OutcomeOf(s, Identity(s, req, env), ParseJsonRpc(BodyOf(req, env)), env).reply.Unhandled? <==>
            DiesBuffering(s, req, env) || DiesOnAnswer(s, req, env)
  {}

  /** Of the exceptions in this model, those that end a request without a decision line are
      exactly these six. */
  lemma UnhandledExactly(s: Settings, req: Request, env: Environment, reply: Reply, trace: seq<Event>)
    requires Handled(s, req, env, reply, trace)
    ensures reply.Unhandled? <==> Dies(s, req, env)
    ensures reply.Unhandled? <==> !exists e :: e in trace && e.Emitted?
  {
    var gates := Gates(s, req, env);
    if AllPass(gates) {
      NoCrashGates(s, req, env);
      DeadOutcome(s, req, env);
      OutcomeShape(s, Identity(s, req, env), ParseJsonRpc(BodyOf(req, env)), env);
      var line := OutcomeOf(s, Identity(s, req, env), ParseJsonRpc(BodyOf(req, env)), env).line;
      assert line.Some? ==> Emitted(line.value) in trace;
    } else {
      var i: nat :| StoppedBy(gates, i, reply, trace);
      CrashGates(s, req, env, i);
      assert trace != [] ==> trace[0] in trace;
    }
  }

  lemma DiesBeforeSending(s: Settings, req: Request, env: Environment, reply: Reply, trace: seq<Event>)
    requires DiesEarly(s, req, env) && Handled(s, req, env, reply, trace)
    ensures reply == Unhandled && trace == []
  {
    if AllPass(Gates(s, req, env)) {
      NoCrashGates(s, req, env);
    }
    UnhandledExactly(s, req, env, reply, trace);
  }

  lemma OpenAdmission(s: Settings, req: Request, identity: Option<Verified>)
    requires !s.requireAuth && s.maxRequestBytes == 0 && req.origin.None? && !req.disconnects
    ensures AllPass(AdmissionGates(s, req, identity))
  {}

  /** Such requests exist: with authentication and limits off, a short body with a lone
      surrogate gets no answer and leaves no line. */
  lemma SurrogateDies(s: Settings, req: Request, env: Environment)
    requires !s.requireAuth && s.maxRequestBytes == 0 && req.origin.None? && !req.disconnects
    requires BodyOf(req, env) == TwoMembers(TStr([0xD800]))
    ensures DiesEncoding(s, req, env) && !AllPass(Gates(s, req, env))
    ensures forall reply, trace | Handled(s, req, env, reply, trace) :: reply == Unhandled && trace == []
  {
    SurrogateEscapes(BodyOf(req, env));
    OpenAdmission(s, req, Identity(s, req, env));
    if AllPass(Gates(s, req, env)) {
      NoCrashGates(s, req, env);
    }
    forall reply, trace | Handled(s, req, env, reply, trace) ensures reply == Unhandled && trace == [] {
      DiesBeforeSending(s, req, env, reply, trace);
    }
  }

  lemma OpenAuthorization(s: Settings, identity: Option<Verified>, parse: RpcParse)
    requires s.policy == ScopePolicy(map[], {}, false) && s.toolPolicy.None? && parse.Accepted?
    ensures AllPass(AuthorizationGates(s, identity, parse))
  {
    RequiredIsLongest(s.policy.rules, parse.name, []);
    CheckMeaning(s.policy, parse.name, HeldScopes(identity));
  }

  /** So does one that every policy lets through, if a header to be forwarded has the value
      U+00E9. */
  lemma AccentDies(s: Settings, req: Request, env: Environment)
    requires !s.requireAuth && s.maxRequestBytes == 0 && req.origin.None? && !req.disconnects
    requires s.policy == ScopePolicy(map[], {}, false) && s.toolPolicy.None?
    requires BodyOf(req, env) == TwoMembers(TStr([0x70])) && req.forwarded == [[0xE9]]
    ensures AllPass(PolicyGates(s, req, env)) && DiesForwarding(s, req, env)
    ensures forall reply, trace | Handled(s, req, env, reply, trace) :: reply == Unhandled && trace == []
  {
    var identity := Identity(s, req, env);
    var raw := BodyOf(req, env);
    SampleAccepted(raw);
    OpenAdmission(s, req, identity);
    OpenAuthorization(s, identity, ParseJsonRpc(raw));
    BothPass(AdmissionGates(s, req, identity), AuthorizationGates(s, identity, ParseJsonRpc(raw)));
    assert !Ascii(req.forwarded[0]) by {
      assert req.forwarded[0][0] == 0xE9;
    }
    forall reply, trace | Handled(s, req, env, reply, trace) ensures reply == Unhandled && trace == [] {
      DiesBeforeSending(s, req, env, reply, trace);
    }
  }

  // ----- what was sent -----

  /** Nothing is wrong with the request before its body is looked at. */
  ghost predicate Admissible(s: Settings, req: Request) {
    (req.origin.Some? ==> req.origin.value in s.allowedOrigins) &&
    (s.maxRequestBytes > 0 ==>
       !req.declared.Unreadable? && (req.declared.Length? ==> req.declared.n <= s.maxRequestBytes) &&
       |Concat(req.chunks)| <= s.maxRequestBytes) &&
    !req.disconnects
  }

  lemma AdmissionExactly(s: Settings, req: Request, identity: Option<Verified>)
    ensures AllPass(AdmissionGates(s, req, identity)) <==>
            Admissible(s, req) && (s.requireAuth ==> s.hasVerifier && req.token != [] && identity.Some?)
  {
    var gates := AdmissionGates(s, req, identity);
    assert AllPass(gates) <==> AllPass(gates[..4]) && gates[4].passes && gates[5].passes && gates[6].passes && gates[7].passes;
    assert AllPass(gates[..4]) <==> gates[0].passes && gates[1].passes && gates[2].passes && gates[3].passes;
  }

  lemma OnlySend(b: Branch, send: Event, line: Option<AuditLine>, e: Event)
    requires e in Prior(b, send) + Written(line) && e.Sent?
    ensures e == send
  {}

  /** The header lists these scopes: its words are they. */
  ghost predicate Lists(header: Option<Text>, scopes: set<Text>) {
    header.Some? && forall t :: t in scopes <==> Word(header.value, t)
  }

  /** Whom the request speaks for: with authentication, the bearer of a token that carries
      these; without it, nobody. */
  ghost predicate SpeaksFor(s: Settings, req: Request, env: Environment, subject: Option<Text>, held: set<Text>,
                            claims: Option<Claims>) {
    if s.requireAuth then
      s.hasVerifier && req.token != [] && subject.Some? && claims.Some? &&
      Carries(env.decode(req.token), subject.value, held, claims.value)
    else subject == None && held == {} && claims == None
  }

  /** What was sent prints a tree that the body of the request loads as, can execute only
      what whom it speaks for may, and names them in its headers. */
  ghost predicate SentFor(s: Settings, req: Request, env: Environment, e: Event, subject: Option<Text>,
                          held: set<Text>, claims: Option<Claims>)
    requires e.Sent?
  {
    SpeaksFor(s, req, env, subject, held, claims) &&
    (exists data :: Loads(env.lex(Concat(req.chunks)), GATEWAY) == Doc(data) && e.body == Print(data)) &&
    ExecutesOnlyAuthorized(s, held, claims, e.body) &&
    e.subject == subject && (if s.requireAuth then Lists(e.scopes, held) else e.scopes == None)
  }

  ghost predicate SentAsAuthorized(s: Settings, req: Request, env: Environment, e: Event)
    requires e.Sent?
  {
    exists subject, held, claims :: SentFor(s, req, env, e, subject, held, claims)
  }

  lemma IdentityExactly(s: Settings, req: Request, env: Environment, subject: Option<Text>, held: set<Text>,
                        claims: Option<Claims>)
    ensures var identity := Identity(s, req, env);
            SpeaksFor(s, req, env, subject, held, claims) <==>
            (s.requireAuth ==> s.hasVerifier && req.token != [] && identity.Some?) &&
            subject == SubjectHeader(identity) && held == HeldScopes(identity) && claims == ClaimsOf(identity)
  {
    var decoded := env.decode(req.token);
    VerifyExactly(decoded, [], {}, map[]);
    if subject.Some? && claims.Some? {
      VerifyExactly(decoded, subject.value, held, claims.value);
    }
  }

  lemma HeaderLists(s: Settings, req: Request, env: Environment)
    requires Identity(s, req, env).Some?
    ensures Lists(ScopesHeader(Identity(s, req, env)), HeldScopes(Identity(s, req, env)))
  {
    var identity := Identity(s, req, env);
    VerifyExactly(env.decode(req.token), [], {}, map[]);
    AcceptedScopesAreValid(identity.value.claims);
    HeaderSplits(identity.value.scopes);
    var header := Header(identity.value.scopes);
    forall t ensures t in identity.value.scopes <==> Word(header, t) {
      SplitIsPieces(header, SPACE, t);
      assert t in SetOf(NonEmpty(Split(header, SPACE))) <==> t in NonEmpty(Split(header, SPACE));
    }
  }

  lemma SendIsAuthorized(s: Settings, req: Request, env: Environment)
    requires AllPass(Gates(s, req, env))
    ensures ParseJsonRpc(BodyOf(req, env)).Accepted? && SentAsAuthorized(s, req, env, SendOf(s, req, env))
  {
    var identity := Identity(s, req, env);
    var raw := BodyOf(req, env);
    BothPass(PolicyGates(s, req, env), ForwardingGates(req));
    BothPass(AdmissionGates(s, req, identity), AuthorizationGates(s, identity, ParseJsonRpc(raw)));
    AdmissionExactly(s, req, identity);
    AuthorizedIsExecuted(s, identity, raw);
    var data := AcceptedTree(raw);
    IdentityExactly(s, req, env, SubjectHeader(identity), HeldScopes(identity), ClaimsOf(identity));
    if s.requireAuth {
      HeaderLists(s, req, env);
    }
    assert SentFor(s, req, env, SendOf(s, req, env), SubjectHeader(identity), HeldScopes(identity), ClaimsOf(identity));
  }

  /** Nothing is sent but the canonical body of a request that passed every gate. */
  lemma SendsAuthorized(s: Settings, req: Request, env: Environment, reply: Reply, trace: seq<Event>)
    requires Handled(s, req, env, reply, trace)
    ensures forall e | e in trace && e.Sent? :: SentAsAuthorized(s, req, env, e)
  {
    if AllPass(Gates(s, req, env)) {
      SendIsAuthorized(s, req, env);
      var identity := Identity(s, req, env);
      var parse := ParseJsonRpc(BodyOf(req, env));
      var send := SendOf(s, req, env);
      forall e | e in trace && e.Sent? ensures SentAsAuthorized(s, req, env, e) {
        OnlySend(BranchOf(s, parse, env.upstream), send, OutcomeOf(s, identity, parse, env).line, e);
      }
    } else {
      var i: nat :| StoppedBy(Gates(s, req, env), i, reply, trace);
    }
  }

  // ----- which request gets which reply -----

  /** What these scopes and claims allow. */
  ghost predicate Allows(s: Settings, parse: RpcParse, held: set<Text>, claims: Option<Claims>) {
    parse.Accepted? && ScopePolicies.Check(s.policy, parse.name, held).allowed &&
    (s.toolPolicy.Some? && parse.name == TOOLS_CALL ==>
       parse.tool.Some? && Decide(s.toolPolicy.value, parse.tool.value, claims).allowed)
  }

  lemma AuthorizationExactly(s: Settings, identity: Option<Verified>, parse: RpcParse)
    ensures AllPass(AuthorizationGates(s, identity, parse)) <==>
            Allows(s, parse, HeldScopes(identity), ClaimsOf(identity))
  {
    var gates := AuthorizationGates(s, identity, parse);
    assert AllPass(gates) <==> gates[0].passes && gates[1].passes && gates[2].passes && gates[3].passes && gates[4].passes;
  }

  /** The request may go to the upstream, on behalf of someone with these scopes and claims. */
  ghost predicate MayGo(s: Settings, req: Request, env: Environment, subject: Option<Text>, held: set<Text>,
                        claims: Option<Claims>) {
    Admissible(s, req) && SpeaksFor(s, req, env, subject, held, claims) &&
    Allows(s, ParseJsonRpc(BodyOf(req, env)), held, claims) &&
    forall v | v in req.forwarded :: forall c | c in v :: c < 0x80
  }

  lemma EncodesByCharacter(values: seq<Text>)
    ensures HeadersEncode(values) <==> forall v | v in values :: forall c | c in v :: c < 0x80
  {
    if HeadersEncode(values) {
      forall v, c | v in values && c in v ensures c < 0x80 {
        var i :| 0 <= i < |values| && values[i] == v;
        assert Ascii(values[i]);
        var k :| 0 <= k < |v| && v[k] == c;
      }
    }
    if forall v | v in values :: forall c | c in v :: c < 0x80 {
      forall i | 0 <= i < |values| ensures Ascii(values[i]) {
        assert values[i] in values;
        forall k | 0 <= k < |values[i]| ensures values[i][k] < 0x80 {
          assert values[i][k] in values[i];
        }
      }
    }
  }

  /** The gates pass exactly for the requests that may go. */
  lemma GatesExactly(s: Settings, req: Request, env: Environment)
    ensures AllPass(Gates(s, req, env)) <==> exists subject, held, claims :: MayGo(s, req, env, subject, held, claims)
    ensures forall subject, held, claims | MayGo(s, req, env, subject, held, claims) ::
              var identity := Identity(s, req, env);
              subject == SubjectHeader(identity) && held == HeldScopes(identity) && claims == ClaimsOf(identity)
  {
    var identity := Identity(s, req, env);
    var parse := ParseJsonRpc(BodyOf(req, env));
    BothPass(PolicyGates(s, req, env), ForwardingGates(req));
    BothPass(AdmissionGates(s, req, identity), AuthorizationGates(s, identity, parse));
    AdmissionExactly(s, req, identity);
    AuthorizationExactly(s, identity, parse);
    EncodesByCharacter(req.forwarded);
    assert AllPass(ForwardingGates(req)) <==> ForwardingGates(req)[0].passes;
    forall subject, held, claims
      ensures SpeaksFor(s, req, env, subject, held, claims) <==>
              (s.requireAuth ==> s.hasVerifier && req.token != [] && identity.Some?) &&
              subject == SubjectHeader(identity) && held == HeldScopes(identity) && claims == ClaimsOf(identity)
    {
      IdentityExactly(s, req, env, subject, held, claims);
    }
    if AllPass(Gates(s, req, env)) {
      assert MayGo(s, req, env, SubjectHeader(identity), HeldScopes(identity), ClaimsOf(identity));
    }
  }

  lemma StoppedPart(a: seq<Gate>, b: seq<Gate>, i: nat, reply: Reply, trace: seq<Event>)
    requires StoppedBy(a + b, i, reply, trace)
    ensures if i < |a| then StoppedBy(a, i, reply, trace) && !AllPass(a)
            else AllPass(a) && StoppedBy(b, i - |a|, reply, trace)
  {
    StopsInside(a, b, i);
  }

  /** How a request that is stopped before its body is looked at is answered. */
  ghost predicate AnsweredEarly(s: Settings, req: Request, identity: Option<Verified>, reply: Reply) {
    var limit := s.maxRequestBytes;
    var known := req.origin.Some? ==> req.origin.value in s.allowedOrigins;
    var readable := limit > 0 ==> !req.declared.Unreadable?;
    var large := limit > 0 && ((req.declared.Length? && req.declared.n > limit) || |Concat(req.chunks)| > limit);
    if !known then reply == Answer(OriginNotAllowed)
    else if !readable then reply == Unhandled
    else if large then reply == Answer(PayloadTooLarge)
    else if req.disconnects then reply == Unhandled
    else if !s.hasVerifier then reply == Answer(ServerMisconfigured)
    else if req.token == [] then reply == Answer(MissingToken)
    else reply == Answer(InvalidToken) && identity.None?
  }

  lemma AdmissionReply(s: Settings, req: Request, identity: Option<Verified>, i: nat, reply: Reply, trace: seq<Event>)
    requires StoppedBy(AdmissionGates(s, req, identity), i, reply, trace)
    ensures AnsweredEarly(s, req, identity, reply)
  {
    var gates := AdmissionGates(s, req, identity);
    assert i < 8;
    assert gates[0].passes || i == 0;
    assert gates[1].passes || i <= 1;
    assert gates[2].passes || i <= 2;
    assert gates[3].passes || i <= 3;
    assert gates[4].passes || i <= 4;
    assert gates[5].passes || i <= 5;
    assert gates[6].passes || i <= 6;
  }

  /** How a request is answered whose body is refused, or that asks for too much. */
  ghost predicate AnsweredByPolicy(s: Settings, parse: RpcParse, held: set<Text>, reply: Reply) {
    match parse
    case Refused(error) => reply == Answer(BadRpc(error))
    case Uncaught => reply == Unhandled
    case Accepted(name, tool, _) =>
      if !ScopePolicies.Check(s.policy, name, held).allowed then reply == Answer(InsufficientScope)
      else
        s.toolPolicy.Some? && name == TOOLS_CALL &&
        reply == Answer(if tool.None? then InvalidToolCall else ToolNotAllowed)
  }

  lemma AuthorizationReply(s: Settings, identity: Option<Verified>, parse: RpcParse, i: nat, reply: Reply, trace: seq<Event>)
    requires StoppedBy(AuthorizationGates(s, identity, parse), i, reply, trace)
    ensures AnsweredByPolicy(s, parse, HeldScopes(identity), reply)
  {
    var gates := AuthorizationGates(s, identity, parse);
    assert i < 5;
    assert gates[0].passes || i == 0;
    assert gates[1].passes || i <= 1;
    assert gates[2].passes || i <= 2;
    assert gates[3].passes || i <= 3;
  }

  /** Every reply short of the upstream, in exactly its case. A request that is inadmissible
      or speaks for nobody is answered early; else, for whom it speaks, by policy if that
      does not allow it; else it dies if a forwarded header does not encode. */
  lemma StoppedExactly(s: Settings, req: Request, env: Environment, reply: Reply, trace: seq<Event>)
    requires Handled(s, req, env, reply, trace)
    ensures !(Admissible(s, req) && exists subject, held, claims :: SpeaksFor(s, req, env, subject, held, claims)) ==>
              AnsweredEarly(s, req, Identity(s, req, env), reply)
    ensures forall subject, held, claims | Admissible(s, req) && SpeaksFor(s, req, env, subject, held, claims) ::
              var parse := ParseJsonRpc(BodyOf(req, env));
              (!Allows(s, parse, held, claims) ==> AnsweredByPolicy(s, parse, held, reply)) &&
              (Allows(s, parse, held, claims) && !MayGo(s, req, env, subject, held, claims) ==> reply == Unhandled)
  {
    var identity := Identity(s, req, env);
    var parse := ParseJsonRpc(BodyOf(req, env));
    var a, b, c := AdmissionGates(s, req, identity), AuthorizationGates(s, identity, parse), ForwardingGates(req);
    GatesExactly(s, req, env);
    AdmissionExactly(s, req, identity);
    AuthorizationExactly(s, identity, parse);
    forall subject, held, claims
      ensures SpeaksFor(s, req, env, subject, held, claims) <==>
              (s.requireAuth ==> s.hasVerifier && req.token != [] && identity.Some?) &&
              subject == SubjectHeader(identity) && held == HeldScopes(identity) && claims == ClaimsOf(identity)
    {
      IdentityExactly(s, req, env, subject, held, claims);
    }
    if AllPass(a) {
      assert SpeaksFor(s, req, env, SubjectHeader(identity), HeldScopes(identity), ClaimsOf(identity));
    }
    if !AllPass(Gates(s, req, env)) {
      var i: nat :| StoppedBy(a + b + c, i, reply, trace);
      StoppedPart(a + b, c, i, reply, trace);
      if i < |a + b| {
        StoppedPart(a, b, i, reply, trace);
        if i < |a| {
          AdmissionReply(s, req, identity, i, reply, trace);
        } else {
          AuthorizationReply(s, identity, parse, i - |a|, reply, trace);
        }
      } else {
        BothPass(a, b);
      }
    }
  }

  /** How an answer to a tools/list is relayed under a tool policy: never as it came. */
  ghost predicate AnsweredAsList(s: Settings, claims: Option<Claims>, env: Environment, reply: Reply)
    requires s.toolPolicy.Some? && env.upstream.Responds?
  {
    var up := env.upstream;
    var page := ToolsList.FilterSpec(env.lex(Concat(up.chunks)), s.toolPolicy.value, claims);
    if !up.isJson then reply == Answer(UnsupportedMediaType)
    else if |Concat(up.chunks)| > s.maxToolsListBytes then reply == Answer(ListTooLarge)
    else if up.ending.ReadError? then reply == Answer(ListReadFailed)
    else if up.ending.Cancelled? then reply == Unhandled
    else if page.Filtered? then reply == FilteredPage(page.body)
    else reply == Answer(if page.UpstreamError? then ListUpstreamError else ListFilterFailed)
  }

  /** How any other answer is relayed. */
  ghost predicate AnsweredAsStream(s: Settings, up: Upstream, reply: Reply)
    requires up.Responds?
  {
    if s.maxResponseBytes > 0 && up.declared.Unreadable? then reply == Unhandled
    else if s.maxResponseBytes > 0 && up.declared.Length? && up.declared.n > s.maxResponseBytes then
      reply == Answer(ResponseTooLarge)
    else reply == Streaming
  }

  lemma ListReply(s: Settings, identity: Option<Verified>, parse: RpcParse, env: Environment)
    requires s.toolPolicy.Some? && env.upstream.Responds?
    ensures AnsweredAsList(s, ClaimsOf(identity), env, ListOutcome(s, identity, parse, env).reply)
  {}

  lemma OutcomeReply(s: Settings, identity: Option<Verified>, parse: RpcParse, env: Environment)
    requires parse.Accepted?
    ensures var up, reply := env.upstream, OutcomeOf(s, identity, parse, env).reply;
            if up.Unreachable? then reply == Answer(BadGateway)
            else if s.toolPolicy.Some? && parse.name == TOOLS_LIST && up.status == 200
            then AnsweredAsList(s, ClaimsOf(identity), env, reply)
            else AnsweredAsStream(s, up, reply)
  {
    if s.toolPolicy.Some? && env.upstream.Responds? {
      ListReply(s, identity, parse, env);
    }
  }

  /** Every reply to a request that may go, in exactly its case. In particular the answer to
      a tools/list under a tool policy, if its status is 200, is never streamed, and no other
      answer is filtered or refused for a reason that has to do with lists. */
  lemma RelayedExactly(s: Settings, req: Request, env: Environment, reply: Reply, trace: seq<Event>, subject: Option<Text>,
                       held: set<Text>, claims: Option<Claims>)
    requires Handled(s, req, env, reply, trace) && MayGo(s, req, env, subject, held, claims)
    ensures var up, parse := env.upstream, ParseJsonRpc(BodyOf(req, env));
            if up.Unreachable? then reply == Answer(BadGateway)
            else if s.toolPolicy.Some? && parse.name == TOOLS_LIST && up.status == 200
            then AnsweredAsList(s, claims, env, reply)
            else AnsweredAsStream(s, up, reply)
  {
    GatesExactly(s, req, env);
    OutcomeReply(s, Identity(s, req, env), ParseJsonRpc(BodyOf(req, env)), env);
  }

  /** The events up to the response, by the reply: the send comes first; an answer is closed
      before anything is audited, unless it is to be streamed or its length was unreadable;
      one line at most, and last. A request that may not go leaves its line or nothing. */
  lemma EventsInOrder(s: Settings, req: Request, env: Environment, reply: Reply, trace: seq<Event>)
    requires Handled(s, req, env, reply, trace)
    ensures var may := exists subject, held, claims :: MayGo(s, req, env, subject, held, claims);
            var up, audits := env.upstream, if reply.Unhandled? then 0 else 1;
            var listed := s.toolPolicy.Some? && ParseJsonRpc(BodyOf(req, env)).Accepted? &&
                          ParseJsonRpc(BodyOf(req, env)).name == TOOLS_LIST && up.Responds? && up.status == 200;
            var open := !listed && (reply.Streaming? || reply.Unhandled?);
            var before := if !may then 0 else if up.Unreachable? then 1 else if open then 2 else 3;
            |trace| == before + audits &&
            (audits == 1 ==> trace[before].Emitted?) &&
            (before >= 1 ==> trace[0].Sent?) && (before >= 2 ==> trace[1] == Connected) && (before == 3 ==> trace[2] == Closed)
  {
    GatesExactly(s, req, env);
    var parse := ParseJsonRpc(BodyOf(req, env));
    if AllPass(Gates(s, req, env)) {
      OutcomeShape(s, Identity(s, req, env), parse, env);
      OutcomeReply(s, Identity(s, req, env), parse, env);
    } else {
      StoppedShape(Gates(s, req, env), reply, trace);
    }
  }

  // ----- what is audited -----

  /** The decision that goes with a reply. */
  function DecisionOf(reply: Reply): Decision {
    match reply
    case Answer(ServerMisconfigured) => Errored
    case Answer(BadGateway) => Errored
    case Answer(InsufficientScope) => Denied
    case Answer(ToolNotAllowed) => Denied
    case Answer(_) => Rejected
    case _ => Allowed
  }

  /** The reply was given before a method was read from the body. */
  predicate BeforeMethod(reply: Reply) {
    reply.Answer? &&
    (reply.code.OriginNotAllowed? || reply.code.PayloadTooLarge? || reply.code.ServerMisconfigured? ||
     reply.code.MissingToken? || reply.code.InvalidToken? || reply.code.BadRpc?)
  }

  /** The audit line tells the reply: its decision, its code, and the method and tool that
      were read, if any were. */
  ghost predicate TellsReply(parse: RpcParse, reply: Reply, line: AuditLine) {
    line.decision == DecisionOf(reply) &&
    line.code == (if reply.Answer? then Some(reply.code) else None) &&
    if BeforeMethod(reply) then line.name == None && line.tool == None
    else parse.Accepted? && line.name == Some(parse.name) && line.tool == parse.tool
  }

  /** And what was counted, exactly if a page was filtered. */
  ghost predicate TellsCounts(s: Settings, identity: Option<Verified>, env: Environment, reply: Reply, line: AuditLine) {
    if reply.FilteredPage? then
      s.toolPolicy.Some? && env.upstream.Responds? &&
      var page := PageOf(s, identity, env);
      page.Filtered? && line.returned == Some(page.returned) && line.removed == Some(page.removed)
    else line.returned == None && line.removed == None
  }

  ghost predicate Tells(s: Settings, req: Request, env: Environment, reply: Reply, line: AuditLine) {
    TellsReply(ParseJsonRpc(BodyOf(req, env)), reply, line) && TellsCounts(s, Identity(s, req, env), env, reply, line)
  }

  lemma AdmissionTells(s: Settings, req: Request, identity: Option<Verified>, parse: RpcParse, i: nat, reply: Reply,
                       trace: seq<Event>, line: AuditLine)
    requires StoppedBy(AdmissionGates(s, req, identity), i, reply, trace) && Emitted(line) in trace
    ensures reply.Answer? && TellsReply(parse, reply, line) && line.returned == None && line.removed == None
  {
    assert i < 8;
  }

  lemma AuthorizationTells(s: Settings, identity: Option<Verified>, parse: RpcParse, i: nat, reply: Reply,
                           trace: seq<Event>, line: AuditLine)
    requires StoppedBy(AuthorizationGates(s, identity, parse), i, reply, trace) && Emitted(line) in trace
    ensures reply.Answer? && TellsReply(parse, reply, line) && line.returned == None && line.removed == None
  {
    var gates := AuthorizationGates(s, identity, parse);
    assert i < 5;
    assert gates[0].passes || i == 0;
    assert gates[1].passes || i <= 1;
  }

  lemma ListOutcomeTells(s: Settings, identity: Option<Verified>, parse: RpcParse, env: Environment)
    requires parse.Accepted? && s.toolPolicy.Some? && env.upstream.Responds?
    ensures var outcome := ListOutcome(s, identity, parse, env);
            outcome.line.Some? ==>
              TellsReply(parse, outcome.reply, outcome.line.value) &&
              TellsCounts(s, identity, env, outcome.reply, outcome.line.value)
  {}

  lemma OutcomeTells(s: Settings, identity: Option<Verified>, parse: RpcParse, env: Environment)
    requires parse.Accepted?
    ensures var outcome := OutcomeOf(s, identity, parse, env);
            outcome.line.Some? ==>
              TellsReply(parse, outcome.reply, outcome.line.value) &&
              TellsCounts(s, identity, env, outcome.reply, outcome.line.value)
  {
    if Filters(s, parse, env.upstream) {
      ListOutcomeTells(s, identity, parse, env);
    }
  }

  lemma GateTells(s: Settings, req: Request, env: Environment, i: nat, reply: Reply, trace: seq<Event>, line: AuditLine)
    requires StoppedBy(Gates(s, req, env), i, reply, trace) && Emitted(line) in trace
    ensures Tells(s, req, env, reply, line)
  {
    var identity := Identity(s, req, env);
    var parse := ParseJsonRpc(BodyOf(req, env));
    var a, b, c := AdmissionGates(s, req, identity), AuthorizationGates(s, identity, parse), ForwardingGates(req);
    StoppedPart(a + b, c, i, reply, trace);
    if i < |a + b| {
      StoppedPart(a, b, i, reply, trace);
      if i < |a| {
        AdmissionTells(s, req, identity, parse, i, reply, trace, line);
      } else {
        AuthorizationTells(s, identity, parse, i - |a|, reply, trace, line);
      }
    }
  }

  /** Whatever line is written tells the reply. */
  lemma LineTells(s: Settings, req: Request, env: Environment, reply: Reply, trace: seq<Event>, line: AuditLine)
    requires Handled(s, req, env, reply, trace) && Emitted(line) in trace
    ensures Tells(s, req, env, reply, line)
  {
    if AllPass(Gates(s, req, env)) {
      var parse := ParseJsonRpc(BodyOf(req, env));
      OutcomeTells(s, Identity(s, req, env), parse, env);
      assert Emitted(line) !in Prior(BranchOf(s, parse, env.upstream), SendOf(s, req, env));
    } else {
      var i: nat :| StoppedBy(Gates(s, req, env), i, reply, trace);
      GateTells(s, req, env, i, reply, trace, line);
    }
  }

  // ----- the response -----

  /** Only a complete page within the limit is relayed, and only filtered. */
  ghost predicate PageIsFiltered(s: Settings, req: Request, env: Environment, body: seq<Token>) {
    s.toolPolicy.Some? && env.upstream.Responds? && env.upstream.ending.Ends? &&
    Size(env.upstream.chunks) <= s.maxToolsListBytes &&
    var page := PageOf(s, Identity(s, req, env), env);
    page.Filtered? && page.body == body
  }

  lemma RepliesSoundly(s: Settings, req: Request, env: Environment, reply: Reply, trace: seq<Event>)
    requires Handled(s, req, env, reply, trace)
    ensures reply.Streaming? ==> AllPass(Gates(s, req, env)) && env.upstream.Responds?
    ensures reply.FilteredPage? ==> PageIsFiltered(s, req, env, reply.body)
  {
    if !AllPass(Gates(s, req, env)) {
      var i: nat :| StoppedBy(Gates(s, req, env), i, reply, trace);
    }
  }

  lemma CountStream(trace: seq<Event>, chunks: seq<Bytes>, last: Event, k: Kind)
    requires last.StreamEmitted?
    ensures Count(trace + (Yields(chunks) + [Closed, last]), Is(k)) ==
            Count(trace, Is(k)) + One(k.ClosedUp? || k.StreamAudited?)
  {
    CountYields(trace, chunks, Is(k));
    CountOne(trace + Yields(chunks), Closed, Is(k));
    CountOne(trace + Yields(chunks) + [Closed], last, Is(k));
    assert trace + (Yields(chunks) + [Closed, last]) == trace + Yields(chunks) + [Closed] + [last];
  }

  /** Everything the upstream has to give was taken. */
  predicate TakesAll(up: Upstream, client: Client, delivered: seq<Bytes>)
    requires up.Responds?
  {
    delivered == up.chunks && (client.leavesAt.None? || client.leavesAt.value >= |up.chunks|)
  }

  /** The stream event tells what was delivered, and how it ended. */
  ghost predicate HonestStreamEvent(up: Upstream, cap: nat, client: Client, delivered: seq<Bytes>, e: Event)
    requires up.Responds?
  {
    e.StreamEmitted? &&
    (e.result == Completed <==> TakesAll(up, client, delivered) && up.ending == Ends) &&
    (e.result == UpstreamReadError <==> TakesAll(up, client, delivered) && up.ending == ReadError) &&
    (e.result == TruncatedTooLarge <==> |delivered| < Wanted(up.chunks, client.leavesAt)) &&
    (e.result == TruncatedTooLarge ==> e.bytes > cap >= Size(delivered)) &&
    (e.result != TruncatedTooLarge ==> e.bytes == if cap > 0 then Size(delivered) else 0)
  }

  /** The events of a stream, in order: the longest fitting prefix of the upstream's chunks,
      the close, and an honest stream event. */
  ghost predicate Streams(up: Upstream, cap: nat, client: Client, delivered: seq<Bytes>, trace: seq<Event>)
    requires up.Responds?
  {
    |delivered| <= |up.chunks| && delivered == up.chunks[..|delivered|] &&
    LongestFit(up.chunks, cap, client.leavesAt, |delivered|) &&
    trace != [] &&
    var last := trace[|trace| - 1];
    HonestStreamEvent(up, cap, client, delivered, last) && trace == Yields(delivered) + [Closed, last]
  }

  /** `body_iter` with the close and the stream event of its `finally`. */
  method StreamBody(up: Upstream, cap: nat, client: Client) returns (trace: seq<Event>, delivered: seq<Bytes>)
    requires up.Responds?
    ensures Streams(up, cap, client, delivered, trace)
  {
    var sent, result;
    delivered, sent, result := BodyIter(up.chunks, up.ending, cap, client.leavesAt);
    trace := Yields(delivered) + [Closed, StreamEmitted(result, sent)];
  }

  lemma CountServed(s: Settings, req: Request, env: Environment, reply: Reply, handled: seq<Event>,
                    streamed: seq<Event>, delivered: seq<Bytes>, k: Kind)
    requires Handled(s, req, env, reply, handled) && reply.Streaming? && env.upstream.Responds?
    requires Streams(env.upstream, s.maxResponseBytes, env.client, delivered, streamed)
    ensures Count(handled + streamed, Is(k)) ==
            Expected(k, reply, CourseOf(s, req, env, true))
  {
    RepliesSoundly(s, req, env, reply, handled);
    CountHandled(s, req, env, reply, handled, k);
    CountStream(handled, delivered, streamed[|streamed| - 1], k);
  }

  /** A request from its arrival to the end of its response, over every environment: the
      handler, and then, if it answers with a stream that the client starts to read, the
      body iterator. The events of the one all come before those of the other. */
  method Serve(s: Settings, req: Request, env: Environment)
    returns (reply: Reply, handled: seq<Event>, streamed: seq<Event>, delivered: seq<Bytes>)
    requires s.maxToolsListBytes > 0
    ensures Handled(s, req, env, reply, handled)
    ensures if reply.Streaming? && env.client.starts
            then env.upstream.Responds? && Streams(env.upstream, s.maxResponseBytes, env.client, delivered, streamed)
            else streamed == [] && delivered == []
    ensures forall k :: Count(handled + streamed, Is(k)) ==
              Expected(k, reply, CourseOf(s, req, env, reply.Streaming? && env.client.starts))
    ensures reply.Unhandled? <==> Dies(s, req, env)
    ensures forall e | e in handled && e.Sent? :: SentAsAuthorized(s, req, env, e)
    ensures reply.FilteredPage? ==> PageIsFiltered(s, req, env, reply.body)
  {
    reply, handled := ProxyMcp(s, req, env);
    streamed, delivered := [], [];
    UnhandledExactly(s, req, env, reply, handled);
    SendsAuthorized(s, req, env, reply, handled);
    RepliesSoundly(s, req, env, reply, handled);
    if reply.Streaming? && env.client.starts {
      streamed, delivered := StreamBody(env.upstream, s.maxResponseBytes, env.client);
      forall k ensures Count(handled + streamed, Is(k)) ==
                       Expected(k, reply, CourseOf(s, req, env, true)) {
        CountServed(s, req, env, reply, handled, streamed, delivered, k);
      }
    } else {
      assert handled + streamed == handled;
      forall k ensures Count(handled, Is(k)) ==
                       Expected(k, reply, CourseOf(s, req, env, false)) {
        CountHandled(s, req, env, reply, handled, k);
      }
    }
  }
}
