/** `_parse_jsonrpc`: resolve one JSON-RPC request to a method, a tool name and the
    canonical body that will be forwarded in place of the original bytes. */
module JsonRpc {
  import opened Texts
  import opened JsonTrees
  import opened JsonTokens
  import opened JsonHooks
  import opened JsonTexts
  import opened MethodPaths

  const MAX_IDENTIFIER_LEN := 256

  const METHOD: Text := Lit("method")
  const PARAMS: Text := Lit("params")
  const NAME: Text := Lit("name")
  const TOOLS_CALL: Text := Lit("tools/call")
  const TOOLS_LIST: Text := Lit("tools/list")

  datatype RpcError =
    | DuplicateJsonKey | NonstandardJsonConstant | InvalidJson
    | BatchNotSupported | InvalidJsonRpc | IdentifierTooLong

  datatype RpcParse =
    | Accepted(name: Text, tool: Option<Text>, canonical: seq<Token>)
    | Refused(error: RpcError)
    | Uncaught  // UnicodeEncodeError from the `.encode`, which no `except` covers

  /** The compact print of a tree as UTF-8; None when the encoding raises. */
  function Encode(j: Json): Option<seq<Token>> {
    if EncodableTokens(Print(j)) then Some(Print(j)) else None
  }

  /** Looking up a dict member; a missing one reads as null, as `None` does in Python. */
  function Field(j: Json, key: Text): Json {
    if j.Obj? then (match Get(j.members, key, First) case Some(v) => v case None => Null) else Null
  }

  /** `params.name` of a request, as `_parse_jsonrpc` reads it. */
  function NamedTool(data: Json): Json {
    Field(Field(data, PARAMS), NAME)
  }

  function Resolve(data: Json): RpcParse {
    if data.Arr? then Refused(BatchNotSupported)
    else if !data.Obj? then Refused(InvalidJsonRpc)
    else
      var m := Field(data, METHOD);
      if !m.Str? || m.s == [] then Refused(InvalidJsonRpc)
      else if |m.s| > MAX_IDENTIFIER_LEN then Refused(IdentifierTooLong)
      else if !PassesGuard(m.s) then Refused(InvalidJsonRpc)
      else
        match Encode(data)
        case None => Uncaught
        case Some(canonical) =>
          if m.s == TOOLS_CALL then
            var name := NamedTool(data);
            if name.Str? && |name.s| > MAX_IDENTIFIER_LEN then Refused(IdentifierTooLong)
            else Accepted(m.s, if name.Str? && name.s != [] then Some(name.s) else None, canonical)
          else Accepted(m.s, None, canonical)
  }

  function ParseJsonRpc(raw: seq<Token>): RpcParse {
    match Loads(raw, GATEWAY)
    case Fails(Duplicate(_)) => Refused(DuplicateJsonKey)
    case Fails(NonFinite(_)) => Refused(NonstandardJsonConstant)
    case Fails(Syntax) => Refused(InvalidJson)
    case Doc(data) => Resolve(data)
  }

  /** What any reader of a JSON document, first-wins or last-wins, sees as the request's
      method and tool name. */
  function ReadMethod(doc: Json, wins: Wins): Option<Json> {
    Follow(doc, [Key(METHOD)], wins)
  }

  function ReadTool(doc: Json, wins: Wins): Option<Json> {
    Follow(doc, [Key(PARAMS), Key(NAME)], wins)
  }

  lemma FollowKey(doc: Json, key: Text, path: seq<Hop>)
    ensures Follow(doc, [Key(key)] + path, First) ==
            if doc.Obj? && Get(doc.members, key, First).Some? then Follow(Field(doc, key), path, First) else None
  {
    assert ([Key(key)] + path)[1..] == path;
  }

  lemma ReadsAreFields(doc: Json, wins: Wins)
    requires WellKeyed(doc) && doc.Obj?
    ensures match ReadMethod(doc, wins) case Some(v) => Field(doc, METHOD) == v case None => Field(doc, METHOD) == Null
    ensures match ReadTool(doc, wins) case Some(v) => NamedTool(doc) == v case None => NamedTool(doc) == Null
  {
    ReadersAgree(doc, [Key(METHOD)]);
    ReadersAgree(doc, [Key(PARAMS), Key(NAME)]);
    FollowKey(doc, METHOD, []);
    FollowKey(doc, PARAMS, [Key(NAME)]);
    FollowKey(Field(doc, PARAMS), NAME, []);
  }

  /** The tree behind an accepted body: the raw tree of the body, free of repeats, whose
      printed form is the canonical body. */
  lemma AcceptedTree(raw: seq<Token>) returns (tree: Json)
    requires ParseJsonRpc(raw).Accepted?
    ensures Loads(raw, GATEWAY) == Doc(tree) && tree.Obj? && WellKeyed(tree) && EncodableTree(tree)
    ensures ParseJsonRpc(raw) == Resolve(tree) && ParseJsonRpc(raw).canonical == Print(tree)
  {
    tree := Loads(raw, GATEWAY).tree;
    RejectsExactlyRepeats(raw, false, tree);
    PrintEncodable(tree);
  }

  /** Any reader that can load the canonical body loads the tree the gateway checked; a
      reader that tolerates non-finite numbers always can, a strict one exactly if there
      are none. */
  lemma CanonicalLoads(raw: seq<Token>, rd: Reader) returns (tree: Json)
    requires ParseJsonRpc(raw).Accepted?
    ensures Loads(raw, GATEWAY) == Doc(tree)
    ensures Loads(ParseJsonRpc(raw).canonical, rd) == Doc(tree) <==> rd.lenient || Finite(tree)
    ensures Loads(ParseJsonRpc(raw).canonical, rd).Doc? <==> rd.lenient || Finite(tree)
  {
    tree := AcceptedTree(raw);
    LoadsOfPrint(tree, rd);
  }

  /** Whatever reader an upstream uses on the canonical body, the method and the tool it
      reads are the ones the gateway resolved. */
  lemma CanonicalReads(raw: seq<Token>, rd: Reader, doc: Json, wins: Wins)
    requires ParseJsonRpc(raw).Accepted?
    requires Loads(ParseJsonRpc(raw).canonical, rd) == Doc(doc)
    ensures ReadMethod(doc, wins) == Some(Str(ParseJsonRpc(raw).name))
    ensures ParseJsonRpc(raw).tool.Some? ==> ReadTool(doc, wins) == Some(Str(ParseJsonRpc(raw).tool.value))
    ensures ParseJsonRpc(raw).name == TOOLS_CALL && ParseJsonRpc(raw).tool.None? ==>
              !exists t: Text | t != [] :: ReadTool(doc, wins) == Some(Str(t))
  {
    var tree := CanonicalLoads(raw, rd);
    var tree' := AcceptedTree(raw);
    ReadsAreFields(tree, wins);
  }

  /** Canonicalization is a fixed point exactly on bodies without non-finite numbers: the
      canonical body is then accepted with the same method, tool and canonical body. With
      one (a literal like 1e999 loads as infinity) the gateway would refuse its own output. */
  lemma CanonicalIsFixedPoint(raw: seq<Token>)
    requires ParseJsonRpc(raw).Accepted?
    ensures Loads(raw, GATEWAY).Doc?
    ensures ParseJsonRpc(ParseJsonRpc(raw).canonical) == ParseJsonRpc(raw) <==> Finite(Loads(raw, GATEWAY).tree)
    ensures !Finite(Loads(raw, GATEWAY).tree) ==>
              ParseJsonRpc(ParseJsonRpc(raw).canonical) == Refused(NonstandardJsonConstant)
  {
    var tree := AcceptedTree(raw);
    LoadsOfPrint(tree, GATEWAY);
  }

  lemma TwoSegments(a: Text, b: Text)
    requires SLASH !in a && SLASH !in b && !Relative(a) && !Relative(b)
    ensures PassesGuard(a + [SLASH] + b)
  {
    SplitOfJoinStep(a, b, SLASH);
    SplitOfFree(b, SLASH);
    assert Split(a + [SLASH] + b, SLASH) == [a, b];
  }

  lemma CallPassesGuard()
    ensures PassesGuard(TOOLS_CALL) && |TOOLS_CALL| == 10
  {
    var tools, call := Lit("tools"), Lit("call");
    assert TOOLS_CALL == tools + [SLASH] + call;
    assert |tools| == 5 && |call| == 4;
    TwoSegments(tools, call);
  }

  // ----- what becomes of a body, by its shape -----

  ghost predicate StringRead(o: Option<Json>) {
    o.Some? && o.value.Str?
  }

  /** The string read is a method the gateway can authorize. */
  ghost predicate UsableMethod(o: Option<Json>) {
    StringRead(o) && 1 <= |o.value.s| <= 256 && Normalize(o.value.s) == o.value.s
  }

  /** The string read is too long for an identifier. */
  ghost predicate TooLong(o: Option<Json>) {
    StringRead(o) && |o.value.s| > 256
  }

  /** `r` is what becomes of a document under which readers find `m` as the method and `t`
      as the name of the tool. */
  ghost predicate ResolvedBy(r: RpcParse, data: Json, m: Option<Json>, t: Option<Json>) {
    var call := m == Some(Str(TOOLS_CALL));
    (r == Refused(BatchNotSupported) <==> data.Arr?) &&
    (r == Refused(InvalidJsonRpc) <==> !data.Arr? && !UsableMethod(m) && !TooLong(m)) &&
    (r == Refused(IdentifierTooLong) <==> TooLong(m) || (call && TooLong(t) && EncodableTree(data))) &&
    (r == Uncaught <==> UsableMethod(m) && !EncodableTree(data)) &&
    (r.Accepted? <==> UsableMethod(m) && EncodableTree(data) && !(call && TooLong(t))) &&
    (r.Accepted? ==> r.name == m.value.s && r.canonical == Print(data) &&
                     r.tool == if call && StringRead(t) && t.value.s != [] then Some(t.value.s) else None)
  }

  lemma ResolveByFields(data: Json)
    requires data.Obj?
    ensures ResolvedBy(Resolve(data), data, Some(Field(data, METHOD)), Some(NamedTool(data)))
  {
    CallPassesGuard();
    GuardIsFixedPoint(TOOLS_CALL);
    PrintEncodable(data);
    var m := Field(data, METHOD);
    if m.Str? && m.s != [] {
      GuardIsFixedPoint(m.s);
    }
  }

  /** A document that loads is resolved by what readers find under "method" and, for a
      tools/call, under the name of its "params": the exact condition of every outcome. */
  lemma ResolvesExactly(raw: seq<Token>, data: Json, wins: Wins)
    requires Loads(raw, GATEWAY) == Doc(data)
    ensures ResolvedBy(ParseJsonRpc(raw), data, ReadMethod(data, wins), ReadTool(data, wins))
  {
    if data.Obj? {
      RejectsExactlyRepeats(raw, false, data);
      ReadsAreFields(data, wins);
      ResolveByFields(data);
    }
  }

  /** Which bodies get that far, and how the others are refused: by a repeated name or a
      bare constant if the body is the print of a tree, and as invalid JSON only if it is
      the print of none. */
  lemma BodyRefused(raw: seq<Token>, j: Json)
    ensures Shown(raw) == Print(j) && WellKeyed(j) && ConstFree(raw) ==> Loads(raw, GATEWAY) == Doc(j)
    ensures Shown(raw) == Print(j) && WellKeyed(j) && !ConstFree(raw) ==>
              ParseJsonRpc(raw) == Refused(NonstandardJsonConstant)
    ensures Shown(raw) == Print(j) && !WellKeyed(j) && ConstFree(raw) ==> ParseJsonRpc(raw) == Refused(DuplicateJsonKey)
    ensures Shown(raw) == Print(j) && !WellKeyed(j) && !ConstFree(raw) ==>
              ParseJsonRpc(raw) == Refused(NonstandardJsonConstant) || ParseJsonRpc(raw) == Refused(DuplicateJsonKey)
    ensures ParseJsonRpc(raw) == Refused(InvalidJson) ==> Shown(raw) != Print(j)
    ensures ParseJsonRpc(raw) == Refused(NonstandardJsonConstant) ==> !ConstFree(raw)
    ensures (forall t :: Shown(raw) != Print(t)) ==>
              ParseJsonRpc(raw) in {Refused(InvalidJson), Refused(DuplicateJsonKey), Refused(NonstandardJsonConstant)}
  {
    RequestLoads(raw, j);
    if Loads(raw, GATEWAY).Fails? {
      RequestFails(raw, j);
    } else {
      RequestLoads(raw, Loads(raw, GATEWAY).tree);
      if Shown(raw) == Print(j) {
        PrintIsInjective(raw, j, Loads(raw, GATEWAY).tree);
      }
    }
  }

  const P: Text := [0x70]
  const X: Text := [0x78]

  /** The text {"method": "p", "x": t}. */
  function TwoMembers(t: Token): seq<Token> {
    [LBrace] + ([TStr(METHOD), Colon] + ([TStr(P)] + ([Comma] + ([TStr(X), Colon] + [t, RBrace]))))
  }

  /** The tree it loads as. */
  function Sample(v: Json): Json {
    Obj([Member(METHOD, Str(P))] + [Member(X, v)])
  }

  lemma TwoMembersLoad(name: Text, s: Text, other: Text, t: Token, v: Json)
    requires name != other && ParseValue([t, RBrace], GATEWAY) == Ok(v, [RBrace])
    ensures Loads([LBrace] + ([TStr(name), Colon] + ([TStr(s)] + ([Comma] + ([TStr(other), Colon] + [t, RBrace])))), GATEWAY) ==
            Doc(Obj([Member(name, Str(s))] + [Member(other, v)]))
  {
    var m, m' := Member(name, Str(s)), Member(other, v);
    var last := [TStr(other), Colon] + [t, RBrace];
    assert [RBrace] + [] == [RBrace];
    LastMember([t, RBrace], m', [], GATEWAY);
    var value := [TStr(s)] + ([Comma] + last);
    assert value[1..] == [Comma] + last;
    NextMember(value, m, [m'], last, [], GATEWAY);
    OpenObj([TStr(name), Colon] + value, [m] + [m'], [], GATEWAY);
  }

  lemma SampleLoads(t: Token, v: Json)
    requires ParseValue([t, RBrace], GATEWAY) == Ok(v, [RBrace])
    ensures Loads(TwoMembers(t), GATEWAY) == Doc(Sample(v))
  {
    assert |METHOD| == 6 && |X| == 1;
    TwoMembersLoad(METHOD, P, X, t, v);
  }

  lemma SampleResolves(v: Json)
    ensures Field(Sample(v), METHOD) == Str(P) && PassesGuard(P)
  {
    assert P == [0x70];
    SplitOfFree(P, SLASH);
  }

  lemma SampleEncodes(v: Json)
    ensures EncodableTree(Sample(v)) <==> EncodableTree(v)
  {
    var ms := Sample(v).members;
    assert ms[0] == Member(METHOD, Str(P)) && ms[1] == Member(X, v);
    assert Encodable(METHOD) && Encodable(P) && Encodable(X);
    assert EncodableTree(ms[0].value);
  }

  /** This body is accepted, with method "p". */
  lemma SampleAccepted(raw: seq<Token>)
    requires raw == TwoMembers(TStr(P))
    ensures ParseJsonRpc(raw) == Accepted(P, None, Print(Sample(Str(P))))
  {
    assert [TStr(P), RBrace][1..] == [RBrace];
    SampleLoads(TStr(P), Str(P));
    SampleResolves(Str(P));
    SampleEncodes(Str(P));
    assert Encodable(P);
    PrintEncodable(Sample(Str(P)));
    assert |TOOLS_CALL| == 10;
  }

  /** The overflowing number is reachable: this body is accepted, and its canonical form is
      refused. */
  lemma InfinityEscapes(raw: seq<Token>)
    requires raw == TwoMembers(TNum(Special(Infinity)))
    ensures ParseJsonRpc(raw).Accepted?
    ensures ParseJsonRpc(ParseJsonRpc(raw).canonical) == Refused(NonstandardJsonConstant)
  {
    var v := Num(Special(Infinity));
    assert [TNum(Special(Infinity)), RBrace][1..] == [RBrace];
    SampleLoads(TNum(Special(Infinity)), v);
    SampleResolves(v);
    SampleEncodes(v);
    PrintEncodable(Sample(v));
    assert !Finite(Sample(v).members[1].value);
    CanonicalIsFixedPoint(raw);
  }

  /** A well-formed request, with a usable method, that holds a lone surrogate in a string
      or a member name. */
  ghost predicate CannotEncode(raw: seq<Token>) {
    Loads(raw, GATEWAY).Doc? &&
    var data := Loads(raw, GATEWAY).tree;
    data.Obj? && !EncodableTree(data) &&
    var m := Field(data, METHOD);
    m.Str? && 0 < |m.s| <= MAX_IDENTIFIER_LEN && Normalize(m.s) == m.s
  }

  /** A body is dropped with an uncaught error exactly when it would be accepted but for a
      lone surrogate somewhere in its strings or member names (or, for a tools/call, it
      would be refused only for the length of its tool name). */
  lemma UncaughtExactly(raw: seq<Token>)
    ensures ParseJsonRpc(raw).Uncaught? <==> CannotEncode(raw)
  {
    if Loads(raw, GATEWAY).Doc? {
      var data := Loads(raw, GATEWAY).tree;
      PrintEncodable(data);
      var m := Field(data, METHOD);
      if m.Str? && m.s != [] {
        GuardIsFixedPoint(m.s);
      }
    }
  }

  /** A lone surrogate in any member is enough: this body parses, and then its encoding
      raises. */
  lemma SurrogateEscapes(raw: seq<Token>)
    requires raw == TwoMembers(TStr([0xD800]))
    ensures ParseJsonRpc(raw) == Uncaught && CannotEncode(raw)
  {
    var lone: Text := [0xD800];
    assert [TStr(lone), RBrace][1..] == [RBrace];
    SampleLoads(TStr(lone), Str(lone));
    SampleResolves(Str(lone));
    SampleEncodes(Str(lone));
    assert 0xD800 <= lone[0] <= 0xDFFF;
    PrintEncodable(Sample(Str(lone)));
    UncaughtExactly(raw);
  }

  /** Every accepted method is short, non-empty, encodable, and the same after path
      normalization. */
  lemma AcceptedMethod(raw: seq<Token>)
    requires ParseJsonRpc(raw).Accepted?
    ensures var name := ParseJsonRpc(raw).name;
            0 < |name| <= MAX_IDENTIFIER_LEN && Normalize(name) == name && Encodable(name)
  {
    var tree := AcceptedTree(raw);
    GuardIsFixedPoint(ParseJsonRpc(raw).name);
    ReadsAreFields(tree, First);
    GetAgrees(tree.members, METHOD);
    var i :| 0 <= i < |tree.members| && tree.members[i] == Member(METHOD, Field(tree, METHOD));
    assert EncodableTree(tree.members[i].value);
  }
}
