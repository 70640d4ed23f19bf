/** JSON text as tokens: a one-pass parser that runs its object hook as each object closes,
    as `json.loads` does, and a printer for `json.dumps` with compact separators.
    Lexing of strings and numbers is trusted: a token carries the decoded value. */
module JsonTokens {
  import opened Texts
  import opened JsonTrees

  datatype Token =
    | LBrace | RBrace | LBracket | RBracket | Comma | Colon
    | TNull
    | TBool(b: bool)
    | TNum(n: Number)
    | TConst(c: Constant)
    | TStr(s: Text)
    | Bad  // the first byte run that is no token, or a body that does not decode

  /** A JSON reader: its object hook, and whether it tolerates NaN and the infinities. */
  datatype Reader = Reader(hook: Hook, lenient: bool)

  /** How the gateway reads a request: no repeated names, no non-finite constants. */
  const GATEWAY := Reader(Reject, false)
  /** How it reads an upstream page: the last of repeated members wins. */
  const FILTER := Reader(LastWins, false)

  datatype LoadError = Syntax | Duplicate(name: Text) | NonFinite(constant: Constant)

  datatype Parsed<+T> = Ok(value: T, rest: seq<Token>) | Err(error: LoadError)

  function Close(ms: seq<Member>, rest: seq<Token>, rd: Reader): Parsed<Json> {
    match RunHook(rd.hook, ms)
    case Made(j) => Ok(j, rest)
    case Repeats(name) => Err(Duplicate(name))
  }

  function ParseValue(ts: seq<Token>, rd: Reader): (r: Parsed<Json>)
    ensures r.Ok? ==> |r.rest| < |ts|
    decreases |ts|, 0
  {
    if ts == [] then Err(Syntax)
    else
      match ts[0]
      case TNull => Ok(Null, ts[1..])
      case TBool(b) => Ok(Bool(b), ts[1..])
      case TNum(n) => Ok(Num(n), ts[1..])
      case TConst(c) => if rd.lenient then Ok(Num(Special(c)), ts[1..]) else Err(NonFinite(c))
      case TStr(s) => Ok(Str(s), ts[1..])
      case LBracket =>
        if |ts| > 1 && ts[1] == RBracket then Ok(Arr([]), ts[2..])
        else (match ParseItems(ts[1..], rd)
              case Err(e) => Err(e)
              case Ok(items, rest) => Ok(Arr(items), rest))
      case LBrace =>
        if |ts| > 1 && ts[1] == RBrace then Close([], ts[2..], rd)
        else (match ParseMembers(ts[1..], rd)
              case Err(e) => Err(e)
              case Ok(ms, rest) => Close(ms, rest, rd))
      case _ => Err(Syntax)
  }

  function ParseItems(ts: seq<Token>, rd: Reader): (r: Parsed<seq<Json>>)
    ensures r.Ok? ==> |r.rest| < |ts|
    decreases |ts|, 1
  {
    match ParseValue(ts, rd)
    case Err(e) => Err(e)
    case Ok(v, rest) =>
      if rest != [] && rest[0] == RBracket then Ok([v], rest[1..])
      else if rest != [] && rest[0] == Comma then
        (match ParseItems(rest[1..], rd)
         case Err(e) => Err(e)
         case Ok(vs, rest') => Ok([v] + vs, rest'))
      else Err(Syntax)
  }

  function ParseMembers(ts: seq<Token>, rd: Reader): (r: Parsed<seq<Member>>)
    ensures r.Ok? ==> |r.rest| < |ts|
    decreases |ts|, 1
  {
    if |ts| < 2 || !ts[0].TStr? || ts[1] != Colon then Err(Syntax)
    else
      match ParseValue(ts[2..], rd)
      case Err(e) => Err(e)
      case Ok(v, rest) =>
        var m := Member(ts[0].s, v);
        if rest != [] && rest[0] == RBrace then Ok([m], rest[1..])
        else if rest != [] && rest[0] == Comma then
          (match ParseMembers(rest[1..], rd)
           case Err(e) => Err(e)
           case Ok(ms, rest') => Ok([m] + ms, rest'))
        else Err(Syntax)
  }

  datatype Loaded = Doc(tree: Json) | Fails(error: LoadError)

  /** `json.loads`: one value and nothing after it. */
  function Loads(ts: seq<Token>, rd: Reader): Loaded {
    match ParseValue(ts, rd)
    case Err(e) => Fails(e)
    case Ok(v, rest) => if rest == [] then Doc(v) else Fails(Syntax)
  }

  // ----- printing -----

  /** The compact form of `json.dumps`: a non-finite double prints as a bare constant. */
  function Print(j: Json): seq<Token>
    decreases j
  {
    match j
    case Null => [TNull]
    case Bool(b) => [TBool(b)]
    case Num(n) => if n.Special? then [TConst(n.constant)] else [TNum(n)]
    case Str(s) => [TStr(s)]
    case Arr(items) => [LBracket] + PrintItems(items) + [RBracket]
    case Obj(ms) => [LBrace] + PrintMembers(ms) + [RBrace]
  }

  function PrintItems(items: seq<Json>): seq<Token>
    decreases items
  {
    if items == [] then []
    else Print(items[0]) + (if |items| == 1 then [] else [Comma] + PrintItems(items[1..]))
  }

  function PrintMembers(ms: seq<Member>): seq<Token>
    decreases ms
  {
    if ms == [] then []
    else
      [TStr(ms[0].name), Colon] + (Print(ms[0].value) + (if |ms| == 1 then [] else [Comma] + PrintMembers(ms[1..])))
  }

  // ----- round trip -----

  /** The reader's hook leaves this tree's objects alone. */
  ghost predicate Accepts(rd: Reader, j: Json) {
    rd.hook == Keep || WellKeyed(j)
  }

  lemma HookKeeps(rd: Reader, ms: seq<Member>)
    requires rd.hook == Keep || Distinct(ms)
    ensures RunHook(rd.hook, ms) == Made(Obj(ms))
  {
    if rd.hook == LastWins {
      DictOfDistinct(ms);
    }
  }

  lemma StartsValue(j: Json)
    ensures |Print(j)| >= 1 && !Print(j)[0].RBracket? && !Print(j)[0].RBrace?
  {}

  lemma OpenArr(ts: seq<Token>, items: seq<Json>, rest: seq<Token>, rd: Reader)
    requires ts != [] && !ts[0].RBracket? && ParseItems(ts, rd) == Ok(items, rest)
    ensures ParseValue([LBracket] + ts, rd) == Ok(Arr(items), rest)
  {
    assert ([LBracket] + ts)[1..] == ts;
  }

  lemma OpenObj(ts: seq<Token>, ms: seq<Member>, rest: seq<Token>, rd: Reader)
    requires ParseMembers(ts, rd) == Ok(ms, rest) && RunHook(rd.hook, ms) == Made(Obj(ms))
    ensures ParseValue([LBrace] + ts, rd) == Ok(Obj(ms), rest)
  {
    assert ([LBrace] + ts)[1..] == ts;
  }

  lemma ParsePrintScalar(j: Json, rest: seq<Token>, rd: Reader)
    requires !j.Arr? && !j.Obj? && (rd.lenient || Finite(j))
    ensures ParseValue(Print(j) + rest, rd) == Ok(j, rest)
  {
    assert (Print(j) + rest)[1..] == rest;
  }

  lemma ParsePrintEmpty(rest: seq<Token>, rd: Reader)
    ensures ParseValue(Print(Arr([])) + rest, rd) == Ok(Arr([]), rest)
    ensures RunHook(rd.hook, []) == Made(Obj([])) ==> ParseValue(Print(Obj([])) + rest, rd) == Ok(Obj([]), rest)
  {
    assert Print(Arr([])) + rest == [LBracket, RBracket] + rest;
    assert ([LBracket, RBracket] + rest)[2..] == rest;
    assert Print(Obj([])) + rest == [LBrace, RBrace] + rest;
    assert ([LBrace, RBrace] + rest)[2..] == rest;
  }

  /** Reading back a printed tree gives that tree and leaves what follows it alone. */
  lemma {:induction false} ParsePrint(j: Json, rest: seq<Token>, rd: Reader)
    requires Accepts(rd, j) && (rd.lenient || Finite(j))
    ensures ParseValue(Print(j) + rest, rd) == Ok(j, rest)
    decreases j
  {
    match j
    case Arr(items) =>
      if items == [] {
        ParsePrintEmpty(rest, rd);
      } else {
        var ts := PrintItems(items) + ([RBracket] + rest);
        assert Print(j) + rest == [LBracket] + ts;
        StartsValue(items[0]);
        ParsePrintItems(items, rest, rd);
        OpenArr(ts, items, rest, rd);
      }
    case Obj(ms) =>
      HookKeeps(rd, ms);
      if ms == [] {
        ParsePrintEmpty(rest, rd);
      } else {
        var ts := PrintMembers(ms) + ([RBrace] + rest);
        assert Print(j) + rest == [LBrace] + ts;
        ParsePrintMembers(ms, rest, rd);
        OpenObj(ts, ms, rest, rd);
      }
    case _ => ParsePrintScalar(j, rest, rd);
  }

  lemma LastItem(ts: seq<Token>, items: seq<Json>, rest: seq<Token>, rd: Reader)
    requires |items| == 1 && ParseValue(ts, rd) == Ok(items[0], [RBracket] + rest)
    ensures ParseItems(ts, rd) == Ok(items, rest)
  {
    assert ([RBracket] + rest)[1..] == rest;
    assert items == [items[0]];
  }

  lemma NextItem(ts: seq<Token>, items: seq<Json>, more: seq<Token>, rest: seq<Token>, rd: Reader)
    requires |items| > 1 && ParseValue(ts, rd) == Ok(items[0], [Comma] + more)
    requires ParseItems(more, rd) == Ok(items[1..], rest)
    ensures ParseItems(ts, rd) == Ok(items, rest)
  {
    assert ([Comma] + more)[1..] == more;
    assert items == [items[0]] + items[1..];
  }

  /** What follows the first value in a printed item list. */
  function AfterItem(items: seq<Json>, tail: seq<Token>): seq<Token>
    requires items != []
  {
    if |items| == 1 then tail else [Comma] + (PrintItems(items[1..]) + tail)
  }

  lemma ItemsText(items: seq<Json>, tail: seq<Token>)
    requires items != []
    ensures PrintItems(items) + tail == Print(items[0]) + AfterItem(items, tail)
  {
    var more := if |items| == 1 then [] else [Comma] + PrintItems(items[1..]);
    assert more + tail == AfterItem(items, tail);
    assert (Print(items[0]) + more) + tail == Print(items[0]) + (more + tail);
  }

  lemma {:induction false} ParsePrintItems(items: seq<Json>, rest: seq<Token>, rd: Reader)
    requires items != []
    requires forall i | 0 <= i < |items| :: Accepts(rd, items[i]) && (rd.lenient || Finite(items[i]))
    ensures ParseItems(PrintItems(items) + ([RBracket] + rest), rd) == Ok(items, rest)
    decreases items
  {
    var tail := [RBracket] + rest;
    var ts := Print(items[0]) + AfterItem(items, tail);
    ItemsText(items, tail);
    ParsePrint(items[0], AfterItem(items, tail), rd);
    if |items| == 1 {
      LastItem(ts, items, rest, rd);
    } else {
      ParsePrintItems(items[1..], rest, rd);
      NextItem(ts, items, PrintItems(items[1..]) + tail, rest, rd);
    }
  }

  lemma LastMember(ts: seq<Token>, m: Member, rest: seq<Token>, rd: Reader)
    requires ParseValue(ts, rd) == Ok(m.value, [RBrace] + rest)
    ensures ParseMembers([TStr(m.name), Colon] + ts, rd) == Ok([m], rest)
  {
    assert ([TStr(m.name), Colon] + ts)[2..] == ts;
    assert ([RBrace] + rest)[1..] == rest;
  }

  lemma NextMember(ts: seq<Token>, m: Member, ms: seq<Member>, more: seq<Token>, rest: seq<Token>, rd: Reader)
    requires ParseValue(ts, rd) == Ok(m.value, [Comma] + more)
    requires ParseMembers(more, rd) == Ok(ms, rest)
    ensures ParseMembers([TStr(m.name), Colon] + ts, rd) == Ok([m] + ms, rest)
  {
    assert ([TStr(m.name), Colon] + ts)[2..] == ts;
    assert ([Comma] + more)[1..] == more;
  }

  /** What follows the first member's value in a printed member list. */
  function AfterMember(ms: seq<Member>, tail: seq<Token>): seq<Token>
    requires ms != []
  {
    if |ms| == 1 then tail else [Comma] + (PrintMembers(ms[1..]) + tail)
  }

  lemma Regroup(a: seq<Token>, b: seq<Token>, c: seq<Token>, d: seq<Token>)
    ensures (a + (b + c)) + d == a + (b + (c + d))
  {}

  lemma MembersText(ms: seq<Member>, tail: seq<Token>)
    requires ms != []
    ensures PrintMembers(ms) + tail == [TStr(ms[0].name), Colon] + (Print(ms[0].value) + AfterMember(ms, tail))
  {
    var more := if |ms| == 1 then [] else [Comma] + PrintMembers(ms[1..]);
    assert more + tail == AfterMember(ms, tail);
    Regroup([TStr(ms[0].name), Colon], Print(ms[0].value), more, tail);
  }

  lemma {:induction false} ParsePrintMembers(ms: seq<Member>, rest: seq<Token>, rd: Reader)
    requires ms != []
    requires forall i | 0 <= i < |ms| :: Accepts(rd, ms[i].value) && (rd.lenient || Finite(ms[i].value))
    ensures ParseMembers(PrintMembers(ms) + ([RBrace] + rest), rd) == Ok(ms, rest)
    decreases ms
  {
    var tail := [RBrace] + rest;
    var ts := Print(ms[0].value) + AfterMember(ms, tail);
    MembersText(ms, tail);
    ParsePrint(ms[0].value, AfterMember(ms, tail), rd);
    if |ms| == 1 {
      LastMember(ts, ms[0], rest, rd);
      assert ms == [ms[0]];
    } else {
      ParsePrintMembers(ms[1..], rest, rd);
      NextMember(ts, ms[0], ms[1..], PrintMembers(ms[1..]) + tail, rest, rd);
      assert ms == [ms[0]] + ms[1..];
    }
  }

  lemma FailsLater(ts: seq<Token>, v: Json, more: seq<Token>, rd: Reader)
    requires ParseValue(ts, rd) == Ok(v, [Comma] + more) && ParseItems(more, rd).Err?
    ensures ParseItems(ts, rd) == ParseItems(more, rd)
  {
    assert ([Comma] + more)[1..] == more;
  }

  /** A strict reader stops at the first non-finite number of a printed tree. */
  lemma {:induction false} ParsePrintNonFinite(j: Json, rest: seq<Token>, rd: Reader)
    requires Accepts(rd, j) && !rd.lenient && !Finite(j)
    ensures ParseValue(Print(j) + rest, rd).Err? && ParseValue(Print(j) + rest, rd).error.NonFinite?
    decreases j
  {
    var ts := Print(j) + rest;
    match j
    case Arr(items) =>
      assert ts[1..] == PrintItems(items) + ([RBracket] + rest);
      StartsValue(items[0]);
      NonFiniteItems(items, rest, rd);
    case Obj(ms) =>
      assert ts[1..] == PrintMembers(ms) + ([RBrace] + rest);
      NonFiniteMembers(ms, rest, rd);
    case _ =>
  }

  lemma {:induction false} NonFiniteItems(items: seq<Json>, rest: seq<Token>, rd: Reader)
    requires !rd.lenient
    requires forall i | 0 <= i < |items| :: Accepts(rd, items[i])
    requires exists i | 0 <= i < |items| :: !Finite(items[i])
    ensures ParseItems(PrintItems(items) + ([RBracket] + rest), rd).Err?
    ensures ParseItems(PrintItems(items) + ([RBracket] + rest), rd).error.NonFinite?
    decreases items
  {
    var after := AfterItem(items, [RBracket] + rest);
    ItemsText(items, [RBracket] + rest);
    if !Finite(items[0]) {
      ParsePrintNonFinite(items[0], after, rd);
    } else {
      var i :| 0 <= i < |items| && !Finite(items[i]);
      assert items[1..][i - 1] == items[i];
      NonFiniteItems(items[1..], rest, rd);
      ParsePrint(items[0], after, rd);
      FailsLater(Print(items[0]) + after, items[0], PrintItems(items[1..]) + ([RBracket] + rest), rd);
    }
  }

  lemma FailsInMember(ts: seq<Token>, name: Text, rd: Reader)
    requires ParseValue(ts, rd).Err?
    ensures ParseMembers([TStr(name), Colon] + ts, rd) == Err(ParseValue(ts, rd).error)
  {
    assert ([TStr(name), Colon] + ts)[2..] == ts;
  }

  lemma FailsInLaterMember(ts: seq<Token>, name: Text, v: Json, more: seq<Token>, rd: Reader)
    requires ParseValue(ts, rd) == Ok(v, [Comma] + more) && ParseMembers(more, rd).Err?
    ensures ParseMembers([TStr(name), Colon] + ts, rd) == ParseMembers(more, rd)
  {
    assert ([TStr(name), Colon] + ts)[2..] == ts;
    assert ([Comma] + more)[1..] == more;
  }

  lemma {:induction false} NonFiniteMembers(ms: seq<Member>, rest: seq<Token>, rd: Reader)
    requires !rd.lenient
    requires forall i | 0 <= i < |ms| :: Accepts(rd, ms[i].value)
    requires exists i | 0 <= i < |ms| :: !Finite(ms[i].value)
    ensures ParseMembers(PrintMembers(ms) + ([RBrace] + rest), rd).Err?
    ensures ParseMembers(PrintMembers(ms) + ([RBrace] + rest), rd).error.NonFinite?
    decreases ms
  {
    var Member(name, v) := ms[0];
    var after := AfterMember(ms, [RBrace] + rest);
    MembersText(ms, [RBrace] + rest);
    if !Finite(v) {
      ParsePrintNonFinite(v, after, rd);
      FailsInMember(Print(v) + after, name, rd);
    } else {
      var i :| 0 <= i < |ms| && !Finite(ms[i].value);
      assert ms[1..][i - 1] == ms[i];
      NonFiniteMembers(ms[1..], rest, rd);
      ParsePrint(v, after, rd);
      FailsInLaterMember(Print(v) + after, name, v, PrintMembers(ms[1..]) + ([RBrace] + rest), rd);
    }
  }

  /** Printing then loading is the identity for every reader that accepts the tree's keys,
      except that a strict reader needs finite numbers, and then refuses for no other reason. */
  lemma LoadsOfPrint(j: Json, rd: Reader)
    requires Accepts(rd, j)
    ensures rd.lenient || Finite(j) ==> Loads(Print(j), rd) == Doc(j)
    ensures !rd.lenient && !Finite(j) ==> Loads(Print(j), rd).Fails? && Loads(Print(j), rd).error.NonFinite?
  {
    assert Print(j) + [] == Print(j);
    if rd.lenient || Finite(j) {
      ParsePrint(j, [], rd);
    } else {
      ParsePrintNonFinite(j, [], rd);
    }
  }

  // ----- encoding -----

  predicate EncodableTokens(ts: seq<Token>) {
    forall i | 0 <= i < |ts| :: ts[i].TStr? ==> Encodable(ts[i].s)
  }

  lemma EncodableConcat(a: seq<Token>, b: seq<Token>)
    ensures EncodableTokens(a + b) <==> EncodableTokens(a) && EncodableTokens(b)
  {
    forall i | 0 <= i < |b| ensures (a + b)[|a| + i] == b[i] {}
    forall i | 0 <= i < |a| ensures (a + b)[i] == a[i] {}
  }

  /** The printed text encodes as UTF-8 exactly when no string or name in the tree holds a
      lone surrogate. */
  lemma {:induction false} PrintEncodable(j: Json)
    ensures EncodableTokens(Print(j)) <==> EncodableTree(j)
    decreases j
  {
    match j
    case Arr(items) =>
      EncodableConcat([LBracket], PrintItems(items));
      EncodableConcat([LBracket] + PrintItems(items), [RBracket]);
      PrintItemsEncodable(items);
    case Obj(ms) =>
      EncodableConcat([LBrace], PrintMembers(ms));
      EncodableConcat([LBrace] + PrintMembers(ms), [RBrace]);
      PrintMembersEncodable(ms);
    case Str(s) => assert Print(j)[0] == TStr(s);
    case _ =>
  }

  lemma {:induction false} PrintItemsEncodable(items: seq<Json>)
    ensures EncodableTokens(PrintItems(items)) <==> forall i | 0 <= i < |items| :: EncodableTree(items[i])
    decreases items
  {
    if items != [] {
      var more := if |items| == 1 then [] else [Comma] + PrintItems(items[1..]);
      EncodableConcat(Print(items[0]), more);
      EncodableConcat([Comma], PrintItems(items[1..]));
      PrintEncodable(items[0]);
      PrintItemsEncodable(items[1..]);
      assert forall i | 0 < i < |items| :: items[i] == items[1..][i - 1];
    }
  }

  lemma {:induction false} PrintMembersEncodable(ms: seq<Member>)
    ensures EncodableTokens(PrintMembers(ms)) <==>
            forall i | 0 <= i < |ms| :: Encodable(ms[i].name) && EncodableTree(ms[i].value)
    decreases ms
  {
    if ms != [] {
      var more := if |ms| == 1 then [] else [Comma] + PrintMembers(ms[1..]);
      var head := [TStr(ms[0].name), Colon];
      EncodableConcat(head, Print(ms[0].value) + more);
      EncodableConcat(Print(ms[0].value), more);
      assert head[0] == TStr(ms[0].name);
      EncodableConcat([Comma], PrintMembers(ms[1..]));
      PrintEncodable(ms[0].value);
      PrintMembersEncodable(ms[1..]);
      assert forall i | 0 < i < |ms| :: ms[i] == ms[1..][i - 1];
    }
  }
}
