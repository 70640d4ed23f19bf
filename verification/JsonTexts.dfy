/** Which token texts load, and as what: a text loads exactly if it is the print of a tree,
    up to the two spellings of a non-finite number. */
module JsonTexts {
  import opened Texts
  import opened JsonTrees
  import opened JsonTokens
  import opened JsonHooks

  /** Reading without any hook, non-finite constants tolerated. */
  const RAW := Reader(Keep, true)

  // ----- texts up to the spelling of non-finite numbers -----

  /** A literal that overflows, such as 1e999, and a bare constant load as the same double,
      which prints as the constant. */
  function Respelled(t: Token): Token {
    if t.TNum? && t.n.Special? then TConst(t.n.constant) else t
  }

  function Shown(ts: seq<Token>): (r: seq<Token>)
    ensures |r| == |ts| && forall i | 0 <= i < |ts| :: r[i] == Respelled(ts[i])
  {
    seq(|ts|, i requires 0 <= i < |ts| => Respelled(ts[i]))
  }

  lemma ShownSuffix(ts: seq<Token>, n: nat)
    requires n <= |ts|
    ensures Shown(ts)[n..] == Shown(ts[n..])
  {}

  // ----- what is read was printed -----

  /** `ts` is a text that shows as `text`, followed by `rest`. */
  ghost predicate Reads(ts: seq<Token>, text: seq<Token>, rest: seq<Token>) {
    Shown(ts) == text + Shown(rest)
  }

  lemma ReadsOne(ts: seq<Token>)
    requires ts != []
    ensures Reads(ts, [Respelled(ts[0])], ts[1..])
  {}

  lemma ReadsThen(ts: seq<Token>, a: seq<Token>, mid: seq<Token>, b: seq<Token>, rest: seq<Token>)
    requires Reads(ts, a, mid) && Reads(mid, b, rest)
    ensures Reads(ts, a + b, rest)
  {
    assert a + (b + Shown(rest)) == (a + b) + Shown(rest);
  }

  lemma ItemsCons(v: Json, vs: seq<Json>)
    requires vs != []
    ensures PrintItems([v] + vs) == Print(v) + [Comma] + PrintItems(vs)
  {
    assert ([v] + vs)[1..] == vs;
    assert Print(v) + ([Comma] + PrintItems(vs)) == Print(v) + [Comma] + PrintItems(vs);
  }

  lemma MembersCons(m: Member, ms: seq<Member>)
    requires ms != []
    ensures PrintMembers([m] + ms) == [TStr(m.name), Colon] + Print(m.value) + [Comma] + PrintMembers(ms)
  {
    assert ([m] + ms)[1..] == ms;
    Regroup([TStr(m.name), Colon], Print(m.value), [Comma], PrintMembers(ms));
    assert [TStr(m.name), Colon] + (Print(m.value) + ([Comma] + PrintMembers(ms))) ==
           [TStr(m.name), Colon] + Print(m.value) + [Comma] + PrintMembers(ms);
  }

  /** The text of a member up to the token after it. */
  ghost predicate ReadsMember(ts: seq<Token>, m: Member, rest: seq<Token>) {
    rest != [] && Reads(ts, [TStr(m.name), Colon] + Print(m.value) + [Respelled(rest[0])], rest[1..])
  }

  lemma MemberText(ts: seq<Token>, m: Member, rest: seq<Token>)
    requires |ts| >= 2 && ts[0] == TStr(m.name) && ts[1] == Colon && rest != []
    requires Reads(ts[2..], Print(m.value), rest)
    ensures ReadsMember(ts, m, rest)
  {
    assert Reads(ts, [TStr(m.name), Colon], ts[2..]);
    ReadsThen(ts, [TStr(m.name), Colon], ts[2..], Print(m.value), rest);
    ReadsOne(rest);
    ReadsThen(ts, [TStr(m.name), Colon] + Print(m.value), rest, [Respelled(rest[0])], rest[1..]);
  }

  lemma LastMemberText(ts: seq<Token>, m: Member, rest: seq<Token>)
    requires ReadsMember(ts, m, rest) && rest[0] == RBrace
    ensures Reads(ts, PrintMembers([m]) + [RBrace], rest[1..])
  {
    assert PrintMembers([m]) == [TStr(m.name), Colon] + Print(m.value);
  }

  lemma NextMemberText(ts: seq<Token>, m: Member, rest: seq<Token>, ms: seq<Member>, rest': seq<Token>)
    requires ReadsMember(ts, m, rest) && rest[0] == Comma
    requires ms != [] && Reads(rest[1..], PrintMembers(ms) + [RBrace], rest')
    ensures Reads(ts, PrintMembers([m] + ms) + [RBrace], rest')
  {
    MembersCons(m, ms);
    var first := [TStr(m.name), Colon] + Print(m.value) + [Comma];
    ReadsThen(ts, first, rest[1..], PrintMembers(ms) + [RBrace], rest');
    assert first + (PrintMembers(ms) + [RBrace]) == first + PrintMembers(ms) + [RBrace];
  }

  lemma LastItemText(ts: seq<Token>, v: Json, rest: seq<Token>)
    requires Reads(ts, Print(v), rest) && rest != [] && rest[0] == RBracket
    ensures Reads(ts, PrintItems([v]) + [RBracket], rest[1..])
  {
    ReadsOne(rest);
    ReadsThen(ts, Print(v), rest, [RBracket], rest[1..]);
    assert PrintItems([v]) == Print(v);
  }

  lemma NextItemText(ts: seq<Token>, v: Json, rest: seq<Token>, vs: seq<Json>, rest': seq<Token>)
    requires Reads(ts, Print(v), rest) && rest != [] && rest[0] == Comma
    requires vs != [] && Reads(rest[1..], PrintItems(vs) + [RBracket], rest')
    ensures Reads(ts, PrintItems([v] + vs) + [RBracket], rest')
  {
    ReadsOne(rest);
    ReadsThen(ts, Print(v), rest, [Comma], rest[1..]);
    ItemsCons(v, vs);
    var first := Print(v) + [Comma];
    ReadsThen(ts, first, rest[1..], PrintItems(vs) + [RBracket], rest');
    assert first + (PrintItems(vs) + [RBracket]) == first + PrintItems(vs) + [RBracket];
  }

  lemma ArrText(ts: seq<Token>, items: seq<Json>, rest: seq<Token>)
    requires ts != [] && ts[0] == LBracket && Reads(ts[1..], PrintItems(items) + [RBracket], rest)
    ensures Reads(ts, Print(Arr(items)), rest)
  {
    ReadsOne(ts);
    ReadsThen(ts, [LBracket], ts[1..], PrintItems(items) + [RBracket], rest);
    assert [LBracket] + (PrintItems(items) + [RBracket]) == Print(Arr(items));
  }

  lemma ObjText(ts: seq<Token>, ms: seq<Member>, rest: seq<Token>)
    requires ts != [] && ts[0] == LBrace && Reads(ts[1..], PrintMembers(ms) + [RBrace], rest)
    ensures Reads(ts, Print(Obj(ms)), rest)
  {
    ReadsOne(ts);
    ReadsThen(ts, [LBrace], ts[1..], PrintMembers(ms) + [RBrace], rest);
    assert [LBrace] + (PrintMembers(ms) + [RBrace]) == Print(Obj(ms));
  }

  lemma EmptyText(ts: seq<Token>)
    requires |ts| > 1
    ensures ts[0] == LBracket && ts[1] == RBracket ==> Reads(ts, Print(Arr([])), ts[2..])
    ensures ts[0] == LBrace && ts[1] == RBrace ==> Reads(ts, Print(Obj([])), ts[2..])
  {
    assert Reads(ts, [Respelled(ts[0]), Respelled(ts[1])], ts[2..]);
    assert Print(Arr([])) == [LBracket, RBracket];
    assert Print(Obj([])) == [LBrace, RBrace];
  }

  lemma {:induction false} ValueText(ts: seq<Token>)
    ensures var r := ParseValue(ts, RAW); r.Ok? ==> Reads(ts, Print(r.value), r.rest)
    decreases |ts|, 0
  {
    if ts != [] {
      if |ts| > 1 {
        EmptyText(ts);
      }
      if ts[0] == LBracket && !(|ts| > 1 && ts[1] == RBracket) {
        ItemsText(ts[1..]);
        var r := ParseItems(ts[1..], RAW);
        if r.Ok? {
          ArrText(ts, r.value, r.rest);
        }
      } else if ts[0] == LBrace && !(|ts| > 1 && ts[1] == RBrace) {
        MembersText(ts[1..]);
        var r := ParseMembers(ts[1..], RAW);
        if r.Ok? {
          ObjText(ts, r.value, r.rest);
        }
      } else if ts[0] != LBracket && ts[0] != LBrace {
        ReadsOne(ts);
      }
    }
  }

  lemma {:induction false} ItemsText(ts: seq<Token>)
    ensures var r := ParseItems(ts, RAW); r.Ok? ==> r.value != [] && Reads(ts, PrintItems(r.value) + [RBracket], r.rest)
    decreases |ts|, 1
  {
    ValueText(ts);
    var head := ParseValue(ts, RAW);
    if head.Ok? && head.rest != [] {
      if head.rest[0] == RBracket {
        LastItemText(ts, head.value, head.rest);
      } else if head.rest[0] == Comma {
        ItemsText(head.rest[1..]);
        var tail := ParseItems(head.rest[1..], RAW);
        if tail.Ok? {
          NextItemText(ts, head.value, head.rest, tail.value, tail.rest);
        }
      }
    }
  }

  lemma {:induction false} MembersText(ts: seq<Token>)
    ensures var r := ParseMembers(ts, RAW); r.Ok? ==> r.value != [] && Reads(ts, PrintMembers(r.value) + [RBrace], r.rest)
    decreases |ts|, 1
  {
    if |ts| >= 2 && ts[0].TStr? && ts[1] == Colon {
      ValueText(ts[2..]);
      var head := ParseValue(ts[2..], RAW);
      if head.Ok? && head.rest != [] {
        var m, rest := Member(ts[0].s, head.value), head.rest;
        MemberText(ts, m, rest);
        if rest[0] == RBrace {
          LastMemberText(ts, m, rest);
        } else if rest[0] == Comma {
          MembersText(rest[1..]);
          var tail := ParseMembers(rest[1..], RAW);
          if tail.Ok? {
            NextMemberText(ts, m, rest, tail.value, tail.rest);
          }
        }
      }
    }
  }

  // ----- respelling does not change what is read -----

  ghost predicate SameUpToSpelling<T>(a: Parsed<T>, b: Parsed<T>) {
    match a
    case Err(e) => b == a
    case Ok(v, rest) => b == Ok(v, Shown(rest))
  }

  lemma {:induction false} ShownValue(ts: seq<Token>)
    ensures SameUpToSpelling(ParseValue(ts, RAW), ParseValue(Shown(ts), RAW))
    decreases |ts|, 0
  {
    if ts != [] {
      ShownSuffix(ts, 1);
      if |ts| > 1 {
        ShownSuffix(ts, 2);
      }
      if ts[0] == LBracket && !(|ts| > 1 && ts[1] == RBracket) {
        ShownItems(ts[1..]);
      } else if ts[0] == LBrace && !(|ts| > 1 && ts[1] == RBrace) {
        ShownMembers(ts[1..]);
      }
    }
  }

  lemma {:induction false} ShownItems(ts: seq<Token>)
    ensures SameUpToSpelling(ParseItems(ts, RAW), ParseItems(Shown(ts), RAW))
    decreases |ts|, 1
  {
    ShownValue(ts);
    var head := ParseValue(ts, RAW);
    if head.Ok? && head.rest != [] {
      ShownSuffix(head.rest, 1);
      if head.rest[0] == Comma {
        ShownItems(head.rest[1..]);
      }
    }
  }

  lemma {:induction false} ShownMembers(ts: seq<Token>)
    ensures SameUpToSpelling(ParseMembers(ts, RAW), ParseMembers(Shown(ts), RAW))
    decreases |ts|, 1
  {
    if |ts| >= 2 && ts[0].TStr? && ts[1] == Colon {
      ShownSuffix(ts, 2);
      ShownValue(ts[2..]);
      var head := ParseValue(ts[2..], RAW);
      if head.Ok? && head.rest != [] {
        ShownSuffix(head.rest, 1);
        if head.rest[0] == Comma {
          ShownMembers(head.rest[1..]);
        }
      }
    }
  }

  /** Without hooks, a text loads as a tree exactly if it is the print of that tree, up to
      the spelling of non-finite numbers: nothing is left over, and nothing else loads. */
  lemma LoadsIsUnprint(ts: seq<Token>, j: Json)
    ensures Loads(ts, RAW) == Doc(j) <==> Shown(ts) == Print(j)
  {
    if Loads(ts, RAW) == Doc(j) {
      ValueText(ts);
      assert Print(j) + Shown([]) == Print(j);
    }
    if Shown(ts) == Print(j) {
      ShownValue(ts);
      LoadsOfPrint(j, RAW);
    }
  }

  lemma PrintIsInjective(ts: seq<Token>, a: Json, b: Json)
    requires Shown(ts) == Print(a) && Shown(ts) == Print(b)
    ensures a == b
  {
    LoadsIsUnprint(ts, a);
    LoadsIsUnprint(ts, b);
  }

  // ----- bare constants -----

  /** Number of bare constants in a text. */
  function Consts(ts: seq<Token>): nat {
    if ts == [] then 0 else Consts(ts[1..]) + (if ts[0].TConst? then 1 else 0)
  }

  lemma {:induction false} NoConsts(ts: seq<Token>)
    ensures Consts(ts) == 0 <==> forall i | 0 <= i < |ts| :: !ts[i].TConst?
  {
    if ts != [] {
      NoConsts(ts[1..]);
      assert forall i | 0 < i < |ts| :: ts[i] == ts[1..][i - 1];
    }
  }

  /** `strict` is `plain`, unless a bare constant was met, which is then to blame. */
  ghost predicate Sterner<T>(ts: seq<Token>, plain: Parsed<T>, strict: Parsed<T>) {
    match plain
    case Ok(_, rest) =>
      Consts(rest) <= Consts(ts) &&
      if Consts(rest) == Consts(ts) then strict == plain else strict.Err? && strict.error.NonFinite?
    case Err(e) =>
      !e.NonFinite? && (strict == plain || (strict.Err? && strict.error.NonFinite? && Consts(ts) > 0))
  }

  lemma {:induction false} SternValue(ts: seq<Token>, hook: Hook)
    ensures Sterner(ts, ParseValue(ts, Reader(hook, true)), ParseValue(ts, Reader(hook, false)))
    decreases |ts|, 0
  {
    if ts != [] {
      if |ts| > 1 && (ts[0] == LBracket || ts[0] == LBrace) {
        assert ts[1..][1..] == ts[2..];
      }
      if ts[0] == LBracket && !(|ts| > 1 && ts[1] == RBracket) {
        SternItems(ts[1..], hook);
      } else if ts[0] == LBrace && !(|ts| > 1 && ts[1] == RBrace) {
        SternMembers(ts[1..], hook);
      }
    }
  }

  lemma {:induction false} SternItems(ts: seq<Token>, hook: Hook)
    ensures Sterner(ts, ParseItems(ts, Reader(hook, true)), ParseItems(ts, Reader(hook, false)))
    decreases |ts|, 1
  {
    SternValue(ts, hook);
    var head := ParseValue(ts, Reader(hook, true));
    if head.Ok? && head.rest != [] && head.rest[0] == Comma {
      SternItems(head.rest[1..], hook);
    }
  }

  lemma {:induction false} SternMembers(ts: seq<Token>, hook: Hook)
    ensures Sterner(ts, ParseMembers(ts, Reader(hook, true)), ParseMembers(ts, Reader(hook, false)))
    decreases |ts|, 1
  {
    if |ts| >= 2 && ts[0].TStr? && ts[1] == Colon {
      assert ts[1..][1..] == ts[2..];
      SternValue(ts[2..], hook);
      var head := ParseValue(ts[2..], Reader(hook, true));
      if head.Ok? && head.rest != [] && head.rest[0] == Comma {
        SternMembers(head.rest[1..], hook);
      }
    }
  }

  /** Refusing bare constants refuses exactly the texts that hold one, and blames nothing
      else for it. */
  lemma LoadsSternly(ts: seq<Token>, hook: Hook)
    ensures Loads(ts, Reader(hook, true)).Doc? && Consts(ts) == 0 ==>
              Loads(ts, Reader(hook, false)) == Loads(ts, Reader(hook, true))
    ensures Loads(ts, Reader(hook, true)).Doc? && Consts(ts) > 0 ==>
              Loads(ts, Reader(hook, false)).Fails? && Loads(ts, Reader(hook, false)).error.NonFinite?
    ensures Loads(ts, Reader(hook, true)).Fails? ==>
              Loads(ts, Reader(hook, false)) == Loads(ts, Reader(hook, true)) ||
              (Loads(ts, Reader(hook, false)).Fails? && Loads(ts, Reader(hook, false)).error.NonFinite? && Consts(ts) > 0)
    ensures Loads(ts, Reader(hook, true)).Fails? ==> !Loads(ts, Reader(hook, true)).error.NonFinite?
  {
    SternValue(ts, hook);
  }

  // ----- the gateway's two readers -----

  ghost predicate ConstFree(ts: seq<Token>) {
    forall i | 0 <= i < |ts| :: !ts[i].TConst?
  }

  /** A request loads exactly if it is the print of a tree that repeats no name, with no
      bare constant in it. */
  lemma RequestLoads(ts: seq<Token>, j: Json)
    ensures Loads(ts, GATEWAY) == Doc(j) <==> Shown(ts) == Print(j) && ConstFree(ts) && WellKeyed(j)
  {
    LoadsIsUnprint(ts, j);
    LoadsSternly(ts, Reject);
    NoConsts(ts);
    RejectsExactlyRepeats(ts, true, j);
    if Loads(ts, GATEWAY) == Doc(j) {
      RejectsExactlyRepeats(ts, true, Loads(ts, Reader(Reject, true)).tree);
    }
  }

  /** What is blamed when a request does not load: for the print of a tree, repeated names
      or bare constants, and only if there are some; "not JSON" only for a text that is the
      print of no tree. */
  lemma RequestFails(ts: seq<Token>, j: Json)
    requires Loads(ts, GATEWAY).Fails?
    ensures Shown(ts) == Print(j) ==> !Loads(ts, GATEWAY).error.Syntax?
    ensures Shown(ts) == Print(j) && WellKeyed(j) ==> Loads(ts, GATEWAY).error.NonFinite?
    ensures Shown(ts) == Print(j) && ConstFree(ts) ==> Loads(ts, GATEWAY).error.Duplicate?
    ensures Loads(ts, GATEWAY).error.NonFinite? ==> !ConstFree(ts)
  {
    LoadsIsUnprint(ts, j);
    LoadsSternly(ts, Reject);
    NoConsts(ts);
    RejectsExactlyRepeats(ts, true, j);
  }

  /** An upstream page loads exactly if it is the print of a tree with no bare constant in
      it, and then as the dicts that tree collapses to. */
  lemma PageLoads(ts: seq<Token>, j: Json)
    ensures Shown(ts) == Print(j) && ConstFree(ts) ==> Loads(ts, FILTER) == Doc(Collapse(j))
    ensures Loads(ts, FILTER).Doc? ==>
              ConstFree(ts) && exists raw :: Shown(ts) == Print(raw) && Loads(ts, FILTER) == Doc(Collapse(raw))
  {
    LoadsIsUnprint(ts, j);
    LoadsSternly(ts, LastWins);
    LoadsIntoDicts(ts, true);
    NoConsts(ts);
    if Loads(ts, FILTER).Doc? {
      var raw := Loads(ts, RAW).tree;
      LoadsIsUnprint(ts, raw);
    }
  }
}
