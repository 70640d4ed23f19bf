/** Facts that span several parts of the gateway. */
module Guarantees {
  import opened Texts
  import opened JsonTrees
  import opened JsonTokens
  import opened JsonRpc
  import opened MethodPaths
  import opened ScopePolicies
  import opened ToolPolicies
  import opened Scopes
  import opened ToolsList
  import opened Proxy

  lemma {:induction false} NoRuleFor(rules: Rules, a: Text, b: Text, n: nat)
    requires rules.Keys == {a} && !(a <= b) && n <= |b|
    ensures PrefixRule(rules, b, n) == None
  {
    if n > 0 {
      NoRuleFor(rules, a, b, n - 1);
    }
  }

  /** A policy that allows `a` and not `b`. */
  lemma RuleSeparates(a: Text, b: Text) returns (p: ScopePolicy)
    requires !(a <= b)
    ensures ScopePolicies.Check(p, a, {}).allowed && !ScopePolicies.Check(p, b, {}).allowed
  {
    p := ScopePolicy(map[a := {}], {}, true);
    NoRuleFor(p.rules, a, b, |b|);
    CheckMeaning(p, a, {});
    CheckMeaning(p, b, {});
  }

  ghost predicate SameDecisions(a: Text, b: Text) {
    forall p: ScopePolicy, held: set<Text> :: ScopePolicies.Check(p, a, held) == ScopePolicies.Check(p, b, held)
  }

  /** The guard is what path normalization calls for, no less and no more: the scope
      decision on a method and on its normalized form agree under every policy exactly if
      the guard lets the method through. */
  lemma GuardKeepsDecisions(name: Text)
    requires name != []
    ensures PassesGuard(name) <==> SameDecisions(Normalize(name), name)
  {
    GuardIsFixedPoint(name);
    var other := Normalize(name);
    if other != name {
      if name <= other {
        var p := RuleSeparates(other, name);
        assert ScopePolicies.Check(p, other, {}) != ScopePolicies.Check(p, name, {});
      } else {
        var p := RuleSeparates(name, other);
        assert ScopePolicies.Check(p, other, {}) != ScopePolicies.Check(p, name, {});
      }
    }
  }

  /** The scope decision on an accepted method is the decision on its path-normalized form:
      an upstream that normalizes the method dispatches what was authorized. A corollary of
      the guard accepting only fixed points of normalization. */
  lemma DecisionSurvivesNormalization(p: ScopePolicy, raw: seq<Token>, held: set<Text>)
    requires ParseJsonRpc(raw).Accepted?
    ensures var name := ParseJsonRpc(raw).name;
            ScopePolicies.Check(p, Normalize(name), held) == ScopePolicies.Check(p, name, held)
  {
    AcceptedMethod(raw);
  }

  /** The forwarded scopes header splits back into exactly the scopes the request was
      authorized with, and is as safe a header value as the forwarded subject. */
  lemma ForwardedScopesAreHeld(decoded: Option<Decoded>)
    requires Verify(decoded).Some?
    ensures var v := Verify(decoded).value;
            SetOf(NonEmpty(Split(Header(v.scopes), SPACE))) == v.scopes &&
            ScopesOf(map[SCOPE := Str(Header(v.scopes))]) == Some(v.scopes)
    ensures var v := Verify(decoded).value;
            HeaderSafe(v.subject) && (v.scopes != {} ==> HeaderSafe(Header(v.scopes))) &&
            (v.scopes == {} ==> Header(v.scopes) == [])
  {
    HeaderRoundTrip(decoded.value.claims, Verify(decoded).value.scopes);
    AcceptedScopesAreValid(decoded.value.claims);
    HeaderSplits(Verify(decoded).value.scopes);
    if Verify(decoded).value.scopes != {} {
      HeaderIsSafe(Verify(decoded).value.scopes);
    }
  }

  lemma CallParses(call: seq<Token>, data: Json)
    requires Loads(call, GATEWAY) == Doc(data) && data.Obj? && EncodableTree(data)
    requires Field(data, METHOD) == Str(TOOLS_CALL)
    requires NamedTool(data).Str? && 0 < |NamedTool(data).s| <= MAX_IDENTIFIER_LEN
    ensures ParseJsonRpc(call) == Accepted(TOOLS_CALL, Some(NamedTool(data).s), Print(data))
  {
    CallPassesGuard();
    PrintEncodable(data);
  }

  /** A client can call exactly what it can see: for every entry of an upstream page, a
      tools/call that names it passes the tool gate, with the same claims, if and only if
      the filtered page still lists the entry. */
  lemma CallableIffListed(p: ToolPolicy, claims: Option<Claims>, raw: seq<Token>, k: nat, call: seq<Token>, data: Json)
    requires FilterSpec(raw, p, claims).Filtered?
    requires Loads(raw, FILTER).Doc? && Filterable(Loads(raw, FILTER).tree) && k < |Page(Loads(raw, FILTER).tree)|
    requires Loads(call, GATEWAY) == Doc(data) && data.Obj? && EncodableTree(data)
    requires Field(data, METHOD) == Str(TOOLS_CALL)
    requires NamedTool(data) == Field(Page(Loads(raw, FILTER).tree)[k], NAME)
    ensures var page := Page(Loads(raw, FILTER).tree);
            ToolGate(Some(p), claims, ParseJsonRpc(call)) <==> k in VisibleAt(page, p, claims)
    ensures var page := Page(Loads(raw, FILTER).tree);
            |Kept(page, p, claims)| == |VisibleAt(page, p, claims)| &&
            forall i | 0 <= i < |Kept(page, p, claims)| ::
              VisibleAt(page, p, claims)[i] < |page| && Kept(page, p, claims)[i] == page[VisibleAt(page, p, claims)[i]]
  {
    var page := Page(Loads(raw, FILTER).tree);
    VisibleAtMeaning(page, p, claims, k);
    KeptIsSelection(page, p, claims);
    assert GoodEntry(page[k]);
    CallParses(call, data);
  }
}
