/** Per-tool allow-list: an unconditional list, and rules that bind tools to the values of
    one token claim. */
module ToolPolicies {
  import opened Texts
  import opened JsonTrees

  type Claims = map<Text, Json>

  datatype ToolRule = ToolRule(name: Text, anyOf: set<Text>, allowedTools: set<Text>)

  datatype ToolPolicy = ToolPolicy(allowedTools: set<Text>, claim: Text, rules: seq<ToolRule>)

  datatype ToolReason =
    | Granted | EmptyName | NotListed | ClaimAbsent | ClaimUnusable | NoRuleMatches | NotPermitted

  datatype Grant = Unconditional | ByRule(name: Text)

  datatype ToolDecision = ToolDecision(allowed: bool, tool: Text, reason: ToolReason, matchedRule: Option<Grant>)

  datatype ClaimRead = Absent | Unusable | Values(values: set<Text>)

  predicate NonEmptyStrings(items: seq<Json>) {
    forall i | 0 <= i < |items| :: items[i].Str? && items[i].s != []
  }

  /** `_claim_values` */
  function ClaimValues(claims: Option<Claims>, name: Text): ClaimRead {
    if claims.None? || claims.value == map[] || name !in claims.value then Absent
    else
      match claims.value[name]
      case Str(s) => if s != [] then Values({s}) else Unusable
      case Arr(items) =>
        if NonEmptyStrings(items) then Values(set i | 0 <= i < |items| :: items[i].s) else Unusable
      case _ => Unusable
  }

  predicate Meets(rule: ToolRule, values: set<Text>) {
    values * rule.anyOf != {}
  }

  /** The tools a caller with these claims may invoke: the unconditional list and the lists
      of every rule that its claim values meet. */
  ghost function Permitted(p: ToolPolicy, claims: Option<Claims>): set<Text> {
    p.allowedTools +
    (match ClaimValues(claims, p.claim)
     case Values(vs) => set i, t | 0 <= i < |p.rules| && Meets(p.rules[i], vs) && t in p.rules[i].allowedTools :: t
     case _ => {})
  }

  ghost predicate Callable(p: ToolPolicy, tool: Text, claims: Option<Claims>) {
    tool != [] && tool in Permitted(p, claims)
  }

  /** Index of the first rule in policy order, from `n` on, that grants `tool`. */
  function FirstGrant(rules: seq<ToolRule>, n: nat, values: set<Text>, tool: Text): (r: Option<nat>)
    requires n <= |rules|
    ensures r.Some? ==> n <= r.value < |rules| && Meets(rules[r.value], values) && tool in rules[r.value].allowedTools
    ensures forall i | n <= i < (if r.Some? then r.value else |rules|) ::
              !(Meets(rules[i], values) && tool in rules[i].allowedTools)
    decreases |rules| - n
  {
    if n == |rules| then None
    else if Meets(rules[n], values) && tool in rules[n].allowedTools then Some(n)
    else FirstGrant(rules, n + 1, values, tool)
  }

  function Decide(p: ToolPolicy, tool: Text, claims: Option<Claims>): ToolDecision {
    if tool == [] then ToolDecision(false, tool, EmptyName, None)
    else if tool in p.allowedTools then ToolDecision(true, tool, Granted, Some(Unconditional))
    else if p.rules == [] then ToolDecision(false, tool, NotListed, None)
    else
      match ClaimValues(claims, p.claim)
      case Absent => ToolDecision(false, tool, ClaimAbsent, None)
      case Unusable => ToolDecision(false, tool, ClaimUnusable, None)
      case Values(vs) =>
        match FirstGrant(p.rules, 0, vs, tool)
        case Some(i) => ToolDecision(true, tool, Granted, Some(ByRule(p.rules[i].name)))
        case None =>
          if exists i | 0 <= i < |p.rules| :: Meets(p.rules[i], vs)
          then ToolDecision(false, tool, NotPermitted, None)
          else ToolDecision(false, tool, NoRuleMatches, None)
  }

  /** `ToolPolicy.check`, with its early return and its `matched_any` flag. */
  method Check(p: ToolPolicy, tool: Text, claims: Option<Claims>) returns (d: ToolDecision)
    ensures d == Decide(p, tool, claims)
  {
    if tool == [] {
      return ToolDecision(false, tool, EmptyName, None);
    }
    if tool in p.allowedTools {
      return ToolDecision(true, tool, Granted, Some(Unconditional));
    }
    if p.rules == [] {
      return ToolDecision(false, tool, NotListed, None);
    }
    var read := ClaimValues(claims, p.claim);
    if read.Absent? {
      return ToolDecision(false, tool, ClaimAbsent, None);
    }
    if read.Unusable? {
      return ToolDecision(false, tool, ClaimUnusable, None);
    }
    var values := read.values;
    var matchedAny := false;
    for i := 0 to |p.rules|
      invariant matchedAny <==> exists k | 0 <= k < i :: Meets(p.rules[k], values)
      invariant FirstGrant(p.rules, 0, values, tool) == FirstGrant(p.rules, i, values, tool)
    {
      if values * p.rules[i].anyOf == {} {
        continue;
      }
      assert Meets(p.rules[i], values);
      matchedAny := true;
      if tool in p.rules[i].allowedTools {
        return ToolDecision(true, tool, Granted, Some(ByRule(p.rules[i].name)));
      }
    }
    if !matchedAny {
      return ToolDecision(false, tool, NoRuleMatches, None);
    }
    return ToolDecision(false, tool, NotPermitted, None);
  }

  // ----- what a claim gives, by its shape -----

  ghost predicate NonEmptyString(j: Json) {
    j.Str? && j.s != []
  }

  /** The claim can be used: a non-empty string, or a list of nothing but such. */
  ghost predicate UsableClaim(j: Json) {
    NonEmptyString(j) || (j.Arr? && forall v | v in j.items :: NonEmptyString(v))
  }

  /** The token's claim of this name gives the value: the claim is that string, as a whole,
      or a usable list that has it. */
  ghost predicate Gives(claims: Option<Claims>, name: Text, value: Text) {
    claims.Some? && name in claims.value &&
    var j := claims.value[name];
    UsableClaim(j) && (j == Str(value) || (j.Arr? && Str(value) in j.items))
  }

  /** Some value of the claim meets the rule. */
  ghost predicate MetBy(rule: ToolRule, claims: Option<Claims>, name: Text) {
    exists v :: v in rule.anyOf && Gives(claims, name, v)
  }

  lemma ClaimByShape(claims: Option<Claims>, name: Text)
    ensures ClaimValues(claims, name).Absent? <==> claims.None? || name !in claims.value
    ensures ClaimValues(claims, name).Values? <==> claims.Some? && name in claims.value && UsableClaim(claims.value[name])
    ensures forall v :: Gives(claims, name, v) <==>
              ClaimValues(claims, name).Values? && v in ClaimValues(claims, name).values
  {
    if claims.Some? && name in claims.value && claims.value[name].Arr? {
      var items := claims.value[name].items;
      assert forall i | 0 <= i < |items| :: items[i] in items;
      if NonEmptyStrings(items) {
        forall v ensures Str(v) in items <==> v in ClaimValues(claims, name).values {
          if Str(v) in items {
            var i :| 0 <= i < |items| && items[i] == Str(v);
          }
        }
      }
    }
  }

  lemma MeetsIsMetBy(rule: ToolRule, claims: Option<Claims>, name: Text)
    ensures MetBy(rule, claims, name) <==>
            ClaimValues(claims, name).Values? && Meets(rule, ClaimValues(claims, name).values)
  {
    ClaimByShape(claims, name);
    if ClaimValues(claims, name).Values? && Meets(rule, ClaimValues(claims, name).values) {
      var v :| v in ClaimValues(claims, name).values * rule.anyOf;
      assert v in rule.anyOf && Gives(claims, name, v);
    }
    if v :| v in rule.anyOf && Gives(claims, name, v) {
      assert v in ClaimValues(claims, name).values * rule.anyOf;
    }
  }

  /** Some rule that the claim meets lists the tool. */
  ghost predicate GrantedByRule(p: ToolPolicy, tool: Text, claims: Option<Claims>) {
    exists i | 0 <= i < |p.rules| :: tool in p.rules[i].allowedTools && MetBy(p.rules[i], claims, p.claim)
  }

  ghost predicate AnyRuleMet(p: ToolPolicy, claims: Option<Claims>) {
    exists i | 0 <= i < |p.rules| :: MetBy(p.rules[i], claims, p.claim)
  }

  /** The decision by the shapes of policy and claim. Allowed: a non-empty name on the
      unconditional list, or on that of a rule with a value that the claim gives. And each
      reason in exactly its case. */
  lemma DecidesExactly(p: ToolPolicy, tool: Text, claims: Option<Claims>)
    ensures var d := Decide(p, tool, claims);
            var open := tool != [] && tool !in p.allowedTools;
            var claim := if claims.Some? && p.claim in claims.value then Some(claims.value[p.claim]) else None;
            d.tool == tool &&
            (d.allowed <==> tool != [] && (tool in p.allowedTools || GrantedByRule(p, tool, claims))) &&
            (d.reason == Granted <==> d.allowed) &&
            (d.reason == EmptyName <==> tool == []) &&
            (d.reason == NotListed <==> open && p.rules == []) &&
            (d.reason == ClaimAbsent <==> open && p.rules != [] && claim.None?) &&
            (d.reason == ClaimUnusable <==> open && p.rules != [] && claim.Some? && !UsableClaim(claim.value)) &&
            (d.reason == NoRuleMatches <==>
               open && p.rules != [] && claim.Some? && UsableClaim(claim.value) && !AnyRuleMet(p, claims)) &&
            (d.matchedRule == Some(Unconditional) <==> tool in p.allowedTools && tool != [])
  {
    ClaimByShape(claims, p.claim);
    forall i | 0 <= i < |p.rules|
      ensures MetBy(p.rules[i], claims, p.claim) <==>
              ClaimValues(claims, p.claim).Values? && Meets(p.rules[i], ClaimValues(claims, p.claim).values)
    {
      MeetsIsMetBy(p.rules[i], claims, p.claim);
    }
  }

  /** The early-exit check is membership in the permitted set, for a non-empty name. */
  lemma AllowedIffPermitted(p: ToolPolicy, tool: Text, claims: Option<Claims>)
    ensures Decide(p, tool, claims).allowed <==> Callable(p, tool, claims)
    ensures Decide(p, tool, claims).allowed <==> Decide(p, tool, claims).matchedRule.Some?
  {
    if tool != [] && tool !in p.allowedTools {
      match ClaimValues(claims, p.claim)
      case Values(vs) =>
        var g := FirstGrant(p.rules, 0, vs, tool);
        if g.Some? {
          assert tool in Permitted(p, claims);
        }
      case _ =>
    }
  }

  /** A grant not from the unconditional list names the first rule, in policy order, that
      the claim meets and that lists the tool. */
  lemma MatchedRuleIsFirst(p: ToolPolicy, tool: Text, claims: Option<Claims>, i: nat)
    requires tool != [] && tool !in p.allowedTools
    requires i < |p.rules| && MetBy(p.rules[i], claims, p.claim) && tool in p.rules[i].allowedTools
    requires forall k | 0 <= k < i :: !(MetBy(p.rules[k], claims, p.claim) && tool in p.rules[k].allowedTools)
    ensures Decide(p, tool, claims) == ToolDecision(true, tool, Granted, Some(ByRule(p.rules[i].name)))
  {
    forall k | 0 <= k < |p.rules|
      ensures MetBy(p.rules[k], claims, p.claim) <==>
              ClaimValues(claims, p.claim).Values? && Meets(p.rules[k], ClaimValues(claims, p.claim).values)
    {
      MeetsIsMetBy(p.rules[k], claims, p.claim);
    }
    var g := FirstGrant(p.rules, 0, ClaimValues(claims, p.claim).values, tool);
    assert g.Some? && g.value == i;
  }

  lemma PermittedByMembership(p: ToolPolicy, q: ToolPolicy, tool: Text, claims: Option<Claims>)
    requires p.allowedTools <= q.allowedTools && p.claim == q.claim
    requires forall r | r in p.rules :: r in q.rules
    ensures tool in Permitted(p, claims) ==> tool in Permitted(q, claims)
  {
    if tool in Permitted(p, claims) && tool !in p.allowedTools {
      var vs := ClaimValues(claims, p.claim).values;
      var i :| 0 <= i < |p.rules| && Meets(p.rules[i], vs) && tool in p.rules[i].allowedTools;
      assert p.rules[i] in q.rules;
      var k :| 0 <= k < |q.rules| && q.rules[k] == p.rules[i];
      assert Meets(q.rules[k], vs) && tool in q.rules[k].allowedTools;
    }
  }

  /** Permission depends on which rules there are, not on their order or repetition. */
  lemma RuleOrderIsIrrelevant(p: ToolPolicy, q: ToolPolicy, tool: Text, claims: Option<Claims>)
    requires p.allowedTools == q.allowedTools && p.claim == q.claim
    requires forall r :: r in p.rules <==> r in q.rules
    ensures Decide(p, tool, claims).allowed == Decide(q, tool, claims).allowed
  {
    AllowedIffPermitted(p, tool, claims);
    AllowedIffPermitted(q, tool, claims);
    PermittedByMembership(p, q, tool, claims);
    PermittedByMembership(q, p, tool, claims);
  }

  /** More claim values never take a tool away. */
  lemma PermissionIsMonotone(p: ToolPolicy, tool: Text, claims: Option<Claims>, more: Option<Claims>)
    requires ClaimValues(claims, p.claim).Values? && ClaimValues(more, p.claim).Values?
    requires ClaimValues(claims, p.claim).values <= ClaimValues(more, p.claim).values
    ensures Decide(p, tool, claims).allowed ==> Decide(p, tool, more).allowed
  {
    AllowedIffPermitted(p, tool, claims);
    AllowedIffPermitted(p, tool, more);
    var vs, vs' := ClaimValues(claims, p.claim).values, ClaimValues(more, p.claim).values;
    if tool in Permitted(p, claims) && tool !in p.allowedTools {
      var i :| 0 <= i < |p.rules| && Meets(p.rules[i], vs) && tool in p.rules[i].allowedTools;
      var v :| v in vs * p.rules[i].anyOf;
      assert v in vs' * p.rules[i].anyOf;
      assert Meets(p.rules[i], vs');
    }
  }

  /** `check_many` */
  function CheckMany(p: ToolPolicy, tools: seq<Text>, claims: Option<Claims>): bool {
    tools == [] || (Decide(p, tools[0], claims).allowed && CheckMany(p, tools[1..], claims))
  }

  lemma {:induction false} CheckManyIsConjunction(p: ToolPolicy, tools: seq<Text>, claims: Option<Claims>)
    ensures CheckMany(p, tools, claims) <==> forall i | 0 <= i < |tools| :: Callable(p, tools[i], claims)
  {
    if tools != [] {
      AllowedIffPermitted(p, tools[0], claims);
      CheckManyIsConjunction(p, tools[1..], claims);
      assert forall i | 0 < i < |tools| :: tools[i] == tools[1..][i - 1];
    }
  }
}
