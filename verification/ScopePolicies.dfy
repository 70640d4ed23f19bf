/** Per-method scope policy: which scopes a method needs, by exact rule or else by the
    longest rule ending in "/" that prefixes the method. */
module ScopePolicies {
  import opened Texts

  type Rules = map<Text, set<Text>>

  datatype ScopePolicy = ScopePolicy(rules: Rules, default: set<Text>, denyByDefault: bool)

  datatype ScopeReason = Satisfied | NoPolicy | Missing(scopes: set<Text>)

  datatype ScopeDecision = ScopeDecision(allowed: bool, required: set<Text>, reason: ScopeReason)

  /** `key` is a rule that `_match` would consider as a prefix rule for `name`. */
  predicate Prefixes(rules: Rules, key: Text, name: Text) {
    key in rules && key != [] && key[|key| - 1] == SLASH && key <= name
  }

  /** The rule for the longest "/"-ended prefix of name[..n], read off the method name
      itself instead of off the rules. */
  function PrefixRule(rules: Rules, name: Text, n: nat): Option<set<Text>>
    requires n <= |name|
  {
    if n == 0 then None
    else if Prefixes(rules, name[..n], name) then Some(rules[name[..n]])
    else PrefixRule(rules, name, n - 1)
  }

  /** The scopes that the policy's rules require of a method. */
  function Required(rules: Rules, name: Text): Option<set<Text>> {
    if name in rules then Some(rules[name]) else PrefixRule(rules, name, |name|)
  }

  lemma PrefixByLength(rules: Rules, key: Text, name: Text)
    requires Prefixes(rules, key, name)
    ensures name[..|key|] == key
  {}

  lemma {:induction false} PrefixRuleFound(rules: Rules, name: Text, n: nat, key: Text)
    requires n <= |name| && |key| <= n && Prefixes(rules, key, name)
    requires forall k | Prefixes(rules, k, name) :: |k| <= |key|
    ensures PrefixRule(rules, name, n) == Some(rules[key])
  {
    PrefixByLength(rules, key, name);
    if n > |key| {
      assert |name[..n]| == n;
      PrefixRuleFound(rules, name, n - 1, key);
    }
  }

  lemma {:induction false} PrefixRuleNone(rules: Rules, name: Text, n: nat)
    requires n <= |name| && forall k :: !Prefixes(rules, k, name)
    ensures PrefixRule(rules, name, n) == None
  {
    if n > 0 {
      PrefixRuleNone(rules, name, n - 1);
    }
  }

  lemma {:induction false} LongestExists(rules: Rules, name: Text, key: Text) returns (best: Text)
    requires Prefixes(rules, key, name)
    ensures Prefixes(rules, best, name) && |key| <= |best|
    ensures forall k | Prefixes(rules, k, name) :: |k| <= |best|
    decreases |name| - |key|
  {
    if k :| Prefixes(rules, k, name) && |k| > |key| {
      best := LongestExists(rules, name, k);
    } else {
      best := key;
    }
  }

  /** An exact rule wins; otherwise the longest prefix rule decides, and it is the only
      prefix rule of its length; otherwise there is no rule. */
  lemma RequiredIsLongest(rules: Rules, name: Text, key: Text)
    ensures name in rules ==> Required(rules, name) == Some(rules[name])
    ensures name !in rules && Prefixes(rules, key, name) && (forall k | Prefixes(rules, k, name) :: |k| <= |key|) ==>
              Required(rules, name) == Some(rules[key])
    ensures name !in rules && (forall k :: !Prefixes(rules, k, name)) ==> Required(rules, name) == None
    ensures forall k | Prefixes(rules, k, name) && Prefixes(rules, key, name) && |k| == |key| :: k == key
  {
    if name !in rules {
      if Prefixes(rules, key, name) && (forall k | Prefixes(rules, k, name) :: |k| <= |key|) {
        PrefixRuleFound(rules, name, |name|, key);
      }
      if forall k :: !Prefixes(rules, k, name) {
        PrefixRuleNone(rules, name, |name|);
      }
    }
    forall k | Prefixes(rules, k, name) && Prefixes(rules, key, name) && |k| == |key| ensures k == key {
      PrefixByLength(rules, k, name);
      PrefixByLength(rules, key, name);
    }
  }

  /** The rule for `key` covers the method: it ends in a slash and the method starts with
      it. */
  ghost predicate Covers(rules: Rules, key: Text, name: Text) {
    key in rules && exists stem, rest :: key == stem + [0x2F] && name == key + rest
  }

  lemma CoversIsPrefixes(rules: Rules, key: Text, name: Text)
    ensures Covers(rules, key, name) <==> Prefixes(rules, key, name)
  {
    if Prefixes(rules, key, name) {
      assert key == key[..|key| - 1] + [0x2F] && name == key + name[|key|..];
    }
  }

  /** The rule that applies, by the texts of the keys. */
  lemma RuleByText(rules: Rules, name: Text, key: Text)
    requires name !in rules
    ensures Covers(rules, key, name) && (forall k | Covers(rules, k, name) :: |k| <= |key|) ==>
              Required(rules, name) == Some(rules[key])
    ensures Required(rules, name) == None <==> forall k :: !Covers(rules, k, name)
  {
    forall k ensures Covers(rules, k, name) <==> Prefixes(rules, k, name) {
      CoversIsPrefixes(rules, k, name);
    }
    RequiredIsLongest(rules, name, key);
    if k :| Prefixes(rules, k, name) {
      var best := LongestExists(rules, name, k);
      RequiredIsLongest(rules, name, best);
    }
  }

  /** `_match`. The loop takes the rules in an arbitrary order, so the result owes nothing
      to dict iteration order. */
  method Match(rules: Rules, name: Text) returns (r: Option<set<Text>>)
    ensures r == Required(rules, name)
  {
    if name in rules {
      return Some(rules[name]);
    }
    var best: Option<Text> := None;
    var todo := rules.Keys;
    while todo != {}
      invariant todo <= rules.Keys
      invariant best.Some? ==> Prefixes(rules, best.value, name)
      invariant forall k | Prefixes(rules, k, name) && k !in todo :: best.Some? && |k| <= |best.value|
      decreases todo
    {
      var key :| key in todo;
      todo := todo - {key};
      if key != [] && key[|key| - 1] == SLASH && key <= name {
        if best.None? || |key| > |best.value| {
          best := Some(key);
        }
      }
    }
    if best.Some? {
      RequiredIsLongest(rules, name, best.value);
      return Some(rules[best.value]);
    }
    RequiredIsLongest(rules, name, []);
    return None;
  }

  /** `key` is the rule that decides `name` once it is added to `rules`. */
  ghost predicate TakesOver(rules: Rules, key: Text, name: Text) {
    name == key || (name !in rules && key <= name && forall k | Prefixes(rules, k, name) :: |k| <= |key|)
  }

  lemma {:induction false} SamePrefixes(a: Rules, b: Rules, name: Text, n: nat)
    requires n <= |name|
    requires forall k :: Prefixes(a, k, name) == Prefixes(b, k, name)
    requires forall k | Prefixes(a, k, name) && Prefixes(b, k, name) :: a[k] == b[k]
    ensures PrefixRule(a, name, n) == PrefixRule(b, name, n)
  {
    if n > 0 {
      SamePrefixes(a, b, name, n - 1);
    }
  }

  /** Adding (or replacing) a prefix rule changes the requirement of exactly those methods
      under it that have no exact rule and no longer prefix rule. */
  lemma AddingPrefixRule(rules: Rules, key: Text, scopes: set<Text>, name: Text)
    requires key != [] && key[|key| - 1] == SLASH
    ensures Required(rules[key := scopes], name) ==
            if TakesOver(rules, key, name) then Some(scopes) else Required(rules, name)
  {
    var more := rules[key := scopes];
    assert forall k | k != key :: Prefixes(more, k, name) == Prefixes(rules, k, name);
    if name !in more {
      if Prefixes(more, key, name) {
        var best := LongestExists(more, name, key);
        RequiredIsLongest(more, name, best);
        RequiredIsLongest(more, name, key);
        if best != key {
          assert Prefixes(rules, best, name);
          forall k | Prefixes(rules, k, name) ensures |k| <= |best| {
            assert Prefixes(more, k, name);
          }
          RequiredIsLongest(rules, name, best);
        }
      } else {
        SamePrefixes(rules, more, name, |name|);
      }
    }
  }

  function Held(required: set<Text>, held: set<Text>): ScopeDecision {
    var missing := required - held;
    if missing != {} then ScopeDecision(false, required, Missing(missing))
    else ScopeDecision(true, required, Satisfied)
  }

  /** `check` */
  function Check(p: ScopePolicy, name: Text, held: set<Text>): ScopeDecision {
    match Required(p.rules, name)
    case None =>
      if p.denyByDefault && p.default == {} then ScopeDecision(false, {}, NoPolicy)
      else Held(p.default, held)
    case Some(required) => Held(required, held)
  }

  /** A method is allowed exactly when some rule or a usable default speaks for it and all
      the scopes named there are held; holding more scopes never takes a method away. */
  lemma CheckMeaning(p: ScopePolicy, name: Text, held: set<Text>)
    ensures Check(p, name, held).allowed <==>
            (Required(p.rules, name).Some? && Required(p.rules, name).value <= held) ||
            (Required(p.rules, name).None? && (p.default != {} || !p.denyByDefault) && p.default <= held)
    ensures forall more: set<Text> | held <= more :: Check(p, name, held).allowed ==> Check(p, name, more).allowed
    ensures var d, rule := Check(p, name, held), Required(p.rules, name);
            (d.reason == Satisfied <==> d.allowed) &&
            (d.reason == NoPolicy <==> rule.None? && p.denyByDefault && p.default == {}) &&
            (d.reason == NoPolicy ==> d.required == {}) &&
            (d.reason != NoPolicy ==> d.required == if rule.Some? then rule.value else p.default) &&
            (d.reason.Missing? ==> forall t :: t in d.reason.scopes <==> t in d.required && t !in held)
  {
    forall required: set<Text>, h: set<Text> ensures Held(required, h).allowed <==> required <= h {
      assert required <= (required - h) + h;
    }
  }
}
