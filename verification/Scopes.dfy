/** Reading scopes out of token claims, and the space-joined header that carries them to
    the upstream. */
module Scopes {
  import opened Texts
  import opened JsonTrees
  import opened ToolPolicies

  const SCOPE: Text := Lit("scope")
  const SCP: Text := Lit("scp")

  predicate ScopeChar(c: CodePoint) {
    0x21 <= c < 0x7F && c != QUOTE && c != BACKSLASH
  }

  /** `_valid_scope_token`: scope-token of section 3.3 of RFC 6749. */
  predicate ValidScope(t: Text) {
    t != [] && forall i | 0 <= i < |t| :: ScopeChar(t[i])
  }

  predicate AllValid(tokens: seq<Text>) {
    forall i | 0 <= i < |tokens| :: ValidScope(tokens[i])
  }

  /** The pieces that are not empty, in order. */
  function NonEmpty(parts: seq<Text>): (r: seq<Text>)
    ensures forall t :: t in r <==> t in parts && t != []
  {
    if parts == [] then []
    else if parts[0] == [] then NonEmpty(parts[1..])
    else [parts[0]] + NonEmpty(parts[1..])
  }

  function SetOf(tokens: seq<Text>): set<Text> {
    set t | t in tokens
  }

  predicate AllStrings(items: seq<Json>) {
    forall i | 0 <= i < |items| :: items[i].Str?
  }

  function Strings(items: seq<Json>): seq<Text>
    requires AllStrings(items)
  {
    seq(|items|, i requires 0 <= i < |items| => items[i].s)
  }

  function Claim(claims: Claims, name: Text): Json {
    if name in claims then claims[name] else Null
  }

  function Checked(tokens: seq<Text>): Option<set<Text>> {
    if AllValid(tokens) then Some(SetOf(tokens)) else None
  }

  /** The scopes a claim set grants; None is `ScopeClaimError`. */
  function ScopesOf(claims: Claims): Option<set<Text>> {
    match (Claim(claims, SCOPE), Claim(claims, SCP))
    case (Str(s), _) => Checked(NonEmpty(Split(s, SPACE)))
    case (_, Str(s)) => Checked(NonEmpty(Split(s, SPACE)))
    case (_, Arr(items)) => if AllStrings(items) then Checked(Strings(items)) else None
    case _ => Some({})
  }

  /** `_parse_scopes` */
  method ParseScopes(claims: Claims) returns (r: Option<set<Text>>)
    ensures r == ScopesOf(claims)
  {
    var raw, scp := Claim(claims, SCOPE), Claim(claims, SCP);
    var tokens: seq<Text>;
    if raw.Str? {
      tokens := NonEmpty(Split(raw.s, SPACE));
    } else if scp.Str? {
      tokens := NonEmpty(Split(scp.s, SPACE));
    } else if scp.Arr? {
      tokens := [];
      for i := 0 to |scp.items|
        invariant |tokens| == i
        invariant forall k | 0 <= k < i :: scp.items[k].Str? && tokens[k] == scp.items[k].s
      {
        if !scp.items[i].Str? {
          return None;
        }
        tokens := tokens + [scp.items[i].s];
      }
      assert tokens == Strings(scp.items);
    } else {
      return Some({});
    }
    for i := 0 to |tokens|
      invariant forall k | 0 <= k < i :: ValidScope(tokens[k])
    {
      if !ValidScope(tokens[i]) {
        return None;
      }
    }
    return Some(SetOf(tokens));
  }

  // ----- what a claim grants -----

  /** scope-token of section 3.3 of RFC 6749. */
  ghost predicate ScopeToken(t: Text) {
    |t| >= 1 && forall c | c in t :: c == 0x21 || 0x23 <= c <= 0x5B || 0x5D <= c <= 0x7E
  }

  lemma ValidIsScopeToken(t: Text)
    ensures ValidScope(t) <==> ScopeToken(t)
  {
    assert forall i | 0 <= i < |t| :: t[i] in t;
  }

  /** `t` is a word of `s`: between spaces, or between one and an end. */
  ghost predicate Word(s: Text, t: Text) {
    t != [] && Piece(s, SPACE, t)
  }

  /** A space-delimited string grants its words, all of which must be scope tokens. */
  ghost predicate GrantsWords(s: Text, granted: Option<set<Text>>) {
    (granted.Some? <==> forall t | Word(s, t) :: ScopeToken(t)) &&
    (granted.Some? ==> forall t :: t in granted.value <==> Word(s, t))
  }

  /** A list grants its items, all of which must be strings that are scope tokens. */
  ghost predicate GrantsItems(items: seq<Json>, granted: Option<set<Text>>) {
    (granted.Some? <==> forall j | j in items :: j.Str? && ScopeToken(j.s)) &&
    (granted.Some? ==> forall t :: t in granted.value <==> Str(t) in items)
  }

  lemma CheckedWords(s: Text)
    ensures GrantsWords(s, Checked(NonEmpty(Split(s, SPACE))))
  {
    var tokens := NonEmpty(Split(s, SPACE));
    forall t ensures t in tokens <==> Word(s, t) {
      SplitIsPieces(s, SPACE, t);
    }
    forall t ensures ValidScope(t) <==> ScopeToken(t) {
      ValidIsScopeToken(t);
    }
    assert forall i | 0 <= i < |tokens| :: tokens[i] in tokens;
  }

  lemma CheckedItems(items: seq<Json>)
    ensures GrantsItems(items, if AllStrings(items) then Checked(Strings(items)) else None)
  {
    forall t ensures ValidScope(t) <==> ScopeToken(t) {
      ValidIsScopeToken(t);
    }
    assert forall i | 0 <= i < |items| :: items[i] in items;
    if AllStrings(items) {
      var tokens := Strings(items);
      assert forall i | 0 <= i < |items| :: tokens[i] == items[i].s && items[i] == Str(tokens[i]);
      forall t ensures t in tokens <==> Str(t) in items {
        if Str(t) in items {
          var i :| 0 <= i < |items| && items[i] == Str(t);
          assert tokens[i] == t;
        }
        if t in tokens {
          var i :| 0 <= i < |tokens| && tokens[i] == t;
          assert items[i] == Str(t);
        }
      }
    }
  }

  /** What a claim set grants, by the shapes of its claims: a string under "scope" decides
      whatever else there is; else a string or a list under "scp"; else nothing. */
  lemma ScopesByShape(claims: Claims)
    ensures SCOPE in claims && claims[SCOPE].Str? ==> GrantsWords(claims[SCOPE].s, ScopesOf(claims))
    ensures !(SCOPE in claims && claims[SCOPE].Str?) ==>
              (SCP in claims && claims[SCP].Str? ==> GrantsWords(claims[SCP].s, ScopesOf(claims))) &&
              (SCP in claims && claims[SCP].Arr? ==> GrantsItems(claims[SCP].items, ScopesOf(claims))) &&
              (!(SCP in claims && (claims[SCP].Str? || claims[SCP].Arr?)) ==> ScopesOf(claims) == Some({}))
  {
    match (Claim(claims, SCOPE), Claim(claims, SCP))
    case (Str(s), _) => CheckedWords(s);
    case (_, Str(s)) => CheckedWords(s);
    case (_, Arr(items)) => CheckedItems(items);
    case _ =>
  }

  // ----- sorted(), by code points -----

  predicate Before(a: Text, b: Text) {
    if a == [] then true
    else if b == [] then false
    else a[0] < b[0] || (a[0] == b[0] && Before(a[1..], b[1..]))
  }

  lemma {:induction false} BeforeIsTotal(a: Text, b: Text)
    ensures Before(a, b) || Before(b, a)
    ensures Before(a, b) && Before(b, a) ==> a == b
  {
    if a != [] && b != [] {
      BeforeIsTotal(a[1..], b[1..]);
      assert a == [a[0]] + a[1..] && b == [b[0]] + b[1..];
    }
  }

  lemma {:induction false} BeforeIsTransitive(a: Text, b: Text, c: Text)
    requires Before(a, b) && Before(b, c)
    ensures Before(a, c)
  {
    if a != [] && a[0] == b[0] == c[0] {
      BeforeIsTransitive(a[1..], b[1..], c[1..]);
    }
  }

  predicate IsFirst(m: Text, s: set<Text>) {
    m in s && forall x | x in s :: Before(m, x)
  }

  lemma {:induction false} FirstExists(s: set<Text>)
    requires s != {}
    ensures exists m :: IsFirst(m, s)
    decreases |s|
  {
    var x :| x in s;
    BeforeIsTotal(x, x);
    if s == {x} {
      assert IsFirst(x, s);
    } else {
      FirstExists(s - {x});
      var m' :| IsFirst(m', s - {x});
      BeforeIsTotal(x, m');
      if Before(x, m') {
        forall y | y in s ensures Before(x, y) {
          if y != x {
            BeforeIsTransitive(x, m', y);
          }
        }
        assert IsFirst(x, s);
      } else {
        assert IsFirst(m', s);
      }
    }
  }

  lemma FirstIsUnique(s: set<Text>)
    ensures forall a, b | IsFirst(a, s) && IsFirst(b, s) :: a == b
  {
    forall a, b | IsFirst(a, s) && IsFirst(b, s) ensures a == b {
      BeforeIsTotal(a, b);
    }
  }

  function FirstOf(s: set<Text>): (m: Text)
    requires s != {}
    ensures IsFirst(m, s)
  {
    FirstExists(s);
    FirstIsUnique(s);
    var m :| IsFirst(m, s);
    m
  }

  /** The scopes as a list in code point order. */
  function Sorted(s: set<Text>): seq<Text>
    decreases |s|
  {
    if s == {} then []
    else
      var m := FirstOf(s);
      [m] + Sorted(s - {m})
  }

  lemma {:induction false} SortedHolds(s: set<Text>, t: Text)
    ensures t in Sorted(s) <==> t in s
    decreases |s|
  {
    if s != {} {
      SortedHolds(s - {FirstOf(s)}, t);
    }
  }

  lemma SortedSet(s: set<Text>)
    ensures SetOf(Sorted(s)) == s
  {
    forall t ensures t in SetOf(Sorted(s)) <==> t in s {
      SortedHolds(s, t);
    }
  }

  ghost predicate Ascending(ts: seq<Text>) {
    forall i, k | 0 <= i < k < |ts| :: Before(ts[i], ts[k]) && ts[i] != ts[k]
  }

  /** `a` comes first at place `k`: the texts agree up to it, and there `a` ends or has the
      smaller code point. */
  ghost predicate FirstAt(a: Text, b: Text, k: int) {
    0 <= k <= |a| && k < |b| && a[..k] == b[..k] && (k == |a| || a[k] < b[k])
  }

  lemma FirstAtNext(a: Text, b: Text, k: int)
    requires a != [] && b != [] && k > 0
    ensures FirstAt(a, b, k) <==> a[0] == b[0] && FirstAt(a[1..], b[1..], k - 1)
  {
    if k <= |a| && k <= |b| {
      var x, y := a[1..][..k - 1], b[1..][..k - 1];
      assert a[..k] == [a[0]] + x && b[..k] == [b[0]] + y;
      assert ([a[0]] + x)[1..] == x && ([b[0]] + y)[1..] == y;
    }
  }

  /** The order of code points, spelled out. */
  lemma {:induction false} BeforeByCodePoints(a: Text, b: Text)
    ensures Before(a, b) && a != b <==> exists k :: FirstAt(a, b, k)
  {
    assert FirstAt(a, b, 0) <==> b != [] && (a == [] || a[0] < b[0]);
    if a != [] && b != [] {
      forall k | k > 0 ensures FirstAt(a, b, k) <==> a[0] == b[0] && FirstAt(a[1..], b[1..], k - 1) {
        FirstAtNext(a, b, k);
      }
      BeforeByCodePoints(a[1..], b[1..]);
      assert a == [a[0]] + a[1..] && b == [b[0]] + b[1..];
      if k :| a[0] == b[0] && FirstAt(a[1..], b[1..], k) {
        assert FirstAt(a, b, k + 1);
      }
    }
  }

  lemma AscendingCons(m: Text, tail: seq<Text>)
    requires Ascending(tail)
    requires forall k | 0 <= k < |tail| :: Before(m, tail[k]) && m != tail[k]
    ensures Ascending([m] + tail)
  {}

  /** Each scope once, in code point order. */
  lemma {:induction false} SortedIsSorted(s: set<Text>)
    ensures SetOf(Sorted(s)) == s && |Sorted(s)| == |s|
    ensures Ascending(Sorted(s))
    decreases |s|
  {
    SortedSet(s);
    if s != {} {
      var m := FirstOf(s);
      var tail := Sorted(s - {m});
      SortedSet(s - {m});
      SortedIsSorted(s - {m});
      assert Sorted(s) == [m] + tail;
      forall k | 0 <= k < |tail| ensures Before(m, tail[k]) && m != tail[k] {
        assert tail[k] in SetOf(tail);
      }
      AscendingCons(m, tail);
    }
  }

  /** The value of the X-Forwarded-Scopes header. */
  function Header(scopes: set<Text>): Text {
    Join(Sorted(scopes), SPACE)
  }

  ghost predicate ValidScopes(scopes: set<Text>) {
    forall t | t in scopes :: ValidScope(t)
  }

  lemma AcceptedScopesAreValid(claims: Claims)
    requires ScopesOf(claims).Some?
    ensures ValidScopes(ScopesOf(claims).value)
  {}

  /** Splitting the header at spaces gives back the sorted scopes, piece for piece. */
  lemma HeaderSplits(scopes: set<Text>)
    requires ValidScopes(scopes)
    ensures scopes != {} ==> Split(Header(scopes), SPACE) == Sorted(scopes)
    ensures SetOf(NonEmpty(Split(Header(scopes), SPACE))) == scopes
    ensures AllValid(NonEmpty(Split(Header(scopes), SPACE)))
  {
    SortedIsSorted(scopes);
    var tokens := Sorted(scopes);
    forall i | 0 <= i < |tokens| ensures ValidScope(tokens[i]) {
      assert tokens[i] in SetOf(tokens);
    }
    if scopes == {} {
      assert Split(Header(scopes), SPACE) == [[]];
    } else {
      SplitOfJoin(tokens, SPACE);
      forall t ensures t in NonEmpty(tokens) <==> t in tokens {
        assert t in tokens ==> t in SetOf(tokens);
      }
    }
  }

  predicate Ascii(t: Text) {
    forall i | 0 <= i < |t| :: t[i] < 0x80
  }

  /** A blank, in the sense of `str.strip`, among the ASCII characters. */
  predicate Blank(c: CodePoint) {
    0x09 <= c <= 0x0D || 0x1C <= c <= 0x20
  }

  /** `str.strip` on ASCII. */
  function Strip(t: Text): (r: Text)
    ensures |r| <= |t|
  {
    if t == [] then []
    else if Blank(t[0]) then Strip(t[1..])
    else if Blank(t[|t| - 1]) then Strip(t[..|t| - 1])
    else t
  }

  /** The check on `sub`, after which it is forwarded as it is. */
  predicate SubjectAccepted(t: Text) {
    t != [] && Ascii(t) && t == Strip(t) && forall i | 0 <= i < |t| :: !(t[i] < 0x20 || t[i] == 0x7F)
  }

  /** What a header value has to be: printable ASCII, no surrounding blanks, not empty. */
  predicate HeaderSafe(value: Text) {
    value != [] && value[0] != SPACE && value[|value| - 1] != SPACE &&
    forall i | 0 <= i < |value| :: 0x20 <= value[i] < 0x7F
  }

  /** The check on the subject lets through exactly what is safe in a header. */
  lemma SubjectIsHeaderSafe(t: Text)
    ensures SubjectAccepted(t) <==> HeaderSafe(t)
  {
    if HeaderSafe(t) {
      assert !Blank(t[0]) && !Blank(t[|t| - 1]);
    }
    if SubjectAccepted(t) {
      assert Blank(SPACE);
      assert t[0] != SPACE && t[|t| - 1] != SPACE;
    }
  }

  lemma {:induction false} JoinIsSafe(tokens: seq<Text>)
    requires |tokens| >= 1 && AllValid(tokens)
    ensures HeaderSafe(Join(tokens, SPACE))
  {
    if |tokens| > 1 {
      JoinIsSafe(tokens[1..]);
      assert ValidScope(tokens[0]);
    } else {
      assert ValidScope(tokens[0]);
    }
  }

  /** The scopes header passes the check that is made on the subject. */
  lemma HeaderIsSafe(scopes: set<Text>)
    requires ValidScopes(scopes) && scopes != {}
    ensures HeaderSafe(Header(scopes))
  {
    SortedIsSorted(scopes);
    var tokens := Sorted(scopes);
    forall i | 0 <= i < |tokens| ensures ValidScope(tokens[i]) {
      assert tokens[i] in SetOf(tokens);
    }
    JoinIsSafe(tokens);
  }

  lemma HeaderIsAscii(scopes: set<Text>)
    requires ValidScopes(scopes)
    ensures Ascii(Header(scopes))
  {
    if scopes != {} {
      HeaderIsSafe(scopes);
    }
  }

  /** Scopes the gateway accepts survive the trip through the header: read as a `scope`
      claim, the header grants exactly the same set. */
  lemma HeaderRoundTrip(claims: Claims, scopes: set<Text>)
    requires ScopesOf(claims) == Some(scopes)
    ensures ScopesOf(map[SCOPE := Str(Header(scopes))]) == Some(scopes)
  {
    AcceptedScopesAreValid(claims);
    HeaderSplits(scopes);
  }

  /** Two accepted scope sets travel as the same header only if they are the same set. */
  lemma HeaderIsInjective(a: set<Text>, b: set<Text>)
    requires ValidScopes(a) && ValidScopes(b)
    ensures Header(a) == Header(b) <==> a == b
  {
    HeaderSplits(a);
    HeaderSplits(b);
  }
}
