/** What the object hooks make of a document, compared with the same text read without any
    hook: the refusing hook accepts exactly the trees that repeat no name, and Python's
    plain dict is the last-wins reading of the tree. */
module JsonHooks {
  import opened Texts
  import opened JsonTrees
  import opened JsonTokens

  // ----- the refusing hook -----

  ghost predicate AllWellKeyed(items: seq<Json>) {
    forall i | 0 <= i < |items| :: WellKeyed(items[i])
  }

  ghost predicate MembersWellKeyed(ms: seq<Member>) {
    forall i | 0 <= i < |ms| :: WellKeyed(ms[i].value)
  }

  /** `strict` is `plain`, or a duplicate was met first; it was met exactly if the plain
      result repeats a name. */
  ghost predicate Refines<T>(plain: Parsed<T>, strict: Parsed<T>, wellKeyed: bool) {
    match plain
    case Ok(_, _) => if wellKeyed then strict == plain else strict.Err? && strict.error.Duplicate?
    case Err(e) => strict == plain || (strict.Err? && strict.error.Duplicate?)
  }

  lemma ItemsSplit(v: Json, vs: seq<Json>)
    ensures AllWellKeyed([v] + vs) <==> WellKeyed(v) && AllWellKeyed(vs)
  {
    var all := [v] + vs;
    assert all[0] == v;
    assert forall i | 0 <= i < |vs| :: all[i + 1] == vs[i];
    assert forall i | 0 < i < |all| :: all[i] == vs[i - 1];
  }

  lemma MembersSplit(m: Member, ms: seq<Member>)
    ensures MembersWellKeyed([m] + ms) <==> WellKeyed(m.value) && MembersWellKeyed(ms)
  {
    var all := [m] + ms;
    assert all[0] == m;
    assert forall i | 0 <= i < |ms| :: all[i + 1] == ms[i];
    assert forall i | 0 < i < |all| :: all[i] == ms[i - 1];
  }

  lemma {:induction false} StrictValue(ts: seq<Token>, lenient: bool)
    ensures var plain := ParseValue(ts, Reader(Keep, lenient));
            Refines(plain, ParseValue(ts, Reader(Reject, lenient)), plain.Ok? && WellKeyed(plain.value))
    decreases |ts|, 0
  {
    if ts != [] && ts[0] == LBracket && !(|ts| > 1 && ts[1] == RBracket) {
      StrictItems(ts[1..], lenient);
    } else if ts != [] && ts[0] == LBrace && !(|ts| > 1 && ts[1] == RBrace) {
      StrictMembers(ts[1..], lenient);
    }
  }

  lemma {:induction false} StrictItems(ts: seq<Token>, lenient: bool)
    ensures var plain := ParseItems(ts, Reader(Keep, lenient));
            Refines(plain, ParseItems(ts, Reader(Reject, lenient)), plain.Ok? && AllWellKeyed(plain.value))
    decreases |ts|, 1
  {
    StrictValue(ts, lenient);
    var head := ParseValue(ts, Reader(Keep, lenient));
    if head.Ok? {
      ItemsSplit(head.value, []);
      assert [head.value] + [] == [head.value];
    }
    if head.Ok? && head.rest != [] && head.rest[0] == Comma {
      StrictItems(head.rest[1..], lenient);
      var tail := ParseItems(head.rest[1..], Reader(Keep, lenient));
      if tail.Ok? {
        ItemsSplit(head.value, tail.value);
      }
    }
  }

  lemma {:induction false} StrictMembers(ts: seq<Token>, lenient: bool)
    ensures var plain := ParseMembers(ts, Reader(Keep, lenient));
            Refines(plain, ParseMembers(ts, Reader(Reject, lenient)), plain.Ok? && MembersWellKeyed(plain.value))
    decreases |ts|, 1
  {
    if |ts| >= 2 && ts[0].TStr? && ts[1] == Colon {
      StrictValue(ts[2..], lenient);
      var head := ParseValue(ts[2..], Reader(Keep, lenient));
      if head.Ok? {
        MembersSplit(Member(ts[0].s, head.value), []);
        assert [Member(ts[0].s, head.value)] + [] == [Member(ts[0].s, head.value)];
      }
      if head.Ok? && head.rest != [] && head.rest[0] == Comma {
        StrictMembers(head.rest[1..], lenient);
        var tail := ParseMembers(head.rest[1..], Reader(Keep, lenient));
        if tail.Ok? {
          MembersSplit(Member(ts[0].s, head.value), tail.value);
        }
      }
    }
  }

  /** The gateway's load succeeds exactly on a text whose raw tree repeats no member name at
      any depth, and then returns that raw tree; a raw tree that repeats one is refused as
      a duplicate. */
  lemma RejectsExactlyRepeats(ts: seq<Token>, lenient: bool, j: Json)
    ensures Loads(ts, Reader(Reject, lenient)) == Doc(j) <==> Loads(ts, Reader(Keep, lenient)) == Doc(j) && WellKeyed(j)
    ensures Loads(ts, Reader(Keep, lenient)) == Doc(j) && !WellKeyed(j) ==>
              Loads(ts, Reader(Reject, lenient)).Fails? && Loads(ts, Reader(Reject, lenient)).error.Duplicate?
  {
    StrictValue(ts, lenient);
  }

  // ----- the plain dict hook -----

  /** The tree of Python dicts that a raw tree loads into. */
  function Collapse(j: Json): Json {
    match j
    case Arr(items) => Arr(CollapseItems(items))
    case Obj(ms) => Obj(DictOf(CollapseMembers(ms)))
    case _ => j
  }

  function CollapseItems(items: seq<Json>): (r: seq<Json>)
    ensures |r| == |items|
    ensures forall i | 0 <= i < |items| :: r[i] == Collapse(items[i])
  {
    seq(|items|, i requires 0 <= i < |items| => Collapse(items[i]))
  }

  function CollapseMembers(ms: seq<Member>): (r: seq<Member>)
    ensures |r| == |ms|
    ensures forall i | 0 <= i < |ms| :: r[i] == Member(ms[i].name, Collapse(ms[i].value))
  {
    seq(|ms|, i requires 0 <= i < |ms| => Member(ms[i].name, Collapse(ms[i].value)))
  }

  lemma CollapseItemsCons(v: Json, vs: seq<Json>)
    ensures CollapseItems([v] + vs) == [Collapse(v)] + CollapseItems(vs)
    ensures CollapseItems([v]) == [Collapse(v)]
  {}

  lemma CollapseMembersCons(m: Member, ms: seq<Member>)
    ensures CollapseMembers([m] + ms) == [Member(m.name, Collapse(m.value))] + CollapseMembers(ms)
    ensures CollapseMembers([m]) == [Member(m.name, Collapse(m.value))]
  {}

  lemma {:induction false} DictValue(ts: seq<Token>, lenient: bool)
    ensures ParseValue(ts, Reader(LastWins, lenient)) ==
            match ParseValue(ts, Reader(Keep, lenient))
            case Err(e) => Err(e)
            case Ok(v, rest) => Ok(Collapse(v), rest)
    decreases |ts|, 0
  {
    if ts != [] && ts[0] == LBracket && !(|ts| > 1 && ts[1] == RBracket) {
      DictItems(ts[1..], lenient);
    } else if ts != [] && ts[0] == LBrace && !(|ts| > 1 && ts[1] == RBrace) {
      DictMembers(ts[1..], lenient);
    } else {
      assert CollapseItems([]) == [] && CollapseMembers([]) == [];
    }
  }

  lemma {:induction false} DictItems(ts: seq<Token>, lenient: bool)
    ensures ParseItems(ts, Reader(LastWins, lenient)) ==
            match ParseItems(ts, Reader(Keep, lenient))
            case Err(e) => Err(e)
            case Ok(vs, rest) => Ok(CollapseItems(vs), rest)
    decreases |ts|, 1
  {
    DictValue(ts, lenient);
    var head := ParseValue(ts, Reader(Keep, lenient));
    if head.Ok? && head.rest != [] && head.rest[0] == RBracket {
      CollapseItemsCons(head.value, []);
    } else if head.Ok? && head.rest != [] && head.rest[0] == Comma {
      DictItems(head.rest[1..], lenient);
      var tail := ParseItems(head.rest[1..], Reader(Keep, lenient));
      if tail.Ok? {
        CollapseItemsCons(head.value, tail.value);
      }
    }
  }

  lemma {:induction false} DictMembers(ts: seq<Token>, lenient: bool)
    ensures ParseMembers(ts, Reader(LastWins, lenient)) ==
            match ParseMembers(ts, Reader(Keep, lenient))
            case Err(e) => Err(e)
            case Ok(ms, rest) => Ok(CollapseMembers(ms), rest)
    decreases |ts|, 1
  {
    if |ts| >= 2 && ts[0].TStr? && ts[1] == Colon {
      DictValue(ts[2..], lenient);
      var head := ParseValue(ts[2..], Reader(Keep, lenient));
      if head.Ok? {
        var m := Member(ts[0].s, head.value);
        if head.rest != [] && head.rest[0] == RBrace {
          CollapseMembersCons(m, []);
        } else if head.rest != [] && head.rest[0] == Comma {
          DictMembers(head.rest[1..], lenient);
          var tail := ParseMembers(head.rest[1..], Reader(Keep, lenient));
          if tail.Ok? {
            CollapseMembersCons(m, tail.value);
          }
        }
      }
    }
  }

  /** Loading into dicts is loading the raw tree and collapsing it. */
  lemma LoadsIntoDicts(ts: seq<Token>, lenient: bool)
    ensures Loads(ts, Reader(LastWins, lenient)) ==
            match Loads(ts, Reader(Keep, lenient))
            case Fails(e) => Fails(e)
            case Doc(j) => Doc(Collapse(j))
  {
    DictValue(ts, lenient);
  }

  /** Dicts repeat no name. */
  lemma {:induction false} CollapseWellKeyed(j: Json)
    ensures WellKeyed(Collapse(j))
  {
    match j
    case Arr(items) =>
      forall i | 0 <= i < |items| ensures WellKeyed(Collapse(items[i])) {
        CollapseWellKeyed(items[i]);
      }
    case Obj(ms) =>
      var d := DictOf(CollapseMembers(ms));
      DictIsDistinct(CollapseMembers(ms));
      forall k | 0 <= k < |d| ensures WellKeyed(d[k].value) {
        assert d[k] in CollapseMembers(ms);
        var i :| 0 <= i < |ms| && d[k] == CollapseMembers(ms)[i];
        CollapseWellKeyed(ms[i].value);
      }
    case _ =>
  }

  function Mapped(o: Option<Json>): Option<Json> {
    match o
    case None => None
    case Some(j) => Some(Collapse(j))
  }

  lemma {:induction false} GetCollapsed(ms: seq<Member>, name: Text)
    ensures Get(CollapseMembers(ms), name, Last) == Mapped(Get(ms, name, Last))
  {
    if ms != [] {
      assert CollapseMembers(ms)[..|ms| - 1] == CollapseMembers(ms[..|ms| - 1]);
      GetCollapsed(ms[..|ms| - 1], name);
    }
  }

  /** Walking the dicts, with either lookup, is walking the raw tree with last-wins. */
  lemma {:induction false} DictsReadLastWins(j: Json, path: seq<Hop>, wins: Wins)
    ensures Follow(Collapse(j), path, wins) == Mapped(Follow(j, path, Last))
    decreases |path|
  {
    if path != [] {
      match (path[0], j) {
        case (Key(name), Obj(ms)) =>
          DictIsLastWins(CollapseMembers(ms), name, wins);
          GetCollapsed(ms, name);
          match Get(ms, name, Last) {
            case None =>
            case Some(v) => DictsReadLastWins(v, path[1..], wins);
          }
        case (Index(i), Arr(items)) =>
          if i < |items| {
            DictsReadLastWins(items[i], path[1..], wins);
          }
        case _ =>
      }
    }
  }
}
