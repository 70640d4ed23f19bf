/** JSON values, the two ways a reader resolves a repeated member name, and the
    object hooks that `json.loads` runs on the members of every object. */
module JsonTrees {
  import opened Texts

  datatype Constant = NaN | Infinity | MinusInfinity

  /** A number as Python holds it: an unbounded integer, a finite double (by its bit
      pattern), or one of the three doubles that RFC 8259 has no spelling for. */
  datatype Number = Int(value: int) | Float(bits: nat) | Special(constant: Constant)

  /** Objects keep their members in source order. The same type serves for a raw document,
      where a name can repeat, and for a Python dict, where it cannot. */
  datatype Json =
    | Null
    | Bool(b: bool)
    | Num(n: Number)
    | Str(s: Text)
    | Arr(items: seq<Json>)
    | Obj(members: seq<Member>)

  datatype Member = Member(name: Text, value: Json)

  // ----- readers of a repeated member name -----

  datatype Wins = First | Last

  function Get(ms: seq<Member>, name: Text, wins: Wins): Option<Json> {
    if ms == [] then None
    else match wins
      case First => if ms[0].name == name then Some(ms[0].value) else Get(ms[1..], name, wins)
      case Last =>
        if ms[|ms| - 1].name == name then Some(ms[|ms| - 1].value) else Get(ms[..|ms| - 1], name, wins)
  }

  datatype Hop = Key(name: Text) | Index(i: nat)

  /** The value a reader finds by walking `path` from `j`. */
  function Follow(j: Json, path: seq<Hop>, wins: Wins): Option<Json>
    decreases |path|
  {
    if path == [] then Some(j)
    else
      match (path[0], j)
      case (Key(name), Obj(ms)) =>
        (match Get(ms, name, wins)
         case None => None
         case Some(v) => Follow(v, path[1..], wins))
      case (Index(i), Arr(items)) =>
        if i < |items| then Follow(items[i], path[1..], wins) else None
      case _ => None
  }

  // ----- properties of whole trees -----

  ghost predicate Distinct(ms: seq<Member>) {
    forall i, k | 0 <= i < k < |ms| :: ms[i].name != ms[k].name
  }

  /** No object at any depth repeats a member name. */
  ghost predicate WellKeyed(j: Json) {
    match j
    case Arr(items) => forall i | 0 <= i < |items| :: WellKeyed(items[i])
    case Obj(ms) => Distinct(ms) && forall i | 0 <= i < |ms| :: WellKeyed(ms[i].value)
    case _ => true
  }

  /** No number at any depth is a NaN or an infinity. */
  predicate Finite(j: Json) {
    match j
    case Num(n) => !n.Special?
    case Arr(items) => forall i | 0 <= i < |items| :: Finite(items[i])
    case Obj(ms) => forall i | 0 <= i < |ms| :: Finite(ms[i].value)
    case _ => true
  }

  /** No string or member name at any depth holds a lone surrogate. */
  ghost predicate EncodableTree(j: Json) {
    match j
    case Str(s) => Encodable(s)
    case Arr(items) => forall i | 0 <= i < |items| :: EncodableTree(items[i])
    case Obj(ms) => forall i | 0 <= i < |ms| :: Encodable(ms[i].name) && EncodableTree(ms[i].value)
    case _ => true
  }

  // ----- lookups -----

  predicate Holds(ms: seq<Member>, name: Text) {
    exists i | 0 <= i < |ms| :: ms[i].name == name
  }

  /** First-wins finds the earliest member of that name. */
  lemma {:induction false} GetFirst(ms: seq<Member>, name: Text, at: nat)
    requires at < |ms| && ms[at].name == name
    requires forall i | 0 <= i < at :: ms[i].name != name
    ensures Get(ms, name, First) == Some(ms[at].value)
  {
    if at > 0 {
      GetFirst(ms[1..], name, at - 1);
    }
  }

  /** Last-wins finds the latest member of that name. */
  lemma {:induction false} GetLast(ms: seq<Member>, name: Text, at: nat)
    requires at < |ms| && ms[at].name == name
    requires forall i | at < i < |ms| :: ms[i].name != name
    ensures Get(ms, name, Last) == Some(ms[at].value)
  {
    if at < |ms| - 1 {
      GetLast(ms[..|ms| - 1], name, at);
    }
  }

  lemma {:induction false} GetNone(ms: seq<Member>, name: Text, wins: Wins)
    requires !Holds(ms, name)
    ensures Get(ms, name, wins) == None
  {
    if ms != [] {
      match wins
      case First => GetNone(ms[1..], name, wins);
      case Last => GetNone(ms[..|ms| - 1], name, wins);
    }
  }

  /** When no name repeats there is one member to find, so both readers find it. */
  lemma GetUnique(ms: seq<Member>, at: nat, wins: Wins)
    requires at < |ms| && Distinct(ms)
    ensures Get(ms, ms[at].name, wins) == Some(ms[at].value)
  {
    match wins
    case First => GetFirst(ms, ms[at].name, at);
    case Last => GetLast(ms, ms[at].name, at);
  }

  lemma GetAgrees(ms: seq<Member>, name: Text)
    requires Distinct(ms)
    ensures Get(ms, name, First) == Get(ms, name, Last)
    ensures Get(ms, name, First).Some? ==> exists i | 0 <= i < |ms| :: ms[i] == Member(name, Get(ms, name, First).value)
  {
    if i :| 0 <= i < |ms| && ms[i].name == name {
      GetUnique(ms, i, First);
      GetUnique(ms, i, Last);
      assert ms[i] == Member(name, ms[i].value);
    } else {
      GetNone(ms, name, First);
      GetNone(ms, name, Last);
    }
  }

  /** On a tree without repeated names, first-wins and last-wins read the same value at
      the end of every path. */
  lemma {:induction false} ReadersAgree(j: Json, path: seq<Hop>)
    requires WellKeyed(j)
    ensures Follow(j, path, First) == Follow(j, path, Last)
    decreases |path|
  {
    if path != [] {
      match (path[0], j) {
        case (Key(name), Obj(ms)) =>
          GetAgrees(ms, name);
          match Get(ms, name, First) {
            case None =>
            case Some(v) =>
              var i :| 0 <= i < |ms| && ms[i] == Member(name, v);
              ReadersAgree(ms[i].value, path[1..]);
          }
        case (Index(i), Arr(items)) =>
          if i < |items| {
            ReadersAgree(items[i], path[1..]);
          }
        case _ =>
      }
    }
  }

  // ----- hooks -----

  /** What becomes of an object's member list: kept as read, turned into a Python dict
      (as `dict` does), or refused when a name repeats. */
  datatype Hook = Keep | LastWins | Reject

  datatype Hooked = Made(j: Json) | Repeats(name: Text)

  ghost predicate DistinctBelow(ms: seq<Member>, n: nat)
    requires n <= |ms|
  {
    forall i, k | 0 <= i < k < n :: ms[i].name != ms[k].name
  }

  predicate UsedBefore(ms: seq<Member>, n: nat)
    requires n < |ms|
  {
    exists i | 0 <= i < n :: ms[i].name == ms[n].name
  }

  function RepeatFrom(ms: seq<Member>, n: nat): (r: Option<nat>)
    requires n <= |ms| && DistinctBelow(ms, n)
    ensures r.None? <==> Distinct(ms)
    ensures r.Some? ==> r.value < |ms| && DistinctBelow(ms, r.value) && UsedBefore(ms, r.value)
    decreases |ms| - n
  {
    if n == |ms| then None
    else if UsedBefore(ms, n) then Some(n)
    else RepeatFrom(ms, n + 1)
  }

  /** Position of the first member whose name was already used before it. */
  function FirstRepeat(ms: seq<Member>): (r: Option<nat>)
    ensures r.None? <==> Distinct(ms)
    ensures r.Some? ==> r.value < |ms| && DistinctBelow(ms, r.value) && UsedBefore(ms, r.value)
  {
    RepeatFrom(ms, 0)
  }

  /** Assigning to one key of an insertion-ordered dict. */
  function Put(d: seq<Member>, m: Member): seq<Member> {
    if d == [] then [m]
    else if d[0].name == m.name then [m] + d[1..]
    else [d[0]] + Put(d[1..], m)
  }

  /** A dict built from pairs in their order. */
  function DictOf(ms: seq<Member>): seq<Member> {
    if ms == [] then [] else Put(DictOf(ms[..|ms| - 1]), ms[|ms| - 1])
  }

  function RunHook(hook: Hook, ms: seq<Member>): Hooked {
    match hook
    case Keep => Made(Obj(ms))
    case LastWins => Made(Obj(DictOf(ms)))
    case Reject =>
      match FirstRepeat(ms)
      case None => Made(Obj(ms))
      case Some(i) => Repeats(ms[i].name)
  }

  /** The first repeat is the only position whose name repeats after a repeat-free prefix. */
  lemma FirstRepeatAt(ms: seq<Member>, at: nat)
    requires at < |ms| && DistinctBelow(ms, at) && UsedBefore(ms, at)
    ensures FirstRepeat(ms) == Some(at)
  {
    var r := FirstRepeat(ms).value;
    assert r >= at && r <= at;
  }

  /** `_no_duplicate_keys`: grow a set of seen names and stop at the first repeat. */
  method NoDuplicateKeys(pairs: seq<Member>) returns (r: Hooked)
    ensures r == RunHook(Reject, pairs)
  {
    var seen: set<Text> := {};
    for i := 0 to |pairs|
      invariant seen == set k | 0 <= k < i :: pairs[k].name
      invariant DistinctBelow(pairs, i)
    {
      if pairs[i].name in seen {
        FirstRepeatAt(pairs, i);
        return Repeats(pairs[i].name);
      }
      seen := seen + {pairs[i].name};
    }
    return Made(Obj(pairs));
  }

  // ----- what dict(pairs) keeps -----

  lemma {:induction false} PutMembers(d: seq<Member>, m: Member, x: Member)
    requires Distinct(d)
    ensures x in Put(d, m) <==> x == m || (x in d && x.name != m.name)
  {
    if d != [] {
      var t := d[1..];
      assert d == [d[0]] + t;
      if d[0].name == m.name {
        assert x in t ==> x.name != m.name;
      } else {
        PutMembers(t, m, x);
      }
    }
  }

  lemma {:induction false} PutDistinct(d: seq<Member>, m: Member)
    requires Distinct(d)
    ensures Distinct(Put(d, m))
  {
    if d != [] && d[0].name != m.name {
      var t := d[1..];
      PutDistinct(t, m);
      var p := Put(t, m);
      forall i | 0 <= i < |p| ensures p[i].name != d[0].name {
        PutMembers(t, m, p[i]);
      }
    }
  }

  lemma {:induction false} PutFresh(d: seq<Member>, m: Member)
    requires forall i | 0 <= i < |d| :: d[i].name != m.name
    ensures Put(d, m) == d + [m]
  {
    if d != [] {
      PutFresh(d[1..], m);
      assert d == [d[0]] + d[1..];
    }
  }

  /** A dict holds each name once, and only members it was given. */
  lemma {:induction false} DictIsDistinct(ms: seq<Member>)
    ensures Distinct(DictOf(ms))
    ensures forall x :: x in DictOf(ms) ==> x in ms
  {
    if ms != [] {
      var last := |ms| - 1;
      var d := DictOf(ms[..last]);
      DictIsDistinct(ms[..last]);
      PutDistinct(d, ms[last]);
      forall x | x in DictOf(ms) ensures x in ms {
        PutMembers(d, ms[last], x);
      }
    }
  }

  /** The dict of a member list that repeats no name is that list, in order. */
  lemma {:induction false} DictOfDistinct(ms: seq<Member>)
    requires Distinct(ms)
    ensures DictOf(ms) == ms
  {
    if ms != [] {
      var last := |ms| - 1;
      var front := ms[..last];
      DictOfDistinct(front);
      PutFresh(front, ms[last]);
      assert ms == front + [ms[last]];
    }
  }

  lemma GetPut(d: seq<Member>, m: Member, name: Text, wins: Wins)
    requires Distinct(d)
    ensures Get(Put(d, m), name, wins) == if name == m.name then Some(m.value) else Get(d, name, wins)
  {
    PutDistinct(d, m);
    var p := Put(d, m);
    if name == m.name {
      PutMembers(d, m, m);
      var i :| 0 <= i < |p| && p[i] == m;
      GetUnique(p, i, wins);
    } else if k :| 0 <= k < |d| && d[k].name == name {
      PutMembers(d, m, d[k]);
      var i :| 0 <= i < |p| && p[i] == d[k];
      GetUnique(p, i, wins);
      GetUnique(d, k, wins);
    } else {
      assert !Holds(p, name) by {
        if i :| 0 <= i < |p| && p[i].name == name {
          PutMembers(d, m, p[i]);
        }
      }
      GetNone(p, name, wins);
      GetNone(d, name, wins);
    }
  }

  /** Either reader of the dict finds what a last-wins reader of the members finds. */
  lemma {:induction false} DictIsLastWins(ms: seq<Member>, name: Text, wins: Wins)
    ensures Get(DictOf(ms), name, wins) == Get(ms, name, Last)
  {
    if ms != [] {
      var last := |ms| - 1;
      DictIsDistinct(ms[..last]);
      DictIsLastWins(ms[..last], name, wins);
      GetPut(DictOf(ms[..last]), ms[last], name, wins);
    }
  }
}
