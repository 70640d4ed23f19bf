/** The literal-segment guard on JSON-RPC method names, against a path normalizer that an
    upstream might apply to the name it receives. */
module MethodPaths {
  import opened Texts

  /** Segments that a normalizer would not keep as they are. */
  predicate Relative(seg: Text) {
    seg == [] || seg == [DOT] || seg == [DOT, DOT]
  }

  /** None of the slash-separated segments is empty, a dot or a double dot. */
  predicate PassesGuard(name: Text) {
    var segs := Split(name, SLASH);
    forall i | 0 <= i < |segs| :: !Relative(segs[i])
  }

  /** The guard refuses exactly the names with nothing, a dot or a double dot between two
      slashes, or between one and an end of the name. */
  lemma GuardExactly(name: Text)
    ensures PassesGuard(name) <==>
            !Piece(name, SLASH, []) && !Piece(name, SLASH, [DOT]) && !Piece(name, SLASH, [DOT, DOT])
  {
    var segs := Split(name, SLASH);
    SplitIsPieces(name, SLASH, []);
    SplitIsPieces(name, SLASH, [DOT]);
    SplitIsPieces(name, SLASH, [DOT, DOT]);
    if i :| 0 <= i < |segs| && Relative(segs[i]) {
      assert segs[i] in segs;
    }
    if PassesGuard(name) {
      assert forall seg | Relative(seg) :: seg !in segs;
    }
  }

  /** Drop empty and "." segments, pop on "..", in the manner of section 5.2.4 of RFC 3986. */
  function Walk(segs: seq<Text>, kept: seq<Text>): seq<Text> {
    if segs == [] then kept
    else if segs[0] == [DOT, DOT] then Walk(segs[1..], if kept == [] then [] else kept[..|kept| - 1])
    else if Relative(segs[0]) then Walk(segs[1..], kept)
    else Walk(segs[1..], kept + [segs[0]])
  }

  function Normalize(name: Text): Text {
    Join(Walk(Split(name, SLASH), []), SLASH)
  }

  lemma {:induction false} WalkPlain(segs: seq<Text>, kept: seq<Text>)
    requires forall i | 0 <= i < |segs| :: !Relative(segs[i])
    ensures Walk(segs, kept) == kept + segs
  {
    if segs != [] {
      WalkPlain(segs[1..], kept + [segs[0]]);
      assert kept + [segs[0]] + segs[1..] == kept + segs;
    }
  }

  ghost predicate Plain(segs: seq<Text>) {
    Free(segs, SLASH) && forall i | 0 <= i < |segs| :: !Relative(segs[i])
  }

  lemma {:induction false} WalkLeavesPlain(segs: seq<Text>, kept: seq<Text>)
    requires Free(segs, SLASH) && Plain(kept)
    ensures Plain(Walk(segs, kept))
  {
    if segs != [] {
      if segs[0] == [DOT, DOT] {
        WalkLeavesPlain(segs[1..], if kept == [] then [] else kept[..|kept| - 1]);
      } else if Relative(segs[0]) {
        WalkLeavesPlain(segs[1..], kept);
      } else {
        WalkLeavesPlain(segs[1..], kept + [segs[0]]);
      }
    }
  }

  /** The guard accepts exactly the names that normalization leaves unchanged. */
  lemma GuardIsFixedPoint(name: Text)
    requires name != []
    ensures PassesGuard(name) <==> Normalize(name) == name
  {
    var segs := Split(name, SLASH);
    JoinOfSplit(name, SLASH);
    SplitIsFree(name, SLASH);
    if PassesGuard(name) {
      WalkPlain(segs, []);
      assert [] + segs == segs;
    }
    if Normalize(name) == name {
      var kept := Walk(segs, []);
      WalkLeavesPlain(segs, []);
      assert kept != [];
      SplitOfJoin(kept, SLASH);
      assert segs == kept;
    }
  }
}
