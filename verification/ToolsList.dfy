/** Filtering one `tools/list` page with the policy that gates `tools/call`. */
module ToolsList {
  import opened Texts
  import opened JsonTrees
  import opened JsonTokens
  import opened JsonHooks
  import opened JsonRpc
  import opened ToolPolicies

  const JSONRPC: Text := Lit("jsonrpc")
  const TWO: Text := Lit("2.0")
  const ERROR: Text := Lit("error")
  const RESULT: Text := Lit("result")
  const TOOLS: Text := Lit("tools")

  datatype FilterOutcome =
    | Filtered(body: seq<Token>, returned: nat, removed: nat)
    | FilterFailed
    | UpstreamError

  predicate GoodEntry(e: Json) {
    e.Obj? && Field(e, NAME).Str? && 0 < |Field(e, NAME).s| <= MAX_IDENTIFIER_LEN
  }

  predicate Visible(p: ToolPolicy, claims: Option<Claims>, e: Json)
    requires GoodEntry(e)
  {
    Decide(p, Field(e, NAME).s, claims).allowed
  }

  predicate AllGood(tools: seq<Json>) {
    forall i | 0 <= i < |tools| :: GoodEntry(tools[i])
  }

  function Kept(tools: seq<Json>, p: ToolPolicy, claims: Option<Claims>): (r: seq<Json>)
    requires AllGood(tools)
    ensures |r| <= |tools|
  {
    if tools == [] then []
    else
      var front := Kept(tools[..|tools| - 1], p, claims);
      var e := tools[|tools| - 1];
      if Visible(p, claims, e) then front + [e] else front
  }

  /** The document with the tools of its result overwritten. */
  function WithTools(doc: Json, kept: seq<Json>): Json
    requires doc.Obj? && Field(doc, RESULT).Obj?
  {
    var result := Obj(Put(Field(doc, RESULT).members, Member(TOOLS, Arr(kept))));
    Obj(Put(doc.members, Member(RESULT, result)))
  }

  /** A page the filter can evaluate: a JSON-RPC 2.0 result, not an error, whose tools all
      have usable names. */
  predicate Filterable(doc: Json) {
    doc.Obj? && Field(doc, JSONRPC) == Str(TWO) && !Holds(doc.members, ERROR) &&
    Field(doc, RESULT).Obj? && Field(Field(doc, RESULT), TOOLS).Arr? &&
    AllGood(Field(Field(doc, RESULT), TOOLS).items)
  }

  function Page(doc: Json): seq<Json>
    requires Filterable(doc)
  {
    Field(Field(doc, RESULT), TOOLS).items
  }

  function FilterSpec(raw: seq<Token>, p: ToolPolicy, claims: Option<Claims>): FilterOutcome {
    match Loads(raw, FILTER)
    case Fails(_) => FilterFailed
    case Doc(doc) =>
      if doc.Obj? && Field(doc, JSONRPC) == Str(TWO) && Holds(doc.members, ERROR) then UpstreamError
      else if !Filterable(doc) then FilterFailed
      else
        var kept := Kept(Page(doc), p, claims);
        var out := WithTools(doc, kept);
        if Finite(out) then Filtered(Print(out), |kept|, |Page(doc)| - |kept|) else FilterFailed
  }

  /** `filter_tools_list` */
  method FilterToolsList(raw: seq<Token>, p: ToolPolicy, claims: Option<Claims>) returns (r: FilterOutcome)
    ensures r == FilterSpec(raw, p, claims)
  {
    var loaded := Loads(raw, FILTER);
    if loaded.Fails? {
      return FilterFailed;
    }
    var doc := loaded.tree;
    if !doc.Obj? || Field(doc, JSONRPC) != Str(TWO) {
      return FilterFailed;
    }
    if Holds(doc.members, ERROR) {
      return UpstreamError;
    }
    var result := Field(doc, RESULT);
    if !result.Obj? {
      return FilterFailed;
    }
    var tools := Field(result, TOOLS);
    if !tools.Arr? {
      return FilterFailed;
    }
    var kept: seq<Json> := [];
    for i := 0 to |tools.items|
      invariant AllGood(tools.items[..i])
      invariant kept == Kept(tools.items[..i], p, claims)
    {
      var entry := tools.items[i];
      if !GoodEntry(entry) {
        return FilterFailed;
      }
      assert tools.items[..i + 1][..i] == tools.items[..i];
      var d := ToolPolicies.Check(p, Field(entry, NAME).s, claims);
      if d.allowed {
        kept := kept + [entry];
      }
    }
    assert tools.items[..|tools.items|] == tools.items;
    var out := WithTools(doc, kept);
    if !Finite(out) {
      return FilterFailed;
    }
    return Filtered(Print(out), |kept|, |tools.items| - |kept|);
  }

  // ----- which entries survive -----

  ghost predicate Increasing(idx: seq<nat>) {
    forall i, k | 0 <= i < k < |idx| :: idx[i] < idx[k]
  }

  /** Positions of the visible entries, in order. */
  ghost function VisibleAt(tools: seq<Json>, p: ToolPolicy, claims: Option<Claims>): seq<nat>
    requires AllGood(tools)
  {
    if tools == [] then []
    else
      var last := |tools| - 1;
      var front := VisibleAt(tools[..last], p, claims);
      if Visible(p, claims, tools[last]) then front + [last] else front
  }

  lemma {:induction false} VisibleAtMeaning(tools: seq<Json>, p: ToolPolicy, claims: Option<Claims>, k: nat)
    requires AllGood(tools)
    ensures k in VisibleAt(tools, p, claims) <==> k < |tools| && Visible(p, claims, tools[k])
  {
    if tools != [] {
      VisibleAtMeaning(tools[..|tools| - 1], p, claims, k);
    }
  }

  /** The kept entries are the visible ones, each at its own place in the original order. */
  lemma {:induction false} KeptIsSelection(tools: seq<Json>, p: ToolPolicy, claims: Option<Claims>)
    requires AllGood(tools)
    ensures |VisibleAt(tools, p, claims)| == |Kept(tools, p, claims)| && Increasing(VisibleAt(tools, p, claims))
    ensures forall i | 0 <= i < |VisibleAt(tools, p, claims)| ::
              VisibleAt(tools, p, claims)[i] < |tools| && Kept(tools, p, claims)[i] == tools[VisibleAt(tools, p, claims)[i]]
  {
    if tools != [] {
      var last := |tools| - 1;
      KeptIsSelection(tools[..last], p, claims);
    }
  }

  ghost predicate VisiblePart(kept: seq<Json>, tools: seq<Json>, p: ToolPolicy, claims: Option<Claims>) {
    AllGood(kept) && forall i | 0 <= i < |kept| :: Visible(p, claims, kept[i]) && kept[i] in tools
  }

  lemma KeptIsVisible(tools: seq<Json>, p: ToolPolicy, claims: Option<Claims>)
    requires AllGood(tools)
    ensures VisiblePart(Kept(tools, p, claims), tools, p, claims)
  {
    var idx, kept := VisibleAt(tools, p, claims), Kept(tools, p, claims);
    KeptIsSelection(tools, p, claims);
    forall i | 0 <= i < |kept| ensures GoodEntry(kept[i]) && Visible(p, claims, kept[i]) && kept[i] in tools {
      VisibleAtMeaning(tools, p, claims, idx[i]);
      assert idx[i] in idx;
    }
  }

  lemma {:induction false} KeptOfVisible(tools: seq<Json>, p: ToolPolicy, claims: Option<Claims>)
    requires AllGood(tools)
    requires forall i | 0 <= i < |tools| :: Visible(p, claims, tools[i])
    ensures Kept(tools, p, claims) == tools
  {
    if tools != [] {
      KeptOfVisible(tools[..|tools| - 1], p, claims);
      assert tools == tools[..|tools| - 1] + [tools[|tools| - 1]];
    }
  }

  // ----- what the rewritten document reads as -----

  lemma HoldsIsGet(ms: seq<Member>, key: Text)
    requires Distinct(ms)
    ensures Holds(ms, key) <==> Get(ms, key, First).Some?
  {
    if i :| 0 <= i < |ms| && ms[i].name == key {
      GetUnique(ms, i, First);
    } else {
      GetNone(ms, key, First);
    }
  }

  lemma FieldOfPut(ms: seq<Member>, m: Member, key: Text)
    requires Distinct(ms)
    ensures Distinct(Put(ms, m))
    ensures Field(Obj(Put(ms, m)), key) == if key == m.name then m.value else Field(Obj(ms), key)
    ensures key != m.name ==> (Holds(Put(ms, m), key) <==> Holds(ms, key))
  {
    PutDistinct(ms, m);
    GetPut(ms, m, key, First);
    if key != m.name {
      HoldsIsGet(ms, key);
      HoldsIsGet(Put(ms, m), key);
    }
  }

  lemma FieldWellKeyed(j: Json, key: Text)
    requires WellKeyed(j)
    ensures WellKeyed(Field(j, key))
  {
    if j.Obj? {
      GetAgrees(j.members, key);
    }
  }

  lemma PutWellKeyed(ms: seq<Member>, m: Member)
    requires WellKeyed(Obj(ms)) && WellKeyed(m.value)
    ensures WellKeyed(Obj(Put(ms, m)))
  {
    PutDistinct(ms, m);
    var p := Put(ms, m);
    forall i | 0 <= i < |p| ensures WellKeyed(p[i].value) {
      PutMembers(ms, m, p[i]);
    }
  }

  lemma KeysDiffer()
    ensures JSONRPC != RESULT && ERROR != RESULT
  {
    assert |JSONRPC| == 7 && |RESULT| == 6 && |ERROR| == 5;
  }

  /** Overwriting the tools changes the tools and nothing else a reader can name. */
  lemma WithToolsReads(doc: Json, kept: seq<Json>)
    requires Filterable(doc) && WellKeyed(doc)
    requires AllGood(kept) && forall i | 0 <= i < |kept| :: WellKeyed(kept[i])
    ensures var out := WithTools(doc, kept);
            Filterable(out) && WellKeyed(out) && Page(out) == kept &&
            (forall key | key != RESULT :: Field(out, key) == Field(doc, key)) &&
            (forall key | key != TOOLS :: Field(Field(out, RESULT), key) == Field(Field(doc, RESULT), key))
  {
    KeysDiffer();
    var result := Field(doc, RESULT);
    FieldWellKeyed(doc, RESULT);
    var tools := Member(TOOLS, Arr(kept));
    PutWellKeyed(result.members, tools);
    var result' := Obj(Put(result.members, tools));
    PutWellKeyed(doc.members, Member(RESULT, result'));
    forall key ensures Field(result', key) == if key == TOOLS then Arr(kept) else Field(result, key) {
      FieldOfPut(result.members, tools, key);
    }
    var out := WithTools(doc, kept);
    forall key
      ensures Field(out, key) == if key == RESULT then result' else Field(doc, key)
      ensures key != RESULT ==> (Holds(out.members, key) <==> Holds(doc.members, key))
    {
      FieldOfPut(doc.members, Member(RESULT, result'), key);
    }
  }

  /** The document behind a filtered page. */
  lemma FilteredDocument(raw: seq<Token>, p: ToolPolicy, claims: Option<Claims>) returns (doc: Json, out: Json)
    requires FilterSpec(raw, p, claims).Filtered?
    ensures Loads(raw, FILTER) == Doc(doc) && WellKeyed(doc) && Filterable(doc)
    ensures WellKeyed(out) && Filterable(out) && Finite(out)
    ensures Page(out) == Kept(Page(doc), p, claims) && out == WithTools(doc, Page(out))
    ensures FilterSpec(raw, p, claims) == Filtered(Print(out), |Page(out)|, |Page(doc)| - |Page(out)|)
  {
    doc := Loads(raw, FILTER).tree;
    LoadsIntoDicts(raw, false);
    CollapseWellKeyed(Loads(raw, Reader(Keep, false)).tree);
    var tools := Page(doc);
    var kept := Kept(tools, p, claims);
    FieldWellKeyed(doc, RESULT);
    FieldWellKeyed(Field(doc, RESULT), TOOLS);
    KeptIsVisible(tools, p, claims);
    forall i | 0 <= i < |kept| ensures WellKeyed(kept[i]) {
      assert kept[i] in tools;
    }
    WithToolsReads(doc, kept);
    out := WithTools(doc, kept);
  }

  function ReadTools(doc: Json, wins: Wins): Option<Json> {
    Follow(doc, [Key(RESULT), Key(TOOLS)], wins)
  }

  function ReadToolName(doc: Json, i: nat, wins: Wins): Option<Json> {
    Follow(doc, [Key(RESULT), Key(TOOLS), Index(i), Key(NAME)], wins)
  }

  lemma FollowIndex(j: Json, i: nat, path: seq<Hop>)
    requires j.Arr? && i < |j.items|
    ensures Follow(j, [Index(i)] + path, First) == Follow(j.items[i], path, First)
  {
    assert ([Index(i)] + path)[1..] == path;
  }

  lemma PageReads(doc: Json, wins: Wins)
    requires Filterable(doc) && WellKeyed(doc)
    ensures ReadTools(doc, wins) == Some(Arr(Page(doc)))
    ensures forall i | 0 <= i < |Page(doc)| :: ReadToolName(doc, i, wins) == Some(Field(Page(doc)[i], NAME))
  {
    ReadersAgree(doc, [Key(RESULT), Key(TOOLS)]);
    FollowKey(doc, RESULT, [Key(TOOLS)]);
    FollowKey(Field(doc, RESULT), TOOLS, []);
    forall i | 0 <= i < |Page(doc)| ensures ReadToolName(doc, i, wins) == Some(Field(Page(doc)[i], NAME)) {
      ReadersAgree(doc, [Key(RESULT), Key(TOOLS), Index(i), Key(NAME)]);
      FollowKey(doc, RESULT, [Key(TOOLS), Index(i), Key(NAME)]);
      FollowKey(Field(doc, RESULT), TOOLS, [Index(i), Key(NAME)]);
      FollowIndex(Field(Field(doc, RESULT), TOOLS), i, [Key(NAME)]);
      FollowKey(Page(doc)[i], NAME, []);
      assert [Key(RESULT)] + [Key(TOOLS), Index(i), Key(NAME)] == [Key(RESULT), Key(TOOLS), Index(i), Key(NAME)];
      assert [Key(TOOLS)] + [Index(i), Key(NAME)] == [Key(TOOLS), Index(i), Key(NAME)];
      assert [Index(i)] + [Key(NAME)] == [Index(i), Key(NAME)];
      assert [Key(NAME)] + [] == [Key(NAME)];
    }
  }

  /** Visible iff callable. Whatever the upstream sent, every client reads the filtered
      page as the same tree; every tool name it finds there passes the tool gate, and an
      entry of the upstream page is missing exactly if its name fails the gate. Order is
      kept and the two counts add up. */
  lemma VisibleIffCallable(raw: seq<Token>, p: ToolPolicy, claims: Option<Claims>, rd: Reader, wins: Wins)
    returns (doc: Json, out: Json, idx: seq<nat>)
    requires FilterSpec(raw, p, claims).Filtered?
    ensures Loads(raw, FILTER) == Doc(doc) && Filterable(doc)
    ensures Loads(FilterSpec(raw, p, claims).body, rd) == Doc(out)
    ensures FilterSpec(raw, p, claims).returned == |idx|
    ensures FilterSpec(raw, p, claims).returned + FilterSpec(raw, p, claims).removed == |Page(doc)|
    ensures ReadTools(out, wins).Some? && ReadTools(out, wins).value.Arr?
    ensures |ReadTools(out, wins).value.items| == |idx| && Increasing(idx)
    ensures forall i | 0 <= i < |idx| ::
              idx[i] < |Page(doc)| && ReadTools(out, wins).value.items[i] == Page(doc)[idx[i]]
    ensures forall i | 0 <= i < |idx| ::
              exists name: Text :: ReadToolName(out, i, wins) == Some(Str(name)) && |name| <= MAX_IDENTIFIER_LEN &&
                Decide(p, name, claims).allowed
    ensures forall k | 0 <= k < |Page(doc)| :: k in idx <==> Decide(p, Field(Page(doc)[k], NAME).s, claims).allowed
  {
    doc, out := FilteredDocument(raw, p, claims);
    LoadsOfPrint(out, rd);
    PageReads(out, wins);
    KeptIsVisible(Page(doc), p, claims);
    idx := VisibleAt(Page(doc), p, claims);
    KeptIsSelection(Page(doc), p, claims);
    forall k | 0 <= k < |Page(doc)|
      ensures k in idx <==> Decide(p, Field(Page(doc)[k], NAME).s, claims).allowed
    {
      VisibleAtMeaning(Page(doc), p, claims, k);
    }
    forall i | 0 <= i < |idx|
      ensures exists name: Text :: ReadToolName(out, i, wins) == Some(Str(name)) && |name| <= MAX_IDENTIFIER_LEN &&
                Decide(p, name, claims).allowed
    {
      var name := Field(Page(out)[i], NAME).s;
      assert ReadToolName(out, i, wins) == Some(Str(name));
    }
  }

  lemma {:induction false} PutSame(ms: seq<Member>, m: Member)
    requires Get(ms, m.name, First) == Some(m.value)
    ensures Put(ms, m) == ms
  {
    if ms[0].name != m.name {
      PutSame(ms[1..], m);
    }
    assert ms == [ms[0]] + ms[1..];
  }

  /** Filtering a filtered page removes nothing and leaves the body as it is. */
  lemma FilterIsIdempotent(raw: seq<Token>, p: ToolPolicy, claims: Option<Claims>)
    requires FilterSpec(raw, p, claims).Filtered?
    ensures var first := FilterSpec(raw, p, claims);
            FilterSpec(first.body, p, claims) == Filtered(first.body, first.returned, 0)
  {
    var doc, out := FilteredDocument(raw, p, claims);
    LoadsOfPrint(out, FILTER);
    KeptIsVisible(Page(doc), p, claims);
    KeptOfVisible(Page(out), p, claims);
    var result := Field(out, RESULT);
    PutSame(result.members, Member(TOOLS, Arr(Page(out))));
    PutSame(out.members, Member(RESULT, result));
  }

  // ----- which pages are filtered -----

  /** The entry has a name of 1 to 256 code points. */
  ghost predicate Named(e: Json, name: Text) {
    e.Obj? && Get(e.members, NAME, Last) == Some(Str(name)) && 1 <= |name| <= 256
  }

  ghost predicate HasName(e: Json) {
    exists name :: Named(e, name)
  }

  /** A JSON-RPC 2.0 object, by the members of the dict. */
  ghost predicate IsTwo(doc: Json) {
    doc.Obj? && Get(doc.members, JSONRPC, Last) == Some(Str(TWO))
  }

  ghost predicate HasError(doc: Json) {
    doc.Obj? && exists i | 0 <= i < |doc.members| :: doc.members[i].name == ERROR
  }

  /** The document is a result whose tools are these, all of them named. */
  ghost predicate ListsTools(doc: Json, result: seq<Member>, tools: seq<Json>) {
    IsTwo(doc) && !HasError(doc) &&
    Get(doc.members, RESULT, Last) == Some(Obj(result)) && Get(result, TOOLS, Last) == Some(Arr(tools)) &&
    forall i | 0 <= i < |tools| :: HasName(tools[i])
  }

  ghost predicate AllFinite(ms: seq<Member>) {
    forall i | 0 <= i < |ms| :: Finite(ms[i].value)
  }

  ghost predicate OthersFinite(ms: seq<Member>, name: Text) {
    forall i | 0 <= i < |ms| :: ms[i].name != name ==> Finite(ms[i].value)
  }

  /** Every number outside the tools is finite. */
  ghost predicate FiniteAround(doc: Json, result: seq<Member>)
    requires doc.Obj?
  {
    OthersFinite(doc.members, RESULT) && OthersFinite(result, TOOLS)
  }

  /** Every number in an entry the client may see is finite. */
  ghost predicate FiniteWhereVisible(tools: seq<Json>, p: ToolPolicy, claims: Option<Claims>) {
    forall i, name | 0 <= i < |tools| && Named(tools[i], name) && Decide(p, name, claims).allowed :: Finite(tools[i])
  }

  lemma FieldIsGet(ms: seq<Member>, key: Text)
    requires Distinct(ms)
    ensures Get(ms, key, Last) == Get(ms, key, First)
  {
    GetAgrees(ms, key);
  }

  lemma NamedIsGood(e: Json)
    requires WellKeyed(e)
    ensures GoodEntry(e) <==> HasName(e)
    ensures GoodEntry(e) ==> Named(e, Field(e, NAME).s)
    ensures forall name | Named(e, name) :: Field(e, NAME) == Str(name)
  {
    if e.Obj? {
      FieldIsGet(e.members, NAME);
      if GoodEntry(e) {
        assert Named(e, Field(e, NAME).s);
      }
    }
  }

  lemma ListsIsFilterable(doc: Json)
    requires WellKeyed(doc)
    ensures IsTwo(doc) <==> doc.Obj? && Field(doc, JSONRPC) == Str(TWO)
    ensures HasError(doc) <==> doc.Obj? && Holds(doc.members, ERROR)
    ensures Filterable(doc) <==> exists result, tools :: ListsTools(doc, result, tools)
    ensures forall result, tools | ListsTools(doc, result, tools) ::
              Filterable(doc) && Field(doc, RESULT) == Obj(result) && Page(doc) == tools
  {
    if doc.Obj? {
      FieldIsGet(doc.members, JSONRPC);
      FieldIsGet(doc.members, RESULT);
      var result := Field(doc, RESULT);
      FieldWellKeyed(doc, RESULT);
      if result.Obj? {
        FieldIsGet(result.members, TOOLS);
        FieldWellKeyed(result, TOOLS);
        var tools := Field(result, TOOLS);
        if tools.Arr? {
          forall i | 0 <= i < |tools.items| ensures GoodEntry(tools.items[i]) <==> HasName(tools.items[i]) {
            NamedIsGood(tools.items[i]);
          }
          if Filterable(doc) {
            assert forall i | 0 <= i < |tools.items| :: GoodEntry(tools.items[i]);
            assert ListsTools(doc, result.members, tools.items);
          }
        }
      }
    }
  }

  lemma FiniteCons(m: Member, ms: seq<Member>, name: Text)
    ensures AllFinite([m] + ms) <==> Finite(m.value) && AllFinite(ms)
    ensures OthersFinite([m] + ms, name) <==> (m.name != name ==> Finite(m.value)) && OthersFinite(ms, name)
  {
    var all := [m] + ms;
    assert all[0] == m;
    assert forall i | 0 <= i < |ms| :: all[i + 1] == ms[i];
    assert forall i | 0 < i < |all| :: all[i] == ms[i - 1];
  }

  lemma {:induction false} FinitePut(ms: seq<Member>, m: Member)
    requires Distinct(ms)
    ensures AllFinite(Put(ms, m)) <==> Finite(m.value) && OthersFinite(ms, m.name)
  {
    if ms != [] {
      var rest := ms[1..];
      assert ms == [ms[0]] + rest;
      FiniteCons(ms[0], rest, m.name);
      if ms[0].name == m.name {
        FiniteCons(m, rest, m.name);
        assert forall i | 0 <= i < |rest| :: rest[i].name != m.name;
      } else {
        FinitePut(rest, m);
        FiniteCons(ms[0], Put(rest, m), m.name);
      }
    } else {
      FiniteCons(m, [], m.name);
      assert Put(ms, m) == [m] + [];
    }
  }

  lemma FiniteKept(tools: seq<Json>, p: ToolPolicy, claims: Option<Claims>)
    requires AllGood(tools) && forall i | 0 <= i < |tools| :: WellKeyed(tools[i])
    ensures Finite(Arr(Kept(tools, p, claims))) <==> FiniteWhereVisible(tools, p, claims)
  {
    var kept, idx := Kept(tools, p, claims), VisibleAt(tools, p, claims);
    KeptIsSelection(tools, p, claims);
    forall i | 0 <= i < |tools| ensures i in idx <==> Visible(p, claims, tools[i]) {
      VisibleAtMeaning(tools, p, claims, i);
    }
    forall i | 0 <= i < |tools| ensures forall name | Named(tools[i], name) :: Field(tools[i], NAME) == Str(name) {
      NamedIsGood(tools[i]);
    }
    if FiniteWhereVisible(tools, p, claims) {
      forall k | 0 <= k < |kept| ensures Finite(kept[k]) {
        assert idx[k] in idx;
        NamedIsGood(tools[idx[k]]);
      }
    }
    if Finite(Arr(kept)) {
      forall i, name | 0 <= i < |tools| && Named(tools[i], name) && Decide(p, name, claims).allowed ensures Finite(tools[i]) {
        var k :| 0 <= k < |idx| && idx[k] == i;
        assert kept[k] == tools[i];
      }
    }
  }

  lemma FiniteOut(doc: Json, result: seq<Member>, p: ToolPolicy, claims: Option<Claims>)
    requires WellKeyed(doc) && Filterable(doc) && Field(doc, RESULT) == Obj(result)
    ensures Finite(WithTools(doc, Kept(Page(doc), p, claims))) <==>
            FiniteAround(doc, result) && FiniteWhereVisible(Page(doc), p, claims)
  {
    var kept := Kept(Page(doc), p, claims);
    FieldWellKeyed(doc, RESULT);
    FieldWellKeyed(Field(doc, RESULT), TOOLS);
    FiniteKept(Page(doc), p, claims);
    FinitePut(result, Member(TOOLS, Arr(kept)));
    var result' := Obj(Put(result, Member(TOOLS, Arr(kept))));
    assert Finite(result') <==> AllFinite(result'.members);
    FinitePut(doc.members, Member(RESULT, result'));
    var out := WithTools(doc, kept);
    assert Finite(out) <==> AllFinite(out.members);
  }

  /** Which pages are filtered, by the members of the dict they load as: the results of
      JSON-RPC 2.0 that list nothing but named tools, if every number the client would see
      is finite. A 2.0 object with an error is told apart; any other page fails. */
  lemma FiltersExactly(raw: seq<Token>, p: ToolPolicy, claims: Option<Claims>, doc: Json)
    requires Loads(raw, FILTER) == Doc(doc)
    ensures FilterSpec(raw, p, claims).UpstreamError? <==> IsTwo(doc) && HasError(doc)
    ensures FilterSpec(raw, p, claims).Filtered? <==>
            exists result, tools ::
              ListsTools(doc, result, tools) && FiniteAround(doc, result) && FiniteWhereVisible(tools, p, claims)
  {
    LoadsIntoDicts(raw, false);
    CollapseWellKeyed(Loads(raw, Reader(Keep, false)).tree);
    ListsIsFilterable(doc);
    if Filterable(doc) {
      var result, tools :| ListsTools(doc, result, tools);
      FiniteOut(doc, result, p, claims);
    }
  }

  lemma FollowTwo(doc: Json, a: Text, b: Text, wins: Wins)
    requires doc.Obj?
    ensures var v := Get(doc.members, a, wins);
            Follow(doc, [Key(a), Key(b)], wins) == if v.Some? && v.value.Obj? then Get(v.value.members, b, wins) else None
  {
    assert [Key(a), Key(b)][1..] == [Key(b)];
    if Get(doc.members, a, wins).Some? {
      var v := Get(doc.members, a, wins).value;
      assert [Key(b)][1..] == [];
      if v.Obj? && Get(v.members, b, wins).Some? {
        assert Follow(Get(v.members, b, wins).value, [], wins) == Get(v.members, b, wins);
      }
    }
  }

  lemma OnlyToolsChange(doc: Json, kept: seq<Json>, key: Text, wins: Wins)
    requires doc.Obj? && WellKeyed(doc) && Field(doc, RESULT).Obj?
    ensures var out := WithTools(doc, kept);
            (key != RESULT ==> Get(out.members, key, wins) == Get(doc.members, key, wins)) &&
            (key != TOOLS ==> Follow(out, [Key(RESULT), Key(key)], wins) == Follow(doc, [Key(RESULT), Key(key)], wins))
  {
    var result := Field(doc, RESULT);
    FieldWellKeyed(doc, RESULT);
    FieldIsGet(doc.members, RESULT);
    var tools := Member(TOOLS, Arr(kept));
    var m := Member(RESULT, Obj(Put(result.members, tools)));
    GetPut(doc.members, m, key, wins);
    GetPut(doc.members, m, RESULT, wins);
    GetPut(result.members, tools, key, wins);
    FollowTwo(doc, RESULT, key, wins);
    FollowTwo(WithTools(doc, kept), RESULT, key, wins);
  }

  /** Filtering changes nothing but the tools: under every other name, of the envelope or of
      the result, a reader of the filtered page finds what the upstream sent. */
  lemma FilterKeepsTheRest(raw: seq<Token>, p: ToolPolicy, claims: Option<Claims>) returns (doc: Json, out: Json)
    requires FilterSpec(raw, p, claims).Filtered?
    ensures Loads(raw, FILTER) == Doc(doc) && Loads(FilterSpec(raw, p, claims).body, FILTER) == Doc(out)
    ensures doc.Obj? && out.Obj?
    ensures forall key, wins | key != RESULT :: Get(out.members, key, wins) == Get(doc.members, key, wins)
    ensures forall key, wins | key != TOOLS ::
              Follow(out, [Key(RESULT), Key(key)], wins) == Follow(doc, [Key(RESULT), Key(key)], wins)
  {
    doc, out := FilteredDocument(raw, p, claims);
    LoadsOfPrint(out, FILTER);
    forall key, wins
      ensures key != RESULT ==> Get(out.members, key, wins) == Get(doc.members, key, wins)
      ensures key != TOOLS ==> Follow(out, [Key(RESULT), Key(key)], wins) == Follow(doc, [Key(RESULT), Key(key)], wins)
    {
      OnlyToolsChange(doc, Page(out), key, wins);
    }
  }
}
