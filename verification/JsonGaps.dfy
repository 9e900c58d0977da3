/** What is left of a document when findall has dropped its numbers, true,
    false and null: another document exactly when each of them was the only
    element of an array. */
module JsonGaps {
  import opened Wrappers
  import opened JsonTokens
  import opened JsonRepair
  import opened JsonMeaning
  import opened RepairPlaces

  // ------------------------------------------------------------- documents

  predicate LoneBare(ds: Docs) {
    ds.DCons? && ds.head.DBare? && ds.tail.DNil?
  }

  /** A bare scalar stands nowhere but alone in an array. */
  predicate LoneDoc(d: Doc) {
    match d
    case DString(_) => true
    case DBare(_) => false
    case DArray(items) => LoneBare(items) || LoneItems(items)
    case DObject(ms) => LoneMembers(ms)
  }

  predicate LoneItems(ds: Docs) {
    match ds
    case DNil => true
    case DCons(d, rest) => LoneDoc(d) && LoneItems(rest)
  }

  predicate LoneMembers(ms: Members) {
    match ms
    case MNil => true
    case MCons(_, v, rest) => LoneDoc(v) && LoneMembers(rest)
  }

  /** The document without those scalars. */
  function EraseDoc(d: Doc): Doc {
    match d
    case DString(_) => d
    case DBare(_) => d
    case DArray(items) => DArray(if LoneBare(items) then DNil else EraseItems(items))
    case DObject(ms) => DObject(EraseMembers(ms))
  }

  function EraseItems(ds: Docs): Docs {
    match ds
    case DNil => DNil
    case DCons(d, rest) => DCons(EraseDoc(d), EraseItems(rest))
  }

  function EraseMembers(ms: Members): Members {
    match ms
    case MNil => MNil
    case MCons(k, v, rest) => MCons(k, EraseDoc(v), EraseMembers(rest))
  }

  // ---------------------------------------------------------------- values

  predicate LoneScalar(vs: Values) {
    vs.VCons? && vs.first.VBare? && vs.others.VNil?
  }

  predicate Lone(v: Value) {
    match v
    case VString(_) => true
    case VBare(_) => false
    case VArray(vs) => LoneScalar(vs) || LoneValues(vs)
    case VObject(fs) => LoneFields(fs)
  }

  predicate LoneValues(vs: Values) {
    match vs
    case VNil => true
    case VCons(v, rest) => Lone(v) && LoneValues(rest)
  }

  predicate LoneFields(fs: Fields) {
    match fs
    case FNil => true
    case FCons(_, v, rest) => Lone(v) && LoneFields(rest)
  }

  function Erase(v: Value): Value {
    match v
    case VString(_) => v
    case VBare(_) => v
    case VArray(vs) => VArray(if LoneScalar(vs) then VNil else EraseValues(vs))
    case VObject(fs) => VObject(EraseFields(fs))
  }

  function EraseValues(vs: Values): Values {
    match vs
    case VNil => VNil
    case VCons(v, rest) => VCons(Erase(v), EraseValues(rest))
  }

  function EraseFields(fs: Fields): Fields {
    match fs
    case FNil => FNil
    case FCons(name, v, rest) => FCons(name, Erase(v), EraseFields(rest))
  }

  lemma {:induction false} EraseMeans(c: Codec, d: Doc)
    requires Meaning(c, d).Some?
    ensures d.DBare? <==> Meaning(c, d).value.VBare?
    ensures Lone(Meaning(c, d).value) <==> LoneDoc(d)
    ensures Meaning(c, EraseDoc(d)) == Some(Erase(Meaning(c, d).value))
    decreases d
  {
    match d {
      case DString(_) =>
      case DBare(_) =>
      case DArray(items) => EraseItemsMean(c, items);
      case DObject(ms) => EraseMembersMean(c, ms);
    }
  }

  lemma {:induction false} EraseItemsMean(c: Codec, ds: Docs)
    requires MeaningItems(c, ds).Some?
    ensures LoneBare(ds) <==> LoneScalar(MeaningItems(c, ds).value)
    ensures LoneValues(MeaningItems(c, ds).value) <==> LoneItems(ds)
    ensures MeaningItems(c, EraseItems(ds)) == Some(EraseValues(MeaningItems(c, ds).value))
    decreases ds
  {
    match ds {
      case DNil =>
      case DCons(d, rest) =>
        EraseMeans(c, d);
        EraseItemsMean(c, rest);
        assert rest.DNil? <==> MeaningItems(c, rest).value.VNil?;
    }
  }

  lemma {:induction false} EraseMembersMean(c: Codec, ms: Members)
    requires MeaningMembers(c, ms).Some?
    ensures LoneFields(MeaningMembers(c, ms).value) <==> LoneMembers(ms)
    ensures MeaningMembers(c, EraseMembers(ms)) == Some(EraseFields(MeaningMembers(c, ms).value))
    decreases ms
  {
    match ms {
      case MNil =>
      case MCons(_, v, rest) =>
        EraseMeans(c, v);
        EraseMembersMean(c, rest);
    }
  }

  // ------------------------------------------------- lone scalars drop out

  lemma {:induction false} VisibleSplits(xs: seq<string>, ys: seq<string>)
    ensures Visible(xs + ys) == Visible(xs) + Visible(ys)
    decreases xs
  {
    if xs == [] {
      assert xs + ys == ys;
    } else {
      assert (xs + ys)[0] == xs[0] && (xs + ys)[1..] == xs[1..] + ys;
      VisibleSplits(xs[1..], ys);
    }
  }

  lemma VisibleOne(t: string)
    ensures Visible([t]) == if IsToken(t) then [t] else []
  {
    assert [t][1..] == [];
  }

  lemma VisibleBetween(open: string, mid: seq<string>, close: string)
    requires IsMark(open) && IsMark(close)
    ensures Visible([open] + mid + [close]) == [open] + Visible(mid) + [close]
  {
    VisibleSplits([open] + mid, [close]);
    VisibleSplits([open], mid);
    VisibleOne(open);
    VisibleOne(close);
  }

  lemma {:induction false} EraseVisible(d: Doc)
    requires WellSpelled(d) && LoneDoc(d)
    ensures Visible(Emit(d)) == Emit(EraseDoc(d)) && WellSpelled(EraseDoc(d)) && NoBare(EraseDoc(d))
    decreases d
  {
    match d {
      case DString(t) => VisibleOne(t);
      case DArray(items) =>
        VisibleBetween("[", EmitItems(items), "]");
        if LoneBare(items) {
          assert WellSpelled(items.head) && EmitItems(items) == [items.head.tok];
          BareIsNoToken(items.head.tok);
          VisibleOne(items.head.tok);
        } else {
          EraseVisibleItems(items);
        }
      case DObject(ms) =>
        VisibleBetween("{", EmitMembers(ms), "}");
        EraseVisibleMembers(ms);
    }
  }

  lemma {:induction false} EraseVisibleItems(ds: Docs)
    requires ItemsSpelled(ds) && LoneItems(ds)
    ensures Visible(EmitItems(ds)) == EmitItems(EraseItems(ds))
    ensures ItemsSpelled(EraseItems(ds)) && NoBareItems(EraseItems(ds))
    decreases ds
  {
    match ds {
      case DNil =>
      case DCons(d, rest) =>
        EraseVisible(d);
        EraseVisibleItems(rest);
        if !rest.DNil? {
          VisibleSplits(Emit(d) + [","], EmitItems(rest));
          VisibleSplits(Emit(d), [","]);
          VisibleOne(",");
        }
    }
  }

  lemma {:induction false} EraseVisibleMembers(ms: Members)
    requires MembersSpelled(ms) && LoneMembers(ms)
    ensures Visible(EmitMembers(ms)) == EmitMembers(EraseMembers(ms))
    ensures MembersSpelled(EraseMembers(ms)) && NoBareMembers(EraseMembers(ms))
    decreases ms
  {
    match ms {
      case MNil =>
      case MCons(k, v, rest) =>
        EraseVisible(v);
        EraseVisibleMembers(rest);
        VisibleMember(k, Emit(v));
        if !rest.MNil? {
          VisibleSplits([k, ":"] + Emit(v) + [","], EmitMembers(rest));
          VisibleSplits([k, ":"] + Emit(v), [","]);
          VisibleOne(",");
        }
    }
  }

  lemma VisibleMember(k: string, body: seq<string>)
    requires IsString(k)
    ensures Visible([k, ":"] + body) == [k, ":"] + Visible(body)
  {
    VisibleSplits([k, ":"], body);
    assert [k, ":"] == [k] + [":"];
    VisibleSplits([k], [":"]);
    VisibleOne(k);
    VisibleOne(":");
  }

  // ------------------------------------------------------- others leave gaps

  /** Where a value is missing between two marks. */
  predicate Gap(x: string, y: string) {
    (y == "," && (x == ":" || x == "," || x == "[")) || ((y == "]" || y == "}") && (x == ":" || x == ","))
  }

  ghost predicate HasGap(ts: seq<string>) {
    exists k :: 0 <= k < |ts| - 1 && Gap(ts[k], ts[k + 1])
  }

  lemma GapInside(xs: seq<string>, ys: seq<string>, zs: seq<string>)
    requires HasGap(ys)
    ensures HasGap(xs + ys + zs)
  {
    var k :| 0 <= k < |ys| - 1 && Gap(ys[k], ys[k + 1]);
    var all := xs + ys + zs;
    assert all[|xs| + k] == ys[k] && all[|xs| + k + 1] == ys[k + 1];
  }

  lemma GapHere(xs: seq<string>, x: string, y: string, zs: seq<string>)
    requires Gap(x, y)
    ensures HasGap(xs + [x, y] + zs)
  {
    assert HasGap([x, y]) by {
      assert Gap([x, y][0], [x, y][1]);
    }
    GapInside(xs, [x, y], zs);
  }

  lemma {:induction false} NotLoneGaps(d: Doc)
    requires WellSpelled(d) && !d.DBare? && !LoneDoc(d)
    ensures HasGap(Visible(Emit(d)))
    decreases d, 0
  {
    match d {
      case DArray(items) =>
        VisibleBetween("[", EmitItems(items), "]");
        ItemsGap("[", items);
      case DObject(ms) =>
        VisibleBetween("{", EmitMembers(ms), "}");
        MembersGap(ms);
        GapInside(["{"], Visible(EmitMembers(ms)) + ["}"], []);
        assert ["{"] + (Visible(EmitMembers(ms)) + ["}"]) + [] == ["{"] + Visible(EmitMembers(ms)) + ["}"];
    }
  }

  lemma {:induction false} ItemsGap(x: string, ds: Docs)
    requires ItemsSpelled(ds) && !LoneItems(ds) && (x == "," || (x == "[" && !LoneBare(ds)))
    ensures HasGap([x] + Visible(EmitItems(ds)) + ["]"])
    decreases ds, 0
  {
    var d, rest := ds.head, ds.tail;
    var mine := Visible(Emit(d));
    if rest.DNil? {
      ItemGap(x, d, ["]"]);
    } else {
      var later := Visible(EmitItems(rest));
      VisibleSplits(Emit(d) + [","], EmitItems(rest));
      VisibleSplits(Emit(d), [","]);
      VisibleOne(",");
      assert [x] + Visible(EmitItems(ds)) + ["]"] == [x] + mine + ([","] + later + ["]"]);
      if LoneDoc(d) {
        ItemsGap(",", rest);
        GapInside([x] + mine, [","] + later + ["]"], []);
        assert [x] + mine + ([","] + later + ["]"]) + [] == [x] + mine + ([","] + later + ["]"]);
      } else {
        ItemGap(x, d, [","] + later + ["]"]);
      }
    }
  }

  /** One element that is not lone, between two marks. */
  lemma {:induction false} ItemGap(x: string, d: Doc, after: seq<string>)
    requires WellSpelled(d) && !LoneDoc(d) && after != []
    requires d.DBare? ==> Gap(x, after[0])
    ensures HasGap([x] + Visible(Emit(d)) + after)
    decreases d, 1
  {
    if d.DBare? {
      BareIsNoToken(d.tok);
      VisibleOne(d.tok);
      GapHere([], x, after[0], after[1..]);
      assert [x] + [] + after == [] + [x, after[0]] + after[1..];
    } else {
      NotLoneGaps(d);
      GapInside([x], Visible(Emit(d)), after);
    }
  }

  /** A member whose value is not lone, with what follows it. */
  lemma {:induction false} MemberGap(k: string, v: Doc, after: seq<string>)
    requires WellSpelled(v) && !LoneDoc(v) && after != [] && Gap(":", after[0])
    ensures HasGap([k, ":"] + Visible(Emit(v)) + after)
    decreases v, 2
  {
    var body := [":"] + Visible(Emit(v)) + after;
    ItemGap(":", v, after);
    GapInside([k], body, []);
    assert [k] + body + [] == [k, ":"] + Visible(Emit(v)) + after;
  }

  lemma {:induction false} MembersGap(ms: Members)
    requires MembersSpelled(ms) && !LoneMembers(ms)
    ensures HasGap(Visible(EmitMembers(ms)) + ["}"])
    decreases ms, 0
  {
    var k, v, rest := ms.key, ms.value, ms.rest;
    if rest.MNil? {
      VisibleMember(k, Emit(v));
      MemberGap(k, v, ["}"]);
    } else {
      var mine, later := [k, ":"] + Visible(Emit(v)), Visible(EmitMembers(rest)) + ["}"];
      MembersVisible(ms);
      Grouped(mine, ",", Visible(EmitMembers(rest)), "}");
      if LoneDoc(v) {
        MembersGap(rest);
        GapInside(mine + [","], later, []);
      } else {
        MemberGap(k, v, [","] + later);
      }
    }
  }

  lemma MembersVisible(ms: Members)
    requires ms.MCons? && ms.rest.MCons? && IsString(ms.key)
    ensures Visible(EmitMembers(ms)) == [ms.key, ":"] + Visible(Emit(ms.value)) + [","] + Visible(EmitMembers(ms.rest))
  {
    VisibleMember(ms.key, Emit(ms.value));
    VisibleSplits([ms.key, ":"] + Emit(ms.value) + [","], EmitMembers(ms.rest));
    VisibleSplits([ms.key, ":"] + Emit(ms.value), [","]);
    VisibleOne(",");
  }

  lemma Grouped(mine: seq<string>, comma: string, more: seq<string>, close: string)
    ensures mine + [comma] + more + [close] == mine + ([comma] + (more + [close]))
    ensures mine + [comma] + more + [close] == mine + [comma] + (more + [close]) + []
  {
  }

  // --------------------------------------------------- documents have no gap

  predicate Opens(t: string) {
    t != "," && t != "]" && t != "}"
  }

  predicate Closes(t: string) {
    t != "," && t != ":" && t != "["
  }

  /** No gap inside, and none where it meets its neighbours. */
  ghost predicate Solid(ts: seq<string>) {
    ts != [] && !HasGap(ts) && Opens(ts[0]) && Closes(ts[|ts| - 1])
  }

  lemma NoGapJoins(xs: seq<string>, ys: seq<string>)
    requires !HasGap(xs) && !HasGap(ys) && (xs != [] && ys != [] ==> !Gap(xs[|xs| - 1], ys[0]))
    ensures !HasGap(xs + ys)
  {
    var all := xs + ys;
    forall k | 0 <= k < |all| - 1
      ensures !Gap(all[k], all[k + 1])
    {
      if k < |xs| - 1 {
        assert !Gap(xs[k], xs[k + 1]);
      } else if k >= |xs| {
        assert !Gap(ys[k - |xs|], ys[k - |xs| + 1]);
      }
    }
  }

  lemma OneNoGap(t: string)
    ensures !HasGap([t])
  {
  }

  lemma Wrapped(open: string, mid: seq<string>, close: string)
    requires (open == "[" && close == "]") || (open == "{" && close == "}")
    requires mid == [] || Solid(mid)
    ensures Solid([open] + mid + [close])
  {
    OneNoGap(open);
    OneNoGap(close);
    NoGapJoins([open], mid);
    NoGapJoins([open] + mid, [close]);
  }

  lemma Listed(xs: seq<string>, ys: seq<string>)
    requires Solid(xs) && Solid(ys)
    ensures Solid(xs + [","] + ys)
  {
    OneNoGap(",");
    NoGapJoins(xs, [","]);
    NoGapJoins(xs + [","], ys);
  }

  lemma Keyed(k: string, body: seq<string>)
    requires IsString(k) && Solid(body)
    ensures Solid([k, ":"] + body)
  {
    OneNoGap(k);
    OneNoGap(":");
    NoGapJoins([k], [":"]);
    assert [k] + [":"] == [k, ":"];
    NoGapJoins([k, ":"], body);
  }

  lemma {:induction false} DocSolid(d: Doc)
    requires WellSpelled(d)
    ensures Solid(Emit(d))
    decreases d
  {
    match d {
      case DString(t) => OneNoGap(t);
      case DBare(t) =>
        OneNoGap(t);
        assert t[0] in t;
      case DArray(items) =>
        if items.DCons? {
          ItemsSolid(items);
        }
        Wrapped("[", EmitItems(items), "]");
      case DObject(ms) =>
        if ms.MCons? {
          MembersSolid(ms);
        }
        Wrapped("{", EmitMembers(ms), "}");
    }
  }

  lemma {:induction false} ItemsSolid(ds: Docs)
    requires ItemsSpelled(ds) && ds.DCons?
    ensures Solid(EmitItems(ds))
    decreases ds
  {
    DocSolid(ds.head);
    if ds.tail.DCons? {
      ItemsSolid(ds.tail);
      Listed(Emit(ds.head), EmitItems(ds.tail));
    }
  }

  lemma {:induction false} MembersSolid(ms: Members)
    requires MembersSpelled(ms) && ms.MCons?
    ensures Solid(EmitMembers(ms))
    decreases ms
  {
    DocSolid(ms.value);
    Keyed(ms.key, Emit(ms.value));
    if ms.rest.MCons? {
      MembersSolid(ms.rest);
      Listed([ms.key, ":"] + Emit(ms.value), EmitMembers(ms.rest));
    }
  }

  lemma ParsedSolid(ls: seq<string>)
    requires ParseDoc(ls).Some? && ParseDoc(ls).value.1 == []
    ensures Solid(ls)
  {
    var d := ParseDoc(ls).value.0;
    ParseDocSound(ls);
    DocSolid(d);
    assert Emit(d) + [] == Emit(d);
  }

  // ------------------------------------------------------ the repair and gaps

  /** A token and the one after it, neither a string, the second no comma after
      a string: both keep their places. */
  lemma {:induction false} GapNotSwallowed(c: Codec, ts: seq<string>, p: nat, q: nat, k: nat)
    requires StringRun(c, ts, p, q) && Quoted(ts[p]) && k + 1 < |ts| && Gap(ts[k], ts[k + 1])
    ensures !(p <= k < q) && !(p <= k + 1 < q)
    decreases q - p
  {
    if q > p + 1 {
      var rest := ts[p + 1..];
      assert rest[0] == ts[p + 1] && rest[1] == ts[p + 2];
      GapNotSwallowed(c, ts, p + 2, q, k);
    }
  }

  /** So a gap in the input is a gap in the output. */
  lemma {:induction false} GapKept(c: Codec, ts: seq<string>, start: nat, out: seq<string>, from: seq<nat>, k: nat)
    requires Sound(c) && Follows(c, ts, start, out, from) && start <= k && k + 1 < |ts| && Gap(ts[k], ts[k + 1])
    ensures HasGap(out)
    decreases |out|
  {
    FollowsStart(c, ts, start, out, from);
    var q := EndOf(ts, from, 0);
    StandsAt(c, ts, start, out, from, 0);
    FollowsTail(c, ts, start, out, from);
    if IsValue(ts, start) {
      GapNotSwallowed(c, ts, start, q, k);
    }
    if k == start {
      FollowsStart(c, ts, q, out[1..], from[1..]);
      StandsAt(c, ts, start, out, from, 1);
      assert Gap(out[0], out[1]);
    } else {
      GapKept(c, ts, q, out[1..], from[1..], k);
      GapInside([out[0]], out[1..], []);
      assert [out[0]] + out[1..] + [] == out;
    }
  }

  // ---------------------------------------------------------------- theorem

  /** What the repair leaves of a text that loads: the text loads again exactly
      when its numbers, true, false and null each stand alone in an array, and
      it then loads to the same value with those arrays empty. */
  lemma RepairedLoadsIff(c: Codec, text: string)
    requires Sound(c) && Loads(c, text).Some?
    ensures var v := Loads(c, text).value;
            (RepairText(c, text).Some? && Loads(c, RepairText(c, text).value).Some? <==> Lone(v)) &&
            (Lone(v) ==> Loads(c, RepairText(c, text).value) == Some(Erase(v)))
  {
    var ls := Lex(text).value;
    var d := ParseDoc(ls).value.0;
    ParseDocSound(ls);
    assert Emit(d) + [] == Emit(d);
    EraseMeans(c, d);
    LexThenVisible(text);
    if LoneDoc(d) {
      LoneLoads(c, text, d);
    } else if RepairText(c, text).Some? && Loads(c, RepairText(c, text).value).Some? {
      GapsStay(c, text, d);
    }
  }

  lemma LoneLoads(c: Codec, text: string, d: Doc)
    requires Sound(c) && WellSpelled(d) && LoneDoc(d) && Meaning(c, d).Some? && Tokenize(text) == Visible(Emit(d))
    ensures RepairText(c, text).Some?
    ensures Loads(c, RepairText(c, text).value) == Meaning(c, EraseDoc(d))
  {
    var d' := EraseDoc(d);
    var text' := Concat(Emit(d'));
    EraseMeans(c, d);
    EraseVisible(d);
    TokensIffNoBare(d');
    LexConcat(Emit(d'));
    TokenizeConcat(Emit(d'));
    assert Emit(d') + [] == Emit(d');
    ParseDocComplete(d', []);
    NoBareMeans(c, d');
    StringOnlyPreserved(c, text');
    assert RepairText(c, text) == RepairText(c, text');
  }

  lemma GapsStay(c: Codec, text: string, d: Doc)
    requires Sound(c) && WellSpelled(d) && !LoneDoc(d) && Tokenize(text) == Visible(Emit(d))
    requires RepairText(c, text).Some?
    ensures Loads(c, RepairText(c, text).value).None?
  {
    var ts := Tokenize(text);
    var out := Repair(c, ts).value;
    TokenizeGivesTokens(text);
    RepairGivesTokens(c, ts);
    LexConcat(out);
    if d.DBare? {
      BareIsNoToken(d.tok);
      VisibleOne(d.tok);
    } else {
      NotLoneGaps(d);
      var k :| 0 <= k < |ts| - 1 && Gap(ts[k], ts[k + 1]);
      RepairConserves(c, ts, out);
      var from :| Follows(c, ts, 0, out, from);
      GapKept(c, ts, 0, out, from, k);
      if ParseDoc(out).Some? && ParseDoc(out).value.1 == [] {
        ParsedSolid(out);
      }
    }
  }
}
