/** JSON documents as json.loads reads them, and the proof that the repair of
    bare strings keeps the meaning of exactly the documents whose only scalars
    are strings. */
module JsonMeaning {
  import opened Wrappers
  import opened JsonTokens
  import opened JsonRepair

  // ---------------------------------------------------------------- lexing

  predicate IsSpace(ch: char) {
    ch == ' ' || ch == '\t' || ch == '\n' || ch == '\r'
  }

  /** A character of a number or of true, false, null. */
  predicate IsBare(ch: char) {
    !IsPunct(ch) && !IsSpace(ch) && ch != '"'
  }

  function BareLength(s: string): (n: nat)
    ensures n <= |s|
    ensures s != "" && IsBare(s[0]) ==> n >= 1
  {
    if s == "" || !IsBare(s[0]) then 0 else 1 + BareLength(s[1..])
  }

  /** A maximal run of such characters. */
  predicate IsBareToken(t: string) {
    t != "" && forall ch | ch in t :: IsBare(ch)
  }

  function OneMore(t: string, o: Option<seq<string>>): Option<seq<string>> {
    Prepend([t], o)
  }

  /** The tokens of a JSON text, white space dropped; None on a quote that
      never closes. */
  function Lex(s: string): Option<seq<string>>
    decreases |s|
  {
    if s == "" then Some([])
    else if s[0] == '"' then
      match CloseLength(s[1..])
      case None => None
      case Some(n) => OneMore(s[..n + 1], Lex(s[n + 1..]))
    else if IsPunct(s[0]) then OneMore(s[..1], Lex(s[1..]))
    else if IsSpace(s[0]) then Lex(s[1..])
    else var n := BareLength(s); OneMore(s[..n], Lex(s[n..]))
  }

  /** The tokens findall sees. */
  function Visible(ls: seq<string>): seq<string> {
    if ls == [] then []
    else (if IsToken(ls[0]) then [ls[0]] else []) + Visible(ls[1..])
  }

  // --------------------------------------------------------------- documents

  /** A document with its tokens as spelled. */
  datatype Doc = DString(tok: string) | DBare(tok: string) | DArray(items: Docs) | DObject(members: Members)
  datatype Docs = DNil | DCons(head: Doc, tail: Docs)
  datatype Members = MNil | MCons(key: string, value: Doc, rest: Members)

  /** What a document means: strings decoded, objects as their member lists. */
  datatype Value = VString(text: Text) | VBare(spelling: string) | VArray(elements: Values) | VObject(fields: Fields)
  datatype Values = VNil | VCons(first: Value, others: Values)
  datatype Fields = FNil | FCons(name: Text, val: Value, more: Fields)

  function Emit(d: Doc): seq<string> {
    match d
    case DString(t) => [t]
    case DBare(t) => [t]
    case DArray(items) => ["["] + EmitItems(items) + ["]"]
    case DObject(ms) => ["{"] + EmitMembers(ms) + ["}"]
  }

  function EmitItems(ds: Docs): seq<string> {
    match ds
    case DNil => []
    case DCons(d, DNil) => Emit(d)
    case DCons(d, rest) => Emit(d) + [","] + EmitItems(rest)
  }

  function EmitMembers(ms: Members): seq<string> {
    match ms
    case MNil => []
    case MCons(k, v, MNil) => [k, ":"] + Emit(v)
    case MCons(k, v, rest) => [k, ":"] + Emit(v) + [","] + EmitMembers(rest)
  }

  // ----------------------------------------------------------------- parsing

  function ParseDoc(ls: seq<string>): (r: Option<(Doc, seq<string>)>)
    ensures r.Some? ==> |r.value.1| < |ls|
    decreases |ls|, 0
  {
    if ls == [] then None
    else if IsString(ls[0]) then Some((DString(ls[0]), ls[1..]))
    else if IsBareToken(ls[0]) then Some((DBare(ls[0]), ls[1..]))
    else if ls[0] == "[" then
      if |ls| >= 2 && ls[1] == "]" then Some((DArray(DNil), ls[2..]))
      else match ParseItems(ls[1..])
        case None => None
        case Some((items, rest)) =>
          if rest != [] && rest[0] == "]" then Some((DArray(items), rest[1..])) else None
    else if ls[0] == "{" then
      if |ls| >= 2 && ls[1] == "}" then Some((DObject(MNil), ls[2..]))
      else match ParseMembers(ls[1..])
        case None => None
        case Some((ms, rest)) =>
          if rest != [] && rest[0] == "}" then Some((DObject(ms), rest[1..])) else None
    else None
  }

  /** One item or more. */
  function ParseItems(ls: seq<string>): (r: Option<(Docs, seq<string>)>)
    ensures r.Some? ==> |r.value.1| < |ls| && r.value.0.DCons?
    decreases |ls|, 1
  {
    match ParseDoc(ls)
    case None => None
    case Some((d, rest)) =>
      if rest != [] && rest[0] == "," then
        match ParseItems(rest[1..])
        case None => None
        case Some((ds, rest')) => Some((DCons(d, ds), rest'))
      else Some((DCons(d, DNil), rest))
  }

  function ParseMembers(ls: seq<string>): (r: Option<(Members, seq<string>)>)
    ensures r.Some? ==> |r.value.1| < |ls| && r.value.0.MCons?
    decreases |ls|, 1
  {
    if |ls| < 2 || !IsString(ls[0]) || ls[1] != ":" then None
    else match ParseDoc(ls[2..])
      case None => None
      case Some((v, rest)) =>
        if rest != [] && rest[0] == "," then
          match ParseMembers(rest[1..])
          case None => None
          case Some((ms, rest')) => Some((MCons(ls[0], v, ms), rest'))
        else Some((MCons(ls[0], v, MNil), rest))
  }

  /** Tokens of the right kind in every place. */
  predicate WellSpelled(d: Doc) {
    match d
    case DString(t) => IsString(t)
    case DBare(t) => IsBareToken(t)
    case DArray(items) => ItemsSpelled(items)
    case DObject(ms) => MembersSpelled(ms)
  }

  predicate ItemsSpelled(ds: Docs) {
    match ds
    case DNil => true
    case DCons(d, rest) => WellSpelled(d) && ItemsSpelled(rest)
  }

  predicate MembersSpelled(ms: Members) {
    match ms
    case MNil => true
    case MCons(k, v, rest) => IsString(k) && WellSpelled(v) && MembersSpelled(rest)
  }

  // ----------------------------------------------------------------- meaning

  function Meaning(c: Codec, d: Doc): Option<Value> {
    match d
    case DString(t) => (match c.decode(t) case None => None case Some(x) => Some(VString(x)))
    case DBare(t) => Some(VBare(t))
    case DArray(items) => (match MeaningItems(c, items) case None => None case Some(vs) => Some(VArray(vs)))
    case DObject(ms) => (match MeaningMembers(c, ms) case None => None case Some(fs) => Some(VObject(fs)))
  }

  function MeaningItems(c: Codec, ds: Docs): Option<Values> {
    match ds
    case DNil => Some(VNil)
    case DCons(d, rest) =>
      match (Meaning(c, d), MeaningItems(c, rest))
      case (Some(v), Some(vs)) => Some(VCons(v, vs))
      case _ => None
  }

  function MeaningMembers(c: Codec, ms: Members): Option<Fields> {
    match ms
    case MNil => Some(FNil)
    case MCons(k, d, rest) =>
      match (c.decode(k), Meaning(c, d), MeaningMembers(c, rest))
      case (Some(name), Some(v), Some(fs)) => Some(FCons(name, v, fs))
      case _ => None
  }

  /** json.loads: lex, parse to the end, decode. */
  function Loads(c: Codec, text: string): Option<Value> {
    match Lex(text)
    case None => None
    case Some(ls) =>
      match ParseDoc(ls)
      case None => None
      case Some((d, rest)) => if rest == [] then Meaning(c, d) else None
  }

  /** Only strings at the leaves. */
  predicate StringOnly(v: Value) {
    match v
    case VString(_) => true
    case VBare(_) => false
    case VArray(vs) => AllStringOnly(vs)
    case VObject(fs) => FieldsStringOnly(fs)
  }

  predicate AllStringOnly(vs: Values) {
    match vs
    case VNil => true
    case VCons(v, rest) => StringOnly(v) && AllStringOnly(rest)
  }

  predicate FieldsStringOnly(fs: Fields) {
    match fs
    case FNil => true
    case FCons(_, v, rest) => StringOnly(v) && FieldsStringOnly(rest)
  }

  // ------------------------------------------------ parser against printer

  lemma Enclosed(open: string, mid: seq<string>, close: string, rest: seq<string>)
    ensures [open] + (mid + ([close] + rest)) == [open] + mid + [close] + rest
  {
  }

  lemma {:induction false} ParseDocSound(ls: seq<string>)
    requires ParseDoc(ls).Some?
    ensures var (d, rest) := ParseDoc(ls).value; ls == Emit(d) + rest && WellSpelled(d)
    decreases |ls|, 0
  {
    if IsString(ls[0]) || IsBareToken(ls[0]) {
      assert ls == [ls[0]] + ls[1..];
    } else if ls[0] == "[" {
      ParseArraySound(ls);
    } else {
      ParseObjectSound(ls);
    }
  }

  lemma {:induction false} ParseArraySound(ls: seq<string>)
    requires ls != [] && ls[0] == "[" && ParseDoc(ls).Some?
    ensures var (d, rest) := ParseDoc(ls).value; ls == Emit(d) + rest && WellSpelled(d)
    decreases |ls|, 0, 0
  {
    assert "["[0] in "[";
    if |ls| >= 2 && ls[1] == "]" {
      Enclosed("[", EmitItems(DNil), "]", ls[2..]);
      assert ls == ["["] + ([] + (["]"] + ls[2..]));
    } else {
      ParseItemsSound(ls[1..]);
      var (items, rest) := ParseItems(ls[1..]).value;
      assert rest == ["]"] + rest[1..];
      assert ls == ["["] + ls[1..];
      Enclosed("[", EmitItems(items), "]", rest[1..]);
    }
  }

  lemma {:induction false} ParseObjectSound(ls: seq<string>)
    requires ls != [] && ls[0] == "{" && ParseDoc(ls).Some?
    ensures var (d, rest) := ParseDoc(ls).value; ls == Emit(d) + rest && WellSpelled(d)
    decreases |ls|, 0, 0
  {
    assert "{"[0] in "{";
    if |ls| >= 2 && ls[1] == "}" {
      Enclosed("{", EmitMembers(MNil), "}", ls[2..]);
      assert ls == ["{"] + ([] + (["}"] + ls[2..]));
    } else {
      ParseMembersSound(ls[1..]);
      var (ms, rest) := ParseMembers(ls[1..]).value;
      assert rest == ["}"] + rest[1..];
      assert ls == ["{"] + ls[1..];
      Enclosed("{", EmitMembers(ms), "}", rest[1..]);
    }
  }

  lemma Regroup(x: seq<string>, y: seq<string>, z: seq<string>, w: seq<string>)
    ensures x + (y + (z + w)) == x + y + z + w
  {
  }

  lemma {:induction false} ParseItemsSound(ls: seq<string>)
    requires ParseItems(ls).Some?
    ensures var (ds, rest) := ParseItems(ls).value; ls == EmitItems(ds) + rest && ItemsSpelled(ds)
    decreases |ls|, 1
  {
    ParseDocSound(ls);
    var (d, rest) := ParseDoc(ls).value;
    if rest != [] && rest[0] == "," {
      ParseItemsSound(rest[1..]);
      var (ds, rest') := ParseItems(rest[1..]).value;
      assert rest == [","] + rest[1..];
      Regroup(Emit(d), [","], EmitItems(ds), rest');
    }
  }

  lemma {:induction false} ParseMembersSound(ls: seq<string>)
    requires ParseMembers(ls).Some?
    ensures var (ms, rest) := ParseMembers(ls).value; ls == EmitMembers(ms) + rest && MembersSpelled(ms)
    decreases |ls|, 1
  {
    var body := ls[2..];
    ParseDocSound(body);
    var (d, rest) := ParseDoc(body).value;
    if rest != [] && rest[0] == "," {
      ParseMembersSound(rest[1..]);
      var (ms, rest') := ParseMembers(rest[1..]).value;
      MembersSplit(ls, d, rest, ms, rest');
    } else {
      LastMemberSplit(ls, d, rest);
    }
  }

  lemma LastMemberSplit(ls: seq<string>, d: Doc, rest: seq<string>)
    requires |ls| >= 2 && ls[1] == ":" && ls[2..] == Emit(d) + rest
    ensures ls == EmitMembers(MCons(ls[0], d, MNil)) + rest
  {
    assert ls == [ls[0], ":"] + ls[2..];
    assert [ls[0], ":"] + (Emit(d) + rest) == [ls[0], ":"] + Emit(d) + rest;
  }

  lemma MembersSplit(ls: seq<string>, d: Doc, rest: seq<string>, ms: Members, rest': seq<string>)
    requires |ls| >= 2 && ls[1] == ":" && ls[2..] == Emit(d) + rest
    requires rest != [] && rest[0] == "," && rest[1..] == EmitMembers(ms) + rest' && ms.MCons?
    ensures ls == EmitMembers(MCons(ls[0], d, ms)) + rest'
  {
    assert ls == [ls[0], ":"] + ls[2..];
    assert rest == [","] + rest[1..];
    MembersRegroup(ls[0], d, ms, rest');
  }

  lemma MembersRegroup(k: string, d: Doc, ms: Members, rest: seq<string>)
    requires ms.MCons?
    ensures [k, ":"] + (Emit(d) + ([","] + (EmitMembers(ms) + rest))) == EmitMembers(MCons(k, d, ms)) + rest
  {
    Regroup(Emit(d), [","], EmitMembers(ms), rest);
    Regroup([k, ":"], Emit(d) + [","], EmitMembers(ms), rest);
    assert [k, ":"] + (Emit(d) + [","]) == [k, ":"] + Emit(d) + [","];
  }

  lemma EmitStarts(d: Doc)
    requires WellSpelled(d)
    ensures |Emit(d)| >= 1 && Emit(d)[0] != "]" && Emit(d)[0] != "}" && Emit(d)[0] != ":" && Emit(d)[0] != ","
  {
    if d.DBare? {
      assert d.tok[0] in d.tok;
    }
  }

  lemma ItemsStart(ds: Docs)
    requires ItemsSpelled(ds) && ds.DCons?
    ensures |EmitItems(ds)| >= 1 && EmitItems(ds)[0] == Emit(ds.head)[0]
  {
    EmitStarts(ds.head);
  }

  lemma MembersStart(ms: Members)
    ensures MembersSpelled(ms) && ms.MCons? ==>
            |EmitMembers(ms)| >= 2 && EmitMembers(ms)[0] == ms.key && EmitMembers(ms)[1] == ":"
  {
  }

  /** The reading of an opening bracket or brace and what it encloses. */
  lemma Opened(open: string, mid: seq<string>, close: string, rest: seq<string>)
    ensures var ls := [open] + mid + [close] + rest;
            |ls| >= 2 && ls[0] == open && ls[1..] == mid + ([close] + rest) && ([close] + rest)[1..] == rest &&
            (mid == [] ==> ls[1] == close && ls[2..] == rest) &&
            (mid != [] ==> ls[1] == mid[0])
  {
  }

  lemma {:induction false} ParseDocComplete(d: Doc, rest: seq<string>)
    requires WellSpelled(d)
    ensures ParseDoc(Emit(d) + rest) == Some((d, rest))
    decreases d, 1
  {
    match d {
      case DString(t) => assert (Emit(d) + rest)[1..] == rest;
      case DBare(t) =>
        assert t[0] in t;
        assert (Emit(d) + rest)[1..] == rest;
      case DArray(items) => ParseArrayComplete(items, rest);
      case DObject(ms) => ParseObjectComplete(ms, rest);
    }
  }

  lemma {:induction false} ParseArrayComplete(items: Docs, rest: seq<string>)
    requires ItemsSpelled(items)
    ensures ParseDoc(Emit(DArray(items)) + rest) == Some((DArray(items), rest))
    decreases items, 1
  {
    assert "["[0] in "[";
    Opened("[", EmitItems(items), "]", rest);
    if items.DCons? {
      ItemsStart(items);
      EmitStarts(items.head);
      ParseItemsComplete(items, ["]"] + rest);
    }
  }

  lemma {:induction false} ParseObjectComplete(ms: Members, rest: seq<string>)
    requires MembersSpelled(ms)
    ensures ParseDoc(Emit(DObject(ms)) + rest) == Some((DObject(ms), rest))
    decreases ms, 1
  {
    assert "{"[0] in "{";
    Opened("{", EmitMembers(ms), "}", rest);
    if ms.MCons? {
      MembersStart(ms);
      ParseMembersComplete(ms, ["}"] + rest);
    }
  }

  lemma {:induction false} ParseItemsComplete(ds: Docs, rest: seq<string>)
    requires ItemsSpelled(ds) && ds.DCons? && (rest == [] || rest[0] != ",")
    ensures ParseItems(EmitItems(ds) + rest) == Some((ds, rest))
    decreases ds, 0
  {
    if ds.tail.DNil? {
      ParseDocComplete(ds.head, rest);
    } else {
      var after := [","] + (EmitItems(ds.tail) + rest);
      ParseDocComplete(ds.head, after);
      assert EmitItems(ds) + rest == Emit(ds.head) + after;
      assert after[1..] == EmitItems(ds.tail) + rest;
      ParseItemsComplete(ds.tail, rest);
    }
  }

  lemma {:induction false} ParseMembersComplete(ms: Members, rest: seq<string>)
    requires MembersSpelled(ms) && ms.MCons? && (rest == [] || rest[0] != ",")
    ensures ParseMembers(EmitMembers(ms) + rest) == Some((ms, rest))
    decreases ms, 0
  {
    if ms.rest.MNil? {
      ParseDocComplete(ms.value, rest);
      MemberHead(ms.key, Emit(ms.value), rest);
    } else {
      var later := EmitMembers(ms.rest) + rest;
      ParseDocComplete(ms.value, [","] + later);
      ParseMembersComplete(ms.rest, rest);
      MemberThenMore(ms, rest, later);
    }
  }

  lemma MemberThenMore(ms: Members, rest: seq<string>, later: seq<string>)
    requires MembersSpelled(ms) && ms.MCons? && ms.rest.MCons? && later == EmitMembers(ms.rest) + rest
    requires ParseDoc(Emit(ms.value) + ([","] + later)) == Some((ms.value, [","] + later))
    requires ParseMembers(later) == Some((ms.rest, rest))
    ensures ParseMembers(EmitMembers(ms) + rest) == Some((ms, rest))
  {
    var ls := [ms.key, ":"] + Emit(ms.value) + ([","] + later);
    MembersRegroup(ms.key, ms.value, ms.rest, rest);
    OpeningGroup([ms.key, ":"], Emit(ms.value), [","] + later);
    MemberHead(ms.key, Emit(ms.value), [","] + later);
    assert ([","] + later)[1..] == later;
    ParsesMore(ls, ms.value, [","] + later, ms.rest, rest);
  }

  lemma OpeningGroup(x: seq<string>, y: seq<string>, z: seq<string>)
    ensures x + (y + z) == x + y + z
  {
  }

  /** The parser at a member, a comma, and more. */
  lemma ParsesMore(ls: seq<string>, v: Doc, after: seq<string>, more: Members, rest: seq<string>)
    requires |ls| >= 2 && IsString(ls[0]) && ls[1] == ":" && ParseDoc(ls[2..]) == Some((v, after))
    requires after != [] && after[0] == "," && ParseMembers(after[1..]) == Some((more, rest))
    ensures ParseMembers(ls) == Some((MCons(ls[0], v, more), rest))
  {
  }

  lemma MemberHead(k: string, body: seq<string>, after: seq<string>)
    ensures var ls := [k, ":"] + body + after;
            |ls| >= 2 && ls[0] == k && ls[1] == ":" && ls[2..] == body + after
  {
  }

  // --------------------------------------------------- lexer against findall

  lemma {:induction false} BareRun(s: string)
    ensures var n := BareLength(s);
            (forall ch | ch in s[..n] :: IsBare(ch)) && Tokenize(s) == Tokenize(s[n..])
    decreases |s|
  {
    if s != "" && IsBare(s[0]) {
      BareRun(s[1..]);
      var n := BareLength(s);
      assert s[..n] == [s[0]] + s[1..][..n - 1];
      assert s[n..] == s[1..][n - 1..];
    } else {
      assert s[0..] == s;
    }
  }

  lemma BareIsNoToken(t: string)
    requires IsBareToken(t)
    ensures !IsToken(t)
  {
    assert t[0] in t;
  }

  /** On a text that lexes, findall sees the lexed tokens without the bare
      ones. */
  lemma {:induction false} LexThenVisible(s: string)
    requires Lex(s).Some?
    ensures Tokenize(s) == Visible(Lex(s).value)
    decreases |s|
  {
    if s != "" {
      if s[0] == '"' {
        var n := CloseLength(s[1..]).value;
        CloseCuts(s[1..]);
        assert s[..n + 1][1..] == s[1..][..n];
        LexThenVisible(s[n + 1..]);
        assert Lex(s).value[1..] == Lex(s[n + 1..]).value;
      } else if IsPunct(s[0]) {
        LexThenVisible(s[1..]);
        assert Lex(s).value[1..] == Lex(s[1..]).value;
      } else if IsSpace(s[0]) {
        LexThenVisible(s[1..]);
      } else {
        var n := BareLength(s);
        BareRun(s);
        BareIsNoToken(s[..n]);
        LexThenVisible(s[n..]);
        assert Lex(s).value[1..] == Lex(s[n..]).value;
      }
    }
  }

  lemma LexHead(t: string, rest: string)
    requires IsToken(t)
    ensures Lex(t + rest) == OneMore(t, Lex(rest))
  {
    var s := t + rest;
    assert s[0] == t[0] && s[..|t|] == t && s[|t|..] == rest;
    if IsString(t) {
      CloseIsLocal(t[1..], rest);
      assert s[1..] == t[1..] + rest;
    }
  }

  lemma {:induction false} LexConcat(ts: seq<string>)
    requires AllTokens(ts)
    ensures Lex(Concat(ts)) == Some(ts)
    decreases ts
  {
    if ts != [] {
      LexHead(ts[0], Concat(ts[1..]));
      LexConcat(ts[1..]);
      assert [ts[0]] + ts[1..] == ts;
    }
  }

  // ------------------------------------------------- what the repair changes

  /** Every member's string value, spelled as json.dumps spells it. */
  function Respell(c: Codec, d: Doc): Doc
    decreases d, 0
  {
    match d
    case DString(_) => d
    case DBare(_) => d
    case DArray(items) => DArray(RespellItems(c, items))
    case DObject(ms) => DObject(RespellMembers(c, ms))
  }

  function RespellItems(c: Codec, ds: Docs): Docs
    decreases ds, 0
  {
    match ds
    case DNil => DNil
    case DCons(d, rest) => DCons(Respell(c, d), RespellItems(c, rest))
  }

  function RespellMembers(c: Codec, ms: Members): Members
    decreases ms, 0
  {
    match ms
    case MNil => MNil
    case MCons(k, v, rest) => MCons(k, RespellValue(c, v), RespellMembers(c, rest))
  }

  function RespellValue(c: Codec, v: Doc): Doc
    decreases v, 1
  {
    if v.DString? && c.decode(v.tok).Some? then DString(c.encode(c.decode(v.tok).value)) else Respell(c, v)
  }

  predicate NoBare(d: Doc) {
    match d
    case DString(_) => true
    case DBare(_) => false
    case DArray(items) => NoBareItems(items)
    case DObject(ms) => NoBareMembers(ms)
  }

  predicate NoBareItems(ds: Docs) {
    match ds
    case DNil => true
    case DCons(d, rest) => NoBare(d) && NoBareItems(rest)
  }

  predicate NoBareMembers(ms: Members) {
    match ms
    case MNil => true
    case MCons(_, v, rest) => NoBare(v) && NoBareMembers(rest)
  }

  /** Brackets around a repaired list. */
  lemma RepairEnclosed(c: Codec, open: string, mid: seq<string>, mid': seq<string>, close: string, rest: seq<string>)
    requires IsMark(open) && IsMark(close)
    requires Repair(c, mid + ([close] + rest)) == Prepend(mid', Repair(c, [close] + rest))
    ensures Repair(c, [open] + mid + [close] + rest) == Prepend([open] + mid' + [close], Repair(c, rest))
  {
    Enclosed(open, mid, close, rest);
    RepairSkips(c, close, rest);
    RepairSkips(c, open, mid + ([close] + rest));
    PrependTwice(mid', [close], Repair(c, rest));
    PrependTwice([open], mid' + [close], Repair(c, rest));
    assert [open] + (mid' + [close]) == [open] + mid' + [close];
  }

  lemma {:induction false} RepairDoc(c: Codec, d: Doc, rest: seq<string>)
    requires Sound(c) && WellSpelled(d) && NoBare(d) && Meaning(c, d).Some? && (rest == [] || rest[0] != ":")
    ensures Repair(c, Emit(d) + rest) == Prepend(Emit(Respell(c, d)), Repair(c, rest))
    decreases d, 0
  {
    match d {
      case DString(t) => RepairSkips(c, t, rest);
      case DArray(items) =>
        RepairItems(c, items, ["]"] + rest);
        RepairEnclosed(c, "[", EmitItems(items), EmitItems(RespellItems(c, items)), "]", rest);
      case DObject(ms) =>
        RepairMembers(c, ms, ["}"] + rest);
        RepairEnclosed(c, "{", EmitMembers(ms), EmitMembers(RespellMembers(c, ms)), "}", rest);
    }
  }

  lemma {:induction false} RepairItems(c: Codec, ds: Docs, rest: seq<string>)
    requires Sound(c) && ItemsSpelled(ds) && NoBareItems(ds) && MeaningItems(c, ds).Some?
    requires rest != [] && rest[0] == "]"
    ensures Repair(c, EmitItems(ds) + rest) == Prepend(EmitItems(RespellItems(c, ds)), Repair(c, rest))
    decreases ds, 0
  {
    match ds {
      case DNil =>
        assert [] + rest == rest;
        PrependNothing(Repair(c, rest));
      case DCons(d, tail) =>
        if tail.DNil? {
          RepairDoc(c, d, rest);
        } else {
          var later := EmitItems(tail) + rest;
          assert EmitItems(ds) + rest == Emit(d) + ([","] + later);
          RepairDoc(c, d, [","] + later);
          RepairSkips(c, ",", later);
          RepairItems(c, tail, rest);
          ThreePieces(Emit(Respell(c, d)), ",", EmitItems(RespellItems(c, tail)), Repair(c, rest));
        }
    }
  }

  lemma ThreePieces(xs: seq<string>, t: string, ys: seq<string>, o: Option<seq<string>>)
    ensures Prepend(xs, Prepend([t], Prepend(ys, o))) == Prepend(xs + [t] + ys, o)
  {
    PrependTwice([t], ys, o);
    PrependTwice(xs, [t] + ys, o);
    assert xs + ([t] + ys) == xs + [t] + ys;
  }

  /** What follows a member: the end of the object, or a comma and a key. */
  ghost predicate AfterMember(after: seq<string>) {
    after != [] && (after[0] == "}" || (|after| >= 3 && after[0] == "," && after[2] == ":"))
  }

  /** A member whose value is a string: a pair with nothing to merge. */
  lemma RepairPair(c: Codec, k: string, t: string, after: seq<string>)
    requires Sound(c) && IsString(k) && IsString(t) && c.decode(t).Some? && AfterMember(after)
    ensures Repair(c, [k, ":"] + [t] + after) == Prepend([k, ":"] + [c.encode(c.decode(t).value)], Repair(c, after))
  {
    var ts := [k, ":"] + [t] + after;
    var x := c.decode(t).value;
    assert ts[3..] == after;
    NoRunLeft(c, x, after);
    assert [k, ":", c.encode(x)] == [k, ":"] + [c.encode(x)];
  }

  /** A key and colon before a value that is no string go through alone. */
  lemma RepairKey(c: Codec, k: string, body: seq<string>)
    requires IsString(k) && body != [] && !Quoted(body[0])
    ensures Repair(c, [k, ":"] + body) == Prepend([k, ":"], Repair(c, body))
  {
    assert [k, ":"] + body == [k] + ([":"] + body);
    RepairSkips(c, ":", body);
    RepairSkips(c, k, [":"] + body);
    PrependTwice([k], [":"], Repair(c, body));
    assert [k] + [":"] == [k, ":"];
  }

  /** One member and its value. */
  lemma {:induction false} RepairMember(c: Codec, k: string, v: Doc, after: seq<string>)
    requires Sound(c) && IsString(k) && WellSpelled(v) && NoBare(v) && Meaning(c, v).Some? && AfterMember(after)
    ensures Repair(c, [k, ":"] + Emit(v) + after) == Prepend([k, ":"] + Emit(RespellValue(c, v)), Repair(c, after))
    decreases v, 1
  {
    if v.DString? {
      RepairPair(c, k, v.tok, after);
    } else {
      EmitStarts(v);
      assert [k, ":"] + Emit(v) + after == [k, ":"] + (Emit(v) + after);
      RepairKey(c, k, Emit(v) + after);
      RepairDoc(c, v, after);
      PrependTwice([k, ":"], Emit(RespellValue(c, v)), Repair(c, after));
    }
  }

  lemma {:induction false} RepairMembers(c: Codec, ms: Members, rest: seq<string>)
    requires Sound(c) && MembersSpelled(ms) && NoBareMembers(ms) && MeaningMembers(c, ms).Some?
    requires rest != [] && rest[0] == "}"
    ensures Repair(c, EmitMembers(ms) + rest) == Prepend(EmitMembers(RespellMembers(c, ms)), Repair(c, rest))
    decreases ms, 0
  {
    match ms {
      case MNil =>
        assert [] + rest == rest;
        PrependNothing(Repair(c, rest));
      case MCons(k, v, tail) =>
        if tail.MNil? {
          RepairMember(c, k, v, rest);
        } else {
          var later := EmitMembers(tail) + rest;
          MembersStart(tail);
          assert EmitMembers(ms) + rest == [k, ":"] + Emit(v) + ([","] + later);
          RepairMember(c, k, v, [","] + later);
          RepairSkips(c, ",", later);
          RepairMembers(c, tail, rest);
          ThreePieces([k, ":"] + Emit(RespellValue(c, v)), ",", EmitMembers(RespellMembers(c, tail)), Repair(c, rest));
        }
    }
  }

  // ------------------------------------------ respelling keeps the meaning

  lemma {:induction false} RespellKeeps(c: Codec, d: Doc)
    requires Sound(c) && WellSpelled(d)
    ensures WellSpelled(Respell(c, d)) && Meaning(c, Respell(c, d)) == Meaning(c, d)
    decreases d, 0
  {
    match d {
      case DString(_) =>
      case DBare(_) =>
      case DArray(items) => RespellItemsKeeps(c, items);
      case DObject(ms) => RespellMembersKeeps(c, ms);
    }
  }

  lemma {:induction false} RespellItemsKeeps(c: Codec, ds: Docs)
    requires Sound(c) && ItemsSpelled(ds)
    ensures ItemsSpelled(RespellItems(c, ds)) && MeaningItems(c, RespellItems(c, ds)) == MeaningItems(c, ds)
    decreases ds, 0
  {
    match ds {
      case DNil =>
      case DCons(d, rest) =>
        RespellKeeps(c, d);
        RespellItemsKeeps(c, rest);
    }
  }

  lemma {:induction false} RespellMembersKeeps(c: Codec, ms: Members)
    requires Sound(c) && MembersSpelled(ms)
    ensures MembersSpelled(RespellMembers(c, ms)) && MeaningMembers(c, RespellMembers(c, ms)) == MeaningMembers(c, ms)
    decreases ms, 0
  {
    match ms {
      case MNil =>
      case MCons(_, v, rest) =>
        RespellKeeps(c, v);
        RespellMembersKeeps(c, rest);
    }
  }

  // -------------------------------------------------- bare tokens and values

  lemma {:induction false} NoBareMeans(c: Codec, d: Doc)
    requires Meaning(c, d).Some?
    ensures NoBare(d) <==> StringOnly(Meaning(c, d).value)
    decreases d, 0
  {
    match d {
      case DString(_) =>
      case DBare(_) =>
      case DArray(items) => NoBareItemsMean(c, items);
      case DObject(ms) => NoBareMembersMean(c, ms);
    }
  }

  lemma {:induction false} NoBareItemsMean(c: Codec, ds: Docs)
    requires MeaningItems(c, ds).Some?
    ensures NoBareItems(ds) <==> AllStringOnly(MeaningItems(c, ds).value)
    decreases ds, 0
  {
    match ds {
      case DNil =>
      case DCons(d, rest) =>
        NoBareMeans(c, d);
        NoBareItemsMean(c, rest);
    }
  }

  lemma {:induction false} NoBareMembersMean(c: Codec, ms: Members)
    requires MeaningMembers(c, ms).Some?
    ensures NoBareMembers(ms) <==> FieldsStringOnly(MeaningMembers(c, ms).value)
    decreases ms, 0
  {
    match ms {
      case MNil =>
      case MCons(_, v, rest) =>
        NoBareMeans(c, v);
        NoBareMembersMean(c, rest);
    }
  }

  lemma {:induction false} TokensIffNoBare(d: Doc)
    requires WellSpelled(d)
    ensures AllTokens(Emit(d)) <==> NoBare(d)
    decreases d, 0
  {
    match d {
      case DString(t) =>
      case DBare(t) =>
        BareIsNoToken(t);
        assert t in Emit(d);
      case DArray(items) =>
        ItemTokensIffNoBare(items);
        AroundTokens("[", EmitItems(items), "]");
      case DObject(ms) =>
        MemberTokensIffNoBare(ms);
        AroundTokens("{", EmitMembers(ms), "}");
    }
  }

  lemma AroundTokens(open: string, ts: seq<string>, close: string)
    requires IsMark(open) && IsMark(close)
    ensures AllTokens([open] + ts + [close]) <==> AllTokens(ts)
  {
    var all := [open] + ts + [close];
    assert forall t | t in ts :: t in all;
  }

  lemma SplitTokens(xs: seq<string>, ys: seq<string>)
    ensures AllTokens(xs + ys) <==> AllTokens(xs) && AllTokens(ys)
  {
    assert forall t :: t in xs + ys <==> t in xs || t in ys;
  }

  lemma {:induction false} ItemTokensIffNoBare(ds: Docs)
    requires ItemsSpelled(ds)
    ensures AllTokens(EmitItems(ds)) <==> NoBareItems(ds)
    decreases ds, 0
  {
    match ds {
      case DNil =>
      case DCons(d, rest) =>
        TokensIffNoBare(d);
        ItemTokensIffNoBare(rest);
        if !rest.DNil? {
          SplitTokens(Emit(d) + [","], EmitItems(rest));
          SplitTokens(Emit(d), [","]);
          assert AllTokens([","]);
        }
    }
  }

  lemma {:induction false} MemberTokensIffNoBare(ms: Members)
    requires MembersSpelled(ms)
    ensures AllTokens(EmitMembers(ms)) <==> NoBareMembers(ms)
    decreases ms, 0
  {
    match ms {
      case MNil =>
      case MCons(k, v, rest) =>
        TokensIffNoBare(v);
        MemberTokensIffNoBare(rest);
        SplitTokens([k, ":"], Emit(v));
        assert AllTokens([k, ":"]);
        if !rest.MNil? {
          SplitTokens([k, ":"] + Emit(v) + [","], EmitMembers(rest));
          SplitTokens([k, ":"] + Emit(v), [","]);
          assert AllTokens([","]);
        }
    }
  }

  lemma {:induction false} VisibleAll(ls: seq<string>)
    requires AllTokens(ls)
    ensures Visible(ls) == ls
    decreases ls
  {
    if ls != [] {
      VisibleAll(ls[1..]);
    }
  }

  // ---------------------------------------------------------------- theorems

  /** On a string-only document the merge never fires and the value comes back. */
  lemma StringOnlyPreserved(c: Codec, text: string)
    requires Sound(c) && Loads(c, text).Some? && StringOnly(Loads(c, text).value)
    ensures RepairText(c, text).Some? && Loads(c, RepairText(c, text).value) == Loads(c, text)
  {
    var ls := Lex(text).value;
    var d := ParseDoc(ls).value.0;
    ParseDocSound(ls);
    assert Emit(d) + [] == Emit(d);
    NoBareMeans(c, d);
    TokensIffNoBare(d);
    LexThenVisible(text);
    VisibleAll(ls);
    RepairDoc(c, d, []);
    var d' := Respell(c, d);
    assert Emit(d') + [] == Emit(d');
    RespellKeeps(c, d);
    TokenizeGivesTokens(text);
    RepairGivesTokens(c, ls);
    LexConcat(Emit(d'));
    ParseDocComplete(d', []);
  }

  /** Nothing the repair writes reads as anything but strings at its leaves. */
  lemma RepairedIsStringOnly(c: Codec, text: string)
    requires Sound(c) && RepairText(c, text).Some? && Loads(c, RepairText(c, text).value).Some?
    ensures StringOnly(Loads(c, RepairText(c, text).value).value)
  {
    var ts := Tokenize(text);
    TokenizeGivesTokens(text);
    RepairGivesTokens(c, ts);
    var out := Repair(c, ts).value;
    LexConcat(out);
    ParseDocSound(out);
    var d := ParseDoc(out).value.0;
    assert Emit(d) + [] == Emit(d);
    TokensIffNoBare(d);
    NoBareMeans(c, d);
  }

  /** Repair preserves meaning exactly on string-only documents: for every text
      json.loads accepts, the repaired text loads to the same value if and only
      if that value holds no number, true, false or null. */
  lemma RepairPreservesMeaningIff(c: Codec, text: string)
    requires Sound(c) && Loads(c, text).Some?
    ensures RepairText(c, text).Some? && Loads(c, RepairText(c, text).value) == Loads(c, text)
            <==> StringOnly(Loads(c, text).value)
  {
    if StringOnly(Loads(c, text).value) {
      StringOnlyPreserved(c, text);
    } else if RepairText(c, text).Some? && Loads(c, RepairText(c, text).value).Some? {
      RepairedIsStringOnly(c, text);
    }
  }
}
