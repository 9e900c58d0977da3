/** repair_trailing_bare_strings: bare strings after a "key": "value" pair are
    merged into the value. json.loads and json.dumps on one string are a codec
    given as a parameter; decoded text is a sequence of code points. */
module JsonRepair {
  import opened Wrappers
  import opened JsonTokens

  /** A Python character: any Unicode code point, surrogates included. */
  type CodePoint = n: nat | n < 0x11_0000

  /** Decoded text. */
  type Text = seq<CodePoint>

  const NEWLINE: Text := [10]

  datatype Codec = Codec(decode: string -> Option<Text>, encode: Text -> string)

  /** No high surrogate stands right before a low one: such a pair would come
      back from json.dumps and json.loads as a single character. */
  ghost predicate Unpaired(x: Text) {
    forall i | 0 <= i < |x| - 1 :: !(0xD800 <= x[i] < 0xDC00 && 0xDC00 <= x[i + 1] < 0xE000)
  }

  /** What the proofs use of json.loads and json.dumps on strings. */
  ghost predicate Sound(c: Codec) {
    && (forall x :: IsString(c.encode(x)))
    && (forall x :: Unpaired(x) ==> c.decode(c.encode(x)) == Some(x))
    && (forall t :: c.decode(t).Some? ==> Unpaired(c.decode(t).value))
  }

  // ----------------------------------------------------------- specification

  /** A comma and a string that is not a key come next. */
  predicate BareNext(ts: seq<string>) {
    |ts| >= 2 && ts[0] == "," && Quoted(ts[1]) && !(|ts| >= 3 && ts[2] == ":")
  }

  predicate PairNext(ts: seq<string>) {
    |ts| >= 3 && Quoted(ts[0]) && ts[1] == ":" && Quoted(ts[2])
  }

  function Join(x: Text, y: Text): Text {
    x + NEWLINE + y
  }

  /** The inner loop: the merged value and the tokens left, or None where
      json.loads raises. */
  function MergeRun(c: Codec, value: Text, ts: seq<string>): (r: Option<(Text, seq<string>)>)
    ensures r.Some? ==> |r.value.1| <= |ts| && !BareNext(r.value.1)
    decreases |ts|
  {
    if !BareNext(ts) then Some((value, ts))
    else match c.decode(ts[1])
      case None => None
      case Some(bare) => MergeRun(c, Join(value, bare), ts[2..])
  }

  function Prepend(xs: seq<string>, o: Option<seq<string>>): Option<seq<string>> {
    match o
    case None => None
    case Some(ys) => Some(xs + ys)
  }

  /** The outer loop. */
  function Repair(c: Codec, ts: seq<string>): Option<seq<string>>
    decreases |ts|
  {
    if ts == [] then Some([])
    else if PairNext(ts) then
      match c.decode(ts[2])
      case None => None
      case Some(value) =>
        match MergeRun(c, value, ts[3..])
        case None => None
        case Some((merged, rest)) => Prepend([ts[0], ":", c.encode(merged)], Repair(c, rest))
    else Prepend([ts[0]], Repair(c, ts[1..]))
  }

  function RepairText(c: Codec, text: string): Option<string> {
    match Repair(c, Tokenize(text))
    case None => None
    case Some(out) => Some(Concat(out))
  }

  // ---------------------------------------------------------- implementation

  lemma PrependNothing(o: Option<seq<string>>)
    ensures Prepend([], o) == o
  {
    if o.Some? {
      assert [] + o.value == o.value;
    }
  }

  lemma PrependTwice(xs: seq<string>, ys: seq<string>, o: Option<seq<string>>)
    ensures Prepend(xs, Prepend(ys, o)) == Prepend(xs + ys, o)
  {
    if o.Some? {
      assert xs + (ys + o.value) == xs + ys + o.value;
    }
  }

  /** The function as written: two nested loops over token indices. None is the
      JSONDecodeError of a string json.loads refuses. */
  method RepairTrailingBareStrings(c: Codec, jsonText: string) returns (r: Option<string>)
    ensures r == RepairText(c, jsonText)
  {
    var tokens := Tokenize(jsonText);
    var out: seq<string> := [];
    var i, n := 0, |tokens|;
    assert tokens[0..] == tokens;
    PrependNothing(Repair(c, tokens));
    while i < n
      invariant 0 <= i <= n == |tokens|
      invariant Repair(c, tokens) == Prepend(out, Repair(c, tokens[i..]))
      decreases n - i
    {
      ghost var before := out;
      var tok := tokens[i];
      out := out + [tok];
      if Quoted(tok) && i + 2 < n && tokens[i + 1] == ":" && Quoted(tokens[i + 2]) {
        assert PairNext(tokens[i..]);
        out := out + [tokens[i + 1]];
        var decoded := c.decode(tokens[i + 2]);
        if decoded.None? {
          return None;
        }
        var mergedValue := decoded.value;
        var j := i + 3;
        assert tokens[i..][3..] == tokens[j..];
        while j + 1 < n && tokens[j] == "," && Quoted(tokens[j + 1]) && !(j + 2 < n && tokens[j + 2] == ":")
          invariant i + 3 <= j <= n
          invariant MergeRun(c, decoded.value, tokens[i + 3..]) == MergeRun(c, mergedValue, tokens[j..])
          decreases n - j
        {
          assert BareNext(tokens[j..]);
          var bare := c.decode(tokens[j + 1]);
          if bare.None? {
            return None;
          }
          mergedValue := mergedValue + NEWLINE + bare.value;
          assert tokens[j..][2..] == tokens[j + 2..];
          j := j + 2;
        }
        assert !BareNext(tokens[j..]);
        out := out + [c.encode(mergedValue)];
        PrependTwice(before, [tok, ":", c.encode(mergedValue)], Repair(c, tokens[j..]));
        assert out == before + [tok, ":", c.encode(mergedValue)];
        i := j;
        continue;
      }
      assert !PairNext(tokens[i..]);
      assert tokens[i..][1..] == tokens[i + 1..];
      PrependTwice(before, [tok], Repair(c, tokens[i + 1..]));
      i := i + 1;
    }
    assert tokens[n..] == [] && out + [] == out;
    return Some(Concat(out));
  }

  // ------------------------------------------------------- text, line by line

  /** A string token's text, or its spelling where json.loads refuses it. */
  function Content(c: Codec, t: string): Text {
    match c.decode(t)
    case Some(x) => x
    case None => seq(|t|, i requires 0 <= i < |t| => t[i] as int as CodePoint)
  }

  /** Lines one under another. */
  function Lines(xs: seq<Text>): Text {
    if xs == [] then []
    else if |xs| == 1 then xs[0]
    else Join(xs[0], Lines(xs[1..]))
  }

  lemma JoinAssociates(x: Text, y: Text, z: Text)
    ensures Join(Join(x, y), z) == Join(x, Join(y, z))
  {
  }

  /** Joining the first two lines leaves the text of all of them the same. */
  lemma LinesMerge(x: Text, y: Text, rest: seq<Text>)
    ensures Lines([Join(x, y)] + rest) == Lines([x, y] + rest)
  {
    assert ([x, y] + rest)[1..] == [y] + rest;
    assert ([Join(x, y)] + rest)[1..] == rest && ([y] + rest)[1..] == rest;
    if rest != [] {
      JoinAssociates(x, y, Lines(rest));
    }
  }

  lemma {:induction false} MergeRunUnpaired(c: Codec, value: Text, ts: seq<string>)
    requires Sound(c) && Unpaired(value) && MergeRun(c, value, ts).Some?
    ensures Unpaired(MergeRun(c, value, ts).value.0)
    decreases |ts|
  {
    if BareNext(ts) {
      var bare := c.decode(ts[1]).value;
      assert Unpaired(bare);
      JoinUnpaired(value, bare);
      MergeRunUnpaired(c, Join(value, bare), ts[2..]);
    }
  }

  lemma JoinUnpaired(x: Text, y: Text)
    requires Unpaired(x) && Unpaired(y)
    ensures Unpaired(Join(x, y))
  {
    var z := Join(x, y);
    forall i | 0 <= i < |z| - 1
      ensures !(0xD800 <= z[i] < 0xDC00 && 0xDC00 <= z[i + 1] < 0xE000)
    {
      if i + 1 < |x| {
        assert z[i] == x[i] && z[i + 1] == x[i + 1];
      } else if i > |x| {
        assert z[i] == y[i - |x| - 1] && z[i + 1] == y[i - |x|];
      }
    }
  }

  // ---------------------------------------------------------- idempotence

  /** The output starts like the input. */
  lemma {:induction false} HeadKept(c: Codec, ts: seq<string>)
    requires Sound(c) && Repair(c, ts).Some?
    ensures var out := Repair(c, ts).value;
            (ts == [] <==> out == []) &&
            (ts != [] ==> out[0] == ts[0]) &&
            (|ts| >= 2 && !PairNext(ts) ==> |out| >= 2 && out[1] == ts[1]) &&
            (|ts| == 1 ==> |out| == 1)
    decreases |ts|
  {
    if ts != [] && !PairNext(ts) {
      HeadKept(c, ts[1..]);
    }
  }

  /** A list with no bare string to merge next is not given one. */
  lemma NothingBareAppears(c: Codec, ts: seq<string>)
    requires Sound(c) && Repair(c, ts).Some? && !BareNext(ts)
    ensures !BareNext(Repair(c, ts).value)
  {
    HeadKept(c, ts);
    if ts != [] && ts[0] == "," {
      assert Repair(c, ts) == Prepend([ts[0]], Repair(c, ts[1..]));
      HeadKept(c, ts[1..]);
      if |ts| >= 3 && ts[2] == ":" && !PairNext(ts[1..]) {
        assert ts[1..][1] == ts[2];
      }
    }
  }

  lemma NoPairAppears(c: Codec, ts: seq<string>)
    requires Sound(c) && Repair(c, ts).Some? && ts != [] && !PairNext(ts)
    ensures !PairNext(Repair(c, ts).value)
  {
    HeadKept(c, ts);
    HeadKept(c, ts[1..]);
    if |ts| >= 2 && ts[1] == ":" {
      assert Repair(c, ts[1..]) == Prepend([":"], Repair(c, ts[1..][1..]));
      HeadKept(c, ts[1..][1..]);
    }
  }

  lemma NoRunLeft(c: Codec, value: Text, ts: seq<string>)
    ensures !BareNext(ts) ==> MergeRun(c, value, ts) == Some((value, ts))
  {
  }

  /** A token that starts no pair goes through alone. */
  lemma RepairSkips(c: Codec, t: string, rest: seq<string>)
    requires !PairNext([t] + rest)
    ensures Repair(c, [t] + rest) == Prepend([t], Repair(c, rest))
  {
    assert ([t] + rest)[1..] == rest;
  }

  /** A second pass changes no token. */
  lemma {:induction false} RepairIdempotent(c: Codec, ts: seq<string>)
    requires Sound(c) && Repair(c, ts).Some?
    ensures Repair(c, Repair(c, ts).value) == Repair(c, ts)
    decreases |ts|
  {
    if ts != [] {
      var out := Repair(c, ts).value;
      if PairNext(ts) {
        var value := c.decode(ts[2]).value;
        var (merged, rest) := MergeRun(c, value, ts[3..]).value;
        var tail := Repair(c, rest).value;
        RepairIdempotent(c, rest);
        NothingBareAppears(c, rest);
        MergeRunUnpaired(c, value, ts[3..]);
        assert out[3..] == tail && IsString(out[2]);
        NoRunLeft(c, merged, tail);
      } else {
        NoPairAppears(c, ts);
        RepairIdempotent(c, ts[1..]);
        assert out[1..] == Repair(c, ts[1..]).value;
      }
    }
  }

  lemma {:induction false} RepairGivesTokens(c: Codec, ts: seq<string>)
    requires Sound(c) && AllTokens(ts) && Repair(c, ts).Some?
    ensures AllTokens(Repair(c, ts).value)
    decreases |ts|
  {
    if ts != [] {
      if PairNext(ts) {
        var (merged, rest) := MergeRun(c, c.decode(ts[2]).value, ts[3..]).value;
        MergeRunSuffix(c, c.decode(ts[2]).value, ts[3..]);
        RepairGivesTokens(c, rest);
        assert IsMark(":") && IsToken(ts[0]) && IsString(c.encode(merged));
      } else {
        RepairGivesTokens(c, ts[1..]);
      }
    }
  }

  lemma {:induction false} MergeRunSuffix(c: Codec, value: Text, ts: seq<string>)
    requires MergeRun(c, value, ts).Some?
    ensures forall t | t in MergeRun(c, value, ts).value.1 :: t in ts
    decreases |ts|
  {
    if BareNext(ts) {
      MergeRunSuffix(c, Join(value, c.decode(ts[1]).value), ts[2..]);
    }
  }

  /** Idempotence on texts: wherever decoding does not raise, a second pass
      returns its input unchanged. */
  lemma RepairTextIdempotent(c: Codec, text: string)
    requires Sound(c) && RepairText(c, text).Some?
    ensures RepairText(c, RepairText(c, text).value) == RepairText(c, text)
  {
    var ts := Tokenize(text);
    var out := Repair(c, ts).value;
    TokenizeGivesTokens(text);
    RepairGivesTokens(c, ts);
    TokenizeConcat(out);
    RepairIdempotent(c, ts);
  }
}
