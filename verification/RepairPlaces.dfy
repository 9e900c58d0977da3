/** Where each token of a repaired document comes from, and which bare strings
    a repair leaves behind. */
module RepairPlaces {
  import opened Wrappers
  import opened JsonTokens
  import opened JsonRepair

  // ------------------------------------------- what becomes of each token

  /** How many pairs deep in a chain k : a : b : ... the token at p stands. */
  function Depth(ts: seq<string>, p: nat): nat
    requires p <= |ts|
  {
    if p >= 2 && ts[p - 1] == ":" && Quoted(ts[p - 2]) then 1 + Depth(ts, p - 2) else 0
  }

  /** A pair's value: in a chain, every second string. */
  predicate IsValue(ts: seq<string>, p: nat)
    requires p < |ts|
  {
    Quoted(ts[p]) && Depth(ts, p) % 2 == 1
  }

  /** The tokens from p up to q are a string that loads and bare strings that
      load, a comma before each. */
  ghost predicate StringRun(c: Codec, ts: seq<string>, p: nat, q: nat)
    decreases q - p
  {
    && p < q <= |ts| && c.decode(ts[p]).Some?
    && (q == p + 1 || (BareNext(ts[p + 1..]) && StringRun(c, ts, p + 2, q)))
  }

  /** The texts of such a run's strings. */
  function RunTexts(c: Codec, ts: seq<string>, p: nat, q: nat): seq<Text>
    requires q <= |ts|
    decreases q - p
  {
    if p >= q then [] else [Content(c, ts[p])] + RunTexts(c, ts, p + 2, q)
  }

  /** An output token t and what it stands for, the input tokens from p up to
      q: a value with the longest run of bare strings after it, one under
      another; or one token as it was. */
  ghost predicate StandsFor(c: Codec, ts: seq<string>, t: string, p: nat, q: nat) {
    && p < q <= |ts|
    && if IsValue(ts, p) then
         var lines := Lines(RunTexts(c, ts, p, q));
         StringRun(c, ts, p, q) && !BareNext(ts[q..]) && t == c.encode(lines) && c.decode(t) == Some(lines)
       else
         q == p + 1 && t == ts[p]
  }

  /** Where the tokens of output token i end. */
  function EndOf(ts: seq<string>, from: seq<nat>, i: nat): nat {
    if i + 1 < |from| then from[i + 1] else |ts|
  }

  /** The output tokens stand, in order, for all input tokens from `start` on;
      from[i] is where those of output token i begin. */
  ghost predicate Follows(c: Codec, ts: seq<string>, start: nat, out: seq<string>, from: seq<nat>) {
    && |from| == |out|
    && start == (if from == [] then |ts| else from[0])
    && forall i {:trigger StandsFor(c, ts, out[i], from[i], EndOf(ts, from, i))} | 0 <= i < |out| ::
         StandsFor(c, ts, out[i], from[i], EndOf(ts, from, i))
  }

  predicate EvenIfString(ts: seq<string>, i: nat) {
    i < |ts| && Quoted(ts[i]) ==> Depth(ts, i) % 2 == 0
  }

  /** The outer loop stands only at strings of even depth. */
  predicate Standing(ts: seq<string>, i: nat) {
    EvenIfString(ts, i) && EvenIfString(ts, i + 1)
  }

  lemma LinesMoveOn(c: Codec, value: Text, bare: Text, ts: seq<string>, p: nat, q: nat)
    requires p + 2 < q <= |ts| && c.decode(ts[p + 2]) == Some(bare)
    ensures Lines([Join(value, bare)] + RunTexts(c, ts, p + 4, q)) == Lines([value] + RunTexts(c, ts, p + 2, q))
  {
    assert RunTexts(c, ts, p + 2, q) == [bare] + RunTexts(c, ts, p + 4, q);
    LinesMove(value, bare, RunTexts(c, ts, p + 4, q));
  }

  lemma LinesMove(value: Text, bare: Text, rest: seq<Text>)
    ensures Lines([Join(value, bare)] + rest) == Lines([value] + ([bare] + rest))
  {
    LinesMerge(value, bare, rest);
    assert [value] + ([bare] + rest) == [value, bare] + rest;
  }

  /** The inner loop, by position: it ends where the longest run ends. */
  lemma {:induction false} MergeRunAt(c: Codec, value: Text, ts: seq<string>, p: nat) returns (q: nat)
    requires p < |ts| && c.decode(ts[p]).Some? && MergeRun(c, value, ts[p + 1..]).Some?
    ensures StringRun(c, ts, p, q) && !BareNext(ts[q..]) && Quoted(ts[q - 1]) == (q > p + 1 || Quoted(ts[p]))
    ensures q > p + 1 && q < |ts| ==> ts[q] != ":"
    ensures MergeRun(c, value, ts[p + 1..]) == Some((Lines([value] + RunTexts(c, ts, p + 2, q)), ts[q..]))
    decreases |ts| - p
  {
    var run := ts[p + 1..];
    if BareNext(run) {
      var bare := c.decode(run[1]).value;
      assert run[1] == ts[p + 2] && run[2..] == ts[p + 3..];
      q := MergeRunAt(c, Join(value, bare), ts, p + 2);
      LinesMoveOn(c, value, bare, ts, p, q);
      assert q == p + 3 && q < |ts| ==> ts[q] == run[2];
    } else {
      q := p + 1;
      assert [value] + [] == [value];
    }
  }

  lemma FollowsPrepend(c: Codec, ts: seq<string>, t: string, p: nat, q: nat, out: seq<string>, from: seq<nat>)
    requires StandsFor(c, ts, t, p, q) && Follows(c, ts, q, out, from)
    ensures Follows(c, ts, p, [t] + out, [p] + from)
  {
    var out', from' := [t] + out, [p] + from;
    forall i | 0 <= i < |out'|
      ensures StandsFor(c, ts, out'[i], from'[i], EndOf(ts, from', i))
    {
      if i > 0 {
        assert StandsFor(c, ts, out[i - 1], from[i - 1], EndOf(ts, from, i - 1));
      }
    }
  }

  /** A pair the outer loop stands at, with the run its value takes in. */
  lemma PairStands(c: Codec, ts: seq<string>, i: nat) returns (q: nat)
    requires Sound(c) && i <= |ts| && Standing(ts, i) && PairNext(ts[i..]) && Repair(c, ts[i..]).Some?
    ensures i + 3 <= q <= |ts| && Standing(ts, q) && ts[i + 1] == ":"
    ensures var value := c.encode(Lines(RunTexts(c, ts, i + 2, q)));
            Repair(c, ts[i..]) == Prepend([ts[i], ":", value], Repair(c, ts[q..])) &&
            StandsFor(c, ts, value, i + 2, q)
  {
    var rest := ts[i..];
    var text := c.decode(rest[2]).value;
    assert rest[2] == ts[i + 2] && rest[3..] == ts[i + 3..];
    q := MergeRunAt(c, text, ts, i + 2);
    assert RunTexts(c, ts, i + 2, q) == [text] + RunTexts(c, ts, i + 4, q);
    MergeRunUnpaired(c, text, ts[i + 3..]);
    assert Depth(ts, i + 2) == 1 + Depth(ts, i);
    assert q < |ts| ==> Depth(ts, q) == 0;
    assert q + 1 < |ts| && ts[q] == ":" ==> q == i + 3 && Depth(ts, q + 1) == 1 + Depth(ts, i + 2);
  }

  lemma OneByOne<T>(x: T, y: T, z: T, tail: seq<T>)
    ensures [x, y, z] + tail == [x] + ([y] + ([z] + tail))
  {
  }

  lemma StandsAlone(c: Codec, ts: seq<string>, p: nat)
    ensures p < |ts| && !IsValue(ts, p) ==> StandsFor(c, ts, ts[p], p, p + 1)
  {
  }

  lemma PairFollows(c: Codec, ts: seq<string>, i: nat, value: string, q: nat, tail: seq<string>, from: seq<nat>)
    requires StandsFor(c, ts, value, i + 2, q) && Follows(c, ts, q, tail, from)
    requires EvenIfString(ts, i) && ts[i + 1] == ":"
    ensures Follows(c, ts, i, [ts[i], ":", value] + tail, [i, i + 1, i + 2] + from)
  {
    FollowsPrepend(c, ts, value, i + 2, q, tail, from);
    StandsAlone(c, ts, i + 1);
    FollowsPrepend(c, ts, ":", i + 1, i + 2, [value] + tail, [i + 2] + from);
    StandsAlone(c, ts, i);
    FollowsPrepend(c, ts, ts[i], i, i + 1, [":"] + ([value] + tail), [i + 1] + ([i + 2] + from));
    OneByOne(ts[i], ":", value, tail);
    OneByOne(i, i + 1, i + 2, from);
  }

  lemma StandsOn(ts: seq<string>, i: nat)
    requires i < |ts| && Standing(ts, i) && !PairNext(ts[i..])
    ensures Standing(ts, i + 1)
  {
    assert i + 2 < |ts| ==> ts[i..][1] == ts[i + 1] && ts[i..][2] == ts[i + 2];
  }

  lemma {:induction false} RepairFollows(c: Codec, ts: seq<string>, i: nat) returns (from: seq<nat>)
    requires Sound(c) && i <= |ts| && Standing(ts, i) && Repair(c, ts[i..]).Some?
    ensures Follows(c, ts, i, Repair(c, ts[i..]).value, from)
    decreases |ts| - i
  {
    if i == |ts| {
      from := [];
    } else if PairNext(ts[i..]) {
      var q := PairStands(c, ts, i);
      from := RepairFollows(c, ts, q);
      PairFollows(c, ts, i, c.encode(Lines(RunTexts(c, ts, i + 2, q))), q, Repair(c, ts[q..]).value, from);
      from := [i, i + 1, i + 2] + from;
    } else {
      assert ts[i..][1..] == ts[i + 1..];
      StandsOn(ts, i);
      from := RepairFollows(c, ts, i + 1);
      StandsAlone(c, ts, i);
      FollowsPrepend(c, ts, ts[i], i, i + 1, Repair(c, ts[i + 1..]).value, from);
      from := [i] + from;
    }
  }

  lemma {:induction false} RunEndsOnce(c: Codec, ts: seq<string>, p: nat, q: nat, q': nat)
    requires StringRun(c, ts, p, q) && !BareNext(ts[q..]) && StringRun(c, ts, p, q') && !BareNext(ts[q'..])
    ensures q == q'
    decreases q - p
  {
    if q > p + 1 && q' > p + 1 {
      RunEndsOnce(c, ts, p + 2, q, q');
    }
  }

  lemma SameStand(c: Codec, ts: seq<string>, t: string, t': string, p: nat, q: nat, q': nat)
    requires StandsFor(c, ts, t, p, q) && StandsFor(c, ts, t', p, q')
    ensures t == t' && q == q'
  {
    if IsValue(ts, p) {
      RunEndsOnce(c, ts, p, q, q');
    }
  }

  /** No two outputs can stand for the same input. */
  lemma {:induction false} FollowsOnce(c: Codec, ts: seq<string>, start: nat, out: seq<string>, from: seq<nat>,
      out': seq<string>, from': seq<nat>)
    requires Follows(c, ts, start, out, from) && Follows(c, ts, start, out', from')
    ensures out == out' && from == from'
    decreases |out|
  {
    FollowsStart(c, ts, start, out, from);
    FollowsStart(c, ts, start, out', from');
    if out != [] {
      var q := EndOf(ts, from, 0);
      SameStand(c, ts, out[0], out'[0], start, q, EndOf(ts, from', 0));
      FollowsTail(c, ts, start, out, from);
      FollowsTail(c, ts, start, out', from');
      FollowsOnce(c, ts, q, out[1..], from[1..], out'[1..], from'[1..]);
      assert out == [out[0]] + out[1..] && out' == [out'[0]] + out'[1..];
      assert from == [from[0]] + from[1..] && from' == [from'[0]] + from'[1..];
    }
  }

  lemma FollowsStart(c: Codec, ts: seq<string>, start: nat, out: seq<string>, from: seq<nat>)
    requires Follows(c, ts, start, out, from)
    ensures out == [] <==> start >= |ts|
  {
    if out != [] {
      assert StandsFor(c, ts, out[0], from[0], EndOf(ts, from, 0));
    }
  }

  lemma FollowsTail(c: Codec, ts: seq<string>, start: nat, out: seq<string>, from: seq<nat>)
    requires Follows(c, ts, start, out, from) && out != []
    ensures Follows(c, ts, EndOf(ts, from, 0), out[1..], from[1..])
  {
    forall i | 0 <= i < |out[1..]|
      ensures StandsFor(c, ts, out[1..][i], from[1..][i], EndOf(ts, from[1..], i))
    {
      assert StandsFor(c, ts, out[i + 1], from[i + 1], EndOf(ts, from, i + 1));
    }
  }

  /** The inner loop gets through a run whose strings all load. */
  lemma {:induction false} RunMerges(c: Codec, value: Text, ts: seq<string>, p: nat, q: nat)
    requires StringRun(c, ts, p, q) && !BareNext(ts[q..]) && Quoted(ts[p])
    ensures MergeRun(c, value, ts[p + 1..]).Some? && MergeRun(c, value, ts[p + 1..]).value.1 == ts[q..]
    ensures Quoted(ts[q - 1])
    decreases q - p
  {
    if q > p + 1 {
      var run := ts[p + 1..];
      assert run[1] == ts[p + 2] && run[2..] == ts[p + 3..];
      RunMerges(c, Join(value, c.decode(run[1]).value), ts, p + 2, q);
    }
  }

  /** The loop stands after a run as it stood before the pair. */
  lemma StandsAfterRun(c: Codec, ts: seq<string>, i: nat, q: nat)
    requires i + 2 < |ts| && Quoted(ts[i]) && ts[i + 1] == ":" && Standing(ts, i)
    requires StringRun(c, ts, i + 2, q) && Quoted(ts[q - 1])
    ensures Standing(ts, q)
  {
    assert Depth(ts, i + 2) == 1 + Depth(ts, i);
    if q + 1 < |ts| && ts[q] == ":" {
      ColonEndsRun(c, ts, i + 2, q, q - 1);
      assert Depth(ts, q + 1) == 1 + Depth(ts, i + 2);
    }
  }

  /** A text that some output stands for does not raise. */
  lemma {:induction false} FollowsRepairs(c: Codec, ts: seq<string>, i: nat, out: seq<string>, from: seq<nat>)
    requires Sound(c) && i <= |ts| && Standing(ts, i) && Follows(c, ts, i, out, from)
    ensures Repair(c, ts[i..]).Some?
    decreases |out|
  {
    FollowsStart(c, ts, i, out, from);
    if i < |ts| {
      StandsAt(c, ts, i, out, from, 0);
      FollowsTail(c, ts, i, out, from);
      if PairNext(ts[i..]) {
        var q, text := PairReads(c, ts, i, out, from);
        FollowsRepairs(c, ts, q, out[3..], from[3..]);
      } else {
        assert ts[i..][1..] == ts[i + 1..];
        StandsOn(ts, i);
        FollowsRepairs(c, ts, i + 1, out[1..], from[1..]);
      }
    }
  }

  lemma PairReads(c: Codec, ts: seq<string>, i: nat, out: seq<string>, from: seq<nat>) returns (q: nat, text: Text)
    requires Sound(c) && i < |ts| && Standing(ts, i) && PairNext(ts[i..]) && Follows(c, ts, i, out, from)
    ensures i + 3 <= q <= |ts| && |out| >= 3 && Standing(ts, q) && Follows(c, ts, q, out[3..], from[3..])
    ensures c.decode(ts[i..][2]) == Some(text)
    ensures MergeRun(c, text, ts[i..][3..]).Some? && MergeRun(c, text, ts[i..][3..]).value.1 == ts[q..]
  {
    var rest := ts[i..];
    assert rest[0] == ts[i] && rest[1] == ts[i + 1] && rest[2] == ts[i + 2] && rest[3..] == ts[i + 3..];
    q := ThirdPlace(c, ts, i, out, from);
    text := c.decode(ts[i + 2]).value;
    RunMerges(c, text, ts, i + 2, q);
    StandsAfterRun(c, ts, i, q);
  }

  /** A pair's three tokens have three places. */
  lemma ThirdPlace(c: Codec, ts: seq<string>, i: nat, out: seq<string>, from: seq<nat>) returns (q: nat)
    requires Sound(c) && Follows(c, ts, i, out, from)
    requires i + 2 < |ts| && EvenIfString(ts, i) && Quoted(ts[i]) && ts[i + 1] == ":" && Quoted(ts[i + 2])
    ensures i + 3 <= q <= |ts| && |out| >= 3 && Follows(c, ts, q, out[3..], from[3..])
    ensures StringRun(c, ts, i + 2, q) && !BareNext(ts[q..])
  {
    FollowsStart(c, ts, i, out, from);
    KeptPlace(c, ts, i, out, from);
    KeptPlace(c, ts, i + 1, out[1..], from[1..]);
    assert out[1..][1..] == out[2..] && from[1..][1..] == from[2..];
    assert Depth(ts, i + 2) == 1 + Depth(ts, i);
    FollowsStart(c, ts, i + 2, out[2..], from[2..]);
    StandsAt(c, ts, i + 2, out[2..], from[2..], 0);
    FollowsTail(c, ts, i + 2, out[2..], from[2..]);
    q := EndOf(ts, from[2..], 0);
    assert out[2..][1..] == out[3..] && from[2..][1..] == from[3..];
  }

  lemma KeptPlace(c: Codec, ts: seq<string>, i: nat, out: seq<string>, from: seq<nat>)
    requires Sound(c) && Follows(c, ts, i, out, from) && i < |ts| && !IsValue(ts, i)
    ensures out != [] && Follows(c, ts, i + 1, out[1..], from[1..])
  {
    FollowsStart(c, ts, i, out, from);
    StandsAt(c, ts, i, out, from, 0);
    FollowsTail(c, ts, i, out, from);
  }

  /** Conservation, token by token: the repair returns an output exactly when
      that output stands, in order and without a gap, for the whole input. Each
      value's line then holds the longest run of bare strings after it, joined
      by newlines; every other token is as it was. No other output does, and
      where none does a string fails to load and the repair raises. */
  lemma RepairConserves(c: Codec, ts: seq<string>, out: seq<string>)
    requires Sound(c)
    ensures Repair(c, ts) == Some(out) <==> exists from :: Follows(c, ts, 0, out, from)
  {
    assert ts[0..] == ts;
    if from' :| Follows(c, ts, 0, out, from') {
      FollowsRepairs(c, ts, 0, out, from');
      var from := RepairFollows(c, ts, 0);
      FollowsOnce(c, ts, 0, Repair(c, ts).value, from, out, from');
    } else if Repair(c, ts).Some? {
      var from := RepairFollows(c, ts, 0);
    }
  }

  // ------------------------------------------------------------ normal form

  /** At p stands a pair, a comma, and a string that is not a key. */
  predicate BareAfterPair(ts: seq<string>, p: nat) {
    p <= |ts| && PairNext(ts[p..]) && BareNext(ts[p..][3..])
  }

  /** The key at p is itself the value of a pair before it. */
  predicate KeyIsValue(ts: seq<string>, p: nat) {
    2 <= p <= |ts| && ts[p - 1] == ":" && Quoted(ts[p - 2])
  }

  /** A pair read as a value by the loop, so never as a pair, with a bare
      string after it. */
  predicate OverlookedBare(ts: seq<string>, p: nat) {
    BareAfterPair(ts, p) && Depth(ts, p) % 2 == 1
  }

  lemma BareAfterPairAt(ts: seq<string>, p: nat)
    ensures BareAfterPair(ts, p) <==>
            p + 4 < |ts| && Quoted(ts[p]) && ts[p + 1] == ":" && Quoted(ts[p + 2]) &&
            ts[p + 3] == "," && Quoted(ts[p + 4]) && !(p + 5 < |ts| && ts[p + 5] == ":")
  {
    if p + 4 < |ts| {
      var rest := ts[p..];
      assert rest[0] == ts[p] && rest[1] == ts[p + 1] && rest[2] == ts[p + 2];
      assert rest[3..] == ts[p + 3..];
    }
  }

  /** An output token that is no value is the input token it stands for. */
  lemma StandsAt(c: Codec, ts: seq<string>, start: nat, out: seq<string>, from: seq<nat>, i: nat)
    requires Sound(c) && Follows(c, ts, start, out, from) && i < |out|
    ensures from[i] < EndOf(ts, from, i) <= |ts|
    ensures IsValue(ts, from[i]) ==>
              StringRun(c, ts, from[i], EndOf(ts, from, i)) && !BareNext(ts[EndOf(ts, from, i)..])
    ensures !IsValue(ts, from[i]) ==> EndOf(ts, from, i) == from[i] + 1 && out[i] == ts[from[i]]
    ensures i + 1 == |out| <==> EndOf(ts, from, i) == |ts|
    ensures Quoted(out[i]) == Quoted(ts[from[i]])
    ensures !Quoted(out[i]) ==> out[i] == ts[from[i]]
  {
    assert StandsFor(c, ts, out[i], from[i], EndOf(ts, from, i));
    if i + 1 < |out| {
      assert StandsFor(c, ts, out[i + 1], from[i + 1], EndOf(ts, from, i + 1));
    }
    assert IsValue(ts, from[i]) ==> IsString(out[i]);
  }

  /** A token before a colon ends its run, so the colon comes next in the
      output as well. */
  lemma {:induction false} ColonEndsRun(c: Codec, ts: seq<string>, p: nat, q: nat, k: nat)
    requires StringRun(c, ts, p, q) && p <= k < q && k + 1 < |ts| && ts[k + 1] == ":"
    ensures k == p && q == p + 1
    decreases q - p
  {
    if q > p + 1 {
      assert ts[p + 1..][0] == "," && Quoted(ts[p + 1..][1]);
      if k >= p + 2 {
        assert p + 3 < |ts| ==> ts[p + 1..][2] == ts[p + 3];
        ColonEndsRun(c, ts, p + 2, q, k);
      }
      assert false;
    }
  }

  /** Every token before a colon, and every colon, has its own place. */
  lemma {:induction false} PlaceOf(c: Codec, ts: seq<string>, start: nat, out: seq<string>, from: seq<nat>, p: nat)
      returns (i: nat)
    requires Follows(c, ts, start, out, from) && start <= p && p + 1 < |ts| && ts[p + 1] == ":"
    ensures i < |out| && from[i] == p && EndOf(ts, from, i) == p + 1
    decreases |out|
  {
    FollowsStart(c, ts, start, out, from);
    var q := EndOf(ts, from, 0);
    assert StandsFor(c, ts, out[0], start, q);
    if p < q {
      if IsValue(ts, start) {
        ColonEndsRun(c, ts, start, q, p);
      }
      i := 0;
    } else {
      FollowsTail(c, ts, start, out, from);
      var k := PlaceOf(c, ts, q, out[1..], from[1..], p);
      i := k + 1;
    }
  }

  lemma KeptAt(c: Codec, ts: seq<string>, out: seq<string>, from: seq<nat>, i: nat, p: nat)
    requires Sound(c) && Follows(c, ts, 0, out, from) && i < |out| && from[i] == p < |ts| && !IsValue(ts, p)
    ensures out[i] == ts[p] && (p + 1 < |ts| ==> i + 1 < |out| && from[i + 1] == p + 1)
    ensures p + 1 == |ts| ==> i + 1 == |out|
  {
    StandsAt(c, ts, 0, out, from, i);
  }

  /** What an overlooked pair is in the output. */
  lemma OverlookedStays(c: Codec, ts: seq<string>, out: seq<string>, from: seq<nat>, i: nat)
    requires Sound(c) && Follows(c, ts, 0, out, from) && i < |out| && OverlookedBare(ts, from[i])
    requires EndOf(ts, from, i) == from[i] + 1
    ensures BareAfterPair(out, i)
  {
    var p := from[i];
    BareAfterPairAt(ts, p);
    StandsAt(c, ts, 0, out, from, i);
    KeptAt(c, ts, out, from, i + 1, p + 1);
    assert Depth(ts, p + 2) == 1 + Depth(ts, p);
    KeptAt(c, ts, out, from, i + 2, p + 2);
    KeptAt(c, ts, out, from, i + 3, p + 3);
    assert Depth(ts, p + 4) == 0;
    KeptAt(c, ts, out, from, i + 4, p + 4);
    if p + 5 < |ts| {
      StandsAt(c, ts, 0, out, from, i + 5);
      assert Depth(ts, p + 5) == 0;
    }
    BareAfterPairAt(out, i);
  }

  /** A comma and a bare string in the output are one in the input. */
  lemma BareWasThere(c: Codec, ts: seq<string>, out: seq<string>, from: seq<nat>, i: nat)
    requires Sound(c) && Follows(c, ts, 0, out, from) && i + 1 < |out|
    requires out[i] == "," && Quoted(out[i + 1]) && !(i + 2 < |out| && out[i + 2] == ":")
    ensures from[i] < |ts| && BareNext(ts[from[i]..])
  {
    var r := from[i];
    StandsAt(c, ts, 0, out, from, i);
    StandsAt(c, ts, 0, out, from, i + 1);
    assert Depth(ts, r + 1) == 0;
    if i + 2 < |out| {
      StandsAt(c, ts, 0, out, from, i + 2);
      assert ts[r..][2] == ts[r + 2];
    }
    assert ts[r..][0] == ts[r] && ts[r..][1] == ts[r + 1];
  }

  /** A pair in the output is one in the input, in three places in a row. */
  lemma PairPlaces(c: Codec, ts: seq<string>, out: seq<string>, from: seq<nat>, i: nat)
    requires Sound(c) && Follows(c, ts, 0, out, from)
    requires i + 2 < |out| && Quoted(out[i]) && out[i + 1] == ":" && Quoted(out[i + 2])
    ensures var p := from[i];
            from[i + 1] == p + 1 && from[i + 2] == p + 2 < |ts| &&
            Quoted(ts[p]) && ts[p + 1] == ":" && Quoted(ts[p + 2])
  {
    var p := from[i];
    StandsAt(c, ts, 0, out, from, i);
    StandsAt(c, ts, 0, out, from, i + 1);
    if IsValue(ts, p) {
      ColonEndsRun(c, ts, p, from[i + 1], from[i + 1] - 1);
    }
    StandsAt(c, ts, 0, out, from, i + 2);
  }

  /** A bare string left after a pair was after an overlooked pair before. */
  lemma LeftWasOverlooked(c: Codec, ts: seq<string>, out: seq<string>, from: seq<nat>, i: nat)
    requires Sound(c) && Follows(c, ts, 0, out, from) && BareAfterPair(out, i)
    ensures i < |from| && OverlookedBare(ts, from[i]) && KeyIsValue(out, i)
  {
    BareAfterPairAt(out, i);
    var p := from[i];
    PairPlaces(c, ts, out, from, i);
    StandsAt(c, ts, 0, out, from, i + 2);
    assert Depth(ts, p + 2) == 1 + Depth(ts, p);
    BareWasThere(c, ts, out, from, i + 3);
    assert !IsValue(ts, p + 2);
    assert from[i + 3] == p + 3;
    BareNextAt(ts, p + 3);
    BareAfterPairAt(ts, p);
    ChainedKey(c, ts, out, from, i);
  }

  lemma BareNextAt(ts: seq<string>, r: nat)
    requires r <= |ts| && BareNext(ts[r..])
    ensures r + 1 < |ts| && ts[r] == "," && Quoted(ts[r + 1]) && !(r + 2 < |ts| && ts[r + 2] == ":")
  {
    assert ts[r..][0] == ts[r] && ts[r..][1] == ts[r + 1];
    assert r + 2 < |ts| ==> ts[r..][2] == ts[r + 2];
  }

  /** A key deep in a chain is the value of a pair in the output too. */
  lemma ChainedKey(c: Codec, ts: seq<string>, out: seq<string>, from: seq<nat>, i: nat)
    requires Sound(c) && Follows(c, ts, 0, out, from) && i < |out| && from[i] < |ts| && Depth(ts, from[i]) > 0
    ensures KeyIsValue(out, i)
  {
    var p := from[i];
    var k := PlaceOf(c, ts, 0, out, from, p - 2);
    StandsAt(c, ts, 0, out, from, k);
    StandsAt(c, ts, 0, out, from, k + 1);
    assert from[k + 1] == p - 1 && out[k + 1] == ":";
    assert EndOf(ts, from, k + 1) == p && from[k + 2] == p;
    PlacesRise(c, ts, 0, out, from, k + 2, i);
  }

  /** Places are in strict order, so one place is one token's. */
  lemma PlacesRise(c: Codec, ts: seq<string>, start: nat, out: seq<string>, from: seq<nat>, i: nat, j: nat)
    requires Follows(c, ts, start, out, from) && i < |out| && j < |out| && from[i] == from[j]
    ensures i == j
  {
    if i < j {
      PlacesGrow(c, ts, start, out, from, i, j);
    } else if j < i {
      PlacesGrow(c, ts, start, out, from, j, i);
    }
  }

  lemma {:induction false} PlacesGrow(c: Codec, ts: seq<string>, start: nat, out: seq<string>, from: seq<nat>,
      i: nat, j: nat)
    requires Follows(c, ts, start, out, from) && i < j < |out|
    ensures from[i] < from[j]
    decreases j - i
  {
    assert StandsFor(c, ts, out[i], from[i], EndOf(ts, from, i));
    if i + 1 < j {
      PlacesGrow(c, ts, start, out, from, i + 1, j);
    }
  }

  /** Normal form: the repair leaves a pair followed by a comma and a bare
      string exactly when the input has such a pair at odd depth, which the
      loop reads as a value; and what is left has a key that is itself a
      value. */
  lemma RepairNormalForm(c: Codec, ts: seq<string>)
    requires Sound(c) && Repair(c, ts).Some?
    ensures var out := Repair(c, ts).value;
            ((exists p :: BareAfterPair(out, p)) <==> (exists p :: OverlookedBare(ts, p))) &&
            (forall p | BareAfterPair(out, p) :: KeyIsValue(out, p))
  {
    assert ts[0..] == ts;
    var out := Repair(c, ts).value;
    var from := RepairFollows(c, ts, 0);
    forall p: nat | BareAfterPair(out, p)
      ensures p < |from| && KeyIsValue(out, p) && OverlookedBare(ts, from[p])
    {
      LeftWasOverlooked(c, ts, out, from, p);
    }
    if p :| OverlookedBare(ts, p) {
      BareAfterPairAt(ts, p);
      var i := PlaceOf(c, ts, 0, out, from, p);
      OverlookedStays(c, ts, out, from, i);
    }
  }

  /** That exception is real: in "k" : "b" : "d" , "e" the middle string is
      taken as the first pair's value, and "d" never gets its bare string. */
  lemma ChainKeepsBareString(c: Codec, k: string, b: string, d: string, e: string)
    requires Sound(c) && Quoted(k) && Quoted(b) && Quoted(d) && Quoted(e) && c.decode(b).Some?
    ensures var r := Repair(c, [k, ":", b, ":", d, ",", e]);
            r == Some([k, ":", c.encode(c.decode(b).value), ":", d, ",", e]) && BareAfterPair(r.value, 2)
  {
    var ts := [k, ":", b, ":", d, ",", e];
    var enc := c.encode(c.decode(b).value);
    var rest := [":", d, ",", e];
    assert ts[3..] == rest;
    NoRunLeft(c, c.decode(b).value, rest);
    ChainRest(c, d, e);
    var out := [k, ":", enc, ":", d, ",", e];
    assert [k, ":", enc] + rest == out;
    assert out[2..] == [enc, ":", d, ",", e] && out[2..][3..] == [",", e];
    assert IsString(enc);
  }

  lemma ChainRest(c: Codec, d: string, e: string)
    requires Quoted(d)
    ensures Repair(c, [":", d, ",", e]) == Some([":", d, ",", e])
  {
    assert [e] == [e] + [] && [",", e] == [","] + [e] && [d, ",", e] == [d] + [",", e];
    assert [":", d, ",", e] == [":"] + [d, ",", e];
    RepairSkips(c, e, []);
    RepairSkips(c, ",", [e]);
    RepairSkips(c, d, [",", e]);
    RepairSkips(c, ":", [d, ",", e]);
  }

  // ------------------------------------------------- the merged lines, apart

  /** Text cut at every line feed, code point 10. */
  function SplitLines(x: Text): (lines: seq<Text>)
    ensures lines != []
  {
    if x == [] then [[]]
    else
      var rest := SplitLines(x[1..]);
      if x[0] == 10 then [[]] + rest else [[x[0]] + rest[0]] + rest[1..]
  }

  type OneLine = x: Text | 10 !in x witness []

  lemma {:induction false} SplitOne(x: OneLine)
    ensures SplitLines(x) == [x]
    decreases x
  {
    if x != [] {
      SplitOne(x[1..]);
      assert [x[0]] + x[1..] == x;
    }
  }

  lemma {:induction false} SplitFirst(x: OneLine, rest: Text)
    ensures SplitLines(x + [10] + rest) == [x] + SplitLines(rest)
    decreases x
  {
    var all := x + [10] + rest;
    if x == [] {
      assert all[1..] == rest;
    } else {
      assert all[0] == x[0] && all[1..] == x[1..] + [10] + rest;
      SplitFirst(x[1..], rest);
      assert [x[0]] + x[1..] == x;
      assert ([x[1..]] + SplitLines(rest))[1..] == SplitLines(rest);
    }
  }

  /** Lines one under another come apart at the line feeds. */
  lemma {:induction false} LinesComeApart(xs: seq<Text>)
    requires xs != [] && forall x | x in xs :: 10 !in x
    ensures SplitLines(Lines(xs)) == xs
    decreases xs
  {
    assert xs[0] in xs && forall x | x in xs[1..] :: x in xs;
    if |xs| == 1 {
      SplitOne(xs[0]);
    } else {
      LinesComeApart(xs[1..]);
      SplitFirst(xs[0], Lines(xs[1..]));
      assert Lines(xs) == xs[0] + [10] + Lines(xs[1..]);
      assert [xs[0]] + xs[1..] == xs;
    }
  }

  /** The value and the bare strings after it can be read off the merged value
      again, if none of them held a line feed. */
  lemma MergedComeApart(c: Codec, ts: seq<string>, out: seq<string>, from: seq<nat>, i: nat)
    requires Sound(c) && Follows(c, ts, 0, out, from) && i < |out| && from[i] < |ts| && IsValue(ts, from[i])
    requires EndOf(ts, from, i) <= |ts|
    requires forall x | x in RunTexts(c, ts, from[i], EndOf(ts, from, i)) :: 10 !in x
    ensures c.decode(out[i]).Some?
    ensures SplitLines(c.decode(out[i]).value) == RunTexts(c, ts, from[i], EndOf(ts, from, i))
  {
    StandsAt(c, ts, 0, out, from, i);
    assert StandsFor(c, ts, out[i], from[i], EndOf(ts, from, i));
    LinesComeApart(RunTexts(c, ts, from[i], EndOf(ts, from, i)));
  }
}
