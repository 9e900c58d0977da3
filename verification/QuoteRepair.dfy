/** repair_unescaped_quotes: while the parser stops at a missing delimiter,
    escape the nearest quote before that point. The parser is an oracle. */
module QuoteRepair {
  import opened Wrappers

  /** json.loads(text, strict=False), up to what the loop looks at. */
  datatype Verdict = Parsed | MissingDelimiter(pos: nat) | OtherError

  datatype Failure = DecodeError | OutOfAttempts

  const WINDOW := 5

  function Start(pos: nat): nat {
    if pos >= WINDOW then pos - WINDOW else 0
  }

  function End(text: string, pos: nat): nat {
    if pos <= |text| then pos else |text|
  }

  /** A quote the loop would pick: inside the window, and with no backslash
      before it, unless it stands on the window's edge, where the code does
      not look back. */
  predicate Candidate(text: string, pos: nat, q: nat) {
    && Start(pos) <= q < End(text, pos)
    && text[q] == '"'
    && (q == Start(pos) || text[q - 1] != '\\')
  }

  function Escaped(text: string, q: nat): string
    requires q < |text|
  {
    text[..q] + "\\\"" + text[q + 1..]
  }

  /** out is text with k backslashes put in, each right before a quote. */
  ghost predicate Backslashed(text: string, out: string, k: nat)
    decreases k
  {
    if k == 0 then out == text
    else exists q: nat :: q < |text| && text[q] == '"' && Backslashed(Escaped(text, q), out, k - 1)
  }

  /** The text without its backslashes. */
  function Bare(s: string): string {
    if s == "" then "" else (if s[0] == '\\' then "" else [s[0]]) + Bare(s[1..])
  }

  lemma {:induction false} BareSplits(a: string, b: string)
    ensures Bare(a + b) == Bare(a) + Bare(b)
    decreases a
  {
    if a == "" {
      assert a + b == b;
    } else {
      assert (a + b)[1..] == a[1..] + b;
      BareSplits(a[1..], b);
    }
  }

  lemma EscapeAddsBackslash(text: string, q: nat)
    requires q < |text| && text[q] == '"'
    ensures Bare(Escaped(text, q)) == Bare(text) && |Escaped(text, q)| == |text| + 1
  {
    var front, back := text[..q], text[q + 1..];
    assert text == front + ("\"" + back);
    assert Escaped(text, q) == front + ("\\" + ("\"" + back));
    BareSplits(front, "\"" + back);
    BareSplits(front, "\\" + ("\"" + back));
    assert ("\\" + ("\"" + back))[1..] == "\"" + back;
  }

  /** Whatever is put in, taking the backslashes out again gives the original
      without its own: no other character is added, lost or moved. */
  lemma {:induction false} OnlyBackslashesAdded(text: string, out: string, k: nat)
    requires Backslashed(text, out, k)
    ensures Bare(out) == Bare(text) && |out| == |text| + k
    decreases k
  {
    if k > 0 {
      var q: nat :| q < |text| && text[q] == '"' && Backslashed(Escaped(text, q), out, k - 1);
      EscapeAddsBackslash(text, q);
      OnlyBackslashesAdded(Escaped(text, q), out, k - 1);
    }
  }

  lemma {:induction false} OneMoreBackslash(text: string, mid: string, k: nat, q: nat)
    requires Backslashed(text, mid, k) && q < |mid| && mid[q] == '"'
    ensures Backslashed(text, Escaped(mid, q), k + 1)
    decreases k
  {
    if k == 0 {
      assert Backslashed(Escaped(text, q), Escaped(mid, q), 0);
    } else {
      var p: nat :| p < |text| && text[p] == '"' && Backslashed(Escaped(text, p), mid, k - 1);
      OneMoreBackslash(Escaped(text, p), mid, k - 1, q);
    }
  }

  /** The scan back from the error position: the last candidate, if any. */
  method FindQuote(text: string, pos: nat) returns (q: Option<nat>)
    ensures q.Some? ==> Candidate(text, pos, q.value) && forall i | q.value < i :: !Candidate(text, pos, i)
    ensures q.None? ==> forall i :: !Candidate(text, pos, i)
  {
    var start, end := Start(pos), End(text, pos);
    if end <= start {
      return None;
    }
    var i := end - start;
    while i > 0
      invariant 0 <= i <= end - start
      invariant forall p | start + i <= p :: !Candidate(text, pos, p)
    {
      i := i - 1;
      if text[start + i] == '"' && (i == 0 || text[start + i - 1] != '\\') {
        return Some(start + i);
      }
    }
    return None;
  }

  // ------------------------------------------------------- the loop's texts

  /** The quote the loop picks: the last candidate. */
  predicate Picked(text: string, pos: nat, q: nat) {
    Candidate(text, pos, q) && forall i | q < i < |text| :: !Candidate(text, pos, i)
  }

  /** One round: the parser stops at a missing delimiter, and the picked quote
      is escaped. None where the loop ends instead. */
  ghost function Escape(parse: string -> Verdict, text: string): Option<string> {
    match parse(text)
    case MissingDelimiter(pos) =>
      if q: nat :| Picked(text, pos, q) then Some(Escaped(text, q)) else None
    case _ => None
  }

  /** The text after k rounds, if there are that many. */
  ghost function TextAfter(parse: string -> Verdict, input: string, k: nat): Option<string> {
    if k == 0 then Some(input)
    else match TextAfter(parse, input, k - 1)
      case None => None
      case Some(t) => Escape(parse, t)
  }

  /** The loop raises the parser's own error on this text. */
  ghost predicate Untreatable(parse: string -> Verdict, text: string) {
    parse(text).OtherError? || (parse(text).MissingDelimiter? && forall q :: !Candidate(text, parse(text).pos, q))
  }

  /** The loop can end on only one of its texts. */
  lemma {:induction false} NothingAfterEnd(parse: string -> Verdict, input: string, k: nat, j: nat)
    requires TextAfter(parse, input, k).Some? && Escape(parse, TextAfter(parse, input, k).value).None? && k < j
    ensures TextAfter(parse, input, j).None?
    decreases j
  {
    if j > k + 1 {
      NothingAfterEnd(parse, input, k, j - 1);
    }
  }

  /** Every text of the loop is the input with one more backslash per round. */
  lemma {:induction false} RoundsAddBackslashes(parse: string -> Verdict, input: string, k: nat)
    requires TextAfter(parse, input, k).Some?
    ensures Backslashed(input, TextAfter(parse, input, k).value, k)
    decreases k
  {
    if k > 0 {
      var before := TextAfter(parse, input, k - 1).value;
      RoundsAddBackslashes(parse, input, k - 1);
      var q: nat :| Picked(before, parse(before).pos, q) && TextAfter(parse, input, k) == Some(Escaped(before, q));
      OneMoreBackslash(input, before, k - 1, q);
    }
  }

  /** Some text of the first n rounds. */
  ghost predicate Reached(parse: string -> Verdict, input: string, n: nat, t: string) {
    exists k: nat :: k < n && TextAfter(parse, input, k) == Some(t)
  }

  /** Among the loop's texts at most one ends it, and none does if a further
      round exists. */
  lemma OneEnd(parse: string -> Verdict, input: string, n: nat, k: nat)
    requires k < n && TextAfter(parse, input, k).Some? && Escape(parse, TextAfter(parse, input, k).value).None?
    ensures TextAfter(parse, input, n).None?
    ensures forall t | Reached(parse, input, n, t) && Escape(parse, t).None? :: t == TextAfter(parse, input, k).value
  {
    NothingAfterEnd(parse, input, k, n);
    forall t | Reached(parse, input, n, t) && Escape(parse, t).None?
      ensures t == TextAfter(parse, input, k).value
    {
      var j: nat :| j < n && TextAfter(parse, input, j) == Some(t);
      if j < k {
        NothingAfterEnd(parse, input, j, k);
      } else if k < j {
        NothingAfterEnd(parse, input, k, j);
      }
    }
  }

  /** Where the loop ends, which of the three ways it ends is settled. */
  lemma EndsHere(parse: string -> Verdict, input: string, n: nat, k: nat, text: string)
    requires k < n && TextAfter(parse, input, k) == Some(text) && (parse(text).Parsed? || Untreatable(parse, text))
    ensures TextAfter(parse, input, n).None? && Reached(parse, input, n, text)
    ensures forall t | Reached(parse, input, n, t) && (parse(t).Parsed? || Untreatable(parse, t)) :: t == text
  {
    OneEnd(parse, input, n, k);
  }

  lemma NoEndBefore(parse: string -> Verdict, input: string, n: nat)
    requires TextAfter(parse, input, n).Some?
    ensures forall t | Reached(parse, input, n, t) :: Escape(parse, t).Some?
  {
    forall t | Reached(parse, input, n, t)
      ensures Escape(parse, t).Some?
    {
      var j: nat :| j < n && TextAfter(parse, input, j) == Some(t);
      if Escape(parse, t).None? {
        NothingAfterEnd(parse, input, j, n);
      }
    }
  }

  /** Returns a text exactly when it is the one of the loop's first
      maxAttempts texts that the parser accepts, re-raises exactly when one of
      them is untreatable, and gives up exactly when all of them could be
      treated. */
  method RepairUnescapedQuotes(parse: string -> Verdict, input: string, maxAttempts: nat)
    returns (r: Result<string, Failure>)
    ensures forall t :: r == Ok(t) <==> Reached(parse, input, maxAttempts, t) && parse(t).Parsed?
    ensures r.Ok? ==> exists k: nat :: k < maxAttempts && Backslashed(input, r.value, k)
    ensures r == Err(DecodeError) <==> exists t :: Reached(parse, input, maxAttempts, t) && Untreatable(parse, t)
    ensures r == Err(OutOfAttempts) <==> TextAfter(parse, input, maxAttempts).Some?
  {
    var text := input;
    for k := 0 to maxAttempts
      invariant TextAfter(parse, input, k) == Some(text)
    {
      match parse(text) {
        case Parsed =>
          RoundsAddBackslashes(parse, input, k);
          EndsHere(parse, input, maxAttempts, k, text);
          return Ok(text);
        case OtherError =>
          assert Untreatable(parse, text);
          EndsHere(parse, input, maxAttempts, k, text);
          return Err(DecodeError);
        case MissingDelimiter(pos) =>
          var q := FindQuote(text, pos);
          if q.None? {
            assert Untreatable(parse, text);
            EndsHere(parse, input, maxAttempts, k, text);
            return Err(DecodeError);
          }
          assert Picked(text, pos, q.value);
          text := Escaped(text, q.value);
      }
    }
    NoEndBefore(parse, input, maxAttempts);
    return Err(OutOfAttempts);
  }

  /** Which quotes the loop may pick: at most five characters before the error
      position, and with no backslash before them, except that the first
      character looked at is taken without looking further back. */
  lemma CandidateExact(text: string, pos: nat, q: nat)
    ensures Candidate(text, pos, q) <==>
            q < |text| && text[q] == '"' && 1 <= pos - q <= 5 &&
            (q == 0 || pos - q == 5 || text[q - 1] != '\\')
  {
  }

  /** The edge case: with a backslash just outside the window, an escaped quote
      is taken for a stray one. */
  lemma EdgeQuoteTaken(text: string, pos: nat)
    requires 6 <= pos <= |text| && text[pos - 5] == '"' && text[pos - 6] == '\\'
    requires forall i | pos - 5 < i < pos :: text[i] != '"'
    ensures Picked(text, pos, pos - 5)
  {
  }
}
