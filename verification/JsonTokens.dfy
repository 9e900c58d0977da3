/** The tokenizer of utils/clean_gen_response_from_image.py: re.findall with the
    pattern for a quoted string or one structural character. */
module JsonTokens {
  import opened Wrappers

  predicate IsPunct(c: char) {
    c == '{' || c == '}' || c == '[' || c == ']' || c == ',' || c == ':'
  }

  function Plus(n: nat, o: Option<nat>): Option<nat> {
    match o
    case None => None
    case Some(m) => Some(n + m)
  }

  /** After an opening quote: how many characters up to and including the
      closing one. A backslash takes any next character but a newline with it,
      as "." does not match one. */
  function CloseLength(s: string): (r: Option<nat>)
    ensures r.Some? ==> 1 <= r.value <= |s|
    decreases |s|
  {
    if s == "" then None
    else if s[0] == '"' then Some(1)
    else if s[0] == '\\' then
      if |s| >= 2 && s[1] != '\n' then Plus(2, CloseLength(s[2..])) else None
    else Plus(1, CloseLength(s[1..]))
  }

  /** A token that is a quoted string, whole. */
  predicate IsString(t: string) {
    t != "" && t[0] == '"' && CloseLength(t[1..]) == Some(|t| - 1)
  }

  predicate IsMark(t: string) {
    |t| == 1 && IsPunct(t[0])
  }

  predicate IsToken(t: string) {
    IsString(t) || IsMark(t)
  }

  /** is_str. */
  predicate Quoted(t: string) {
    t != "" && t[0] == '"'
  }

  /** findall: what no alternative matches is skipped, one character at a
      time, an unclosed quote included. */
  function Tokenize(s: string): seq<string>
    decreases |s|
  {
    if s == "" then []
    else if s[0] == '"' && CloseLength(s[1..]).Some? then
      var n := 1 + CloseLength(s[1..]).value;
      [s[..n]] + Tokenize(s[n..])
    else if IsPunct(s[0]) then [s[..1]] + Tokenize(s[1..])
    else Tokenize(s[1..])
  }

  function Concat(ts: seq<string>): string {
    if ts == [] then "" else ts[0] + Concat(ts[1..])
  }

  predicate AllTokens(ts: seq<string>) {
    forall t | t in ts :: IsToken(t)
  }

  /** Where a string closes does not depend on what follows it. */
  lemma {:induction false} CloseIsLocal(a: string, b: string)
    requires CloseLength(a) == Some(|a|)
    ensures CloseLength(a + b) == Some(|a|)
    decreases |a|
  {
    if a[0] != '"' {
      var n := if a[0] == '\\' then 2 else 1;
      assert (a + b)[n..] == a[n..] + b;
      CloseIsLocal(a[n..], b);
    }
  }

  lemma {:induction false} CloseCuts(s: string)
    requires CloseLength(s).Some?
    ensures var n := CloseLength(s).value; CloseLength(s[..n]) == Some(n)
    decreases |s|
  {
    var n := CloseLength(s).value;
    if s[0] != '"' {
      var k := if s[0] == '\\' then 2 else 1;
      CloseCuts(s[k..]);
      assert s[..n][k..] == s[k..][..n - k];
    }
  }

  lemma {:induction false} TokenizeGivesTokens(s: string)
    ensures AllTokens(Tokenize(s))
    decreases |s|
  {
    if s != "" {
      if s[0] == '"' && CloseLength(s[1..]).Some? {
        var n := 1 + CloseLength(s[1..]).value;
        CloseCuts(s[1..]);
        assert s[..n][1..] == s[1..][..n - 1];
        TokenizeGivesTokens(s[n..]);
      } else {
        TokenizeGivesTokens(s[1..]);
      }
    }
  }

  lemma TokenizeHead(t: string, rest: string)
    requires IsToken(t)
    ensures Tokenize(t + rest) == [t] + Tokenize(rest)
  {
    if IsString(t) {
      CloseIsLocal(t[1..], rest);
      assert (t + rest)[1..] == t[1..] + rest;
    }
    assert (t + rest)[..|t|] == t && (t + rest)[|t|..] == rest;
  }

  /** Round trip: tokenizing the concatenation of any token list returns it. */
  lemma {:induction false} TokenizeConcat(ts: seq<string>)
    requires AllTokens(ts)
    ensures Tokenize(Concat(ts)) == ts
    decreases ts
  {
    if ts != [] {
      TokenizeHead(ts[0], Concat(ts[1..]));
      TokenizeConcat(ts[1..]);
    }
  }

  // ------------------------------------------- the pattern, read on its own

  /** One step inside a quoted string: [^"\\], or \\. where "." is any
      character but a newline. */
  predicate Unit(u: string) {
    (|u| == 1 && u[0] != '"' && u[0] != '\\') || (|u| == 2 && u[0] == '\\' && u[1] != '\n')
  }

  predicate Units(us: seq<string>) {
    forall u | u in us :: Unit(u)
  }

  lemma {:induction false} UnitsClose(us: seq<string>)
    requires Units(us)
    ensures CloseLength(Concat(us) + "\"") == Some(|Concat(us)| + 1)
    decreases us
  {
    if us == [] {
      assert Concat(us) + "\"" == "\"";
    } else {
      var u, rest := us[0], Concat(us[1..]) + "\"";
      assert u in us && forall v | v in us[1..] :: v in us;
      UnitsClose(us[1..]);
      assert Concat(us) + "\"" == u + rest;
      assert (u + rest)[|u|..] == rest;
    }
  }

  lemma {:induction false} CloseHasUnits(s: string) returns (us: seq<string>)
    requires CloseLength(s) == Some(|s|)
    ensures Units(us) && Concat(us) + "\"" == s
    decreases |s|
  {
    if s[0] == '"' {
      us := [];
      assert s == "\"";
    } else {
      var n := if s[0] == '\\' then 2 else 1;
      var more := CloseHasUnits(s[n..]);
      us := [s[..n]] + more;
      assert us[1..] == more && s == s[..n] + s[n..];
    }
  }

  /** A token is what the pattern matches: one of the six marks, or a quote,
      any number of steps, and a quote. */
  lemma TokenExact(t: string)
    ensures IsMark(t) <==> t in {"{", "}", "[", "]", ",", ":"}
    ensures IsString(t) <==> exists us :: Units(us) && t == "\"" + Concat(us) + "\""
  {
    if IsString(t) {
      var us := CloseHasUnits(t[1..]);
      assert t == "\"" + Concat(us) + "\"";
    }
    if us :| Units(us) && t == "\"" + Concat(us) + "\"" {
      UnitsClose(us);
      assert t[1..] == Concat(us) + "\"";
    }
    if IsMark(t) {
      assert t == [t[0]];
    }
  }

  lemma StartsString(s: string)
    ensures s != "" && s[0] == '"' && CloseLength(s[1..]).Some? ==> exists m :: 0 <= m <= |s| && IsToken(s[..m])
  {
    if s != "" && s[0] == '"' && CloseLength(s[1..]).Some? {
      var m := 1 + CloseLength(s[1..]).value;
      CloseCuts(s[1..]);
      assert s[..m][1..] == s[1..][..m - 1];
      assert IsToken(s[..m]);
    }
  }

  /** findall: where a token starts, it is taken; */
  lemma FindallTakes(s: string, n: nat)
    requires n <= |s| && IsToken(s[..n])
    ensures Tokenize(s) == [s[..n]] + Tokenize(s[n..])
  {
    TokenizeHead(s[..n], s[n..]);
    assert s == s[..n] + s[n..];
  }

  /** where none does, one character is skipped. */
  lemma FindallSkips(s: string)
    requires s != "" && forall k | 0 <= k <= |s| :: !IsToken(s[..k])
    ensures Tokenize(s) == Tokenize(s[1..])
  {
    StartsString(s);
    assert !IsToken(s[..1]);
  }
}
