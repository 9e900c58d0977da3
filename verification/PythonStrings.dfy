/** json.dumps and json.loads on a single string, as Python's json module does
    it with its defaults (ASCII output, strict input), and the proof that they
    are a sound codec for the repair. */
module PythonStrings {
  import opened Wrappers
  import opened JsonTokens
  import opened JsonRepair
  import JsonMeaning
  import JsonDicts
  import JsonGaps

  // -------------------------------------------------------------- hex digits

  type Nibble = n: nat | n < 16

  /** A code unit of UTF-16. */
  type CodeUnit = n: nat | n < 0x1_0000

  function HexDigit(n: Nibble): char
  {
    "0123456789abcdef"[n]
  }

  function HexValue(ch: char): Option<nat> {
    if '0' <= ch <= '9' then Some(ch as int - '0' as int)
    else if 'a' <= ch <= 'f' then Some(ch as int - 'a' as int + 10)
    else if 'A' <= ch <= 'F' then Some(ch as int - 'A' as int + 10)
    else None
  }

  lemma HexRoundTrip(n: Nibble)
    ensures HexValue(HexDigit(n)) == Some(n)
    ensures HexDigit(n) != '"' && HexDigit(n) != '\\'
  {
  }

  function Hex4(n: CodeUnit): string
  {
    [HexDigit(n / 16 / 16 / 16), HexDigit(n / 16 / 16 % 16), HexDigit(n / 16 % 16), HexDigit(n % 16)]
  }

  /** The value of four hexadecimal digits at the start of s. */
  function Parse4(s: string): (r: Option<nat>)
    ensures r.Some? ==> r.value < 0x1_0000 && |s| >= 4
  {
    if |s| < 4 then None
    else
      match (HexValue(s[0]), HexValue(s[1]), HexValue(s[2]), HexValue(s[3]))
      case (Some(a), Some(b), Some(c), Some(d)) =>
        if a < 16 && b < 16 && c < 16 && d < 16 then Some(((a * 16 + b) * 16 + c) * 16 + d) else None
      case _ => None
  }

  lemma Hex4RoundTrip(n: CodeUnit, rest: string)
    ensures Parse4(Hex4(n) + rest) == Some(n)
  {
    HexRoundTrip(n / 16 / 16 / 16);
    HexRoundTrip(n / 16 / 16 % 16);
    HexRoundTrip(n / 16 % 16);
    HexRoundTrip(n % 16);
    var s := Hex4(n) + rest;
    assert s[0] == HexDigit(n / 16 / 16 / 16) && s[1] == HexDigit(n / 16 / 16 % 16)
        && s[2] == HexDigit(n / 16 % 16) && s[3] == HexDigit(n % 16);
  }

  // ---------------------------------------------------------------- encoding

  predicate High(n: nat) {
    0xD800 <= n < 0xDC00
  }

  predicate Low(n: nat) {
    0xDC00 <= n < 0xE000
  }

  function Unicode(n: CodeUnit): string
  {
    "\\u" + Hex4(n)
  }

  type Astral = p: CodePoint | p >= 0x1_0000 witness 0x1_0000

  /** The surrogate pair of a code point beyond the basic plane. */
  function HighOf(p: Astral): (h: CodeUnit)
    ensures High(h)
  {
    0xD800 + (p - 0x1_0000) / 0x400
  }

  function LowOf(p: Astral): (l: CodeUnit)
    ensures Low(l)
  {
    0xDC00 + (p - 0x1_0000) % 0x400
  }

  function Combine(h: nat, l: nat): CodePoint
    requires High(h) && Low(l)
  {
    0x1_0000 + (h - 0xD800) * 0x400 + (l - 0xDC00)
  }

  lemma CombineSplits(p: Astral)
    ensures Combine(HighOf(p), LowOf(p)) == p
  {
  }

  predicate Plain(p: CodePoint) {
    0x20 <= p < 0x7F && p != 0x22 && p != 0x5C
  }

  /** The two-character escapes json.dumps writes. */
  function Short(p: CodePoint): Option<char> {
    if p == 0x22 then Some('"')
    else if p == 0x5C then Some('\\')
    else if p == 0x08 then Some('b')
    else if p == 0x09 then Some('t')
    else if p == 0x0A then Some('n')
    else if p == 0x0C then Some('f')
    else if p == 0x0D then Some('r')
    else None
  }

  function Escape(p: CodePoint): string {
    if Plain(p) then [p as char]
    else if Short(p).Some? then ['\\', Short(p).value]
    else if p < 0x1_0000 then Unicode(p)
    else Unicode(HighOf(p)) + Unicode(LowOf(p))
  }

  function Body(x: Text): string {
    if x == [] then "\"" else Escape(x[0]) + Body(x[1..])
  }

  function Dumps(x: Text): string {
    "\"" + Body(x)
  }

  // ---------------------------------------------------------------- decoding

  /** The escapes json.loads knows, \u apart. */
  function Unescape(ch: char): Option<CodePoint> {
    if ch == '"' then Some(0x22)
    else if ch == '\\' then Some(0x5C)
    else if ch == '/' then Some(0x2F)
    else if ch == 'b' then Some(0x08)
    else if ch == 'f' then Some(0x0C)
    else if ch == 'n' then Some(0x0A)
    else if ch == 'r' then Some(0x0D)
    else if ch == 't' then Some(0x09)
    else None
  }

  /** A \u escape at the start of s. */
  function UnicodeAt(s: string): (r: Option<nat>)
    ensures r.Some? ==> r.value < 0x1_0000 && |s| >= 6
  {
    if |s| >= 6 && s[0] == '\\' && s[1] == 'u' then Parse4(s[2..]) else None
  }

  function Cons(p: CodePoint, o: Option<Text>): Option<Text> {
    match o
    case None => None
    case Some(x) => Some([p] + x)
  }

  /** From after the opening quote to the end: None on a control character, a
      bad escape, a missing closing quote or anything after it. */
  function Scan(s: string): Option<Text>
    decreases |s|
  {
    if s == "" then None
    else if s[0] == '"' then (if |s| == 1 then Some([]) else None)
    else if s[0] == '\\' then
      if |s| < 2 then None
      else if s[1] == 'u' then
        match UnicodeAt(s)
        case None => None
        case Some(h) =>
          if High(h) && UnicodeAt(s[6..]).Some? && Low(UnicodeAt(s[6..]).value) then
            Cons(Combine(h, UnicodeAt(s[6..]).value), Scan(s[12..]))
          else Cons(h, Scan(s[6..]))
      else
        match Unescape(s[1])
        case None => None
        case Some(p) => Cons(p, Scan(s[2..]))
    else if s[0] < ' ' then None
    else Cons(s[0] as int, Scan(s[1..]))
  }

  function Loads(t: string): Option<Text> {
    if t != "" && t[0] == '"' then Scan(t[1..]) else None
  }

  const PYTHON: Codec := Codec(Loads, Dumps)

  // ------------------------------------------------------------------ proofs

  lemma PlainCloses(s: string, n: nat)
    requires n <= |s| && forall i | 0 <= i < n :: s[i] != '"' && s[i] != '\\'
    ensures CloseLength(s) == Plus(n, CloseLength(s[n..]))
    decreases n
  {
    if n > 0 {
      PlainCloses(s[1..], n - 1);
      assert s[1..][n - 1..] == s[n..];
    } else {
      assert s[0..] == s;
    }
  }

  lemma UnicodeCloses(n: CodeUnit, rest: string)
    ensures CloseLength(Unicode(n) + rest) == Plus(6, CloseLength(rest))
  {
    var s := Unicode(n) + rest;
    assert s[2..] == Hex4(n) + rest && s[2..][4..] == rest;
    Hex4Plain(n);
    PlainCloses(s[2..], 4);
  }

  lemma Hex4Plain(n: CodeUnit)
    ensures |Hex4(n)| == 4 && forall i | 0 <= i < 4 :: Hex4(n)[i] != '"' && Hex4(n)[i] != '\\'
  {
    HexRoundTrip(n / 16 / 16 / 16);
    HexRoundTrip(n / 16 / 16 % 16);
    HexRoundTrip(n / 16 % 16);
    HexRoundTrip(n % 16);
  }

  lemma EscapeCloses(p: CodePoint, rest: string)
    ensures CloseLength(Escape(p) + rest) == Plus(|Escape(p)|, CloseLength(rest))
  {
    if p >= 0x1_0000 {
      TwoUnicodesClose(HighOf(p), LowOf(p), rest);
    } else if Plain(p) || Short(p).Some? {
      var s := Escape(p) + rest;
      assert s[|Escape(p)|..] == rest;
    } else {
      UnicodeCloses(p, rest);
    }
  }

  lemma Regrouped(x: string, y: string, z: string)
    ensures x + y + z == x + (y + z)
  {
  }

  lemma TwoUnicodesClose(h: CodeUnit, l: CodeUnit, rest: string)
    ensures CloseLength(Unicode(h) + Unicode(l) + rest) == Plus(12, CloseLength(rest))
  {
    Regrouped(Unicode(h), Unicode(l), rest);
    UnicodeCloses(h, Unicode(l) + rest);
    UnicodeCloses(l, rest);
  }

  lemma BodyStep(x: Text)
    requires x != []
    requires CloseLength(Body(x[1..])) == Some(|Body(x[1..])|)
    ensures CloseLength(Body(x)) == Some(|Body(x)|)
  {
    EscapeCloses(x[0], Body(x[1..]));
    StepLength(Escape(x[0]), Body(x[1..]));
  }

  lemma StepLength(e: string, rest: string)
    ensures CloseLength(rest) == Some(|rest|) && CloseLength(e + rest) == Plus(|e|, CloseLength(rest)) ==>
            CloseLength(e + rest) == Some(|e + rest|)
  {
  }

  lemma {:induction false} BodyCloses(x: Text)
    ensures CloseLength(Body(x)) == Some(|Body(x)|)
    decreases x
  {
    if x != [] {
      BodyCloses(x[1..]);
      BodyStep(x);
    }
  }

  lemma UnicodeReads(n: CodeUnit, rest: string)
    ensures UnicodeAt(Unicode(n) + rest) == Some(n) && (Unicode(n) + rest)[6..] == rest
  {
    var s := Unicode(n) + rest;
    assert s[2..] == Hex4(n) + rest;
    Hex4RoundTrip(n, rest);
  }

  lemma NoEscapeReads(s: string)
    ensures (|s| >= 1 && (s[0] != '\\' || (|s| >= 2 && s[1] != 'u'))) ==> UnicodeAt(s) == None
  {
  }

  lemma AstralReads(h: CodeUnit, l: CodeUnit, rest: string)
    ensures UnicodeAt(Unicode(h) + Unicode(l) + rest) == Some(h)
  {
    assert Unicode(h) + Unicode(l) + rest == Unicode(h) + (Unicode(l) + rest);
    UnicodeReads(h, Unicode(l) + rest);
  }

  lemma EscapeReads(p: CodePoint, rest: string)
    ensures UnicodeAt(Escape(p) + rest)
            == if Plain(p) || Short(p).Some? then None else Some(if p < 0x1_0000 then p else HighOf(p))
  {
    if Plain(p) || Short(p).Some? {
      NoEscapeReads(Escape(p) + rest);
    } else if p < 0x1_0000 {
      UnicodeReads(p, rest);
    } else {
      AstralReads(HighOf(p), LowOf(p), rest);
    }
  }

  /** A low surrogate starts a body only as a low surrogate of the text. */
  lemma BodyStarts(x: Text)
    ensures UnicodeAt(Body(x)).Some? && Low(UnicodeAt(Body(x)).value) ==> x != [] && Low(x[0])
  {
    if x != [] {
      EscapeReads(x[0], Body(x[1..]));
    }
  }

  lemma ScanPair(h: nat, l: nat, s: string, rest: string)
    requires High(h) && Low(l) && UnicodeAt(s) == Some(h) && UnicodeAt(s[6..]) == Some(l) && s[6..][6..] == rest
    ensures Scan(s) == Cons(Combine(h, l), Scan(rest))
  {
    assert s[12..] == s[6..][6..];
  }

  lemma ScanAstral(p: Astral, rest: string)
    ensures Scan(Escape(p) + rest) == Cons(p, Scan(rest))
  {
    CombineSplits(p);
    EscapeAstral(p);
    ScanTwoUnicodes(HighOf(p), LowOf(p), rest);
  }

  lemma EscapeAstral(p: Astral)
    ensures Escape(p) == Unicode(HighOf(p)) + Unicode(LowOf(p))
  {
  }

  lemma ScanTwoUnicodes(h: CodeUnit, l: CodeUnit, rest: string)
    requires High(h) && Low(l)
    ensures Scan(Unicode(h) + Unicode(l) + rest) == Cons(Combine(h, l), Scan(rest))
  {
    Regrouped(Unicode(h), Unicode(l), rest);
    UnicodeReads(h, Unicode(l) + rest);
    UnicodeReads(l, rest);
    ScanPair(h, l, Unicode(h) + Unicode(l) + rest, rest);
  }

  lemma ScanPlain(p: CodePoint, rest: string)
    requires Plain(p)
    ensures Scan([p as char] + rest) == Cons(p, Scan(rest))
  {
    var s := [p as char] + rest;
    assert s[0] == p as char && s[1..] == rest;
  }

  lemma ScanEscaped(ch: char, rest: string)
    requires Unescape(ch).Some?
    ensures Scan(['\\', ch] + rest) == Cons(Unescape(ch).value, Scan(rest))
  {
    var s := ['\\', ch] + rest;
    assert s != "" && s[0] == '\\' && s[0] != '"' && |s| >= 2;
    assert s[1] == ch && ch != 'u';
    assert s[2..] == rest;
  }

  lemma ShortUnescapes(p: CodePoint)
    ensures Short(p).Some? ==> Unescape(Short(p).value) == Some(p)
  {
  }

  lemma ScanShort(p: CodePoint, rest: string)
    requires Plain(p) || Short(p).Some?
    ensures Scan(Escape(p) + rest) == Cons(p, Scan(rest))
  {
    if Plain(p) {
      ScanPlain(p, rest);
    } else {
      ShortUnescapes(p);
      ScanEscaped(Short(p).value, rest);
    }
  }

  lemma ScanOne(h: nat, s: string, rest: string)
    requires UnicodeAt(s) == Some(h) && s[6..] == rest
    requires !(High(h) && UnicodeAt(rest).Some? && Low(UnicodeAt(rest).value))
    ensures Scan(s) == Cons(h, Scan(rest))
  {
  }

  lemma UnpairedTail(x: Text)
    requires Unpaired(x) && x != []
    ensures Unpaired(x[1..])
    ensures |x| > 1 ==> !(High(x[0]) && Low(x[1]))
  {
    var y := x[1..];
    forall i | 0 <= i < |y| - 1
      ensures !(0xD800 <= y[i] < 0xDC00 && 0xDC00 <= y[i + 1] < 0xE000)
    {
      assert y[i] == x[i + 1] && y[i + 1] == x[i + 2];
    }
  }

  lemma ScanEscape(x: Text)
    requires Unpaired(x) && x != []
    ensures Scan(Body(x)) == Cons(x[0], Scan(Body(x[1..])))
  {
    var p, rest := x[0], Body(x[1..]);
    if Plain(p) || Short(p).Some? {
      ScanShort(p, rest);
    } else if p < 0x1_0000 {
      UnicodeReads(p, rest);
      UnpairedTail(x);
      assert !(High(p) && UnicodeAt(rest).Some? && Low(UnicodeAt(rest).value)) by {
        BodyStarts(x[1..]);
      }
      ScanOne(p, Unicode(p) + rest, rest);
    } else {
      ScanAstral(p, rest);
    }
  }

  /** Round trip: a text without split surrogate pairs comes back. */
  lemma {:induction false} ScanBody(x: Text)
    requires Unpaired(x)
    ensures Scan(Body(x)) == Some(x)
    decreases x
  {
    if x != [] {
      ScanEscape(x);
      UnpairedTail(x);
      ScanBody(x[1..]);
      assert [x[0]] + x[1..] == x;
    }
  }

  /** A decoded text starts with a low surrogate only if it was spelled so. */
  lemma ScanStarts(s: string)
    ensures Scan(s).Some? && Scan(s).value != [] && Low(Scan(s).value[0]) ==> UnicodeAt(s) == Some(Scan(s).value[0])
  {
  }

  /** What one step of the scan reads, and where it goes on. */
  lemma ScanStep(s: string) returns (n: nat, p: CodePoint)
    requires Scan(s).Some? && Scan(s).value != []
    ensures 0 < n <= |s| && Scan(s) == Cons(p, Scan(s[n..])) && Scan(s[n..]).Some?
    ensures High(p) ==> !(UnicodeAt(s[n..]).Some? && Low(UnicodeAt(s[n..]).value))
  {
    p := Scan(s).value[0];
    n := if s[0] != '\\' then 1 else if s[1] != 'u' then 2
         else if High(UnicodeAt(s).value) && UnicodeAt(s[6..]).Some? && Low(UnicodeAt(s[6..]).value) then 12 else 6;
  }

  lemma UnpairedCons(p: CodePoint, y: Text)
    requires Unpaired(y) && !(High(p) && y != [] && Low(y[0]))
    ensures Unpaired([p] + y)
  {
    var x := [p] + y;
    forall i | 0 <= i < |x| - 1
      ensures !(0xD800 <= x[i] < 0xDC00 && 0xDC00 <= x[i + 1] < 0xE000)
    {
      if i > 0 {
        assert x[i] == y[i - 1] && x[i + 1] == y[i];
      }
    }
  }

  lemma {:induction false} ScanUnpaired(s: string)
    requires Scan(s).Some?
    ensures Unpaired(Scan(s).value)
    decreases |s|
  {
    if Scan(s).value != [] {
      var n, p := ScanStep(s);
      var y := Scan(s[n..]).value;
      ScanUnpaired(s[n..]);
      if y != [] && Low(y[0]) {
        ScanStarts(s[n..]);
      }
      UnpairedCons(p, y);
    }
  }

  /** Python's string codec meets everything the repair's theorems ask for. */
  lemma PythonIsSound()
    ensures Sound(PYTHON)
  {
    forall x: Text
      ensures IsString(PYTHON.encode(x))
      ensures Unpaired(x) ==> PYTHON.decode(PYTHON.encode(x)) == Some(x)
    {
      BodyCloses(x);
      assert Dumps(x)[1..] == Body(x);
      if Unpaired(x) {
        ScanBody(x);
      }
    }
    forall t: string | PYTHON.decode(t).Some?
      ensures Unpaired(PYTHON.decode(t).value)
    {
      ScanUnpaired(t[1..]);
    }
  }

  // ------------------------------------------ the repair with this codec

  /** With Python's own codec, repair preserves the meaning of a document
      exactly when all its scalars are strings, member by member; and as Python
      loads it, later members overwriting earlier ones of the same key, exactly
      when each other scalar stands alone in an array and is overwritten. */
  lemma PythonMeaningIff(text: string)
    requires JsonMeaning.Loads(PYTHON, text).Some?
    ensures var v := JsonMeaning.Loads(PYTHON, text).value;
            (RepairText(PYTHON, text).Some?
             && JsonMeaning.Loads(PYTHON, RepairText(PYTHON, text).value) == Some(v)
             <==> JsonMeaning.StringOnly(v)) &&
            (JsonDicts.Preserved(PYTHON, text) <==> JsonGaps.Lone(v) && JsonDicts.Strings(JsonDicts.ToPy(v))) &&
            (JsonDicts.NoRepeats(v) ==> (JsonDicts.Preserved(PYTHON, text) <==> JsonMeaning.StringOnly(v)))
  {
    PythonIsSound();
    JsonMeaning.RepairPreservesMeaningIff(PYTHON, text);
    JsonDicts.PreservedIff(PYTHON, text);
  }

  /** With Python's own codec, a second repair changes nothing. */
  lemma PythonIdempotent(text: string)
    requires RepairText(PYTHON, text).Some?
    ensures RepairText(PYTHON, RepairText(PYTHON, text).value) == RepairText(PYTHON, text)
  {
    PythonIsSound();
    RepairTextIdempotent(PYTHON, text);
  }

  // -------------------------------------------------- spellings, as written

  /** How json.dumps spells a character: printable ASCII as it is, seven short
      escapes, the rest in lower-case hex, beyond 0xFFFF as a pair. */
  lemma EscapesSpelled()
    ensures Escape(0x22) == "\\\"" && Escape(0x5C) == "\\\\" && Escape(0x2F) == "/"
    ensures Escape(0x08) == "\\b" && Escape(0x09) == "\\t" && Escape(0x0A) == "\\n"
    ensures Escape(0x0C) == "\\f" && Escape(0x0D) == "\\r" && Escape(0x20) == " " && Escape(0x7E) == "~"
  {
  }

  lemma HexSpelled(n: nat, a: nat, b: nat, c: nat, d: nat)
    requires a < 16 && b < 16 && c < 16 && d < 16 && n == ((a * 16 + b) * 16 + c) * 16 + d
    ensures n < 0x1_0000 && Hex4(n) == ["0123456789abcdef"[a], "0123456789abcdef"[b],
                                        "0123456789abcdef"[c], "0123456789abcdef"[d]]
  {
    LowDigit(n, (a * 16 + b) * 16 + c, d);
    LowDigit(n / 16, a * 16 + b, c);
    LowDigit(n / 16 / 16, a, b);
  }

  lemma LowDigit(n: nat, high: nat, low: nat)
    ensures n == high * 16 + low && low < 16 ==> n / 16 == high && n % 16 == low
  {
  }

  lemma ControlSpelled()
    ensures Escape(0x1F) == "\\u001f"
  {
    HexSpelled(0x1F, 0, 0, 1, 15);
  }

  lemma DeleteSpelled()
    ensures Escape(0x7F) == "\\u007f"
  {
    HexSpelled(0x7F, 0, 0, 7, 15);
  }

  lemma LetterSpelled()
    ensures Escape(0xABCD) == "\\uabcd"
  {
    HexSpelled(0xABCD, 10, 11, 12, 13);
  }

  lemma PairSpelled()
    ensures Escape(0x1F600) == "\\ud83d" + "\\ude00"
  {
    assert HighOf(0x1F600) == 0xD83D && LowOf(0x1F600) == 0xDE00;
    HighSpelled();
    LowSpelled();
  }

  lemma HighSpelled()
    ensures Unicode(0xD83D) == "\\ud83d"
  {
    HexSpelled(0xD83D, 13, 8, 3, 13);
  }

  lemma LowSpelled()
    ensures Unicode(0xDE00) == "\\ude00"
  {
    HexSpelled(0xDE00, 13, 14, 0, 0);
  }

  /** How json.loads reads an escape: nine letters, and hex in either case. */
  lemma EscapesRead()
    ensures Unescape('"') == Some(0x22) && Unescape('\\') == Some(0x5C) && Unescape('/') == Some(0x2F)
    ensures Unescape('b') == Some(0x08) && Unescape('f') == Some(0x0C) && Unescape('n') == Some(0x0A)
    ensures Unescape('r') == Some(0x0D) && Unescape('t') == Some(0x09)
    ensures forall ch | Unescape(ch).Some? :: ch in "\"\\/bfnrt"
    ensures Combine(0xD83D, 0xDE00) == 0x1F600
  {
  }

  lemma HexRead()
    ensures UnicodeAt("\\uabcd") == Some(0xABCD) && UnicodeAt("\\uABCD") == Some(0xABCD)
  {
    assert "\\uabcd"[2..] == "abcd" && "\\uABCD"[2..] == "ABCD";
  }

  /** Letters, digits, blanks and other printable ASCII, no quote, no
      backslash. */
  predicate PlainText(s: string) {
    forall ch | ch in s :: ' ' <= ch <= '~' && ch != '"' && ch != '\\'
  }

  type PlainString = s: string | PlainText(s) witness ""

  function Codes(s: PlainString): Text
  {
    seq(|s|, i requires 0 <= i < |s| => s[i] as int)
  }

  lemma CodesStep(s: PlainString, rest: Text)
    requires s != ""
    ensures PlainText(s[1..]) && ' ' <= s[0] <= '~' && s[0] != '"' && s[0] != '\\'
    ensures Codes(s) + rest == [s[0] as int] + (Codes(s[1..]) + rest)
  {
    assert s[0] in s && forall ch | ch in s[1..] :: ch in s;
    assert Codes(s) == [s[0] as int] + Codes(s[1..]);
  }

  lemma {:induction false} PlainBody(s: PlainString, rest: Text)
    ensures Body(Codes(s) + rest) == s + Body(rest)
    decreases |s|
  {
    if s == "" {
      assert Codes(s) + rest == rest;
    } else {
      CodesStep(s, rest);
      PlainBody(s[1..], rest);
      PlainStep(s[0], Codes(s[1..]) + rest);
      HeadAndRest(s, Body(rest));
    }
  }

  lemma HeadAndRest(s: string, t: string)
    ensures s != "" ==> [s[0]] + (s[1..] + t) == s + t
  {
  }

  lemma PlainStep(ch: char, x: Text)
    requires ' ' <= ch <= '~' && ch != '"' && ch != '\\'
    ensures Body([ch as int] + x) == [ch] + Body(x)
  {
    assert ([ch as int] + x)[1..] == x;
  }

  lemma PlainDumps(s: PlainString)
    ensures Dumps(Codes(s)) == "\"" + s + "\"" && Loads("\"" + s + "\"") == Some(Codes(s))
    ensures IsString("\"" + s + "\"")
  {
    PlainBody(s, []);
    assert Codes(s) + [] == Codes(s);
    PythonIsSound();
    assert Unpaired(Codes(s));
    assert PYTHON.decode(PYTHON.encode(Codes(s))) == Some(Codes(s));
    assert IsString(PYTHON.encode(Codes(s)));
  }

  /** Two lines, dumped: json.dumps writes the line feed as \n. */
  lemma TwoLinesDumped(a: PlainString, b: PlainString)
    ensures Dumps(Codes(a) + [10] + Codes(b)) == "\"" + a + "\\n" + b + "\""
  {
    PlainBody(a, [10] + Codes(b));
    PlainBody(b, []);
    LineFeedStep(Codes(b));
    assert Codes(b) + [] == Codes(b);
    TextParts(Codes(a), [10], Codes(b));
    ThreeParts(a, "\\n", b);
  }

  lemma LineFeedStep(x: Text)
    ensures Body([10] + x) == "\\n" + Body(x)
  {
    assert ([10] + x)[1..] == x;
  }

  lemma TextParts(x: Text, mid: Text, y: Text)
    ensures x + (mid + y) == x + mid + y
  {
  }

  lemma ThreeParts(a: string, mid: string, b: string)
    ensures "\"" + (a + (mid + (b + "\""))) == "\"" + a + mid + b + "\""
  {
  }

  /** The documented repair, spelled out: the string after a pair becomes the
      second line of its value. */
  lemma BareStringMerged(k: PlainString, a: PlainString, b: PlainString)
    ensures RepairText(PYTHON, "{\"" + k + "\":\"" + a + "\",\"" + b + "\"}")
            == Some("{\"" + k + "\":\"" + a + "\\n" + b + "\"}")
  {
    var key, value, bare := "\"" + k + "\"", "\"" + a + "\"", "\"" + b + "\"";
    PlainDumps(k);
    PlainDumps(a);
    PlainDumps(b);
    TwoLinesDumped(a, b);
    var ts := ["{", key, ":", value, ",", bare, "}"];
    TokensMerged(key, value, bare, Codes(a), Codes(b));
    assert AllTokens(ts);
    TokenizeConcat(ts);
    ConcatSeven("{", key, ":", value, ",", bare, "}");
    ConcatFive("{", key, ":", Dumps(Codes(a) + [10] + Codes(b)), "}");
    InputSpelled(k, a, b);
    OutputSpelled(k, a, b);
  }

  lemma InputSpelled(k: string, a: string, b: string)
    ensures "{" + ("\"" + k + "\"") + ":" + ("\"" + a + "\"") + "," + ("\"" + b + "\"") + "}"
            == "{\"" + k + "\":\"" + a + "\",\"" + b + "\"}"
  {
  }

  lemma OutputSpelled(k: string, a: string, b: string)
    ensures "{" + ("\"" + k + "\"") + ":" + ("\"" + a + "\\n" + b + "\"") + "}"
            == "{\"" + k + "\":\"" + a + "\\n" + b + "\"}"
  {
  }

  lemma TokensMerged(key: string, value: string, bare: string, x: Text, y: Text)
    requires IsString(key) && IsString(value) && IsString(bare)
    requires Loads(value) == Some(x) && Loads(bare) == Some(y)
    ensures Repair(PYTHON, ["{", key, ":", value, ",", bare, "}"])
            == Some(["{", key, ":", Dumps(x + [10] + y), "}"])
  {
    var rest := [key, ":", value, ",", bare, "}"];
    assert ["{"] + rest == ["{", key, ":", value, ",", bare, "}"];
    RepairSkips(PYTHON, "{", rest);
    assert rest[3..] == [",", bare, "}"] && [",", bare, "}"][2..] == ["}"];
    NoRunLeft(PYTHON, Join(x, y), ["}"]);
    assert MergeRun(PYTHON, x, [",", bare, "}"]) == Some((Join(x, y), ["}"]));
    assert ["}"] + [] == ["}"];
    RepairSkips(PYTHON, "}", []);
    assert Repair(PYTHON, ["}"]) == Some(["}"]);
    assert PairNext(rest) && PYTHON.decode(rest[2]) == Some(x);
    assert Repair(PYTHON, rest) == Prepend([key, ":", PYTHON.encode(Join(x, y))], Some(["}"]));
    assert [key, ":", Dumps(Join(x, y))] + ["}"] == [key, ":", Dumps(Join(x, y)), "}"];
    assert Join(x, y) == x + [10] + y;
    assert ["{"] + [key, ":", Dumps(x + [10] + y), "}"] == ["{", key, ":", Dumps(x + [10] + y), "}"];
  }

  lemma ConcatFive(a: string, b: string, c: string, d: string, e: string)
    ensures Concat([a, b, c, d, e]) == a + b + c + d + e
  {
    assert [a, b, c, d, e][1..] == [b, c, d, e] && [b, c, d, e][1..] == [c, d, e];
    assert [c, d, e][1..] == [d, e] && [d, e][1..] == [e] && [e][1..] == [];
    assert Concat([e]) == e;
    assert Concat([d, e]) == d + e;
    assert Concat([c, d, e]) == c + (d + e);
    assert Concat([b, c, d, e]) == b + (c + (d + e));
    assert a + (b + (c + (d + e))) == a + b + c + d + e;
  }

  lemma ConcatSeven(a: string, b: string, c: string, d: string, e: string, f: string, g: string)
    ensures Concat([a, b, c, d, e, f, g]) == a + b + c + d + e + f + g
  {
    assert [a, b, c, d, e, f, g][1..] == [b, c, d, e, f, g] && [b, c, d, e, f, g][1..] == [c, d, e, f, g];
    ConcatFive(c, d, e, f, g);
    assert Concat([b, c, d, e, f, g]) == b + (c + d + e + f + g);
    assert a + (b + (c + d + e + f + g)) == a + b + c + d + e + f + g;
  }

  // -------------------------------------------------------- control characters

  predicate Printable(s: string) {
    forall ch | ch in s :: ch >= ' '
  }

  lemma UnicodePrintable(s: string)
    requires UnicodeAt(s).Some?
    ensures Printable(s[..6])
  {
    var d := s[2..];
    assert d[0] == s[2] && d[1] == s[3] && d[2] == s[4] && d[3] == s[5];
    assert HexValue(d[0]).Some? && HexValue(d[1]).Some? && HexValue(d[2]).Some? && HexValue(d[3]).Some?;
    forall i | 0 <= i < 6
      ensures s[i] >= ' '
    {
    }
  }

  /** One step of the scan reads printable characters only. */
  lemma ScanReads(s: string) returns (n: nat)
    requires Scan(s).Some? && s[0] != '"'
    ensures 0 < n <= |s| && Scan(s[n..]).Some? && Printable(s[..n])
  {
    if s[0] != '\\' {
      n := 1;
    } else if s[1] != 'u' {
      n := 2;
    } else {
      UnicodePrintable(s);
      n := 6;
      if High(UnicodeAt(s).value) && UnicodeAt(s[6..]).Some? && Low(UnicodeAt(s[6..]).value) {
        UnicodePrintable(s[6..]);
        n := 12;
        assert s[..12] == s[..6] + s[6..][..6];
      }
    }
  }

  lemma {:induction false} NoRawControls(s: string)
    ensures Scan(s).Some? ==> Printable(s)
    decreases |s|
  {
    if Scan(s).Some? && s[0] != '"' {
      var n := ScanReads(s);
      NoRawControls(s[n..]);
      assert s == s[..n] + s[n..];
    }
  }

  /** A raw control character anywhere in a string makes json.loads raise. */
  lemma LoadsRefusesControls(t: string)
    ensures Loads(t).Some? ==> Printable(t)
  {
    if Loads(t).Some? {
      NoRawControls(t[1..]);
      assert t == [t[0]] + t[1..];
    }
  }
}
