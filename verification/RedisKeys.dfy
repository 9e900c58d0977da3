/** The Redis key families the gateway shares between tenants, models and
    replicas (gateway/budget/tracker.py, gateway/ratelimit/token_bucket.py,
    gateway/routing/circuit_breaker.py), and the proof that their string
    encodings keep different owners apart. */
module RedisKeys {

  const UUID_LENGTH := 36

  /** The text form of a UUID: always 36 characters. */
  type Uuid = s: string | |s| == UUID_LENGTH witness seq(UUID_LENGTH, _ => '0')

  /** A budget period in its text form. */
  type PeriodText = s: string | ':' !in s witness ""

  datatype Key =
    | Budget(tenant: Uuid, model: string, period: PeriodText)
    | RateLimit(tenant: Uuid, model: string)
    | Circuit(backend: string, circuitModel: string)

  function Encode(k: Key): string {
    match k
    case Budget(t, m, p) => "budget:" + t + ":" + m + ":" + p
    case RateLimit(t, m) => "ratelimit:" + t + ":" + m
    case Circuit(b, m) => "circuit:" + b + ":" + m
  }

  /** Two texts cut at a colon agree exactly when they were cut at the same
      place, or one head runs past the other's colon. */
  lemma CutAtColon(a: string, b: string, c: string, d: string)
    requires a + ":" + b == c + ":" + d
    requires |a| <= |c|
    ensures |a| == |c| ==> a == c && b == d
    ensures |a| < |c| ==> c == a + ":" + c[|a| + 1..] && b == c[|a| + 1..] + ":" + d
  {
    var left, right := a + ":" + b, c + ":" + d;
    assert left[..|a|] == a && left[|a| + 1..] == b && left[|a|] == ':';
    assert right[..|c|] == c && right[|c| + 1..] == d;
    assert right[..|c|][..|a|] == right[..|a|];
    if |a| < |c| {
      assert c[|a|] == right[|a|] == ':';
      assert right[|a| + 1..] == c[|a| + 1..] + ":" + d;
    }
  }

  /** A colon-free head, or a colon-free tail, makes the cut unique. */
  lemma UniqueCut(a: string, b: string, c: string, d: string)
    requires a + ":" + b == c + ":" + d
    requires (':' !in a && ':' !in c) || (':' !in b && ':' !in d) || |a| == |c|
    ensures a == c && b == d
  {
    if |a| <= |c| {
      CutAtColon(a, b, c, d);
    } else {
      CutAtColon(c, d, a, b);
    }
  }

  /** The three families start with different letters. */
  lemma FamiliesApart(a: Key, b: Key)
    requires Encode(a) == Encode(b)
    ensures (a.Budget? <==> b.Budget?) && (a.RateLimit? <==> b.RateLimit?)
  {
    assert Encode(a)[0] == Encode(b)[0];
  }

  /** No two owners share a key: models may hold any characters, colons
      included; only breaker keys ask for colon-free backend ids. */
  lemma EncodeInjective(a: Key, b: Key)
    requires a.Circuit? ==> ':' !in a.backend
    requires b.Circuit? ==> ':' !in b.backend
    requires Encode(a) == Encode(b)
    ensures a == b
  {
    FamiliesApart(a, b);
    match a {
      case Budget(_, _, _) => BudgetKeysInjective(a, b);
      case RateLimit(t, m) =>
        assert Encode(a)[10..] == t + ":" + m;
        assert Encode(b)[10..] == b.tenant + ":" + b.model;
        UniqueCut(t, m, b.tenant, b.model);
      case Circuit(x, m) =>
        assert Encode(a)[8..] == x + ":" + m;
        assert Encode(b)[8..] == b.backend + ":" + b.circuitModel;
        UniqueCut(x, m, b.backend, b.circuitModel);
    }
  }

  lemma BudgetKeysInjective(a: Key, b: Key)
    requires a.Budget? && b.Budget? && Encode(a) == Encode(b)
    ensures a == b
  {
    assert Encode(a)[7..] == (a.tenant + ":" + a.model) + ":" + a.period;
    assert Encode(b)[7..] == (b.tenant + ":" + b.model) + ":" + b.period;
    UniqueCut(a.tenant + ":" + a.model, a.period, b.tenant + ":" + b.model, b.period);
    UniqueCut(a.tenant, a.model, b.tenant, b.model);
  }

  /** Without that restriction two breaker keys meet exactly when one backend
      id continues past the other's with a colon and the model texts make up
      the difference. */
  ghost predicate Overlap(b1: string, m1: string, b2: string, m2: string) {
    exists s: string :: b2 == b1 + ":" + s && m1 == s + ":" + m2
  }

  lemma CircuitKeysMeet(b1: string, m1: string, b2: string, m2: string)
    ensures Encode(Circuit(b1, m1)) == Encode(Circuit(b2, m2)) <==>
            (b1 == b2 && m1 == m2) || Overlap(b1, m1, b2, m2) || Overlap(b2, m2, b1, m1)
  {
    var e1, e2 := Encode(Circuit(b1, m1)), Encode(Circuit(b2, m2));
    assert e1 == "circuit:" + (b1 + ":" + m1);
    assert e2 == "circuit:" + (b2 + ":" + m2);
    if e1 == e2 {
      assert e1[8..] == b1 + ":" + m1 && e2[8..] == b2 + ":" + m2;
      if |b1| <= |b2| {
        CutAtColon(b1, m1, b2, m2);
      } else {
        CutAtColon(b2, m2, b1, m1);
      }
    }
    if Overlap(b1, m1, b2, m2) {
      OverlapMeets(b1, m1, b2, m2);
    }
    if Overlap(b2, m2, b1, m1) {
      OverlapMeets(b2, m2, b1, m1);
    }
  }

  lemma OverlapMeets(b1: string, m1: string, b2: string, m2: string)
    requires Overlap(b1, m1, b2, m2)
    ensures b1 + ":" + m1 == b2 + ":" + m2
  {
    var s: string :| b2 == b1 + ":" + s && m1 == s + ":" + m2;
    assert b1 + ":" + (s + ":" + m2) == (b1 + ":" + s) + ":" + m2;
  }

  // ---------------------------------------------------------------- periods

  datatype Period = Daily | Monthly

  datatype RawDate = RawDate(year: nat, month: nat, day: nat)

  /** A calendar day; four-digit years, as strftime prints them. */
  type Date = d: RawDate | 1000 <= d.year <= 9999 && 1 <= d.month <= 12 && 1 <= d.day <= 31
    witness RawDate(2026, 9, 1)

  type Below10 = n: nat | n < 10
  type Below100 = n: nat | n < 100
  type Below10000 = n: nat | n < 10000

  function Digit(n: Below10): char
  {
    "0123456789"[n]
  }

  function Two(n: Below100): string
  {
    [Digit(n / 10), Digit(n % 10)]
  }

  function Four(n: Below10000): string
  {
    Two(n / 100) + Two(n % 100)
  }

  function MonthText(d: Date): (r: PeriodText)
  {
    FourDigits(d.year);
    TwoDigits(d.month);
    Four(d.year) + "-" + Two(d.month)
  }

  function PeriodKey(p: Period, d: Date): (r: PeriodText)
  {
    TwoDigits(d.day);
    if p.Daily? then MonthText(d) + "-" + Two(d.day) else MonthText(d)
  }

  lemma TwoDigits(n: Below100)
    ensures ':' !in Two(n) && '-' !in Two(n)
  {
  }

  lemma FourDigits(n: Below10000)
    ensures ':' !in Four(n) && '-' !in Four(n)
  {
    TwoDigits(n / 100);
    TwoDigits(n % 100);
  }

  lemma TwoInjective(a: Below100, b: Below100)
    requires Two(a) == Two(b)
    ensures a == b
  {
    DigitInjective(Two(a)[0], a / 10, b / 10);
    DigitInjective(Two(a)[1], a % 10, b % 10);
  }

  lemma DigitInjective(c: char, a: Below10, b: Below10)
    requires Digit(a) == c == Digit(b)
    ensures a == b
  {
    assert forall i, j | 0 <= i < j < 10 :: "0123456789"[i] != "0123456789"[j];
  }

  ghost predicate SamePeriod(p: Period, d: Date, e: Date) {
    d.year == e.year && d.month == e.month && (p.Daily? ==> d.day == e.day)
  }

  lemma FourInjective(a: Below10000, b: Below10000)
    requires Four(a) == Four(b)
    ensures a == b
  {
    assert Four(a)[..2] == Two(a / 100) && Four(b)[..2] == Two(b / 100);
    assert Four(a)[2..] == Two(a % 100) && Four(b)[2..] == Two(b % 100);
    TwoInjective(a / 100, b / 100);
    TwoInjective(a % 100, b % 100);
  }

  lemma MonthTextExact(d: Date, e: Date)
    ensures MonthText(d) == MonthText(e) <==> d.year == e.year && d.month == e.month
    ensures |MonthText(d)| == 7 && MonthText(d)[4] == '-'
  {
    assert MonthText(d)[..4] == Four(d.year) && MonthText(d)[5..] == Two(d.month);
    assert MonthText(e)[..4] == Four(e.year) && MonthText(e)[5..] == Two(e.month);
    if MonthText(d) == MonthText(e) {
      FourInjective(d.year, e.year);
      TwoInjective(d.month, e.month);
    }
  }

  /** Two reservations share a counter period exactly when their dates fall in
      the same day or month; daily and monthly texts never coincide, and none
      is the "unknown" a usage record carries without a reservation. */
  lemma PeriodKeyExact(p: Period, d: Date, q: Period, e: Date)
    ensures PeriodKey(p, d) == PeriodKey(q, e) <==> p == q && SamePeriod(p, d, e)
    ensures PeriodKey(p, d) != "unknown"
  {
    var k, l := PeriodKey(p, d), PeriodKey(q, e);
    MonthTextExact(d, e);
    MonthTextExact(e, d);
    assert k[..7] == MonthText(d) && l[..7] == MonthText(e);
    assert k[4] == '-';
    if k == l && p.Daily? && q.Daily? {
      assert k[8..] == Two(d.day) && l[8..] == Two(e.day);
      TwoInjective(d.day, e.day);
    }
  }

  // ------------------------------------------------- the texts, read back

  /** The number a text of decimal digits stands for. */
  function Decimal(s: string): int {
    if s == "" then 0 else 10 * Decimal(s[..|s| - 1]) + (s[|s| - 1] as int - '0' as int)
  }

  lemma DecimalAppend(s: string, n: Below10)
    ensures Decimal(s + [Digit(n)]) == 10 * Decimal(s) + n
  {
    assert (s + [Digit(n)])[..|s|] == s;
  }

  lemma TwoReads(s: string, n: Below100)
    ensures Decimal(s + Two(n)) == 100 * Decimal(s) + n
  {
    assert s + Two(n) == s + [Digit(n / 10)] + [Digit(n % 10)];
    DecimalAppend(s, n / 10);
    DecimalAppend(s + [Digit(n / 10)], n % 10);
  }

  lemma FourReads(n: Below10000)
    ensures Decimal(Four(n)) == n
  {
    assert "" + Two(n / 100) == Two(n / 100);
    TwoReads("", n / 100);
    TwoReads(Two(n / 100), n % 100);
  }

  /** A period text is the date: year, month and, for a daily budget, day, in
      decimal and in that order, dashes between. */
  lemma PeriodReads(p: Period, d: Date)
    ensures var k := PeriodKey(p, d);
            |k| == (if p.Daily? then 10 else 7) &&
            Decimal(k[..4]) == d.year && k[4] == '-' && Decimal(k[5..7]) == d.month &&
            (p.Daily? ==> k[7] == '-' && Decimal(k[8..]) == d.day)
  {
    var k := PeriodKey(p, d);
    FourReads(d.year);
    TwoReads("", d.month);
    TwoReads("", d.day);
    assert "" + Two(d.month) == Two(d.month) && "" + Two(d.day) == Two(d.day);
    assert k[..4] == Four(d.year) && k[5..7] == Two(d.month);
    if p.Daily? {
      assert k[8..] == Two(d.day);
    }
  }

  /** The keys as Redis shows them: family, 36 characters of tenant, the model
      as requested, */
  lemma RateLimitKeyReads(tenant: Uuid, model: string)
    ensures var k := Encode(RateLimit(tenant, model));
            k[..10] == "ratelimit:" && k[10..46] == tenant && k[46] == ':' && k[47..] == model
  {
    assert Encode(RateLimit(tenant, model)) == "ratelimit:" + (tenant + (":" + model));
  }

  /** and a budget's period; */
  lemma BudgetKeyReads(tenant: Uuid, model: string, period: PeriodText)
    ensures var k := Encode(Budget(tenant, model, period));
            k[..7] == "budget:" && k[7..43] == tenant && k[43] == ':' &&
            k[44..] == model + ":" + period
  {
    assert Encode(Budget(tenant, model, period)) == "budget:" + (tenant + (":" + (model + ":" + period)));
  }

  /** or a breaker's backend and model. */
  lemma CircuitKeyReads(backend: string, model: string)
    ensures var k := Encode(Circuit(backend, model));
            k[..8] == "circuit:" && k[8..] == backend + ":" + model
  {
    assert Encode(Circuit(backend, model)) == "circuit:" + (backend + (":" + model));
  }
}
