// Period codes and the monthly range (precis_mcp/engine/period_codes.py and precis_mcp/scope_resolver.py).
// A digit is an ASCII digit, and a code ends where the string ends.

module PeriodCodes {
  import opened Common
  import opened Strings

  datatype Grain = Date | Week | Month | Quarter | Year
  datatype PeriodCode = PeriodCode(grain: Grain, raw: string, components: seq<nat>)

  predicate Digits(s: string) {
    forall i :: 0 <= i < |s| ==> Digit(s[i])
  }

  predicate Matches(g: Grain, c: string) {
    match g
    case Date => |c| == 10 && Digits(c[..4]) && c[4] == '-' && Digits(c[5..7]) && c[7] == '-' && Digits(c[8..])
    case Week => |c| == 8 && Digits(c[..4]) && c[4] == '-' && c[5] == 'W' && Digits(c[6..])
    case Month => |c| == 7 && Digits(c[..4]) && c[4] == '-' && Digits(c[5..])
    case Quarter => |c| == 7 && Digits(c[..4]) && c[4] == '-' && c[5] == 'Q' && '1' <= c[6] <= '4'
    case Year => |c| == 4 && Digits(c)
  }

  const GRAMMARS := [Date, Week, Month, Quarter, Year]

  function FirstMatch(grains: seq<Grain>, c: string): (g: Option<Grain>)
    ensures g.Some? ==> Matches(g.value, c)
  {
    if grains == [] then None else if Matches(grains[0], c) then Some(grains[0]) else FirstMatch(grains[1..], c)
  }

  function DetectGrain(c: string): Option<Grain> {
    FirstMatch(GRAMMARS, c)
  }

  function Value(s: string): nat
    requires Digits(s)
  {
    if s == "" then 0 else 10 * Value(s[..|s| - 1]) + (s[|s| - 1] as int - '0' as int)
  }

  function Components(g: Grain, c: string): seq<nat>
    requires Matches(g, c)
  {
    match g
    case Date => [Value(c[..4]), Value(c[5..7]), Value(c[8..])]
    case Week => [Value(c[..4]), Value(c[6..])]
    case Month => [Value(c[..4]), Value(c[5..])]
    case Quarter => [Value(c[..4]), Value(c[6..])]
    case Year => [Value(c)]
  }

  function Parse(c: string): Option<PeriodCode> {
    var g := DetectGrain(c);
    if g.Some? then Some(PeriodCode(g.value, c, Components(g.value, c))) else None
  }

  // ----- Grammars --------------------------------------------------------------------------------

  lemma GrammarsExclude(g: Grain, h: Grain, c: string)
    requires Matches(g, c) && Matches(h, c)
    ensures g == h
  {
    if Matches(Month, c) {
      assert c[5] == c[5..][0];
    }
  }

  lemma {:induction false} FirstMatchIsAny(grains: seq<Grain>, g: Grain, c: string)
    requires g in grains
    ensures FirstMatch(grains, c) == Some(g) <==> Matches(g, c)
  {
    if Matches(grains[0], c) {
      if Matches(g, c) {
        GrammarsExclude(grains[0], g, c);
      }
    } else if g != grains[0] {
      FirstMatchIsAny(grains[1..], g, c);
    }
  }

  /** Detection does not depend on the order of the grammars. */
  lemma DetectIsMatch(g: Grain, c: string)
    ensures DetectGrain(c) == Some(g) <==> Matches(g, c)
  {
    assert g in GRAMMARS by {
      match g
      case Date => assert GRAMMARS[0] == g;
      case Week => assert GRAMMARS[1] == g;
      case Month => assert GRAMMARS[2] == g;
      case Quarter => assert GRAMMARS[3] == g;
      case Year => assert GRAMMARS[4] == g;
    }
    FirstMatchIsAny(GRAMMARS, g, c);
  }

  // ----- Rendering -------------------------------------------------------------------------------

  /** `n` in decimal, zero-padded to `width` digits. */
  function Pad(n: nat, width: nat): (s: string)
    ensures |s| == width && Digits(s)
  {
    if width == 0 then "" else Pad(n / 10, width - 1) + [DigitChar(n % 10)]
  }

  function Limit(width: nat): (n: nat)
    ensures n >= 1
  {
    if width == 0 then 1 else 10 * Limit(width - 1)
  }

  lemma {:induction false} PadOfValue(s: string)
    requires Digits(s)
    ensures Value(s) < Limit(|s|) && Pad(Value(s), |s|) == s
  {
    if s != "" {
      var n := |s| - 1;
      PadOfValue(s[..n]);
      var d := s[n] as int - '0' as int;
      assert Value(s) / 10 == Value(s[..n]) && Value(s) % 10 == d;
      assert DigitChar(d) == s[n];
      assert s == s[..n] + [s[n]];
    }
  }

  lemma {:induction false} ValueOfPad(n: nat, width: nat)
    requires n < Limit(width)
    ensures Value(Pad(n, width)) == n
  {
    if width > 0 {
      ValueOfPad(n / 10, width - 1);
      var s := Pad(n, width);
      assert s[..width - 1] == Pad(n / 10, width - 1);
      assert DigitChar(n % 10) as int - '0' as int == n % 10;
    }
  }

  predicate InRange(g: Grain, parts: seq<nat>) {
    match g
    case Date => |parts| == 3 && parts[0] < 10000 && parts[1] < 100 && parts[2] < 100
    case Quarter => |parts| == 2 && parts[0] < 10000 && 1 <= parts[1] <= 4
    case Year => |parts| == 1 && parts[0] < 10000
    case _ => |parts| == 2 && parts[0] < 10000 && parts[1] < 100
  }

  function Render(g: Grain, parts: seq<nat>): string
    requires InRange(g, parts)
  {
    match g
    case Date => Pad(parts[0], 4) + "-" + Pad(parts[1], 2) + "-" + Pad(parts[2], 2)
    case Week => Pad(parts[0], 4) + "-W" + Pad(parts[1], 2)
    case Month => Pad(parts[0], 4) + "-" + Pad(parts[1], 2)
    case Quarter => Pad(parts[0], 4) + "-Q" + Pad(parts[1], 1)
    case Year => Pad(parts[0], 4)
  }

  lemma RenderMatches(g: Grain, parts: seq<nat>)
    requires InRange(g, parts)
    ensures Matches(g, Render(g, parts))
    ensures Components(g, Render(g, parts)) == parts
  {
    var c := Render(g, parts);
    assert Limit(1) == 10 && Limit(2) == 100 && Limit(4) == 10000 by {
      assert Limit(3) == 1000;
    }
    ValueOfPad(parts[0], 4);
    assert c[..4] == Pad(parts[0], 4);
    match g
    case Date =>
      ValueOfPad(parts[1], 2);
      ValueOfPad(parts[2], 2);
      assert c[5..7] == Pad(parts[1], 2) && c[8..] == Pad(parts[2], 2);
    case Week =>
      ValueOfPad(parts[1], 2);
      assert c[6..] == Pad(parts[1], 2);
    case Month =>
      ValueOfPad(parts[1], 2);
      assert c[5..] == Pad(parts[1], 2);
    case Quarter =>
      ValueOfPad(parts[1], 1);
      assert c[6..] == Pad(parts[1], 1);
      assert c[6] == c[6..][0] == DigitChar(parts[1] % 10);
    case Year =>
      assert c[..4] == c;
  }

  lemma DateRendered(c: string)
    requires Matches(Date, c)
    ensures InRange(Date, Components(Date, c)) && Render(Date, Components(Date, c)) == c
  {
    assert Limit(2) == 100 && Limit(3) == 1000 && Limit(4) == 10000;
    PadOfValue(c[..4]);
    PadOfValue(c[5..7]);
    PadOfValue(c[8..]);
    assert c == c[..4] + "-" + c[5..7] + "-" + c[8..];
  }

  lemma QuarterRendered(c: string)
    requires Matches(Quarter, c)
    ensures InRange(Quarter, Components(Quarter, c)) && Render(Quarter, Components(Quarter, c)) == c
  {
    assert Limit(1) == 10 && Limit(2) == 100 && Limit(3) == 1000 && Limit(4) == 10000;
    PadOfValue(c[..4]);
    var q := c[6..];
    assert q[..0] == "" && q[0] == c[6];
    PadOfValue(q);
    assert c == c[..4] + "-Q" + q;
  }

  lemma RenderOfComponents(g: Grain, c: string)
    requires Matches(g, c)
    ensures InRange(g, Components(g, c)) && Render(g, Components(g, c)) == c
  {
    match g
    case Date => DateRendered(c);
    case Week =>
      assert Limit(2) == 100 && Limit(3) == 1000 && Limit(4) == 10000;
      PadOfValue(c[..4]);
      PadOfValue(c[6..]);
      assert c == c[..4] + "-W" + c[6..];
    case Month =>
      assert Limit(2) == 100 && Limit(3) == 1000 && Limit(4) == 10000;
      PadOfValue(c[..4]);
      PadOfValue(c[5..]);
      assert c == c[..4] + "-" + c[5..];
    case Quarter => QuarterRendered(c);
    case Year =>
      assert Limit(2) == 100 && Limit(3) == 1000 && Limit(4) == 10000;
      PadOfValue(c);
  }

  /** Parsing inverts rendering: a code parses to `g` and `parts` exactly when it is their rendering. */
  lemma ParseIffRender(c: string, g: Grain, parts: seq<nat>)
    ensures Parse(c) == Some(PeriodCode(g, c, parts)) <==> InRange(g, parts) && c == Render(g, parts)
  {
    DetectIsMatch(g, c);
    if Matches(g, c) {
      RenderOfComponents(g, c);
    }
    if InRange(g, parts) {
      RenderMatches(g, parts);
    }
  }

  // ----- Order -----------------------------------------------------------------------------------

  /** Big-endian order of components. */
  predicate PartsLeq(a: seq<nat>, b: seq<nat>) {
    a == [] || (b != [] && (a[0] < b[0] || (a[0] == b[0] && PartsLeq(a[1..], b[1..]))))
  }

  /** Fixed-width digits compare as numbers, whatever follows them. */
  lemma {:induction false} FieldOrder(a: string, x: string, b: string, y: string)
    requires |a| == |b| && Digits(a) && Digits(b)
    ensures Leq(a + x, b + y) <==> Value(a) < Value(b) || (Value(a) == Value(b) && Leq(x, y))
  {
    if a == "" {
      assert a + x == x && b + y == y;
    } else {
      var n := |a| - 1;
      FieldOrder(a[..n], [a[n]] + x, b[..n], [b[n]] + y);
      assert a[..n] + ([a[n]] + x) == a + x && b[..n] + ([b[n]] + y) == b + y;
      assert ([a[n]] + x)[1..] == x && ([b[n]] + y)[1..] == y;
    }
  }

  lemma {:induction false} SamePrefix(p: string, x: string, y: string)
    ensures Leq(p + x, p + y) <==> Leq(x, y)
  {
    if p == "" {
      assert p + x == x && p + y == y;
    } else {
      assert (p + x)[1..] == p[1..] + x && (p + y)[1..] == p[1..] + y;
      SamePrefix(p[1..], x, y);
    }
  }

  /** A field of `n` digits followed by the separator `p`. */
  predicate Field(s: string, n: nat, p: string) {
    |s| >= n + |p| && Digits(s[..n]) && s[n..n + |p|] == p
  }

  lemma FirstField(a: string, b: string, n: nat, p: string)
    requires Field(a, n, p) && Field(b, n, p)
    ensures Leq(a, b) <==>
      Value(a[..n]) < Value(b[..n]) || (Value(a[..n]) == Value(b[..n]) && Leq(a[n + |p|..], b[n + |p|..]))
  {
    FieldOrder(a[..n], a[n..], b[..n], b[n..]);
    assert a == a[..n] + a[n..] && b == b[..n] + b[n..];
    SamePrefix(p, a[n + |p|..], b[n + |p|..]);
    assert a[n..] == p + a[n + |p|..] && b[n..] == p + b[n + |p|..];
  }

  lemma TwoFields(a: string, b: string, p: string)
    requires Field(a, 4, p) && Field(b, 4, p) && |a| == |b| && Digits(a[4 + |p|..]) && Digits(b[4 + |p|..])
    ensures Leq(a, b) <==> PartsLeq([Value(a[..4]), Value(a[4 + |p|..])], [Value(b[..4]), Value(b[4 + |p|..])])
  {
    FirstField(a, b, 4, p);
    LastField(a[4 + |p|..], b[4 + |p|..]);
  }

  lemma LastField(a: string, b: string)
    requires |a| == |b| && Digits(a) && Digits(b)
    ensures Leq(a, b) <==> PartsLeq([Value(a)], [Value(b)])
  {
    FieldOrder(a, "", b, "");
    assert a + "" == a && b + "" == b;
  }

  lemma DateOrder(a: string, b: string)
    requires Matches(Date, a) && Matches(Date, b)
    ensures Leq(a, b) <==> PartsLeq(Components(Date, a), Components(Date, b))
  {
    FirstField(a, b, 4, "-");
    var x, y := a[5..], b[5..];
    assert x[..2] == a[5..7] && y[..2] == b[5..7];
    FirstField(x, y, 2, "-");
    assert x[3..] == a[8..] && y[3..] == b[8..];
    LastField(a[8..], b[8..]);
  }

  /** Within a grain, string order is component order. */
  lemma StringOrderIsPeriodOrder(g: Grain, a: string, b: string)
    requires Matches(g, a) && Matches(g, b)
    ensures Leq(a, b) <==> PartsLeq(Components(g, a), Components(g, b))
  {
    match g
    case Date => DateOrder(a, b);
    case Week => TwoFields(a, b, "-W");
    case Month => TwoFields(a, b, "-");
    case Quarter => TwoFields(a, b, "-Q");
    case Year => LastField(a, b);
  }

  // ----- The monthly range -----------------------------------------------------------------------

  function YearOf(c: string): nat
    requires Matches(Month, c)
  {
    Value(c[..4])
  }

  function MonthOf(c: string): nat
    requires Matches(Month, c)
  {
    Value(c[5..])
  }

  /** `(y1, m1) <= (y2, m2)` */
  predicate MonthsLeq(y1: int, m1: int, y2: int, m2: int) {
    y1 < y2 || (y1 == y2 && m1 <= m2)
  }

  lemma PairOrder(y1: nat, m1: nat, y2: nat, m2: nat)
    ensures PartsLeq([y1, m1], [y2, m2]) <==> MonthsLeq(y1, m1, y2, m2)
  {
    assert [y1, m1][1..] == [m1] && [y2, m2][1..] == [m2];
    assert PartsLeq([m1], [m2]) <==> m1 <= m2;
  }

  lemma MonthOrder(a: string, b: string)
    requires Matches(Month, a) && Matches(Month, b)
    ensures Leq(a, b) <==> MonthsLeq(YearOf(a), MonthOf(a), YearOf(b), MonthOf(b))
    ensures a == b <==> YearOf(a) == YearOf(b) && MonthOf(a) == MonthOf(b)
  {
    TwoFields(a, b, "-");
    PairOrder(YearOf(a), MonthOf(a), YearOf(b), MonthOf(b));
    MonthRendered(a);
    MonthRendered(b);
  }

  lemma MonthRendered(c: string)
    requires Matches(Month, c)
    ensures YearOf(c) < 10000 && MonthOf(c) < 100 && c == Render(Month, [YearOf(c), MonthOf(c)])
  {
    RenderOfComponents(Month, c);
  }

  /** What the range lists: `start`, and the codes of real months that the string comparison selects. */
  predicate Selected(c: string, start: string, end: string) {
    Matches(Month, c) && Leq(start, c) && Leq(c, end) && (1 <= MonthOf(c) <= 12 || c == start)
  }

  predicate Earlier(c: string, year: int, month: int) {
    Matches(Month, c) && !MonthsLeq(year, month, YearOf(c), MonthOf(c))
  }

  /** The loop stands at `start`, or at a real month after it. */
  predicate Standing(start: string, year: nat, month: nat)
    requires Matches(Month, start)
  {
    || (year == YearOf(start) && month == MonthOf(start))
    || (1 <= month <= 12 && !MonthsLeq(year, month, YearOf(start), MonthOf(start)))
  }

  lemma OneMoreMonth(c: string, start: string, end: string, year: nat, month: nat)
    requires Matches(Month, start) && Matches(Month, end) && Standing(start, year, month) && year < 10000 && month < 100
    requires MonthsLeq(year, month, YearOf(end), MonthOf(end))
    ensures var (y, m) := if month + 1 > 12 then (year + 1, 1) else (year, month + 1);
            && Standing(start, y, m)
            && (Selected(c, start, end) && Earlier(c, y, m)
                <==> (Selected(c, start, end) && Earlier(c, year, month)) || c == Render(Month, [year, month]))
  {
    var code := Render(Month, [year, month]);
    RenderMatches(Month, [year, month]);
    MonthOrder(start, code);
    MonthOrder(code, end);
    if Matches(Month, c) {
      MonthOrder(c, code);
      MonthOrder(start, c);
    }
  }

  /** The codes listed when the loop stands at `year` and `month`. */
  ghost predicate Listed(periods: seq<string>, start: string, end: string, year: nat, month: nat) {
    Increasing(periods) && forall c :: c in periods <==> Selected(c, start, end) && Earlier(c, year, month)
  }

  lemma ListOneMore(periods: seq<string>, start: string, end: string, year: nat, month: nat)
    requires Matches(Month, start) && Matches(Month, end) && Standing(start, year, month) && year < 10000 && month < 100
    requires MonthsLeq(year, month, YearOf(end), MonthOf(end)) && Listed(periods, start, end, year, month)
    ensures var (y, m) := if month + 1 > 12 then (year + 1, 1) else (year, month + 1);
            Standing(start, y, m) && Listed(periods + [Render(Month, [year, month])], start, end, y, m)
  {
    var code := Render(Month, [year, month]);
    RenderMatches(Month, [year, month]);
    forall c | c in periods
      ensures Leq(c, code) && c != code
    {
      MonthOrder(c, code);
    }
    forall c
      ensures var (y, m) := if month + 1 > 12 then (year + 1, 1) else (year, month + 1);
              Selected(c, start, end) && Earlier(c, y, m)
              <==> (Selected(c, start, end) && Earlier(c, year, month)) || c == code
    {
      OneMoreMonth(c, start, end, year, month);
    }
    OneMoreMonth(code, start, end, year, month);
  }

  lemma NoneBefore(start: string, end: string)
    requires Matches(Month, start)
    ensures Listed([], start, end, YearOf(start), MonthOf(start))
  {
    forall c | Selected(c, start, end)
      ensures !Earlier(c, YearOf(start), MonthOf(start))
    {
      MonthOrder(start, c);
    }
  }

  lemma AllBefore(start: string, end: string, year: nat, month: nat)
    requires Matches(Month, end) && !MonthsLeq(year, month, YearOf(end), MonthOf(end))
    ensures forall c :: Selected(c, start, end) ==> Earlier(c, year, month)
  {
    forall c | Selected(c, start, end)
      ensures Earlier(c, year, month)
    {
      MonthOrder(c, end);
    }
  }

  predicate Increasing(codes: seq<string>) {
    forall i, j :: 0 <= i < j < |codes| ==> Leq(codes[i], codes[j]) && codes[i] != codes[j]
  }

  function Serial(year: int, month: int): int {
    12 * year + month
  }

  predicate RealMonth(c: string) {
    Matches(Month, c) && 1 <= MonthOf(c) <= 12
  }

  /** Python's `s[i:j]`. */
  function Slice(s: string, i: nat, j: nat): string
    requires i <= j
  {
    if |s| <= i then "" else if |s| <= j then s[i..] else s[i..j]
  }

  /** `int(s[:4])` and `int(s[5:7])` succeed. */
  predicate HasMonth(s: string) {
    && Slice(s, 0, 4) != "" && Digits(Slice(s, 0, 4))
    && Slice(s, 5, 7) != "" && Digits(Slice(s, 5, 7))
  }

  lemma {:induction false} LimitGrows(a: nat, b: nat)
    requires a <= b
    ensures Limit(a) <= Limit(b)
    decreases b
  {
    if a < b {
      LimitGrows(a, b - 1);
    }
  }

  lemma PartsInRange(s: string)
    requires HasMonth(s)
    ensures Value(Slice(s, 0, 4)) < 10000 && Value(Slice(s, 5, 7)) < 100
  {
    assert Limit(1) == 10 && Limit(2) == 100 && Limit(3) == 1000 && Limit(4) == 10000;
    PadOfValue(Slice(s, 0, 4));
    LimitGrows(|Slice(s, 0, 4)|, 4);
    PadOfValue(Slice(s, 5, 7));
    LimitGrows(|Slice(s, 5, 7)|, 2);
  }

  /** The month code that the slices of `s` denote. */
  function MonthPart(s: string): (c: string)
    requires HasMonth(s)
    ensures Matches(Month, c)
    ensures YearOf(c) == Value(Slice(s, 0, 4)) && MonthOf(c) == Value(Slice(s, 5, 7))
  {
    PartsInRange(s);
    var parts := [Value(Slice(s, 0, 4)), Value(Slice(s, 5, 7))];
    RenderMatches(Month, parts);
    Render(Month, parts)
  }

  /** The slices are numbers when there are six characters, and the first four, the sixth and any seventh are digits. */
  lemma HasMonthWhen(s: string)
    ensures HasMonth(s) <==>
      |s| >= 6 && forall i :: 0 <= i < 7 && i != 4 && i < |s| ==> '0' <= s[i] <= '9'
  {
    if |s| >= 6 {
      var year, month := Slice(s, 0, 4), Slice(s, 5, 7);
      assert forall i :: 0 <= i < 4 ==> year[i] == s[i];
      assert forall i :: 5 <= i < 7 && i < |s| ==> month[i - 5] == s[i];
      assert forall i :: 0 <= i < |month| ==> month[i] == s[i + 5];
    }
  }

  /** A month code is its own month part; so is, for a date, the code of its month. */
  lemma MonthPartIs(s: string)
    ensures Matches(Month, s) ==> HasMonth(s) && MonthPart(s) == s
    ensures Matches(Date, s) ==> HasMonth(s) && MonthPart(s) == s[..7]
  {
    if Matches(Month, s) {
      assert s[5..7] == s[5..];
      MonthOrder(MonthPart(s), s);
    }
    if Matches(Date, s) {
      var c := s[..7];
      assert c[..4] == s[..4] && c[5..] == s[5..7];
      MonthOrder(MonthPart(s), c);
    }
  }

  /** `_generate_monthly_range`; None is the ValueError of `int`. */
  method GenerateMonthlyRange(start: string, end: string) returns (r: Option<seq<string>>)
    ensures r.Some? <==> HasMonth(start) && HasMonth(end)
    ensures r.Some? ==> IsRange(r.value, MonthPart(start), MonthPart(end))
  {
    if !HasMonth(start) || !HasMonth(end) {
      return None;
    }
    var periods := MonthsBetween(MonthPart(start), MonthPart(end));
    r := Some(periods);
  }

  /**
   * Strictly increasing, `start` and the real month codes that the string comparison selects; for
   * real bounds, as many as there are months from one to the other.
   */
  ghost predicate IsRange(periods: seq<string>, start: string, end: string)
    requires Matches(Month, start) && Matches(Month, end)
  {
    && Increasing(periods)
    && (forall c :: c in periods <==> Selected(c, start, end))
    && (RealMonth(start) ==> forall c :: c in periods <==> RealMonth(c) && Leq(start, c) && Leq(c, end))
    && (RealMonth(start) && RealMonth(end) ==>
          |periods| == if Leq(start, end)
                       then Serial(YearOf(end), MonthOf(end)) - Serial(YearOf(start), MonthOf(start)) + 1
                       else 0)
  }

  /** The loop of `_generate_monthly_range`. */
  method MonthsBetween(start: string, end: string) returns (periods: seq<string>)
    requires Matches(Month, start) && Matches(Month, end)
    ensures IsRange(periods, start, end)
  {
    periods := [];
    var year, month := Value(start[..4]), Value(start[5..]);
    var endYear: int, endMonth: int := Value(end[..4]), Value(end[5..]);
    MonthRendered(start);
    MonthRendered(end);
    MonthOrder(start, end);
    NoneBefore(start, end);
    while MonthsLeq(year, month, endYear, endMonth)
      invariant Standing(start, year, month) && month < 100 && Listed(periods, start, end, year, month)
      invariant RealMonth(start) ==> |periods| == Serial(year, month) - Serial(YearOf(start), MonthOf(start))
      invariant RealMonth(start) && RealMonth(end) && Leq(start, end) ==>
                  Serial(year, month) <= Serial(endYear, endMonth) + 1
      invariant !Leq(start, end) ==> year == YearOf(start) && month == MonthOf(start)
      decreases endYear - year, 100 - month
    {
      ListOneMore(periods, start, end, year, month);
      periods := periods + [Render(Month, [year, month])];
      month := month + 1;
      if month > 12 {
        year, month := year + 1, 1;
      }
    }
    AllBefore(start, end, year, month);
  }
}
