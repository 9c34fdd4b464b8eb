/** The dashboard's display formatting (frontend/src/utils/format.js):
    uptime as "1d 2h 3m 4s" and latency as "12 ms". Numbers are modelled
    as integers; JavaScript's `%` keeps the sign of the dividend and
    `Math.floor` rounds down, both written out below. */
module Format {
  import opened Wrappers
  import Text


  /** JavaScript's `a % b` for a positive divisor: the remainder takes the
      sign of `a`. */
  function JsRem(a: int, b: int): (r: int)
    requires b > 0
    ensures a >= 0 ==> 0 <= r < b && r == a % b
    ensures a < 0 ==> -b < r <= 0
    ensures (a - r) % b == 0
  {
    if a >= 0 then
      RemainderLeavesMultiple(a, b);
      a % b
    else
      RemainderLeavesMultiple(-a, b);
      -((-a) % b)
  }

  /** Taking away the remainder leaves a multiple of `b`, and so does
      negating that. */
  lemma RemainderLeavesMultiple(n: int, b: int)
    requires b > 0
    ensures (n - n % b) % b == 0 && (-(n - n % b)) % b == 0
  {
    var q := n / b;
    assert n - n % b == q * b;
    MultipleRemainder(q, b);
    MultipleRemainder(-q, b);
    assert (-q) * b == -(q * b);
  }

  /** A multiple of `b` leaves no remainder. */
  lemma MultipleRemainder(k: int, b: int)
    requires b > 0
    ensures (k * b) % b == 0
  {
    var q, m := (k * b) / b, (k * b) % b;
    assert k * b == q * b + m;
    var d := k - q;
    assert d * b == m by { assert d * b == k * b - q * b; }
    if d >= 1 {
      AtLeastOneMultiple(d, b);
    } else if d <= -1 {
      assert (-d) * b == -m;
      AtLeastOneMultiple(-d, b);
    }
  }

  lemma {:induction false} AtLeastOneMultiple(d: int, b: int)
    requires d >= 1 && b > 0
    ensures d * b >= b
    decreases d
  {
    if d > 1 {
      AtLeastOneMultiple(d - 1, b);
      assert d * b == (d - 1) * b + b;
    }
  }

  /** The four components formatUptime computes: `Math.floor` of the
      quotients (Dafny's `/` by a positive divisor rounds down too). */
  function Days(seconds: int): int {
    seconds / 86400
  }

  function Hours(seconds: int): int {
    JsRem(seconds, 86400) / 3600
  }

  function Minutes(seconds: int): int {
    JsRem(seconds, 3600) / 60
  }

  function Secs(seconds: int): int {
    JsRem(seconds, 60)
  }

  /** For a non-negative count the components are the usual days, hours,
      minutes and seconds, and they add back up to it. */
  lemma UptimeComponents(n: nat)
    ensures Days(n) * 86400 + Hours(n) * 3600
            + Minutes(n) * 60 + Secs(n) == n
    ensures 0 <= Days(n) && 0 <= Hours(n) < 24 && 0 <= Minutes(n) < 60 && 0 <= Secs(n) < 60
  {
    var d, r := n / 86400, n % 86400;
    var h, q := r / 3600, r % 3600;
    var m, s := q / 60, q % 60;
    assert Days(n) == d && Hours(n) == h;
    assert n == d * 86400 + r;
    assert n == (d * 24 + h) * 3600 + q;
    NestedRemainder(n, d * 24 + h, q, 3600);
    assert Minutes(n) == m;
    assert n == ((d * 24 + h) * 60 + m) * 60 + s;
    NestedRemainder(n, (d * 24 + h) * 60 + m, s, 60);
    assert Secs(n) == s;
  }

  /** The remainder of `a * k + b` by `k`, for `0 <= b < k`, is `b`. */
  lemma NestedRemainder(n: int, a: int, b: int, k: int)
    requires k > 0 && 0 <= b < k && n == a * k + b
    ensures n % k == b
  {
    var t := n / k - a;
    assert t * k == b - n % k by {
      assert n == (n / k) * k + n % k;
      assert (n / k) * k - a * k == t * k;
    }
    assert t == 0;
  }

  /** One part of the rendering: `${value}` followed by the unit letter. */
  function Part(value: int, unit: char): string {
    Text.IntToString(value) + [unit]
  }

  /** A component of the rendering before it is turned into text. */
  datatype Piece = Piece(value: int, unit: char)

  /** The pieces formatUptime pushes for the given components: days,
      hours and minutes when positive, then the seconds when positive or
      when nothing was pushed before. */
  function Pieces(d: int, h: int, m: int, s: int): seq<Piece> {
    var leading := IfPositive(d, 'd') + IfPositive(h, 'h') + IfPositive(m, 'm');
    leading + LastPiece(s, leading)
  }

  /** The piece for a component pushed only when positive. */
  function IfPositive(value: int, unit: char): seq<Piece> {
    if value > 0 then [Piece(value, unit)] else []
  }

  /** The seconds piece, pushed when positive or when nothing was pushed
      before. */
  function LastPiece(s: int, leading: seq<Piece>): seq<Piece> {
    if s > 0 || leading == [] then [Piece(s, 's')] else []
  }

  /** Each piece as text: `${value}` then the unit letter. */
  function Render(ps: seq<Piece>): (parts: seq<string>)
    ensures |parts| == |ps|
  {
    seq(|ps|, i requires 0 <= i < |ps| => Part(ps[i].value, ps[i].unit))
  }

  function UptimeParts(seconds: int): seq<string> {
    Render(Pieces(Days(seconds), Hours(seconds), Minutes(seconds), Secs(seconds)))
  }

  /** formatUptime: "0s" for zero (the falsy case), otherwise the parts
      joined by single spaces; never empty. */
  function FormatUptime(seconds: int): (s: string)
    ensures seconds == 0 ==> s == "0s"
    ensures |s| > 0
  {
    if seconds == 0 then "0s"
    else
      var parts := UptimeParts(seconds);
      assert |parts[|parts| - 1]| > 0;
      JoinNonEmpty(parts);
      Text.Join(parts, ' ')
  }

  lemma {:induction false} JoinNonEmpty(parts: seq<string>)
    requires |parts| > 0 && |parts[|parts| - 1]| > 0
    ensures |Text.Join(parts, ' ')| > 0
    decreases |parts|
  {
    if |parts| > 1 {
      JoinNonEmpty(parts[1..]);
    }
  }

  /** The number of seconds a unit letter stands for. */
  function UnitSeconds(unit: char): int {
    match unit
    case 'd' => 86400
    case 'h' => 3600
    case 'm' => 60
    case _ => 1
  }

  /** Rank of a unit letter in the rendering's order. */
  function UnitRank(unit: char): int {
    match unit
    case 'd' => 0
    case 'h' => 1
    case 'm' => 2
    case _ => 3
  }

  /** A rendered part of the form digits + unit letter. */
  predicate WellFormedPart(p: string) {
    |p| >= 2 && Text.AllDigits(p[..|p| - 1]) && p[|p| - 1] in "dhms"
  }

  /** The seconds a rendered part stands for. */
  function PartSeconds(p: string): int
    requires WellFormedPart(p)
  {
    Text.DigitsValue(p[..|p| - 1]) * UnitSeconds(p[|p| - 1])
  }

  /** Reads a rendering back: the sum of what its parts stand for. */
  function ParseParts(parts: seq<string>): int
    requires forall i :: 0 <= i < |parts| ==> WellFormedPart(parts[i])
    decreases |parts|
  {
    if parts == [] then 0 else PartSeconds(parts[0]) + ParseParts(parts[1..])
  }

  lemma PartWellFormed(value: nat, unit: char)
    requires unit in "dhms"
    ensures WellFormedPart(Part(value, unit))
    ensures PartSeconds(Part(value, unit)) == value * UnitSeconds(unit)
    ensures Text.DigitsValue(Part(value, unit)[..|Part(value, unit)| - 1]) == value
    ensures Part(value, unit)[|Part(value, unit)| - 1] == unit
    ensures ' ' !in Part(value, unit)
  {
    var p := Part(value, unit);
    assert p[..|p| - 1] == Text.NatToString(value);
    Text.NatToStringRoundTrip(value);
    assert ' ' !in Text.NatToString(value) by {
      assert !Text.IsDigit(' ');
    }
  }

  /** What the pieces stand for in seconds. */
  function PiecesSeconds(ps: seq<Piece>): int
    decreases |ps|
  {
    if ps == [] then 0 else ps[0].value * UnitSeconds(ps[0].unit) + PiecesSeconds(ps[1..])
  }

  lemma {:induction false} PiecesSecondsAppend(a: seq<Piece>, b: seq<Piece>)
    ensures PiecesSeconds(a + b) == PiecesSeconds(a) + PiecesSeconds(b)
    decreases |a|
  {
    if a == [] {
      assert a + b == b;
    } else {
      assert (a + b)[1..] == a[1..] + b;
      PiecesSecondsAppend(a[1..], b);
    }
  }

  /** Units strictly follow the order d, h, m, s. */
  predicate UnitsOrdered(ps: seq<Piece>) {
    forall i :: 0 <= i < |ps| - 1 ==> UnitRank(ps[i].unit) < UnitRank(ps[i + 1].unit)
  }

  predicate RanksBelow(ps: seq<Piece>, r: int) {
    forall i :: 0 <= i < |ps| ==> UnitRank(ps[i].unit) < r
  }

  lemma OrderedAppend(a: seq<Piece>, b: seq<Piece>, r: int)
    requires UnitsOrdered(a) && RanksBelow(a, r)
    requires |b| <= 1 && (b != [] ==> UnitRank(b[0].unit) == r)
    ensures UnitsOrdered(a + b) && RanksBelow(a + b, r + 1)
  {
    if b != [] {
      var c := a + b;
      forall i | 0 <= i < |c| - 1
        ensures UnitRank(c[i].unit) < UnitRank(c[i + 1].unit)
      {
        if i + 1 < |a| {
          assert c[i] == a[i] && c[i + 1] == a[i + 1];
        } else {
          assert c[i] == a[i] && c[i + 1] == b[0];
        }
      }
    }
  }

  /** The pieces of non-negative components: at least one, units among
      d, h, m, s, no value negative, and no value zero unless all are. */
  lemma PiecesShape(d: nat, h: nat, m: nat, s: nat)
    ensures var ps := Pieces(d, h, m, s);
      && |ps| > 0
      && (forall i :: 0 <= i < |ps| ==> ps[i].value >= 0 && ps[i].unit in "dhms")
      && ((d > 0 || h > 0 || m > 0 || s > 0) ==> forall i :: 0 <= i < |ps| ==> ps[i].value > 0)
  {
  }

  /** The units of the pieces strictly follow the order d, h, m, s. */
  lemma PiecesOrdered(d: nat, h: nat, m: nat, s: nat)
    ensures UnitsOrdered(Pieces(d, h, m, s))
  {
    var pd, ph, pm := IfPositive(d, 'd'), IfPositive(h, 'h'), IfPositive(m, 'm');
    OrderedAppend([], pd, 0);
    assert [] + pd == pd;
    OrderedAppend(pd, ph, 1);
    OrderedAppend(pd + ph, pm, 2);
    OrderedAppend(pd + ph + pm, LastPiece(s, pd + ph + pm), 3);
  }

  /** Together the pieces stand for the components' seconds. */
  lemma PiecesTotal(d: nat, h: nat, m: nat, s: nat)
    ensures PiecesSeconds(Pieces(d, h, m, s)) ==
      d * 86400 + h * 3600 + m * 60 + s
  {
    var pd, ph, pm := IfPositive(d, 'd'), IfPositive(h, 'h'), IfPositive(m, 'm');
    var ps := LastPiece(s, pd + ph + pm);
    PiecesSecondsAppend(pd, ph);
    PiecesSecondsAppend(pd + ph, pm);
    PiecesSecondsAppend(pd + ph + pm, ps);
    assert PiecesSeconds(pd) == d * 86400;
    assert PiecesSeconds(ph) == h * 3600;
    assert PiecesSeconds(pm) == m * 60;
    assert PiecesSeconds(ps) == s;
  }

  /** Rendering non-negative pieces gives well-formed parts without
      spaces, each holding its piece's value and unit. */
  lemma RenderParts(ps: seq<Piece>)
    requires forall i :: 0 <= i < |ps| ==> ps[i].value >= 0 && ps[i].unit in "dhms"
    ensures var parts := Render(ps);
      forall i :: 0 <= i < |parts| ==>
        && WellFormedPart(parts[i]) && ' ' !in parts[i]
        && Text.DigitsValue(parts[i][..|parts[i]| - 1]) == ps[i].value
        && parts[i][|parts[i]| - 1] == ps[i].unit
  {
    var parts := Render(ps);
    forall i | 0 <= i < |ps|
      ensures WellFormedPart(parts[i]) && ' ' !in parts[i]
      ensures Text.DigitsValue(parts[i][..|parts[i]| - 1]) == ps[i].value
      ensures parts[i][|parts[i]| - 1] == ps[i].unit
    {
      PartWellFormed(ps[i].value, ps[i].unit);
    }
  }

  /** The rendered pieces read back as what the pieces stand for. */
  lemma {:induction false} RenderParses(ps: seq<Piece>)
    requires forall i :: 0 <= i < |ps| ==> ps[i].value >= 0 && ps[i].unit in "dhms"
    ensures forall i :: 0 <= i < |ps| ==> WellFormedPart(Render(ps)[i])
    ensures ParseParts(Render(ps)) == PiecesSeconds(ps)
    decreases |ps|
  {
    RenderParts(ps);
    if ps != [] {
      RenderParses(ps[1..]);
      assert Render(ps)[1..] == Render(ps[1..]);
      PartWellFormed(ps[0].value, ps[0].unit);
    }
  }

  /** For a positive count: every part is digits then a unit letter with
      no space, every shown value is positive, the units strictly follow
      the order d, h, m, s, and the parts read back as the count. */
  lemma UptimePartsMeaning(n: nat)
    requires n > 0
    ensures var parts := UptimeParts(n);
      && |parts| > 0
      && (forall i :: 0 <= i < |parts| ==> WellFormedPart(parts[i]) && ' ' !in parts[i])
      && (forall i :: 0 <= i < |parts| ==> Text.DigitsValue(parts[i][..|parts[i]| - 1]) > 0)
      && (forall i :: 0 <= i < |parts| - 1 ==>
            UnitRank(parts[i][|parts[i]| - 1]) < UnitRank(parts[i + 1][|parts[i + 1]| - 1]))
      && ParseParts(parts) == n
  {
    UptimeComponents(n);
    var ps := Pieces(Days(n), Hours(n), Minutes(n), Secs(n));
    PiecesShape(Days(n), Hours(n), Minutes(n), Secs(n));
    PiecesOrdered(Days(n), Hours(n), Minutes(n), Secs(n));
    PiecesTotal(Days(n), Hours(n), Minutes(n), Secs(n));
    RenderParts(ps);
    RenderParses(ps);
  }

  /** formatUptime loses nothing: a positive count can be read back from
      its rendering by splitting at the spaces. */
  lemma UptimeRoundTrip(n: nat)
    requires n > 0
    ensures var parts := Text.Split(FormatUptime(n), ' ');
      (forall i :: 0 <= i < |parts| ==> WellFormedPart(parts[i])) && ParseParts(parts) == n
  {
    UptimePartsMeaning(n);
    Text.SplitJoin(UptimeParts(n), ' ');
  }

  /** A whole hour renders without a "0s" tail. */
  lemma UptimeWholeHour()
    ensures FormatUptime(3600) == "1h"
  {
  }

  /** A count with every unit renders all four, largest first. */
  lemma UptimeAllUnits()
    ensures FormatUptime(90061) == "1d 1h 1m 1s"
  {
    assert Days(90061) == 1 && Hours(90061) == 1 && Minutes(90061) == 1 && Secs(90061) == 1;
    assert Part(1, 'd') == "1d" && Part(1, 'h') == "1h" && Part(1, 'm') == "1m" && Part(1, 's') == "1s";
    assert UptimeParts(90061) == ["1d", "1h", "1m", "1s"];
  }

  /** A negative count is truthy in JavaScript: it renders through the
      sign-keeping remainder as negative seconds. */
  lemma UptimeNegative()
    ensures FormatUptime(-5) == "-5s"
  {
  }

  /** formatLatency: "-" for a missing or negative value, otherwise the
      number and " ms". */
  function FormatLatency(ms: Option<int>): (s: string)
    ensures s == "-" <==> ms.None? || ms.value < 0
    ensures ms.Some? && ms.value >= 0 ==>
      && |s| > 3 && Text.AllDigits(s[..|s| - 3]) && s[|s| - 3..] == " ms"
      && Text.DigitsValue(s[..|s| - 3]) == ms.value
  {
    match ms
    case None => "-"
    case Some(v) =>
      if v < 0 then "-"
      else
        var s := Text.IntToString(v) + " ms";
        assert s[..|s| - 3] == Text.IntToString(v);
        Text.NatToStringRoundTrip(v);
        s
  }

  /** Distinct shown latencies render differently. */
  lemma FormatLatencyInjective(a: nat, b: nat)
    ensures FormatLatency(Some(a)) == FormatLatency(Some(b)) ==> a == b
  {
    if FormatLatency(Some(a)) == FormatLatency(Some(b)) {
      var s := FormatLatency(Some(a));
      assert s[..|s| - 3] == Text.NatToString(a);
      assert s[..|s| - 3] == Text.NatToString(b);
      Text.NatToStringRoundTrip(a);
      Text.NatToStringRoundTrip(b);
    }
  }
}
