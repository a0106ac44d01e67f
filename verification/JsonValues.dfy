/**
 The values a JSON text holds and how json.dumps writes them: integers, strings over all code points,
 null and the booleans. Every other value (a float, a list, an object) is Other.
 */
module JsonValues {
  import opened Common
  import opened Json
  import opened JsonText

  /** Python's strings hold surrogates too. */
  type CodePoint = n: nat | n < 0x11_0000

  datatype Value = Null | Bool(b: bool) | Int(n: int) | Text(t: seq<CodePoint>) | Other

  predicate High(c: int) {
    0xD800 <= c < 0xDC00
  }

  predicate Low(c: int) {
    0xDC00 <= c < 0xE000
  }

  /** The code point a pair of surrogates stands for. */
  function Pair(high: CodePoint, low: CodePoint): CodePoint
    requires High(high) && Low(low)
  {
    0x1_0000 + (high - 0xD800) * 1024 + (low - 0xDC00)
  }

  function HighOf(c: CodePoint): (high: CodePoint)
    requires c >= 0x1_0000
    ensures High(high)
  {
    0xD800 + (c - 0x1_0000) / 1024
  }

  function LowOf(c: CodePoint): (low: CodePoint)
    requires c >= 0x1_0000
    ensures Low(low)
  {
    0xDC00 + (c - 0x1_0000) % 1024
  }

  lemma PairSplits(c: CodePoint)
    requires c >= 0x1_0000
    ensures Pair(HighOf(c), LowOf(c)) == c
  {}

  lemma PairJoins(high: CodePoint, low: CodePoint)
    requires High(high) && Low(low)
    ensures Pair(high, low) >= 0x1_0000 && HighOf(Pair(high, low)) == high && LowOf(Pair(high, low)) == low
  {
    var d := (high - 0xD800) * 1024 + (low - 0xDC00);
    assert d / 1024 == high - 0xD800 && d % 1024 == low - 0xDC00;
  }

  // ---- hexadecimal -----------------------------------------------------------------------------

  const HEX := "0123456789abcdef"

  function HexDigit(c: char): (n: nat)
    requires IsHex(c)
    ensures n < 16
  {
    if c <= '9' then c as int - '0' as int
    else if c <= 'F' then c as int - 'A' as int + 10
    else c as int - 'a' as int + 10
  }

  function HexNumber(h: string): (n: nat)
    requires |h| == 4 && All(h, IsHex)
    ensures n < 0x1_0000
  {
    ((HexDigit(h[0]) * 16 + HexDigit(h[1])) * 16 + HexDigit(h[2])) * 16 + HexDigit(h[3])
  }

  function Hex4(n: nat): (h: string)
    requires n < 0x1_0000
    ensures |h| == 4
  {
    [HEX[n / 16 / 16 / 16], HEX[n / 16 / 16 % 16], HEX[n / 16 % 16], HEX[n % 16]]
  }

  lemma HexDigitReads(d: nat)
    requires d < 16
    ensures IsHex(HEX[d]) && HexDigit(HEX[d]) == d && !('A' <= HEX[d] <= 'F')
  {
    if d < 10 {
      assert HEX[..10] == "0123456789" && HEX[d] == HEX[..10][d];
      assert forall i :: 0 <= i < 10 ==> "0123456789"[i] as int == '0' as int + i;
    } else {
      assert HEX[10..] == "abcdef" && HEX[d] == HEX[10..][d - 10];
      assert forall i :: 0 <= i < 6 ==> "abcdef"[i] as int == 'a' as int + i;
    }
  }

  lemma {:induction false} HexReads(n: nat)
    requires n < 0x1_0000
    ensures All(Hex4(n), IsHex) && HexNumber(Hex4(n)) == n
  {
    HexDigitReads(n / 16 / 16 / 16);
    HexDigitReads(n / 16 / 16 % 16);
    HexDigitReads(n / 16 % 16);
    HexDigitReads(n % 16);
  }

  // ---- strings ---------------------------------------------------------------------------------

  function EscapeCode(c: char): CodePoint {
    if c == 'b' then 8 else if c == 'f' then 12 else if c == 'n' then 10 else if c == 'r' then 13
    else if c == 't' then 9 else c as int
  }

  function CodeOf(part: Part): CodePoint
    requires ShapedPart(part)
  {
    match part
    case Plain(c) => c as int
    case Escape(c) => EscapeCode(c)
    case Hex(h) => HexNumber(h)
  }

  /** Two `\u` parts that are a surrogate pair read as one code point. */
  predicate Joins(parts: seq<Part>)
    requires ShapedParts(parts)
  {
    |parts| >= 2 && parts[0].Hex? && parts[1].Hex? && High(CodeOf(parts[0])) && Low(CodeOf(parts[1]))
  }

  function Units(parts: seq<Part>): seq<CodePoint>
    requires ShapedParts(parts)
  {
    if parts == [] then []
    else if Joins(parts) then [Pair(CodeOf(parts[0]), CodeOf(parts[1]))] + Units(parts[2..])
    else [CodeOf(parts[0])] + Units(parts[1..])
  }

  /** Written as itself: printable ASCII but the quote and the backslash. */
  predicate Shown(c: int) {
    0x20 <= c <= 0x7E && c != 0x22 && c != 0x5C
  }

  /** Written with a letter after its backslash. */
  predicate Short(c: int) {
    c == 0x22 || c == 0x5C || c == 8 || c == 12 || c == 10 || c == 13 || c == 9
  }

  function ShortLetter(c: CodePoint): char
    requires Short(c)
  {
    if c == 8 then 'b' else if c == 12 then 'f' else if c == 10 then 'n' else if c == 13 then 'r'
    else if c == 9 then 't' else c as char
  }

  /** py_encode_basestring_ascii, one code point. */
  function PartsFor(c: CodePoint): seq<Part> {
    if Shown(c) then [Plain(c as char)]
    else if Short(c) then [Escape(ShortLetter(c))]
    else if c < 0x1_0000 then [Hex(Hex4(c))]
    else [Hex(Hex4(HighOf(c))), Hex(Hex4(LowOf(c)))]
  }

  function PartsOf(t: seq<CodePoint>): seq<Part> {
    if t == [] then [] else PartsFor(t[0]) + PartsOf(t[1..])
  }

  /** What a string reads back as: a high surrogate followed by a low one has become one code point. */
  function Rejoined(t: seq<CodePoint>): seq<CodePoint> {
    if t == [] then []
    else if |t| >= 2 && High(t[0]) && Low(t[1]) then [Pair(t[0], t[1])] + Rejoined(t[2..])
    else [t[0]] + Rejoined(t[1..])
  }

  predicate SplitPair(t: seq<CodePoint>) {
    exists k :: 0 <= k < |t| - 1 && High(t[k]) && Low(t[k + 1])
  }

  lemma {:induction false} PartsForShaped(c: CodePoint)
    ensures ShapedParts(PartsFor(c))
  {
    if !Shown(c) && !Short(c) {
      if c < 0x1_0000 {
        HexReads(c);
      } else {
        HexReads(HighOf(c));
        HexReads(LowOf(c));
      }
    }
  }

  lemma {:induction false} PartsOfShaped(t: seq<CodePoint>)
    ensures ShapedParts(PartsOf(t))
  {
    if t != [] {
      PartsForShaped(t[0]);
      PartsOfShaped(t[1..]);
    }
  }

  /** One code point's parts, by kind. */
  lemma {:induction false} SinglePart(c: CodePoint)
    requires c < 0x1_0000
    ensures |PartsFor(c)| == 1 && ShapedPart(PartsFor(c)[0]) && CodeOf(PartsFor(c)[0]) == c
    ensures PartsFor(c)[0].Hex? <==> !Shown(c) && !Short(c)
  {
    PartsForShaped(c);
    if !Shown(c) && !Short(c) {
      HexReads(c);
    }
  }

  lemma {:induction false} DoublePart(c: CodePoint)
    requires c >= 0x1_0000
    ensures |PartsFor(c)| == 2 && PartsFor(c)[0].Hex? && PartsFor(c)[1].Hex?
    ensures ShapedPart(PartsFor(c)[0]) && CodeOf(PartsFor(c)[0]) == HighOf(c)
    ensures ShapedPart(PartsFor(c)[1]) && CodeOf(PartsFor(c)[1]) == LowOf(c)
  {
    PartsForShaped(c);
    HexReads(HighOf(c));
    HexReads(LowOf(c));
  }

  /** Units of a part and those after it, when the two do not join. */
  lemma {:induction false} UnitsOfOne(p: Part, more: seq<Part>)
    requires ShapedPart(p) && ShapedParts(more)
    ensures ShapedParts([p] + more)
    ensures !Joins([p] + more) ==> Units([p] + more) == [CodeOf(p)] + Units(more)
  {
    assert ([p] + more)[1..] == more;
  }

  lemma {:induction false} UnitsOfTwo(p: Part, q: Part, more: seq<Part>)
    requires ShapedPart(p) && ShapedPart(q) && ShapedParts(more)
    ensures ShapedParts([p, q] + more)
    ensures p.Hex? && q.Hex? && High(CodeOf(p)) && Low(CodeOf(q)) ==>
              Units([p, q] + more) == [Pair(CodeOf(p), CodeOf(q))] + Units(more)
  {
    var parts := [p, q] + more;
    assert parts[2..] == more && parts[0] == p && parts[1] == q;
  }

  /** The first part of a written string is a low surrogate's only when its first code point is one. */
  lemma {:induction false} NextPart(t: seq<CodePoint>)
    requires t != []
    ensures PartsOf(t) != [] && ShapedPart(PartsOf(t)[0])
    ensures Low(CodeOf(PartsOf(t)[0])) ==> Low(t[0])
  {
    PartsOfShaped(t);
    if t[0] < 0x1_0000 {
      SinglePart(t[0]);
    } else {
      DoublePart(t[0]);
    }
    assert PartsOf(t)[0] == PartsFor(t[0])[0];
  }

  lemma {:induction false} AstralReadsBack(c: CodePoint, more: seq<Part>)
    requires c >= 0x1_0000 && ShapedParts(more)
    ensures ShapedParts(PartsFor(c) + more) && Units(PartsFor(c) + more) == [c] + Units(more)
  {
    var p, q := PartsFor(c)[0], PartsFor(c)[1];
    DoublePart(c);
    PairSplits(c);
    UnitsOfTwo(p, q, more);
    assert PartsFor(c) == [p, q];
  }

  lemma {:induction false} SplitPairReadsBack(high: CodePoint, low: CodePoint, more: seq<Part>)
    requires High(high) && Low(low) && ShapedParts(more)
    ensures var parts := PartsFor(high) + (PartsFor(low) + more);
            ShapedParts(parts) && Units(parts) == [Pair(high, low)] + Units(more)
  {
    var p, q := PartsFor(high)[0], PartsFor(low)[0];
    SinglePart(high);
    SinglePart(low);
    UnitsOfTwo(p, q, more);
    TwoFronts(PartsFor(high), PartsFor(low), p, q, more);
  }

  lemma {:induction false} TwoFronts(x: seq<Part>, y: seq<Part>, p: Part, q: Part, more: seq<Part>)
    requires x == [p] && y == [q]
    ensures x + (y + more) == [p, q] + more
  {}

  lemma {:induction false} OneReadsBack(c: CodePoint, more: seq<Part>)
    requires c < 0x1_0000 && ShapedParts(more)
    requires High(c) && more != [] ==> !Low(CodeOf(more[0]))
    ensures ShapedParts(PartsFor(c) + more) && Units(PartsFor(c) + more) == [c] + Units(more)
  {
    var p := PartsFor(c)[0];
    SinglePart(c);
    assert PartsFor(c) == [p];
    assert ([p] + more)[0] == p && (more != [] ==> ([p] + more)[1] == more[0]);
    UnitsOfOne(p, more);
  }

  /** A string's text reads back as the string, its split pairs joined. */
  lemma {:induction false} StringReadsBack(t: seq<CodePoint>)
    ensures ShapedParts(PartsOf(t)) && Units(PartsOf(t)) == Rejoined(t)
    decreases |t|
  {
    PartsOfShaped(t);
    if t != [] {
      if t[0] >= 0x1_0000 {
        StringReadsBack(t[1..]);
        AstralReadsBack(t[0], PartsOf(t[1..]));
      } else if |t| >= 2 && High(t[0]) && Low(t[1]) {
        assert t[1..][1..] == t[2..] && t[1..][0] == t[1];
        StringReadsBack(t[2..]);
        SplitPairReadsBack(t[0], t[1], PartsOf(t[2..]));
      } else {
        if |t| >= 2 {
          NextPart(t[1..]);
        }
        StringReadsBack(t[1..]);
        OneReadsBack(t[0], PartsOf(t[1..]));
      }
    }
  }

  /** Exactly the strings without a split pair survive. */
  lemma {:induction false} SurvivesIff(t: seq<CodePoint>)
    ensures Rejoined(t) == t <==> !SplitPair(t)
    ensures |Rejoined(t)| <= |t|
    decreases |t|
  {
    if t != [] {
      if |t| >= 2 && High(t[0]) && Low(t[1]) {
        SurvivesIff(t[2..]);
        assert SplitPair(t);
      } else {
        var u := t[1..];
        SurvivesIff(u);
        assert t == [t[0]] + u;
        if SplitPair(u) {
          var k :| 0 <= k < |u| - 1 && High(u[k]) && Low(u[k + 1]);
          assert High(t[k + 1]) && Low(t[k + 2]);
        }
        if SplitPair(t) {
          var k :| 0 <= k < |t| - 1 && High(t[k]) && Low(t[k + 1]);
          assert k > 0 && High(u[k - 1]) && Low(u[k]);
        }
      }
    }
  }

  // ---- integers --------------------------------------------------------------------------------

  function Number(digits: string): nat
    requires All(digits, IsDigit)
  {
    if digits == [] then 0
    else
      assert IsDigit(digits[|digits| - 1]);
      10 * Number(digits[..|digits| - 1]) + (digits[|digits| - 1] as int - '0' as int)
  }

  lemma {:induction false} DigitAppends(front: string, d: nat)
    requires All(front, IsDigit) && d < 10
    ensures All(front + [DIGITS[d]], IsDigit) && Number(front + [DIGITS[d]]) == 10 * Number(front) + d
  {
    assert forall i :: 0 <= i < 10 ==> DIGITS[i] as int == '0' as int + i;
    assert (front + [DIGITS[d]])[..|front|] == front;
  }

  lemma {:induction false} DecimalReadsBack(n: nat)
    ensures Digits(Decimal(n)) && Number(Decimal(n)) == n
    ensures |Decimal(n)| > 1 ==> Decimal(n)[0] != '0'
    ensures Decimal(n)[0] == '0' ==> n == 0
  {
    if n >= 10 {
      DecimalReadsBack(n / 10);
      DigitAppends(Decimal(n / 10), n % 10);
      assert Decimal(n)[0] == Decimal(n / 10)[0];
    } else {
      DigitAppends([], n);
      assert [] + [DIGITS[n]] == Decimal(n);
      assert forall i :: 0 <= i < 10 ==> DIGITS[i] as int == '0' as int + i;
    }
  }

  lemma {:induction false} NumberIsPositive(digits: string)
    requires Digits(digits) && digits[0] != '0'
    ensures Number(digits) >= 1
  {
    if |digits| > 1 {
      NumberIsPositive(digits[..|digits| - 1]);
    }
  }

  lemma DigitIsItsNumber(c: char) returns (d: nat)
    requires IsDigit(c)
    ensures d < 10 && d == c as int - '0' as int && DIGITS[d] == c
  {
    assert forall i :: 0 <= i < 10 ==> DIGITS[i] as int == '0' as int + i;
    d := c as int - '0' as int;
  }

  lemma {:induction false} DecimalOfDigit(d: nat)
    requires d < 10
    ensures Decimal(d) == [DIGITS[d]]
  {}

  lemma {:induction false} DecimalAppends(n: nat, m: nat, d: nat)
    requires m >= 1 && d < 10 && n == 10 * m + d
    ensures Decimal(n) == Decimal(m) + [DIGITS[d]]
  {
    assert n / 10 == m && n % 10 == d;
  }

  lemma {:induction false} NumberSplits(digits: string) returns (m: nat, d: nat)
    requires Digits(digits)
    ensures m == Number(digits[..|digits| - 1]) && Number(digits) == 10 * m + d
    ensures d < 10 && DIGITS[d] == digits[|digits| - 1]
  {
    d := DigitIsItsNumber(digits[|digits| - 1]);
    m := Number(digits[..|digits| - 1]);
  }

  /** Digits without a leading zero are their number's decimal text. */
  lemma {:induction false} DigitsAreDecimal(digits: string)
    requires Digits(digits) && (|digits| > 1 ==> digits[0] != '0')
    ensures Decimal(Number(digits)) == digits
  {
    var front := digits[..|digits| - 1];
    var m, d := NumberSplits(digits);
    assert digits == front + [digits[|digits| - 1]];
    if front == [] {
      DecimalOfDigit(d);
    } else {
      assert Decimal(m) == front && m >= 1 by {
        NumberIsPositive(front);
        DigitsAreDecimal(front);
      }
      DecimalAppends(Number(digits), m, d);
    }
  }

  // ---- values ----------------------------------------------------------------------------------

  function ValueOf(j: Json): Value
    requires Shaped(j)
  {
    match j
    case Word(w) => if w[0] == 'n' then Null else if w[0] == 't' || w[0] == 'f' then Bool(w[0] == 't') else Other
    case Num(neg, whole, frac, exp) =>
      if frac == [] && exp == [] then Int(if neg then -(Number(whole) as int) else Number(whole)) else Other
    case Str(parts) => Text(Units(parts))
    case _ => Other
  }

  function Abs(n: int): nat {
    if n < 0 then -n else n
  }

  /** An integer dumps cannot write: str() refuses it with a ValueError. */
  predicate TooLong(v: Value) {
    v.Int? && |Decimal(Abs(v.n))| > MAX_INT_DIGITS
  }

  /** How dumps writes a value. */
  function JsonOf(v: Value): Json
    requires v != Other
  {
    match v
    case Null => Word("null")
    case Bool(b) => Word(if b then "true" else "false")
    case Int(n) => Num(n < 0, Decimal(Abs(n)), [], [])
    case Text(t) => Str(PartsOf(t))
  }

  /** What a value reads back as. */
  function ReadBack(v: Value): Value {
    if v.Text? then Text(Rejoined(v.t)) else v
  }

  lemma {:induction false} ValueReadsBack(v: Value)
    requires v != Other && !TooLong(v)
    ensures Shaped(JsonOf(v)) && Depth(JsonOf(v)) == 0 && ValueOf(JsonOf(v)) == ReadBack(v)
  {
    match v
    case Null =>
    case Bool(b) =>
    case Int(n) => DecimalReadsBack(Abs(n));
    case Text(t) => StringReadsBack(t);
  }

  // ---- what dumps writes -----------------------------------------------------------------------

  /** Written as dumps would: no other spelling of the same character. */
  predicate TightPart(part: Part)
    requires ShapedPart(part)
  {
    match part
    case Plain(c) => Shown(c as int)
    case Escape(c) => c != '/'
    case Hex(h) => !Shown(HexNumber(h)) && !Short(HexNumber(h)) && h == Hex4(HexNumber(h))
  }

  predicate TightParts(parts: seq<Part>)
    requires ShapedParts(parts)
  {
    forall k :: 0 <= k < |parts| ==> TightPart(parts[k])
  }

  /** No sign on a zero, and each character of a string written as dumps writes it. */
  predicate Tight(j: Json)
    requires Shaped(j)
  {
    match j
    case Num(neg, whole, _, _) => !(neg && whole == "0")
    case Str(parts) => TightParts(parts)
    case _ => true
  }

  lemma {:induction false} HexIsTight(n: nat)
    requires n < 0x1_0000 && !Shown(n) && !Short(n)
    ensures ShapedPart(Hex(Hex4(n))) && TightPart(Hex(Hex4(n)))
  {
    HexReads(n);
  }

  lemma {:induction false} ShortIsTight(c: CodePoint)
    requires Short(c)
    ensures ShapedPart(Escape(ShortLetter(c))) && TightPart(Escape(ShortLetter(c)))
  {}

  lemma {:induction false} PartsForTight(c: CodePoint)
    ensures ShapedParts(PartsFor(c)) && TightParts(PartsFor(c))
  {
    PartsForShaped(c);
    if Shown(c) {
    } else if Short(c) {
      ShortIsTight(c);
    } else if c < 0x1_0000 {
      HexIsTight(c);
    } else {
      HexIsTight(HighOf(c));
      HexIsTight(LowOf(c));
    }
  }

  lemma {:induction false} PartsOfTight(t: seq<CodePoint>)
    ensures ShapedParts(PartsOf(t)) && TightParts(PartsOf(t))
  {
    if t != [] {
      PartsForTight(t[0]);
      PartsOfTight(t[1..]);
    }
  }

  /** A tight part is the one its code point is written with. */
  lemma {:induction false} TightPartIsWritten(p: Part)
    requires ShapedPart(p) && TightPart(p)
    ensures CodeOf(p) < 0x1_0000 && PartsFor(CodeOf(p)) == [p]
  {}

  lemma {:induction false} TightPairIsWritten(p: Part, q: Part)
    requires ShapedPart(p) && ShapedPart(q) && TightPart(p) && TightPart(q)
    requires p.Hex? && q.Hex? && High(CodeOf(p)) && Low(CodeOf(q))
    ensures PartsFor(Pair(CodeOf(p), CodeOf(q))) == [p, q]
  {
    PairJoins(CodeOf(p), CodeOf(q));
  }

  lemma {:induction false} FrontSplits<T>(s: seq<T>, k: nat)
    requires 1 <= k <= 2 && k <= |s|
    ensures s == (if k == 1 then [s[0]] else [s[0], s[1]]) + s[k..]
  {}

  lemma {:induction false} TightSlice(parts: seq<Part>, k: nat)
    requires k <= |parts| && ShapedParts(parts) && TightParts(parts)
    ensures ShapedParts(parts[k..]) && TightParts(parts[k..])
  {}

  lemma {:induction false} OneWritten(p: Part, rest: seq<Part>)
    requires ShapedPart(p) && TightPart(p) && ShapedParts(rest) && PartsOf(Units(rest)) == rest
    ensures PartsOf([CodeOf(p)] + Units(rest)) == [p] + rest
  {
    TightPartIsWritten(p);
    assert ([CodeOf(p)] + Units(rest))[1..] == Units(rest);
  }

  lemma {:induction false} PairWritten(p: Part, q: Part, rest: seq<Part>)
    requires ShapedPart(p) && TightPart(p) && ShapedPart(q) && TightPart(q)
    requires p.Hex? && q.Hex? && High(CodeOf(p)) && Low(CodeOf(q))
    requires ShapedParts(rest) && PartsOf(Units(rest)) == rest
    ensures PartsOf([Pair(CodeOf(p), CodeOf(q))] + Units(rest)) == [p, q] + rest
  {
    var c := Pair(CodeOf(p), CodeOf(q));
    TightPairIsWritten(p, q);
    assert ([c] + Units(rest))[1..] == Units(rest) && ([c] + Units(rest))[0] == c;
  }

  lemma {:induction false} TightIsWritten(parts: seq<Part>)
    requires ShapedParts(parts) && TightParts(parts)
    ensures PartsOf(Units(parts)) == parts
    decreases |parts|
  {
    if parts != [] {
      var k := if Joins(parts) then 2 else 1;
      var rest := parts[k..];
      TightSlice(parts, k);
      TightIsWritten(rest);
      FrontSplits(parts, k);
      if Joins(parts) {
        PairWritten(parts[0], parts[1], rest);
      } else {
        OneWritten(parts[0], rest);
      }
    }
  }

  lemma {:induction false} IntegerWrittenIffTight(neg: bool, whole: string)
    requires ShapedNum(whole, [], [])
    ensures var n := if neg then -(Number(whole) as int) else Number(whole);
            (neg == (n < 0) && whole == Decimal(Abs(n))) <==> !(neg && whole == "0")
  {
    DigitsAreDecimal(whole);
    DecimalReadsBack(Number(whole));
    if Number(whole) == 0 {
      DecimalOfDigit(0);
    }
  }

  lemma {:induction false} StringWrittenIffTight(parts: seq<Part>)
    requires ShapedParts(parts)
    ensures PartsOf(Units(parts)) == parts <==> TightParts(parts)
  {
    PartsOfTight(Units(parts));
    if TightParts(parts) {
      TightIsWritten(parts);
    }
  }

  /** A value's text is the one dumps writes exactly when it is tight. */
  lemma {:induction false} WrittenIffTight(j: Json)
    requires Shaped(j) && ValueOf(j) != Other
    ensures JsonOf(ValueOf(j)) == j <==> Tight(j)
  {
    match j
    case Word(w) =>
    case Num(neg, whole, frac, exp) => IntegerWrittenIffTight(neg, whole);
    case Str(parts) => StringWrittenIffTight(parts);
  }
}
