/**
 The JSON texts json.loads reads (RFC 8259, and the stdlib's NaN and Infinity), as trees that keep every
 character: spaces, spellings of numbers, escapes. Scanning is the inverse of writing.
 */
module Json {
  import opened Common

  /** One character of a string: itself, `\n` and the like, or `\u` and four hexadecimal digits. */
  datatype Part = Plain(c: char) | Escape(c: char) | Hex(h: string)

  /** `obj`: braces instead of brackets. */
  datatype Json =
    | Word(w: string)
    | Num(neg: bool, whole: string, frac: string, exp: string)
    | Str(parts: seq<Part>)
    | Empty(obj: bool, space: string)
    | Full(obj: bool, items: Items)

  /** A member's name, with the spaces around its colon. */
  datatype Key = Key(parts: seq<Part>, before: string, after: string)

  /** An item between its spaces, and those after its comma. */
  datatype Items = Item(lead: string, key: Option<Key>, value: Json, trail: string, more: Option<Items>)

  // ---- lexical shape ---------------------------------------------------------------------------

  const ESCAPED := "\"\\/bfnrt"

  /** The default of sys.get_int_max_str_digits: a longer integer is a ValueError, read or written. */
  const MAX_INT_DIGITS := 4300

  predicate IsSpace(c: char) {
    c == ' ' || c == '\t' || c == '\n' || c == '\r'
  }

  predicate IsDigit(c: char) {
    '0' <= c <= '9'
  }

  predicate IsHex(c: char) {
    IsDigit(c) || 'a' <= c <= 'f' || 'A' <= c <= 'F'
  }

  predicate IsPlain(c: char) {
    c >= ' ' && c != '"' && c != '\\'
  }

  predicate All(s: string, p: char -> bool) {
    forall k :: 0 <= k < |s| ==> p(s[k])
  }

  /** The one word a value may be that starts so. */
  function WordFrom(c: char): Option<string> {
    if c == 'n' then Some("null") else if c == 't' then Some("true") else if c == 'f' then Some("false")
    else if c == 'N' then Some("NaN") else if c == 'I' then Some("Infinity") else if c == '-' then Some("-Infinity")
    else None
  }

  predicate IsWord(w: string) {
    w != [] && WordFrom(w[0]) == Some(w)
  }

  predicate ShapedPart(part: Part) {
    match part
    case Plain(c) => IsPlain(c)
    case Escape(c) => c in ESCAPED
    case Hex(h) => |h| == 4 && All(h, IsHex)
  }

  predicate ShapedParts(parts: seq<Part>) {
    forall k :: 0 <= k < |parts| ==> ShapedPart(parts[k])
  }

  predicate Digits(s: string) {
    s != [] && All(s, IsDigit)
  }

  predicate Fraction(s: string) {
    s == [] || (s[0] == '.' && Digits(s[1..]))
  }

  predicate Signed(s: string) {
    Digits(s) || (s != [] && (s[0] == '+' || s[0] == '-') && Digits(s[1..]))
  }

  predicate Exponent(s: string) {
    s == [] || ((s[0] == 'e' || s[0] == 'E') && Signed(s[1..]))
  }

  predicate ShapedNum(whole: string, frac: string, exp: string) {
    && Digits(whole) && (|whole| > 1 ==> whole[0] != '0') && Fraction(frac) && Exponent(exp)
    && (frac == [] && exp == [] ==> |whole| <= MAX_INT_DIGITS)
  }

  predicate ShapedKey(key: Key) {
    ShapedParts(key.parts) && All(key.before, IsSpace) && All(key.after, IsSpace)
  }

  predicate Shaped(j: Json)
    decreases j
  {
    match j
    case Word(w) => IsWord(w)
    case Num(_, whole, frac, exp) => ShapedNum(whole, frac, exp)
    case Str(parts) => ShapedParts(parts)
    case Empty(_, space) => All(space, IsSpace)
    case Full(obj, items) => ShapedItems(obj, items)
  }

  /** Members have names, elements have none. */
  predicate ShapedItems(obj: bool, items: Items)
    decreases items
  {
    && All(items.lead, IsSpace) && All(items.trail, IsSpace)
    && (items.key.Some? <==> obj) && (items.key.Some? ==> ShapedKey(items.key.value))
    && Shaped(items.value) && (items.more.Some? ==> ShapedItems(obj, items.more.value))
  }

  /** How deep containers nest. */
  function Depth(j: Json): nat {
    match j
    case Empty(_, _) => 1
    case Full(_, items) => 1 + ItemsDepth(items)
    case _ => 0
  }

  function ItemsDepth(items: Items): nat {
    var d := Depth(items.value);
    var m := if items.more.Some? then ItemsDepth(items.more.value) else 0;
    if d < m then m else d
  }

  // ---- writing ---------------------------------------------------------------------------------

  function Opener(obj: bool): char {
    if obj then '{' else '['
  }

  function Closer(obj: bool): char {
    if obj then '}' else ']'
  }

  /** The grammar's fixed texts: its words, its brackets, its spaces, its hexadecimal digits. */
  lemma GrammarExact(w: string, c: char)
    ensures IsWord(w) <==>
              w == "null" || w == "true" || w == "false" || w == "NaN" || w == "Infinity" || w == "-Infinity"
    ensures [Opener(true), Closer(true), Opener(false), Closer(false)] == "{}[]"
    ensures IsSpace(c) <==> c in " \t\n\r"
    ensures IsHex(c) <==> c in "0123456789abcdefABCDEF"
  {
    var spaces, digits := " \t\n\r", "0123456789abcdefABCDEF";
    assert IsSpace(c) ==> c == spaces[0] || c == spaces[1] || c == spaces[2] || c == spaces[3];
    if IsDigit(c) {
      assert digits[c as int - '0' as int] == c;
    } else if 'a' <= c <= 'f' {
      assert digits[c as int - 'a' as int + 10] == c;
    } else if 'A' <= c <= 'F' {
      assert digits[c as int - 'A' as int + 16] == c;
    }
  }

  function PartText(part: Part): (s: string)
    ensures s != []
  {
    match part
    case Plain(c) => [c]
    case Escape(c) => ['\\', c]
    case Hex(h) => ['\\', 'u'] + h
  }

  /** The string's characters and closing quote, then `rest`. */
  function WriteParts(parts: seq<Part>, rest: string): string {
    if parts == [] then ['"'] + rest else PartText(parts[0]) + WriteParts(parts[1..], rest)
  }

  function Sign(neg: bool): string {
    if neg then ['-'] else []
  }

  /** The text of `j`, then `rest`. */
  function Write(j: Json, rest: string): string {
    match j
    case Word(w) => w + rest
    case Num(neg, whole, frac, exp) => Sign(neg) + (whole + (frac + (exp + rest)))
    case Str(parts) => ['"'] + WriteParts(parts, rest)
    case Empty(obj, space) => [Opener(obj)] + (space + ([Closer(obj)] + rest))
    case Full(obj, items) => [Opener(obj)] + WriteItems(items, [Closer(obj)] + rest)
  }

  function WriteKey(key: Option<Key>, rest: string): string {
    if key.None? then rest
    else ['"'] + WriteParts(key.value.parts, key.value.before + ([':'] + (key.value.after + rest)))
  }

  function WriteItems(items: Items, rest: string): string {
    var tail := if items.more.Some? then [','] + WriteItems(items.more.value, rest) else rest;
    items.lead + WriteKey(items.key, Write(items.value, items.trail + tail))
  }

  // ---- scanning --------------------------------------------------------------------------------

  /** Deep: the scanner met one container more than the interpreter lets it nest. */
  datatype Scan<+T> = Got(value: T, rest: string) | Bad | Deep

  /** The longest front of `s` made of such characters. */
  function Span(s: string, p: char -> bool): (front: string)
    ensures |front| <= |s| && front == s[..|front|] && All(front, p)
    ensures |front| < |s| ==> !p(s[|front|])
  {
    if s == [] || !p(s[0]) then [] else
      var front := Span(s[1..], p);
      assert s[..1 + |front|] == [s[0]] + s[1..][..|front|];
      [s[0]] + front
  }

  function ScanPart(s: string): (r: Scan<Part>)
    ensures r.Got? ==> |r.rest| < |s|
    ensures !r.Deep?
  {
    if s == [] then Bad
    else if s[0] == '\\' then
      if |s| >= 6 && s[1] == 'u' && All(s[2..6], IsHex) then Got(Hex(s[2..6]), s[6..])
      else if |s| >= 2 && s[1] in ESCAPED then Got(Escape(s[1]), s[2..])
      else Bad
    else if IsPlain(s[0]) then Got(Plain(s[0]), s[1..])
    else Bad
  }

  /** scanstring: the parts up to the closing quote. */
  function ScanParts(s: string): (r: Scan<seq<Part>>)
    ensures r.Got? ==> |r.rest| < |s|
    ensures !r.Deep?
    decreases |s|
  {
    if s != [] && s[0] == '"' then Got([], s[1..])
    else
      var part := ScanPart(s);
      if !part.Got? then Bad
      else
        var more := ScanParts(part.rest);
        if !more.Got? then Bad else Got([part.value] + more.value, more.rest)
  }

  function ScanWord(s: string): (w: Option<string>)
    requires s != []
    ensures w.Some? ==> IsWord(w.value) && w.value <= s
  {
    var w := WordFrom(s[0]);
    if w.Some? && w.value <= s then w else None
  }

  /** Zero, or digits without a leading zero, at the front. */
  function WholeOf(s: string): (whole: string)
    ensures |whole| <= |s| && whole == s[..|whole|]
  {
    if s != [] && s[0] == '0' then s[..1] else Span(s, IsDigit)
  }

  function FractionOf(s: string): (frac: string)
    ensures |frac| <= |s| && frac == s[..|frac|]
  {
    if |s| >= 2 && s[0] == '.' && IsDigit(s[1]) then
      var digits := Span(s[1..], IsDigit);
      assert s[..1 + |digits|] == ['.'] + s[1..][..|digits|];
      ['.'] + digits
    else []
  }

  function SignedOf(s: string): (digits: string)
    ensures |digits| <= |s| && digits == s[..|digits|]
  {
    if |s| >= 2 && (s[0] == '+' || s[0] == '-') && IsDigit(s[1]) then
      var digits := Span(s[1..], IsDigit);
      assert s[..1 + |digits|] == [s[0]] + s[1..][..|digits|];
      [s[0]] + digits
    else Span(s, IsDigit)
  }

  function ExponentOf(s: string): (exp: string)
    ensures |exp| <= |s| && exp == s[..|exp|]
  {
    if s != [] && (s[0] == 'e' || s[0] == 'E') && SignedOf(s[1..]) != [] then
      var digits := SignedOf(s[1..]);
      assert s[..1 + |digits|] == [s[0]] + s[1..][..|digits|];
      [s[0]] + digits
    else []
  }

  /** The scanner's number: its longest match, an integer not too long to convert. */
  function ScanNum(s: string): (r: Scan<Json>)
    ensures r.Got? ==> |r.rest| < |s|
    ensures !r.Deep?
  {
    var neg := s != [] && s[0] == '-';
    var t := if neg then s[1..] else s;
    var whole := WholeOf(t);
    var u := t[|whole|..];
    var frac := FractionOf(u);
    var v := u[|frac|..];
    var exp := ExponentOf(v);
    if whole == [] || (frac == [] && exp == [] && |whole| > MAX_INT_DIGITS) then Bad
    else Got(Num(neg, whole, frac, exp), v[|exp|..])
  }

  function ScanKey(obj: bool, s: string): (r: Scan<Option<Key>>)
    ensures r.Got? ==> |r.rest| <= |s|
    ensures !r.Deep?
  {
    if !obj then Got(None, s)
    else if s == [] || s[0] != '"' then Bad
    else
      var parts := ScanParts(s[1..]);
      if !parts.Got? then Bad
      else
        var before := Span(parts.rest, IsSpace);
        var t := parts.rest[|before|..];
        if t == [] || t[0] != ':' then Bad
        else
          var after := Span(t[1..], IsSpace);
          Got(Some(Key(parts.value, before, after)), t[1..][|after|..])
  }

  /** scan_once, with `limit` containers left to nest. */
  function ScanValue(s: string, limit: nat): (r: Scan<Json>)
    ensures r.Got? ==> |r.rest| < |s|
    decreases |s|, 0
  {
    if s == [] then Bad
    else if s[0] == '"' then
      var parts := ScanParts(s[1..]);
      if parts.Got? then Got(Str(parts.value), parts.rest) else Bad
    else if s[0] == '[' || s[0] == '{' then
      if limit == 0 then Deep else ScanContainer(s[0] == '{', s[1..], limit - 1)
    else
      var w := ScanWord(s);
      if w.Some? then Got(Word(w.value), s[|w.value|..]) else ScanNum(s)
  }

  function ScanContainer(obj: bool, s: string, limit: nat): (r: Scan<Json>)
    ensures r.Got? ==> |r.rest| < |s|
    decreases |s|, 2
  {
    var space := Span(s, IsSpace);
    var t := s[|space|..];
    if t != [] && t[0] == Closer(obj) then Got(Empty(obj, space), t[1..])
    else
      var items := ScanItems(obj, s, limit);
      match items
      case Got(v, rest) => Got(Full(obj, v), rest)
      case Bad => Bad
      case Deep => Deep
  }

  function ScanItems(obj: bool, s: string, limit: nat): (r: Scan<Items>)
    ensures r.Got? ==> |r.rest| < |s|
    decreases |s|, 1
  {
    var lead := Span(s, IsSpace);
    var key := ScanKey(obj, s[|lead|..]);
    if !key.Got? then Bad
    else
      var value := ScanValue(key.rest, limit);
      if value.Deep? then Deep
      else if value.Bad? then Bad
      else
        var trail := Span(value.rest, IsSpace);
        var t := value.rest[|trail|..];
        if t != [] && t[0] == Closer(obj) then Got(Item(lead, key.value, value.value, trail, None), t[1..])
        else if t == [] || t[0] != ',' then Bad
        else
          var more := ScanItems(obj, t[1..], limit);
          match more
          case Got(m, rest) => Got(Item(lead, key.value, value.value, trail, Some(m)), rest)
          case Bad => Bad
          case Deep => Deep
  }

  // ---- what is scanned was written -------------------------------------------------------------

  lemma {:induction false} PartScanned(s: string)
    requires ScanPart(s).Got?
    ensures ShapedPart(ScanPart(s).value) && s == PartText(ScanPart(s).value) + ScanPart(s).rest
  {
    if s[0] == '\\' {
      if |s| >= 6 && s[1] == 'u' && All(s[2..6], IsHex) {
        assert s == ['\\', 'u'] + s[2..6] + s[6..];
      } else {
        assert s == ['\\', s[1]] + s[2..];
      }
    } else {
      assert s == [s[0]] + s[1..];
    }
  }

  lemma {:induction false} PartsScanned(s: string)
    requires ScanParts(s).Got?
    ensures ShapedParts(ScanParts(s).value) && s == WriteParts(ScanParts(s).value, ScanParts(s).rest)
    decreases |s|
  {
    if s[0] == '"' {
      assert s == ['"'] + s[1..];
    } else {
      PartScanned(s);
      PartsScanned(ScanPart(s).rest);
    }
  }

  lemma {:induction false} AllOfSlice(s: string, p: char -> bool, i: nat)
    requires i <= |s| && All(s, p)
    ensures All(s[i..], p)
  {}

  lemma {:induction false} WholeScanned(s: string)
    ensures var whole := WholeOf(s); whole == [] || (Digits(whole) && (|whole| > 1 ==> whole[0] != '0'))
  {}

  lemma {:induction false} FractionScanned(s: string)
    ensures Fraction(FractionOf(s))
  {
    var frac := FractionOf(s);
    if frac != [] {
      var digits := Span(s[1..], IsDigit);
      assert frac[1..] == digits && digits != [];
    }
  }

  lemma {:induction false} SignedScanned(s: string)
    ensures SignedOf(s) == [] || Signed(SignedOf(s))
  {
    if |s| >= 2 && (s[0] == '+' || s[0] == '-') && IsDigit(s[1]) {
      var digits := Span(s[1..], IsDigit);
      assert SignedOf(s)[1..] == digits && digits != [];
    }
  }

  lemma {:induction false} ExponentScanned(s: string)
    ensures Exponent(ExponentOf(s))
  {
    if ExponentOf(s) != [] {
      SignedScanned(s[1..]);
      assert ExponentOf(s)[1..] == SignedOf(s[1..]);
    }
  }

  /** Three fronts taken one after the other. */
  lemma {:induction false} FrontsSplit(t: string, a: string, b: string, c: string)
    requires a <= t && b <= t[|a|..] && c <= t[|a|..][|b|..]
    ensures t == a + (b + (c + t[|a|..][|b|..][|c|..]))
  {
    var u := t[|a|..];
    var v := u[|b|..];
    assert v == c + v[|c|..];
    assert u == b + v;
    assert t == a + u;
  }

  lemma {:induction false} UnsignedScanned(t: string, whole: string, frac: string, exp: string)
    requires whole == WholeOf(t) && frac == FractionOf(t[|whole|..]) && exp == ExponentOf(t[|whole|..][|frac|..])
    ensures t == whole + (frac + (exp + t[|whole|..][|frac|..][|exp|..]))
    ensures whole == [] || (Digits(whole) && (|whole| > 1 ==> whole[0] != '0'))
    ensures Fraction(frac) && Exponent(exp)
  {
    WholeScanned(t);
    FractionScanned(t[|whole|..]);
    ExponentScanned(t[|whole|..][|frac|..]);
    FrontsSplit(t, whole, frac, exp);
  }

  /** A scanned number, piece by piece. */
  lemma {:induction false} NumPieces(s: string, t: string)
    requires ScanNum(s).Got? && t == if s != [] && s[0] == '-' then s[1..] else s
    ensures var n, rest := ScanNum(s).value, ScanNum(s).rest;
            n.Num? && (n.neg <==> s != [] && s[0] == '-') && ShapedNum(n.whole, n.frac, n.exp)
            && t == n.whole + (n.frac + (n.exp + rest))
  {
    var whole := WholeOf(t);
    var frac := FractionOf(t[|whole|..]);
    UnsignedScanned(t, whole, frac, ExponentOf(t[|whole|..][|frac|..]));
  }

  lemma {:induction false} NumText(s: string, t: string, n: Json, rest: string)
    requires n.Num? && t == n.whole + (n.frac + (n.exp + rest))
    requires if n.neg then s != [] && s[0] == '-' && s[1..] == t else s == t
    ensures s == Write(n, rest)
  {
    assert s == Sign(n.neg) + t;
  }

  lemma {:induction false} NumScanned(s: string, n: Json, rest: string)
    requires ScanNum(s) == Got(n, rest)
    ensures Shaped(n) && Depth(n) == 0 && s == Write(n, rest)
  {
    var t := if s != [] && s[0] == '-' then s[1..] else s;
    NumPieces(s, t);
    NumText(s, t, n, rest);
  }

  lemma {:induction false} SpanSplits(s: string, p: char -> bool)
    ensures s == Span(s, p) + s[|Span(s, p)|..]
  {}

  lemma {:induction false} HeadSplits(s: string)
    requires s != []
    ensures s == [s[0]] + s[1..]
  {}

  lemma {:induction false} KeyScanned(obj: bool, s: string)
    requires ScanKey(obj, s).Got?
    ensures var k := ScanKey(obj, s);
            (k.value.Some? <==> obj) && (k.value.Some? ==> ShapedKey(k.value.value)) && s == WriteKey(k.value, k.rest)
  {
    if obj {
      var parts := ScanParts(s[1..]);
      PartsScanned(s[1..]);
      var before := Span(parts.rest, IsSpace);
      var t := parts.rest[|before|..];
      SpanSplits(parts.rest, IsSpace);
      HeadSplits(t);
      SpanSplits(t[1..], IsSpace);
      HeadSplits(s);
    }
  }

  lemma {:induction false} ValueScanned(s: string, limit: nat)
    requires ScanValue(s, limit).Got?
    ensures var r := ScanValue(s, limit); Shaped(r.value) && Depth(r.value) <= limit && s == Write(r.value, r.rest)
    decreases |s|, 0
  {
    HeadSplits(s);
    if s[0] == '"' {
      PartsScanned(s[1..]);
    } else if s[0] == '[' || s[0] == '{' {
      ContainerScanned(s[0] == '{', s[1..], limit - 1);
    } else if ScanWord(s).Some? {
      var w := ScanWord(s).value;
      assert s == w + s[|w|..];
    } else {
      NumScanned(s, ScanNum(s).value, ScanNum(s).rest);
    }
  }

  lemma {:induction false} ContainerScanned(obj: bool, s: string, limit: nat)
    requires ScanContainer(obj, s, limit).Got?
    ensures var r := ScanContainer(obj, s, limit);
            Shaped(r.value) && Depth(r.value) <= limit + 1 && [Opener(obj)] + s == Write(r.value, r.rest)
    decreases |s|, 2
  {
    var space := Span(s, IsSpace);
    var t := s[|space|..];
    if t != [] && t[0] == Closer(obj) {
      SpanSplits(s, IsSpace);
      HeadSplits(t);
    } else {
      ItemsScanned(obj, s, limit);
    }
  }

  lemma {:induction false} ItemText(items: Items, rest: string, s: string, t: string, u: string, tail: string)
    requires tail == if items.more.Some? then [','] + WriteItems(items.more.value, rest) else rest
    requires s == items.lead + WriteKey(items.key, t) && t == Write(items.value, u) && u == items.trail + tail
    ensures s == WriteItems(items, rest)
  {}

  lemma {:induction false} ItemsScanned(obj: bool, s: string, limit: nat)
    requires ScanItems(obj, s, limit).Got?
    ensures var r := ScanItems(obj, s, limit);
            ShapedItems(obj, r.value) && ItemsDepth(r.value) <= limit
            && s == WriteItems(r.value, [Closer(obj)] + r.rest)
    decreases |s|, 1
  {
    var r := ScanItems(obj, s, limit);
    var lead := Span(s, IsSpace);
    var key := ScanKey(obj, s[|lead|..]);
    var value := ScanValue(key.rest, limit);
    var trail := Span(value.rest, IsSpace);
    var t := value.rest[|trail|..];
    SpanSplits(s, IsSpace);
    KeyScanned(obj, s[|lead|..]);
    ValueScanned(key.rest, limit);
    SpanSplits(value.rest, IsSpace);
    HeadSplits(t);
    if t[0] != Closer(obj) {
      ItemsScanned(obj, t[1..], limit);
    }
    ItemText(r.value, [Closer(obj)] + r.rest, s, key.rest, value.rest, t);
  }

  // ---- what is written is scanned back ---------------------------------------------------------

  lemma {:induction false} SpanStopsAt(front: string, rest: string, p: char -> bool)
    requires All(front, p) && (rest == [] || !p(rest[0]))
    ensures Span(front + rest, p) == front && (front + rest)[|front|..] == rest
  {
    if front == [] {
      assert front + rest == rest;
    } else {
      AllOfSlice(front, p, 1);
      SpanStopsAt(front[1..], rest, p);
      assert (front + rest)[0] == front[0] && (front + rest)[1..] == front[1..] + rest;
      assert [front[0]] + front[1..] == front;
    }
  }

  lemma {:induction false} PartScans(part: Part, rest: string)
    requires ShapedPart(part)
    ensures ScanPart(PartText(part) + rest) == Got(part, rest) && (PartText(part) + rest)[0] != '"'
  {
    var s := PartText(part) + rest;
    match part
    case Plain(c) => assert s[0] == c && s[1..] == rest;
    case Escape(c) => assert s[1] == c && s[2..] == rest && c != 'u';
    case Hex(h) => assert s[2..6] == h && s[6..] == rest;
  }

  lemma {:induction false} PartsScan(parts: seq<Part>, rest: string)
    requires ShapedParts(parts)
    ensures ScanParts(WriteParts(parts, rest)) == Got(parts, rest)
    decreases |parts|
  {
    if parts == [] {
      assert (['"'] + rest)[1..] == rest;
    } else {
      assert forall k :: 0 <= k < |parts| - 1 ==> parts[1..][k] == parts[k + 1];
      PartScans(parts[0], WriteParts(parts[1..], rest));
      PartsScan(parts[1..], rest);
      assert [parts[0]] + parts[1..] == parts;
    }
  }

  /** Where a value may end: at the end of the text, a space, a comma or a closing bracket. */
  predicate Ends(rest: string) {
    rest == [] || IsSpace(rest[0]) || rest[0] == ',' || rest[0] == ']' || rest[0] == '}'
  }

  /** Neither a digit nor any other character a number goes on with. */
  predicate Stops(rest: string) {
    rest == [] || !(IsDigit(rest[0]) || rest[0] in ".eE+-")
  }

  lemma {:induction false} WholeScans(whole: string, rest: string)
    requires Digits(whole) && (|whole| > 1 ==> whole[0] != '0') && (rest == [] || !IsDigit(rest[0]))
    ensures WholeOf(whole + rest) == whole && (whole + rest)[|whole|..] == rest
  {
    SpanStopsAt(whole, rest, IsDigit);
    assert (whole + rest)[0] == whole[0] && (whole[0] == '0' ==> (whole + rest)[..1] == whole);
  }

  lemma {:induction false} FractionScans(frac: string, rest: string)
    requires Fraction(frac) && (rest == [] || (!IsDigit(rest[0]) && rest[0] != '.'))
    ensures FractionOf(frac + rest) == frac && (frac + rest)[|frac|..] == rest
  {
    if frac == [] {
      assert frac + rest == rest;
    } else {
      SpanStopsAt(frac[1..], rest, IsDigit);
      assert (frac + rest)[1..] == frac[1..] + rest && (frac + rest)[0] == '.' && (frac + rest)[1] == frac[1..][0];
      assert ['.'] + frac[1..] == frac;
    }
  }

  lemma {:induction false} SignedScans(digits: string, rest: string)
    requires Signed(digits) && (rest == [] || !IsDigit(rest[0]))
    ensures SignedOf(digits + rest) == digits && (digits + rest)[|digits|..] == rest
  {
    var s := digits + rest;
    if Digits(digits) {
      SpanStopsAt(digits, rest, IsDigit);
      assert s[0] == digits[0];
    } else {
      SpanStopsAt(digits[1..], rest, IsDigit);
      assert s[1..] == digits[1..] + rest && s[0] == digits[0] && s[1] == digits[1..][0];
      assert [digits[0]] + digits[1..] == digits;
    }
  }

  lemma {:induction false} ExponentScans(exp: string, rest: string)
    requires Exponent(exp) && Stops(rest)
    ensures ExponentOf(exp + rest) == exp && (exp + rest)[|exp|..] == rest
  {
    if exp == [] {
      assert exp + rest == rest;
    } else {
      SignedScans(exp[1..], rest);
      assert (exp + rest)[1..] == exp[1..] + rest && (exp + rest)[0] == exp[0];
      assert [exp[0]] + exp[1..] == exp;
    }
  }

  /** Behind a number's whole part comes its fraction, its exponent, or the end of the number. */
  lemma {:induction false} NumTail(frac: string, exp: string, rest: string)
    requires Fraction(frac) && Exponent(exp) && Stops(rest)
    ensures var v := exp + rest; v == [] || (!IsDigit(v[0]) && v[0] != '.')
    ensures var u := frac + (exp + rest); u == [] || !IsDigit(u[0])
  {}

  lemma {:induction false} UnsignedScans(t: string, whole: string, frac: string, exp: string, rest: string)
    requires ShapedNum(whole, frac, exp) && Stops(rest) && t == whole + (frac + (exp + rest))
    ensures WholeOf(t) == whole && FractionOf(t[|whole|..]) == frac
    ensures ExponentOf(t[|whole|..][|frac|..]) == exp && t[|whole|..][|frac|..][|exp|..] == rest
    ensures t != [] && IsDigit(t[0])
  {
    NumTail(frac, exp, rest);
    WholeScans(whole, frac + (exp + rest));
    FractionScans(frac, exp + rest);
    ExponentScans(exp, rest);
    assert t[0] == whole[0];
  }

  lemma {:induction false} NumScans(s: string, neg: bool, t: string, whole: string, frac: string, exp: string,
                                    rest: string)
    requires ShapedNum(whole, frac, exp) && Stops(rest) && t == whole + (frac + (exp + rest))
    requires if neg then s != [] && s[0] == '-' && s[1..] == t else s == t
    ensures ScanNum(s) == Got(Num(neg, whole, frac, exp), rest)
    ensures IsDigit(s[0]) || (s[0] == '-' && |s| > 1 && IsDigit(s[1]))
  {
    UnsignedScans(t, whole, frac, exp, rest);
  }

  lemma {:induction false} WordScans(w: string, rest: string)
    requires IsWord(w)
    ensures var s := w + rest; s != [] && ScanWord(s) == Some(w) && s[|w|..] == rest && s[0] !in "\"[{"
  {
    assert (w + rest)[0] == w[0] && w <= w + rest;
  }

  lemma {:induction false} NoWordScans(s: string)
    requires s != [] && (IsDigit(s[0]) || (s[0] == '-' && |s| > 1 && IsDigit(s[1])))
    ensures ScanWord(s) == None && s[0] !in "\"[{"
  {
    if s[0] == '-' {
      assert "-Infinity"[1] == 'I';
    }
  }

  lemma {:induction false} KeyScans(obj: bool, key: Option<Key>, rest: string)
    requires (key.Some? <==> obj) && (key.Some? ==> ShapedKey(key.value)) && (rest == [] || !IsSpace(rest[0]))
    ensures ScanKey(obj, WriteKey(key, rest)) == Got(key, rest)
    ensures WriteKey(key, rest) == [] || !IsSpace(WriteKey(key, rest)[0])
  {
    if obj {
      var k := key.value;
      var after := k.after + rest;
      var colon := [':'] + after;
      var s := WriteKey(key, rest);
      assert s[1..] == WriteParts(k.parts, k.before + colon);
      PartsScan(k.parts, k.before + colon);
      SpanStopsAt(k.before, colon, IsSpace);
      assert colon[1..] == after;
      SpanStopsAt(k.after, rest, IsSpace);
    }
  }

  /** A written value starts with none of the characters that part values. */
  lemma {:induction false} ValueStarts(j: Json, rest: string)
    requires Shaped(j)
    ensures var s := Write(j, rest); s != [] && !IsSpace(s[0]) && s[0] != ']' && s[0] != '}'
  {
    match j
    case Word(w) => assert (w + rest)[0] == w[0];
    case Num(neg, whole, frac, exp) =>
      var t := whole + (frac + (exp + rest));
      assert t[0] == whole[0];
    case _ =>
  }

  /** Items do not start with their closing bracket. */
  lemma {:induction false} NotClosedYet(obj: bool, items: Items, rest: string)
    requires ShapedItems(obj, items)
    ensures var s := WriteItems(items, rest);
            var t := s[|Span(s, IsSpace)|..];
            t != [] && t[0] != Closer(obj)
  {
    var tail := if items.more.Some? then [','] + WriteItems(items.more.value, rest) else rest;
    var value := Write(items.value, items.trail + tail);
    ValueStarts(items.value, items.trail + tail);
    KeyScans(obj, items.key, value);
    SpanStopsAt(items.lead, WriteKey(items.key, value), IsSpace);
  }

  lemma {:induction false} EndsAfterSpace(trail: string, tail: string)
    requires All(trail, IsSpace) && Ends(tail)
    ensures Ends(trail + tail)
  {}

  // One step of the scanner, by what the front of the text is.

  lemma {:induction false} ScansString(s: string, parts: seq<Part>, rest: string, limit: nat)
    requires s != [] && s[0] == '"' && ScanParts(s[1..]) == Got(parts, rest)
    ensures ScanValue(s, limit) == Got(Str(parts), rest)
  {}

  lemma {:induction false} ScansContainer(s: string, obj: bool, limit: nat)
    requires s != [] && s[0] == Opener(obj) && limit > 0
    ensures ScanValue(s, limit) == ScanContainer(obj, s[1..], limit - 1)
  {}

  lemma {:induction false} ScansWord(s: string, w: string, limit: nat)
    requires s != [] && s[0] !in "\"[{" && ScanWord(s) == Some(w)
    ensures ScanValue(s, limit) == Got(Word(w), s[|w|..])
  {}

  lemma {:induction false} ScansNum(s: string, limit: nat)
    requires s != [] && s[0] !in "\"[{" && ScanWord(s) == None
    ensures ScanValue(s, limit) == ScanNum(s)
  {}

  lemma {:induction false} ScansEmpty(obj: bool, s: string, space: string, rest: string, limit: nat)
    requires Span(s, IsSpace) == space && s[|space|..] == [Closer(obj)] + rest
    ensures ScanContainer(obj, s, limit) == Got(Empty(obj, space), rest)
  {
    assert ([Closer(obj)] + rest)[1..] == rest;
  }

  lemma {:induction false} ScansFull(obj: bool, s: string, items: Items, rest: string, limit: nat)
    requires ScanItems(obj, s, limit) == Got(items, rest)
    requires var t := s[|Span(s, IsSpace)|..]; t != [] && t[0] != Closer(obj)
    ensures ScanContainer(obj, s, limit) == Got(Full(obj, items), rest)
  {}

  lemma {:induction false} ScansLast(obj: bool, s: string, lead: string, key: Option<Key>, value: Json, trail: string,
                                     t: string, u: string, rest: string, limit: nat)
    requires Span(s, IsSpace) == lead && ScanKey(obj, s[|lead|..]) == Got(key, t)
    requires ScanValue(t, limit) == Got(value, u) && Span(u, IsSpace) == trail
    requires u[|trail|..] == [Closer(obj)] + rest
    ensures ScanItems(obj, s, limit) == Got(Item(lead, key, value, trail, None), rest)
  {
    assert ([Closer(obj)] + rest)[1..] == rest;
  }

  lemma {:induction false} ScansMore(obj: bool, s: string, lead: string, key: Option<Key>, value: Json, trail: string,
                                     t: string, u: string, v: string, more: Items, rest: string, limit: nat)
    requires Span(s, IsSpace) == lead && ScanKey(obj, s[|lead|..]) == Got(key, t)
    requires ScanValue(t, limit) == Got(value, u) && Span(u, IsSpace) == trail
    requires u[|trail|..] == [','] + v && ScanItems(obj, v, limit) == Got(more, rest)
    ensures ScanItems(obj, s, limit) == Got(Item(lead, key, value, trail, Some(more)), rest)
  {
    assert ([','] + v)[1..] == v;
  }

  lemma {:induction false} WordAtom(w: string, rest: string, limit: nat)
    requires IsWord(w)
    ensures ScanValue(w + rest, limit) == Got(Word(w), rest)
  {
    WordScans(w, rest);
    ScansWord(w + rest, w, limit);
  }

  lemma {:induction false} NumAtom(s: string, neg: bool, t: string, whole: string, frac: string, exp: string,
                                   rest: string, limit: nat)
    requires ShapedNum(whole, frac, exp) && Stops(rest) && t == whole + (frac + (exp + rest)) && s == Sign(neg) + t
    ensures ScanValue(s, limit) == Got(Num(neg, whole, frac, exp), rest)
  {
    assert if neg then s[0] == '-' && s[1..] == t else s == t;
    NumScans(s, neg, t, whole, frac, exp, rest);
    NoWordScans(s);
    ScansNum(s, limit);
  }

  lemma {:induction false} StrAtom(parts: seq<Part>, rest: string, limit: nat)
    requires ShapedParts(parts)
    ensures ScanValue(['"'] + WriteParts(parts, rest), limit) == Got(Str(parts), rest)
  {
    var t := WriteParts(parts, rest);
    assert (['"'] + t)[1..] == t;
    PartsScan(parts, rest);
    ScansString(['"'] + t, parts, rest, limit);
  }

  lemma {:induction false} EmptyScans(obj: bool, space: string, t: string, rest: string, limit: nat)
    requires All(space, IsSpace) && limit > 0 && t == space + ([Closer(obj)] + rest)
    ensures ScanValue([Opener(obj)] + t, limit) == Got(Empty(obj, space), rest)
  {
    assert ([Opener(obj)] + t)[1..] == t;
    SpanStopsAt(space, [Closer(obj)] + rest, IsSpace);
    ScansEmpty(obj, t, space, rest, limit - 1);
    ScansContainer([Opener(obj)] + t, obj, limit);
  }

  lemma {:induction false} FullScans(obj: bool, items: Items, s: string, t: string, rest: string, limit: nat)
    requires s == [Opener(obj)] + t && ScanContainer(obj, t, limit) == Got(Full(obj, items), rest)
    ensures ScanValue(s, limit + 1) == Got(Full(obj, items), rest)
  {
    assert s[1..] == t;
    ScansContainer(s, obj, limit + 1);
  }

  lemma {:induction false} ValueScans(j: Json, rest: string, limit: nat)
    requires Shaped(j) && Depth(j) <= limit && Ends(rest)
    ensures ScanValue(Write(j, rest), limit) == Got(j, rest)
    decreases j
  {
    match j
    case Word(w) => WordAtom(w, rest, limit);
    case Num(neg, whole, frac, exp) =>
      var t := whole + (frac + (exp + rest));
      NumAtom(Sign(neg) + t, neg, t, whole, frac, exp, rest, limit);
    case Str(parts) => StrAtom(parts, rest, limit);
    case Empty(obj, space) => EmptyScans(obj, space, space + ([Closer(obj)] + rest), rest, limit);
    case Full(obj, items) =>
      ContainerScans(obj, items, WriteItems(items, [Closer(obj)] + rest), rest, limit - 1);
  }

  lemma {:induction false} ContainerScans(obj: bool, items: Items, t: string, rest: string, limit: nat)
    requires ShapedItems(obj, items) && ItemsDepth(items) <= limit && t == WriteItems(items, [Closer(obj)] + rest)
    ensures ScanValue([Opener(obj)] + t, limit + 1) == Got(Full(obj, items), rest)
    decreases items, 1
  {
    ItemsScan(obj, items, rest, limit);
    NotClosedYet(obj, items, [Closer(obj)] + rest);
    ScansFull(obj, t, items, rest, limit);
    FullScans(obj, items, [Opener(obj)] + t, t, rest, limit);
  }

  /** The front of an item: its spaces, its name, its value, its spaces. */
  lemma {:induction false} ItemFront(obj: bool, items: Items, tail: string)
    requires ShapedItems(obj, items) && (tail == [] || !IsSpace(tail[0]))
    ensures var u := items.trail + tail;
            var t := Write(items.value, u);
            var s := items.lead + WriteKey(items.key, t);
            Span(s, IsSpace) == items.lead && ScanKey(obj, s[|items.lead|..]) == Got(items.key, t)
            && Span(u, IsSpace) == items.trail && u[|items.trail|..] == tail
  {
    var t := Write(items.value, items.trail + tail);
    ValueStarts(items.value, items.trail + tail);
    KeyScans(obj, items.key, t);
    SpanStopsAt(items.lead, WriteKey(items.key, t), IsSpace);
    SpanStopsAt(items.trail, tail, IsSpace);
  }

  lemma {:induction false} ItemsScan(obj: bool, items: Items, rest: string, limit: nat)
    requires ShapedItems(obj, items) && ItemsDepth(items) <= limit
    ensures ScanItems(obj, WriteItems(items, [Closer(obj)] + rest), limit) == Got(items, rest)
    decreases items, 0
  {
    var closing := [Closer(obj)] + rest;
    var more := if items.more.Some? then WriteItems(items.more.value, closing) else [];
    var tail := if items.more.Some? then [','] + more else closing;
    var u := items.trail + tail;
    var t := Write(items.value, u);
    var s := items.lead + WriteKey(items.key, t);
    EndsAfterSpace(items.trail, tail);
    ItemFront(obj, items, tail);
    ValueScans(items.value, u, limit);
    if items.more.Some? {
      ItemsScan(obj, items.more.value, rest, limit);
      ScansMore(obj, s, items.lead, items.key, items.value, items.trail, t, u, more, items.more.value, rest, limit);
    } else {
      ScansLast(obj, s, items.lead, items.key, items.value, items.trail, t, u, rest, limit);
    }
  }
}
