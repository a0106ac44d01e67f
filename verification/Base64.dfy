/**
 URL-safe base64 (section 5 of RFC 4648) as urlsafe_b64encode writes it and urlsafe_b64decode reads it: the
 decoder skips characters outside the alphabet, takes text after the closing padding, and drops unused bits.
 */
module Base64 {
  import opened Common

  // ---- bytes and symbols ------------------------------------------------------------------------

  type Sextet = n: nat | n < 64

  /** What a token's character is to the decoder: six bits, padding, or nothing. */
  datatype Symbol = Six(v: Sextet) | Pad | Stray

  /** urlsafe_b64encode, before its letters: three bytes to four sextets, the last group padded. */
  function Encode(bytes: seq<byte>): (symbols: seq<Symbol>)
    ensures Stray !in symbols && |symbols| % 4 == 0
  {
    if bytes == [] then []
    else if |bytes| == 1 then [Six(bytes[0] / 4), Six(bytes[0] % 4 * 16), Pad, Pad]
    else if |bytes| == 2 then
      [Six(bytes[0] / 4), Six(bytes[0] % 4 * 16 + bytes[1] / 16), Six(bytes[1] % 16 * 4), Pad]
    else
      [Six(bytes[0] / 4), Six(bytes[0] % 4 * 16 + bytes[1] / 16),
       Six(bytes[1] % 16 * 4 + bytes[2] / 64), Six(bytes[2] % 64)] + Encode(bytes[3..])
  }

  /** How many bits of the last sextet are waiting: six, four, two. */
  predicate Waiting(quad: nat, left: nat) {
    quad == 0 || (quad == 1 && left < 64) || (quad == 2 && left < 16) || (quad == 3 && left < 4)
  }

  /**
   urlsafe_b64decode: `quad` sextets of the group are in, `left` holds their unused bits, `pads` the
   padding seen since. Enough padding ends the text; a group left open is an error; a stray character
   is skipped.
   */
  function Decode(symbols: seq<Symbol>, quad: nat, left: nat, pads: nat): Option<seq<byte>>
    requires Waiting(quad, left)
  {
    if symbols == [] then (if quad == 0 then Some([]) else None)
    else
      var rest := symbols[1..];
      match symbols[0]
      case Pad =>
        if quad >= 2 && quad + pads + 1 >= 4 then Some([])
        else Decode(rest, quad, left, if quad >= 2 then pads + 1 else pads)
      case Stray => Decode(rest, quad, left, pads)
      case Six(v) =>
        if quad == 0 then Decode(rest, 1, v, 0)
        else if quad == 1 then Prepend(left * 4 + v / 16, Decode(rest, 2, v % 16, 0))
        else if quad == 2 then Prepend(left * 16 + v / 4, Decode(rest, 3, v % 4, 0))
        else Prepend(left * 64 + v, Decode(rest, 0, 0, 0))
  }

  function Prepend(b: byte, rest: Option<seq<byte>>): Option<seq<byte>> {
    if rest.None? then None else Some([b] + rest.value)
  }

  lemma {:induction false} DecodeSix(v: Sextet, rest: seq<Symbol>, quad: nat, left: nat, pads: nat)
    requires Waiting(quad, left)
    ensures Decode([Six(v)] + rest, quad, left, pads) ==
              (if quad == 0 then Decode(rest, 1, v, 0)
               else if quad == 1 then Prepend(left * 4 + v / 16, Decode(rest, 2, v % 16, 0))
               else if quad == 2 then Prepend(left * 16 + v / 4, Decode(rest, 3, v % 4, 0))
               else Prepend(left * 64 + v, Decode(rest, 0, 0, 0)))
  {}

  lemma {:induction false} GroupReadsBack(text: seq<Symbol>, a: Sextet, b: Sextet, c: Sextet, d: Sextet,
                                          rest: seq<Symbol>)
    requires text == [Six(a), Six(b), Six(c), Six(d)] + rest
    ensures Decode(text, 0, 0, 0)
         == Prepend(a * 4 + b / 16, Prepend(b % 16 * 16 + c / 4, Prepend(c % 4 * 64 + d, Decode(rest, 0, 0, 0))))
  {
    assert text == [Six(a)] + ([Six(b)] + ([Six(c)] + ([Six(d)] + rest)));
    DecodeSix(a, [Six(b)] + ([Six(c)] + ([Six(d)] + rest)), 0, 0, 0);
    DecodeSix(b, [Six(c)] + ([Six(d)] + rest), 1, a, 0);
    DecodeSix(c, [Six(d)] + rest, 2, b % 16, 0);
    DecodeSix(d, rest, 3, c % 4, 0);
  }

  lemma {:induction false} OneByteReadsBack(text: seq<Symbol>, a: Sextet, b: Sextet)
    requires text == [Six(a), Six(b), Pad, Pad]
    ensures Decode(text, 0, 0, 0) == Some([a * 4 + b / 16])
  {
    assert text == [Six(a)] + ([Six(b)] + [Pad, Pad]);
    DecodeSix(a, [Six(b)] + [Pad, Pad], 0, 0, 0);
    DecodeSix(b, [Pad, Pad], 1, a, 0);
    assert [Pad, Pad][1..] == [Pad];
    assert Decode([Pad, Pad], 2, b % 16, 0) == Decode([Pad], 2, b % 16, 1) == Some([]);
    assert Prepend(a * 4 + b / 16, Some([])).value == [a * 4 + b / 16];
  }

  lemma {:induction false} TwoBytesReadBack(text: seq<Symbol>, a: Sextet, b: Sextet, c: Sextet)
    requires text == [Six(a), Six(b), Six(c), Pad]
    ensures Decode(text, 0, 0, 0) == Some([a * 4 + b / 16, b % 16 * 16 + c / 4])
  {
    assert text == [Six(a)] + ([Six(b)] + ([Six(c)] + [Pad]));
    DecodeSix(a, [Six(b)] + ([Six(c)] + [Pad]), 0, 0, 0);
    DecodeSix(b, [Six(c)] + [Pad], 1, a, 0);
    DecodeSix(c, [Pad], 2, b % 16, 0);
    assert Decode([Pad], 3, c % 4, 0) == Some([]);
    assert Prepend(b % 16 * 16 + c / 4, Some([])).value == [b % 16 * 16 + c / 4];
    assert Prepend(a * 4 + b / 16, Some([b % 16 * 16 + c / 4])).value == [a * 4 + b / 16, b % 16 * 16 + c / 4];
  }

  /** Regrouping three bytes into four sextets and back. */
  lemma BitsRegroup(x: byte, y: byte, z: byte)
    ensures var b, c := x % 4 * 16 + y / 16, y % 16 * 4 + z / 64;
            x / 4 * 4 + b / 16 == x && b % 16 * 16 + c / 4 == y && c % 4 * 64 + z % 64 == z
  {}

  lemma {:induction false} FewBytesReadBack(bytes: seq<byte>)
    requires 1 <= |bytes| <= 2
    ensures Decode(Encode(bytes), 0, 0, 0) == Some(bytes)
  {
    if |bytes| == 1 {
      BitsRegroup(bytes[0], 0, 0);
      OneByteReadsBack(Encode(bytes), bytes[0] / 4, bytes[0] % 4 * 16);
      assert bytes == [bytes[0]];
    } else {
      BitsRegroup(bytes[0], bytes[1], 0);
      TwoBytesReadBack(Encode(bytes), bytes[0] / 4, bytes[0] % 4 * 16 + bytes[1] / 16, bytes[1] % 16 * 4);
      assert bytes == [bytes[0], bytes[1]];
    }
  }

  /** Any bytes survive their encoding. */
  lemma {:induction false} BytesReadBack(bytes: seq<byte>)
    ensures Decode(Encode(bytes), 0, 0, 0) == Some(bytes)
  {
    if 1 <= |bytes| <= 2 {
      FewBytesReadBack(bytes);
    } else if |bytes| >= 3 {
      BitsRegroup(bytes[0], bytes[1], bytes[2]);
      GroupReadsBack(Encode(bytes), bytes[0] / 4, bytes[0] % 4 * 16 + bytes[1] / 16, bytes[1] % 16 * 4 + bytes[2] / 64,
                     bytes[2] % 64, Encode(bytes[3..]));
      BytesReadBack(bytes[3..]);
      assert bytes == [bytes[0]] + ([bytes[1]] + ([bytes[2]] + bytes[3..]));
    }
  }

  /** A stray character does not make a token malformed: it is skipped, wherever it stands. */
  lemma {:induction false} StrayIsSkipped(s: seq<Symbol>, i: nat, quad: nat, left: nat, pads: nat)
    requires i <= |s| && Waiting(quad, left)
    ensures Decode(s[..i] + [Stray] + s[i..], quad, left, pads) == Decode(s, quad, left, pads)
    decreases i
  {
    var t := s[..i] + [Stray] + s[i..];
    if i == 0 {
      assert t[1..] == s;
    } else {
      var u := s[1..];
      assert t[1..] == u[..i - 1] + [Stray] + u[i - 1..] && t[0] == s[0];
      match s[0] {
        case Pad =>
          if !(quad >= 2 && quad + pads + 1 >= 4) {
            StrayIsSkipped(u, i - 1, quad, left, if quad >= 2 then pads + 1 else pads);
          }
        case Stray => StrayIsSkipped(u, i - 1, quad, left, pads);
        case Six(v) =>
          var left' := if quad == 0 then v else if quad == 1 then v % 16 else if quad == 2 then v % 4 else 0;
          StrayIsSkipped(u, i - 1, (quad + 1) % 4, left', 0);
      }
    }
  }

  // ---- the token's letters ---------------------------------------------------------------------

  predicate IsAscii(s: string) {
    forall k :: 0 <= k < |s| ==> s[k] < 128 as char
  }

  /** The URL-safe alphabet: A-Z, a-z, 0-9, - and _; = pads. */
  function Letter(y: Symbol): char
    requires y != Stray
  {
    if y == Pad then '='
    else if y.v < 26 then ('A' as int + y.v) as char
    else if y.v < 52 then ('a' as int + y.v - 26) as char
    else if y.v < 62 then ('0' as int + y.v - 52) as char
    else if y.v == 62 then '-' else '_'
  }

  /** The decoding table; urlsafe_b64decode also takes the standard alphabet's + and /. */
  function SymbolOf(c: char): Symbol {
    if 'A' <= c <= 'Z' then Six(c as int - 'A' as int)
    else if 'a' <= c <= 'z' then Six(c as int - 'a' as int + 26)
    else if '0' <= c <= '9' then Six(c as int - '0' as int + 52)
    else if c == '-' || c == '+' then Six(62)
    else if c == '_' || c == '/' then Six(63)
    else if c == '=' then Pad
    else Stray
  }

  /** The alphabet runs A to Z, a to z, 0 to 9, - and _ (table 2 of RFC 4648); the decoder also reads + and /. */
  lemma AlphabetExact(c: char)
    ensures Letter(Six(0)) == 'A' && Letter(Six(26)) == 'a' && Letter(Six(52)) == '0'
    ensures Letter(Six(62)) == '-' && Letter(Six(63)) == '_' && Letter(Pad) == '='
    ensures forall v: nat :: v < 61 && v != 25 && v != 51 ==>
              Letter(Six(v + 1)) as int == Letter(Six(v)) as int + 1
    ensures forall v: nat :: v < 64 ==>
              (SymbolOf(c) == Six(v) <==> c == Letter(Six(v)) || (v == 62 && c == '+') || (v == 63 && c == '/'))
    ensures SymbolOf(c) == Pad <==> c == '='
    ensures SymbolOf(c) == Stray <==> !UrlSafe(c) && c != '+' && c != '/'
  {}

  predicate UrlSafe(c: char) {
    'A' <= c <= 'Z' || 'a' <= c <= 'z' || '0' <= c <= '9' || c == '-' || c == '_' || c == '='
  }

  function Letters(symbols: seq<Symbol>): string
    requires Stray !in symbols
  {
    seq(|symbols|, k requires 0 <= k < |symbols| => Letter(symbols[k]))
  }

  function Symbols(token: string): seq<Symbol> {
    seq(|token|, k requires 0 <= k < |token| => SymbolOf(token[k]))
  }

  /** A token needs no escaping in a URL but for its padding. */
  lemma LettersReadBack(symbols: seq<Symbol>)
    requires Stray !in symbols
    ensures Symbols(Letters(symbols)) == symbols
    ensures forall k :: 0 <= k < |symbols| ==> UrlSafe(Letters(symbols)[k])
    ensures IsAscii(Letters(symbols))
  {}

  // ---- which symbols decode --------------------------------------------------------------------

  /** How many of the first `i` symbols are sextets. */
  function SixesBefore(s: seq<Symbol>, i: nat): nat
    requires i <= |s|
  {
    if i == 0 then 0 else (if s[0].Six? then 1 else 0) + SixesBefore(s[1..], i - 1)
  }

  /** An earlier padding in the same open group: no sextet stands between the two. */
  predicate PaddedBefore(s: seq<Symbol>, i: nat)
    requires i < |s|
  {
    exists j :: 0 <= j < i && s[j] == Pad && SixesBefore(s, j) == SixesBefore(s, i)
  }

  /**
   Symbol `i` closes the text: a padding after the third sextet of a group, or the second padding after
   its second sextet. `quad` sextets of the group and `pads` paddings came before the text.
   */
  predicate ClosesFrom(s: seq<Symbol>, i: nat, quad: nat, pads: nat)
    requires i < |s|
  {
    && s[i] == Pad
    && var q := (quad + SixesBefore(s, i)) % 4;
       q == 3 || (q == 2 && (PaddedBefore(s, i) || (SixesBefore(s, i) == 0 && pads >= 1)))
  }

  predicate AcceptedFrom(s: seq<Symbol>, quad: nat, pads: nat) {
    (quad + SixesBefore(s, |s|)) % 4 == 0 || exists i :: 0 <= i < |s| && ClosesFrom(s, i, quad, pads)
  }

  /** Whole groups of four sextets, or a padding that closes a group: the rest does not matter. */
  predicate Decodable(s: seq<Symbol>) {
    AcceptedFrom(s, 0, 0)
  }

  lemma {:induction false} PaddedBeforeShifts(s: seq<Symbol>, i: nat)
    requires i + 1 < |s|
    ensures PaddedBefore(s, i + 1) <==>
              PaddedBefore(s[1..], i) || (s[0] == Pad && SixesBefore(s, i + 1) == 0)
  {
    var u := s[1..];
    if PaddedBefore(s, i + 1) {
      var j :| 0 <= j < i + 1 && s[j] == Pad && SixesBefore(s, j) == SixesBefore(s, i + 1);
      if j > 0 {
        assert u[j - 1] == Pad && SixesBefore(u, j - 1) == SixesBefore(u, i);
      }
    }
    if PaddedBefore(u, i) {
      var j :| 0 <= j < i && u[j] == Pad && SixesBefore(u, j) == SixesBefore(u, i);
      assert s[j + 1] == Pad && SixesBefore(s, j + 1) == SixesBefore(s, i + 1);
    }
    if s[0] == Pad && SixesBefore(s, i + 1) == 0 {
      assert SixesBefore(s, 0) == 0;
    }
  }

  /** The decoder's state after one more symbol that did not close the text. */
  function QuadAfter(y: Symbol, quad: nat): nat {
    if y.Six? then (quad + 1) % 4 else quad
  }

  function PadsAfter(y: Symbol, quad: nat, pads: nat): nat {
    if y.Six? then 0 else if y == Pad && quad >= 2 then pads + 1 else pads
  }

  lemma {:induction false} ClosesShifts(s: seq<Symbol>, i: nat, quad: nat, pads: nat)
    requires i + 1 < |s| && quad < 4
    ensures ClosesFrom(s, i + 1, quad, pads)
       <==> ClosesFrom(s[1..], i, QuadAfter(s[0], quad), PadsAfter(s[0], quad, pads))
  {
    PaddedBeforeShifts(s, i);
    assert SixesBefore(s, i + 1) == (if s[0].Six? then 1 else 0) + SixesBefore(s[1..], i);
  }

  lemma {:induction false} AcceptedShifts(s: seq<Symbol>, quad: nat, pads: nat)
    requires s != [] && quad < 4 && !ClosesFrom(s, 0, quad, pads)
    ensures AcceptedFrom(s, quad, pads)
       <==> AcceptedFrom(s[1..], QuadAfter(s[0], quad), PadsAfter(s[0], quad, pads))
  {
    var u, q, p := s[1..], QuadAfter(s[0], quad), PadsAfter(s[0], quad, pads);
    if i :| 0 <= i < |s| && ClosesFrom(s, i, quad, pads) {
      ClosesShifts(s, i - 1, quad, pads);
      assert ClosesFrom(u, i - 1, q, p);
    }
    if i :| 0 <= i < |u| && ClosesFrom(u, i, q, p) {
      ClosesShifts(s, i, quad, pads);
      assert ClosesFrom(s, i + 1, quad, pads);
    }
    assert SixesBefore(s, |s|) == (if s[0].Six? then 1 else 0) + SixesBefore(u, |u|);
  }

  lemma {:induction false} DecodesFromIff(s: seq<Symbol>, quad: nat, left: nat, pads: nat)
    requires Waiting(quad, left)
    ensures Decode(s, quad, left, pads).Some? <==> AcceptedFrom(s, quad, pads)
  {
    if s != [] {
      if ClosesFrom(s, 0, quad, pads) {
        assert SixesBefore(s, 0) == 0;
      } else {
        AcceptedShifts(s, quad, pads);
        match s[0] {
          case Pad => DecodesFromIff(s[1..], quad, left, PadsAfter(Pad, quad, pads));
          case Stray => DecodesFromIff(s[1..], quad, left, pads);
          case Six(v) =>
            var left' := if quad == 0 then v else if quad == 1 then v % 16 else if quad == 2 then v % 4 else 0;
            DecodesFromIff(s[1..], (quad + 1) % 4, left', 0);
        }
      }
    }
  }

  /** A text decodes exactly when its sextets fill their groups or some padding closes one. */
  lemma DecodesIff(s: seq<Symbol>)
    ensures Decode(s, 0, 0, 0).Some? <==> Decodable(s)
  {
    DecodesFromIff(s, 0, 0, 0);
  }

  // ---- which symbols are an encoding -----------------------------------------------------------

  /** Section 4 of RFC 4648: whole groups, padding only at the end of the last, unused bits zero. */
  predicate WellFormed(s: seq<Symbol>) {
    && |s| % 4 == 0
    && (forall k :: 0 <= k < |s| - 2 ==> s[k].Six?)
    && (s == [] || WellEnded(s[|s| - 3], s[|s| - 2], s[|s| - 1]))
  }

  /** The last three symbols of the last group. */
  predicate WellEnded(b: Symbol, c: Symbol, d: Symbol) {
    || (c.Six? && d.Six?)
    || (c.Six? && d == Pad && c.v % 4 == 0)
    || (c == Pad && d == Pad && b.Six? && b.v % 16 == 0)
  }

  lemma {:induction false} EncodingIsWellFormed(bytes: seq<byte>)
    ensures WellFormed(Encode(bytes))
  {
    if |bytes| >= 3 {
      var rest := Encode(bytes[3..]);
      EncodingIsWellFormed(bytes[3..]);
      assert Encode(bytes)[4..] == rest;
      forall k | 4 <= k < |Encode(bytes)| ensures Encode(bytes)[k] == rest[k - 4] {}
    }
  }

  /** Reading four sextets as three bytes and back. */
  lemma BitsUngroup(a: Sextet, b: Sextet, c: Sextet, d: Sextet)
    ensures var x, y, z := a * 4 + b / 16, b % 16 * 16 + c / 4, c % 4 * 64 + d;
            x < 256 && y < 256 && z < 256
            && x / 4 == a && x % 4 * 16 + y / 16 == b && y % 16 * 4 + z / 64 == c && z % 64 == d
  {
    var x, y, z := a * 4 + b / 16, b % 16 * 16 + c / 4, c % 4 * 64 + d;
    assert x / 4 == a && x % 4 == b / 16;
    assert y / 16 == b % 16 && y % 16 == c / 4;
    assert z / 64 == c % 4 && z % 64 == d;
  }

  lemma {:induction false} GroupIsEncoding(a: Sextet, b: Sextet, c: Sextet, d: Sextet, rest: seq<byte>)
    returns (bytes: seq<byte>)
    ensures Encode(bytes) == [Six(a), Six(b), Six(c), Six(d)] + Encode(rest)
  {
    BitsUngroup(a, b, c, d);
    bytes := [a * 4 + b / 16, b % 16 * 16 + c / 4, c % 4 * 64 + d] + rest;
    assert bytes[3..] == rest;
  }

  lemma {:induction false} LastGroupIsEncoding(s: seq<Symbol>) returns (bytes: seq<byte>)
    requires |s| == 4 && WellFormed(s)
    ensures Encode(bytes) == s
  {
    var a, b := s[0].v, if s[1].Six? then s[1].v else 0;
    if s[2] == Pad {
      BitsUngroup(a, b, 0, 0);
      bytes := [a * 4 + b / 16];
    } else if s[3] == Pad {
      BitsUngroup(a, b, s[2].v, 0);
      bytes := [a * 4 + b / 16, b % 16 * 16 + s[2].v / 4];
    } else {
      bytes := GroupIsEncoding(a, b, s[2].v, s[3].v, []);
    }
  }

  lemma {:induction false} WellFormedIsEncoding(s: seq<Symbol>) returns (bytes: seq<byte>)
    requires WellFormed(s)
    ensures Encode(bytes) == s
  {
    if s == [] {
      bytes := [];
    } else if |s| == 4 {
      bytes := LastGroupIsEncoding(s);
    } else {
      var rest := WellFormedIsEncoding(s[4..]);
      bytes := GroupIsEncoding(s[0].v, s[1].v, s[2].v, s[3].v, rest);
      assert s == [Six(s[0].v), Six(s[1].v), Six(s[2].v), Six(s[3].v)] + s[4..];
    }
  }

  /** A text decodes to bytes whose encoding it is exactly when it is well formed. */
  lemma EncodesBackIff(s: seq<Symbol>)
    ensures Decode(s, 0, 0, 0).Some? && Encode(Decode(s, 0, 0, 0).value) == s <==> WellFormed(s)
  {
    if WellFormed(s) {
      var bytes := WellFormedIsEncoding(s);
      BytesReadBack(bytes);
    }
    if Decode(s, 0, 0, 0).Some? {
      EncodingIsWellFormed(Decode(s, 0, 0, 0).value);
    }
  }

  ghost predicate AllUrlSafe(token: string) {
    forall k :: 0 <= k < |token| ==> UrlSafe(token[k])
  }

  /** A URL-safe token is the letters of its symbols. */
  lemma UrlSafeIsLetters(token: string)
    requires AllUrlSafe(token)
    ensures Stray !in Symbols(token) && Letters(Symbols(token)) == token
  {
    assert forall c :: UrlSafe(c) ==> SymbolOf(c) != Stray && Letter(SymbolOf(c)) == c;
    assert forall k :: 0 <= k < |token| ==> UrlSafe(token[k]) && Symbols(token)[k] == SymbolOf(token[k]);
  }

  /** A token is some bytes' encoding exactly when its letters are URL-safe and its symbols well formed. */
  lemma IssuedIff(token: string, bytes: seq<byte>)
    ensures Letters(Encode(bytes)) == token <==>
              AllUrlSafe(token) && WellFormed(Symbols(token)) && Decode(Symbols(token), 0, 0, 0) == Some(bytes)
  {
    if Letters(Encode(bytes)) == token {
      LettersReadBack(Encode(bytes));
      EncodingIsWellFormed(bytes);
      BytesReadBack(bytes);
    }
    if AllUrlSafe(token) && WellFormed(Symbols(token)) {
      UrlSafeIsLetters(token);
      EncodesBackIff(Symbols(token));
    }
  }
}
