/**
 The paging token (api/cursor.py): a JSON list of two in URL-safe base64.

 `limit` is how many containers the interpreter lets json.loads nest before a RecursionError. Values that
 dumps writes as floats, lists or objects are not modelled beyond their being read (Other).
 */
module Cursor {
  import opened Common
  import opened Json
  import opened JsonText
  import opened JsonValues
  import opened Base64
  import Utf8

  // ---- encode_cursor ---------------------------------------------------------------------------

  function ItemsOf(values: seq<Value>): Items
    requires values != [] && Other !in values
  {
    Item([], None, JsonOf(values[0]), [], if |values| == 1 then None else Some(ItemsOf(values[1..])))
  }

  function ListOf(values: seq<Value>): Json
    requires Other !in values
  {
    if values == [] then Empty(false, []) else Full(false, ItemsOf(values))
  }

  /** json.dumps with separators (",", ":"). */
  function Dumps(values: seq<Value>): string
    requires Other !in values
  {
    Write(ListOf(values), [])
  }

  predicate AnyTooLong(values: seq<Value>) {
    exists k :: 0 <= k < |values| && TooLong(values[k])
  }

  /** None: the ValueError of an integer too long to write. */
  function EncodeCursor(values: seq<Value>): Option<string>
    requires Other !in values
  {
    if AnyTooLong(values) then None else Some(Letters(Encode(Utf8.Bytes(Dumps(values)))))
  }

  // ---- decode_cursor ---------------------------------------------------------------------------

  datatype Decoded = Cursor(sortValue: Value, id: Value) | ValueError | RecursionError

  /** The JSON text in a token, when there is one. */
  function Payload(token: string): Option<string> {
    if !IsAscii(token) then None
    else
      var raw := Decode(Symbols(token), 0, 0, 0);
      if raw.None? then None else Utf8.Text(raw.value)
  }

  predicate IsPair(j: Json) {
    j.Full? && !j.obj && j.items.more.Some? && j.items.more.value.more.None?
  }

  function SecondOf(j: Json): (second: Items)
    requires Shaped(j) && IsPair(j)
    ensures Shaped(j.items.value) && ShapedItems(false, second) && Shaped(second.value) && second.key.None?
    ensures j == Full(false, Item(j.items.lead, None, j.items.value, j.items.trail, Some(second)))
  {
    assert ShapedItems(false, j.items);
    j.items.more.value
  }

  /** The two values of a list of two. */
  function PairIn(j: Json): Option<(Value, Value)>
    requires Shaped(j)
  {
    if IsPair(j) then
      var second := SecondOf(j);
      Some((ValueOf(j.items.value), ValueOf(second.value)))
    else None
  }

  function DecodeCursor(token: string, limit: nat): Decoded {
    var text := Payload(token);
    if text.None? then ValueError
    else
      var loaded := Loads(text.value, limit);
      match loaded
      case Bad => ValueError
      case Deep => RecursionError
      case Got(d, _) =>
        LoadedWasWritten(text.value, limit, d);
        var pair := PairIn(d.value);
        if pair.None? then ValueError else Cursor(pair.value.0, pair.value.1)
  }

  // ---- which tokens are answered ---------------------------------------------------------------

  /** A JSON document nested no deeper than the limit that is a list of these two values. */
  predicate IsPairOf(d: Doc, limit: nat, a: Value, b: Value) {
    ShapedDoc(d) && Depth(d.value) <= limit && PairIn(d.value) == Some((a, b))
  }

  /** The symbols decode to the document's text. */
  ghost predicate Spells(symbols: seq<Symbol>, limit: nat, d: Doc, a: Value, b: Value) {
    IsPairOf(d, limit, a, b) && Decode(symbols, 0, 0, 0) == Some(Utf8.Bytes(WriteDoc(d)))
  }

  lemma {:induction false} AnsweredSpells(token: string, limit: nat, a: Value, b: Value) returns (d: Doc)
    requires DecodeCursor(token, limit) == Cursor(a, b)
    ensures IsAscii(token) && Spells(Symbols(token), limit, d, a, b)
  {
    var text := Payload(token).value;
    d := Loads(text, limit).value;
    Utf8.ReadsIff(Decode(Symbols(token), 0, 0, 0).value, text);
    LoadedWasWritten(text, limit, d);
  }

  lemma {:induction false} SpelledIsAnswered(token: string, limit: nat, d: Doc, a: Value, b: Value)
    requires IsAscii(token) && Spells(Symbols(token), limit, d, a, b)
    ensures DecodeCursor(token, limit) == Cursor(a, b)
  {
    Utf8.ReadsIff(Utf8.Bytes(WriteDoc(d)), WriteDoc(d));
    WrittenLoads(d, limit);
  }

  /** A token is answered with a pair exactly when it is ASCII, decodes, and its bytes spell that pair. */
  lemma DecodeCursorIff(token: string, limit: nat, a: Value, b: Value)
    ensures DecodeCursor(token, limit) == Cursor(a, b) <==>
              (forall k :: 0 <= k < |token| ==> (token[k] as int) < 0x80)
              && Decodable(Symbols(token)) && exists d :: Spells(Symbols(token), limit, d, a, b)
  {
    DecodesIff(Symbols(token));
    if DecodeCursor(token, limit) == Cursor(a, b) {
      var d := AnsweredSpells(token, limit, a, b);
    }
    if IsAscii(token) {
      if d :| Spells(Symbols(token), limit, d, a, b) {
        SpelledIsAnswered(token, limit, d, a, b);
      }
    }
  }

  /**
   The promise of a ValueError fails exactly where the nesting limit gets in the way: a token is a
   RecursionError exactly when without the limit it would load, or fail to, as something else.
   */
  lemma RecursionErrorIff(token: string, limit: nat)
    ensures DecodeCursor(token, limit) == RecursionError <==>
              var text := Payload(token);
              text.Some? && Loads(text.value, limit) != Loads(text.value, |text.value|)
    ensures DecodeCursor(token, limit) != RecursionError ==>
              forall more :: more >= limit ==> DecodeCursor(token, more) == DecodeCursor(token, limit)
  {
    var text := Payload(token);
    if text.Some? {
      DeepIff(text.value, limit);
      if DecodeCursor(token, limit) != RecursionError {
        forall more | more >= limit
          ensures DecodeCursor(token, more) == DecodeCursor(token, limit)
        {
          LoadsWithin(text.value, limit, more);
        }
      }
    }
  }

  /** An ASCII token that decodes to a JSON document is a RecursionError exactly when it nests past the limit. */
  lemma DocumentDeepIff(token: string, limit: nat, d: Doc)
    requires ShapedDoc(d) && Payload(token) == Some(WriteDoc(d))
    ensures DecodeCursor(token, limit) == RecursionError <==> Depth(d.value) > limit
  {
    var text := WriteDoc(d);
    DeepIff(text, limit);
    LoadsIff(text, limit, d);
    if Depth(d.value) > limit {
      var more := if |text| < Depth(d.value) then Depth(d.value) else |text|;
      LoadsIff(text, more, d);
      LoadsWithin(text, |text|, more);
    }
  }

  // ---- round trips -----------------------------------------------------------------------------

  /** A token that encodes a text holds it. */
  lemma TokenHolds(text: string)
    ensures Payload(Letters(Encode(Utf8.Bytes(text)))) == Some(text)
  {
    var bytes := Utf8.Bytes(text);
    LettersReadBack(Encode(bytes));
    BytesReadBack(bytes);
    Utf8.ReadsIff(bytes, text);
  }

  /** Whatever the limit, one bracket more is neither a cursor nor a ValueError. */
  lemma BracketsEscape(limit: nat)
    ensures var token := Letters(Encode(Utf8.Bytes(Brackets(limit + 1))));
            DecodeCursor(token, limit) == RecursionError && DecodeCursor(token, limit + 1) == ValueError
  {
    TokenHolds(Brackets(limit + 1));
    BracketsAreDeep(limit);
  }

  lemma {:induction false} ItemsAreShaped(values: seq<Value>)
    requires values != [] && Other !in values && !AnyTooLong(values)
    ensures ShapedItems(false, ItemsOf(values)) && ItemsDepth(ItemsOf(values)) == 0
    ensures ValueOf(ItemsOf(values).value) == ReadBack(values[0])
    ensures ItemsOf(values).more.Some? <==> |values| > 1
  {
    ValueReadsBack(values[0]);
    if |values| > 1 {
      assert forall k :: 0 <= k < |values| - 1 ==> values[1..][k] == values[k + 1];
      ItemsAreShaped(values[1..]);
    }
  }

  lemma {:induction false} ListReadsBack(values: seq<Value>)
    requires Other !in values && !AnyTooLong(values)
    ensures var j := ListOf(values);
            Shaped(j) && Depth(j) == 1
            && PairIn(j) == if |values| == 2 then Some((ReadBack(values[0]), ReadBack(values[1]))) else None
  {
    if values != [] {
      ItemsAreShaped(values);
      if |values| > 1 {
        assert forall k :: 0 <= k < |values| - 1 ==> values[1..][k] == values[k + 1];
        ItemsAreShaped(values[1..]);
      }
    }
  }

  /** The values of a list's items. */
  function ItemValues(items: Items): seq<Value>
    requires ShapedItems(false, items)
    decreases items
  {
    [ValueOf(items.value)] + (if items.more.Some? then ItemValues(items.more.value) else [])
  }

  function ReadBackAll(values: seq<Value>): (r: seq<Value>)
    ensures |r| == |values| && forall k :: 0 <= k < |values| ==> r[k] == ReadBack(values[k])
  {
    seq(|values|, k requires 0 <= k < |values| => ReadBack(values[k]))
  }

  lemma {:induction false} ItemsReadBack(values: seq<Value>)
    requires values != [] && Other !in values && !AnyTooLong(values)
    ensures ShapedItems(false, ItemsOf(values)) && ItemValues(ItemsOf(values)) == ReadBackAll(values)
  {
    ItemsAreShaped(values);
    if |values| > 1 {
      assert forall k :: 0 <= k < |values| - 1 ==> values[1..][k] == values[k + 1];
      ItemsReadBack(values[1..]);
    }
  }

  /** Any list's JSON text loads as a list of what its values read back as. */
  lemma DumpsReadBack(values: seq<Value>, limit: nat)
    requires Other !in values && !AnyTooLong(values) && limit > 0
    ensures var d := Doc([], ListOf(values), []);
            Loads(Dumps(values), limit) == Got(d, []) && (d.value.Empty? || d.value.Full?) && !d.value.obj
            && (values != [] ==> ShapedItems(false, d.value.items) && ItemValues(d.value.items) == ReadBackAll(values))
  {
    var d := Doc([], ListOf(values), []);
    ListReadsBack(values);
    assert WriteDoc(d) == Dumps(values);
    LoadsIff(Dumps(values), limit, d);
    if values != [] {
      ItemsReadBack(values);
    }
  }

  /**
   A list encodes unless an integer is too long to write; a pair's token reads back as the pair, a split
   pair of surrogates joined; any other list's token is a ValueError.
   */
  lemma CursorRoundTrip(values: seq<Value>, limit: nat)
    requires Other !in values
    ensures EncodeCursor(values) == None <==> AnyTooLong(values)
    ensures EncodeCursor(values).Some? ==>
              DecodeCursor(EncodeCursor(values).value, limit)
              == if limit == 0 then RecursionError
                 else if |values| == 2 then Cursor(ReadBack(values[0]), ReadBack(values[1])) else ValueError
  {
    if !AnyTooLong(values) {
      var d := Doc([], ListOf(values), []);
      ListReadsBack(values);
      TokenHolds(Dumps(values));
      assert WriteDoc(d) == Dumps(values);
      LoadsIff(Dumps(values), limit, d);
      DocumentDeepIff(EncodeCursor(values).value, limit, d);
    }
  }

  /** Exactly the pairs without such a split pair survive. */
  lemma PairSurvivesIff(a: Value, b: Value, limit: nat)
    requires a != Other && b != Other && !TooLong(a) && !TooLong(b) && limit > 0
    ensures DecodeCursor(EncodeCursor([a, b]).value, limit) == Cursor(a, b) <==>
              !(a.Text? && SplitPair(a.t)) && !(b.Text? && SplitPair(b.t))
  {
    assert !AnyTooLong([a, b]);
    CursorRoundTrip([a, b], limit);
    if a.Text? {
      SurvivesIff(a.t);
    }
    if b.Text? {
      SurvivesIff(b.t);
    }
  }

  // ---- which tokens were issued ----------------------------------------------------------------

  /** A list of two as dumps writes it: no spaces, no signed zero, no other spelling of a character. */
  predicate TightPair(d: Doc)
    requires ShapedDoc(d) && IsPair(d.value)
  {
    var x, y := d.value.items, SecondOf(d.value);
    && d.lead == [] && d.trail == [] && x.lead == [] && x.trail == [] && y.lead == [] && y.trail == []
    && Tight(x.value) && Tight(y.value)
  }

  lemma {:induction false} ShapedIsNotTooLong(j: Json)
    requires Shaped(j)
    ensures !TooLong(ValueOf(j))
  {
    if j.Num? {
      DigitsAreDecimal(j.whole);
    }
  }

  lemma {:induction false} ListOfTwo(a: Value, b: Value)
    requires a != Other && b != Other
    ensures ListOf([a, b]) == Full(false, Item([], None, JsonOf(a), [], Some(Item([], None, JsonOf(b), [], None))))
  {
    var values := [a, b];
    assert values[1..] == [b];
    assert ItemsOf([b]) == Item([], None, JsonOf(b), [], None);
    assert ItemsOf(values) == Item([], None, JsonOf(a), [], Some(ItemsOf(values[1..])));
  }

  /** Two lists of two, field by field. */
  lemma {:induction false} SamePair(d: Doc, x: Items, y: Items, v: Json, w: Json)
    requires d.value == Full(false, x) && x == Item(x.lead, None, x.value, x.trail, Some(y))
    requires y == Item(y.lead, None, y.value, y.trail, None)
    ensures d == Doc([], Full(false, Item([], None, v, [], Some(Item([], None, w, [], None)))), []) <==>
              d.lead == [] && d.trail == [] && x.lead == [] && x.trail == [] && y.lead == [] && y.trail == []
              && x.value == v && y.value == w
  {}

  lemma {:induction false} TightPairIff(d: Doc, a: Value, b: Value)
    requires ShapedDoc(d) && PairIn(d.value) == Some((a, b)) && a != Other && b != Other
    ensures d == Doc([], ListOf([a, b]), []) <==> TightPair(d)
  {
    var x, y := d.value.items, SecondOf(d.value);
    WrittenIffTight(x.value);
    WrittenIffTight(y.value);
    ListOfTwo(a, b);
    SamePair(d, x, y, JsonOf(a), JsonOf(b));
  }

  lemma {:induction false} ReadIsNotTooLong(d: Doc, a: Value, b: Value)
    requires ShapedDoc(d) && PairIn(d.value) == Some((a, b))
    ensures !AnyTooLong([a, b])
  {
    ShapedIsNotTooLong(d.value.items.value);
    ShapedIsNotTooLong(SecondOf(d.value).value);
  }

  /**
   A token that decodes is the one encode_cursor writes for its pair exactly when its letters are
   URL-safe, its symbols are well formed and its JSON text is as dumps writes it.
   */
  lemma DecodedIsCanonicalIff(token: string, limit: nat, a: Value, b: Value)
    requires DecodeCursor(token, limit) == Cursor(a, b) && a != Other && b != Other
    ensures var d := Loads(Payload(token).value, limit).value;
            IsPairOf(d, limit, a, b)
            && (EncodeCursor([a, b]) == Some(token) <==>
                  AllUrlSafe(token) && WellFormed(Symbols(token)) && TightPair(d))
  {
    var text := Payload(token).value;
    var d := Loads(text, limit).value;
    var issued := Dumps([a, b]);
    LoadedWasWritten(text, limit, d);
    TightPairIff(d, a, b);
    ReadIsNotTooLong(d, a, b);
    Utf8.ReadsIff(Decode(Symbols(token), 0, 0, 0).value, text);
    IssuedIff(token, Utf8.Bytes(issued));
    var e := Doc([], ListOf([a, b]), []);
    assert WriteDoc(e) == issued;
    if EncodeCursor([a, b]) == Some(token) {
      TokenHolds(issued);
      ListReadsBack([a, b]);
      LoadsIff(text, limit, e);
    }
  }

  /**
   Not every malformed token is a ValueError: an ASCII character outside both alphabets may stand
   anywhere in a token and it still decodes to the same cursor.
   */
  lemma StrayCharacterIsIgnored(token: string, i: nat, c: char, limit: nat)
    requires i <= |token| && IsAscii(token)
    requires (c as int) < 0x80 && !UrlSafe(c) && c != '+' && c != '/'
    ensures DecodeCursor(token[..i] + [c] + token[i..], limit) == DecodeCursor(token, limit)
  {
    var longer, symbols := token[..i] + [c] + token[i..], Symbols(token);
    AlphabetExact(c);
    assert [c][0] == c;
    assert Symbols(longer) == symbols[..i] + [Stray] + symbols[i..];
    StrayIsSkipped(symbols, i, 0, 0, 0);
  }
}
