/**
 json.loads and json.dumps as a cursor uses them: which texts load, how deep they nest, what their values
 are, and which texts dumps writes.
 */
module JsonText {
  import opened Common
  import opened Json

  // ---- whole texts -----------------------------------------------------------------------------

  /** A text of JSON: a value between its spaces. */
  datatype Doc = Doc(lead: string, value: Json, trail: string)

  function WriteDoc(d: Doc): string {
    d.lead + Write(d.value, d.trail)
  }

  predicate ShapedDoc(d: Doc) {
    All(d.lead, IsSpace) && Shaped(d.value) && All(d.trail, IsSpace)
  }

  /** json.loads under a nesting limit: the document, its ValueError (Bad) or its RecursionError (Deep). */
  function Loads(s: string, limit: nat): Scan<Doc> {
    var lead := Span(s, IsSpace);
    var value := ScanValue(s[|lead|..], limit);
    match value
    case Got(j, rest) => if All(rest, IsSpace) then Got(Doc(lead, j, rest), []) else Bad
    case Bad => Bad
    case Deep => Deep
  }

  lemma {:induction false} LoadedWasWritten(s: string, limit: nat, d: Doc)
    requires Loads(s, limit) == Got(d, [])
    ensures ShapedDoc(d) && Depth(d.value) <= limit && s == WriteDoc(d)
  {
    SpanSplits(s, IsSpace);
    ValueScanned(s[|d.lead|..], limit);
  }

  lemma {:induction false} WrittenLoads(d: Doc, limit: nat)
    requires ShapedDoc(d) && Depth(d.value) <= limit
    ensures Loads(WriteDoc(d), limit) == Got(d, [])
  {
    ValueStarts(d.value, d.trail);
    SpanStopsAt(d.lead, Write(d.value, d.trail), IsSpace);
    ValueScans(d.value, d.trail, limit);
  }

  /** A text loads as a document exactly when it is that document's text and nests no deeper than the limit. */
  lemma LoadsIff(s: string, limit: nat, d: Doc)
    ensures Loads(s, limit) == Got(d, []) <==> ShapedDoc(d) && Depth(d.value) <= limit && s == WriteDoc(d)
  {
    if Loads(s, limit) == Got(d, []) {
      LoadedWasWritten(s, limit, d);
    }
    if ShapedDoc(d) && Depth(d.value) <= limit && s == WriteDoc(d) {
      WrittenLoads(d, limit);
    }
  }

  // ---- the nesting limit -----------------------------------------------------------------------

  lemma {:induction false} ValueWithin(s: string, limit: nat, more: nat)
    requires !ScanValue(s, limit).Deep? && limit <= more
    ensures ScanValue(s, more) == ScanValue(s, limit)
    decreases |s|, 0
  {
    if s != [] && (s[0] == '[' || s[0] == '{') {
      ContainerWithin(s[0] == '{', s[1..], limit - 1, more - 1);
    }
  }

  lemma {:induction false} ContainerWithin(obj: bool, s: string, limit: nat, more: nat)
    requires !ScanContainer(obj, s, limit).Deep? && limit <= more
    ensures ScanContainer(obj, s, more) == ScanContainer(obj, s, limit)
    decreases |s|, 2
  {
    var t := s[|Span(s, IsSpace)|..];
    if t == [] || t[0] != Closer(obj) {
      ItemsWithin(obj, s, limit, more);
    }
  }

  lemma {:induction false} ItemsWithin(obj: bool, s: string, limit: nat, more: nat)
    requires !ScanItems(obj, s, limit).Deep? && limit <= more
    ensures ScanItems(obj, s, more) == ScanItems(obj, s, limit)
    decreases |s|, 1
  {
    var key := ScanKey(obj, s[|Span(s, IsSpace)|..]);
    if key.Got? {
      ValueWithin(key.rest, limit, more);
      var value := ScanValue(key.rest, limit);
      if value.Got? {
        var t := value.rest[|Span(value.rest, IsSpace)|..];
        if t != [] && t[0] != Closer(obj) && t[0] == ',' {
          ItemsWithin(obj, t[1..], limit, more);
        }
      }
    }
  }

  /** A text of at most `limit` characters cannot nest past it. */
  lemma {:induction false} ShortIsNeverDeep(s: string, limit: nat)
    requires |s| <= limit
    ensures !ScanValue(s, limit).Deep?
    decreases |s|, 0
  {
    if s != [] && (s[0] == '[' || s[0] == '{') {
      ShortContainerIsNeverDeep(s[0] == '{', s[1..], limit - 1);
    }
  }

  lemma {:induction false} ShortContainerIsNeverDeep(obj: bool, s: string, limit: nat)
    requires |s| <= limit
    ensures !ScanContainer(obj, s, limit).Deep?
    decreases |s|, 2
  {
    ShortItemsAreNeverDeep(obj, s, limit);
  }

  lemma {:induction false} ShortItemsAreNeverDeep(obj: bool, s: string, limit: nat)
    requires |s| <= limit
    ensures !ScanItems(obj, s, limit).Deep?
    decreases |s|, 1
  {
    var key := ScanKey(obj, s[|Span(s, IsSpace)|..]);
    if key.Got? {
      ShortIsNeverDeep(key.rest, limit);
      var value := ScanValue(key.rest, limit);
      if value.Got? {
        var t := value.rest[|Span(value.rest, IsSpace)|..];
        if t != [] {
          ShortItemsAreNeverDeep(obj, t[1..], limit);
        }
      }
    }
  }

  /**
   What a text loads as, the limit aside, is what it loads as with a limit of its own length; the limit
   shows exactly where it is a RecursionError instead.
   */
  lemma DeepIff(s: string, limit: nat)
    ensures !Loads(s, |s|).Deep?
    ensures Loads(s, limit).Deep? <==> Loads(s, limit) != Loads(s, |s|)
    ensures Loads(s, |s|).Got? ==> (Loads(s, limit).Deep? <==> Depth(Loads(s, |s|).value.value) > limit)
  {
    var t := s[|Span(s, IsSpace)|..];
    ShortIsNeverDeep(t, |s|);
    if !ScanValue(t, limit).Deep? {
      if limit <= |s| {
        ValueWithin(t, limit, |s|);
      } else {
        ValueWithin(t, |s|, limit);
      }
    }
    if Loads(s, |s|).Got? {
      LoadsIff(s, |s|, Loads(s, |s|).value);
      LoadsIff(s, limit, Loads(s, |s|).value);
    }
  }

  /** A larger limit changes nothing once the limit does not show. */
  lemma LoadsWithin(s: string, limit: nat, more: nat)
    requires !Loads(s, limit).Deep? && limit <= more
    ensures Loads(s, more) == Loads(s, limit)
  {
    ValueWithin(s[|Span(s, IsSpace)|..], limit, more);
  }

  /** Opening brackets and nothing else. */
  function Brackets(n: nat): string {
    if n == 0 then [] else ['['] + Brackets(n - 1)
  }

  lemma {:induction false} BracketsAreDeep(limit: nat)
    ensures Loads(Brackets(limit + 1), limit) == Deep && Loads(Brackets(limit + 1), limit + 1) == Bad
  {
    BracketsNest(limit, limit);
    BracketsNest(limit, limit + 1);
  }

  /** More brackets than the limit are deep; no more, and the text ends too early. */
  lemma {:induction false} BracketsNest(n: nat, limit: nat)
    ensures ScanValue(Brackets(n + 1), limit) == if n < limit then Bad else Deep
    ensures Span(Brackets(n + 1), IsSpace) == []
    decreases n
  {
    var s, t := Brackets(n + 1), Brackets(n);
    assert s[0] == '[' && s[1..] == t;
    if limit > 0 {
      if n > 0 {
        BracketsNest(n - 1, limit - 1);
      }
      assert Span(t, IsSpace) == [] && t[0..] == t && (t != [] ==> t[0] == '[');
      FirstElement(t, limit - 1);
    }
  }

  lemma {:induction false} FirstElement(t: string, limit: nat)
    requires Span(t, IsSpace) == [] && (t != [] ==> t[0] == '[') && !ScanValue(t, limit).Got?
    ensures ScanContainer(false, t, limit) == if ScanValue(t, limit).Deep? then Deep else Bad
  {
    assert t[|Span(t, IsSpace)|..] == t;
  }
}
