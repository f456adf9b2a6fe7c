/**
 * The XML form of a `Restriction`: `write` emits a `restriction` element
 * whose `type` attribute is the lower-case type name and whose content is the
 * text; `read` consumes such an element from a stream reader. The stream is
 * modelled as the sequence of events a StAX reader reports, with the index
 * of the reader's current event.
 */
module RestrictionXml {
  import opened JavaLang
  import opened Restrictions

  const TAG: string := "restriction"
  const TYPE_ATTRIBUTE: string := "type"

  datatype Attribute = Attribute(name: string, value: string)

  /** A reader event: a start tag, character data, an end tag, or anything
      else the reader reports (comments, processing instructions, ...). */
  datatype Event =
    | StartElement(name: string, attributes: seq<Attribute>)
    | Characters(text: string)
    | EndElement(name: string)
    | OtherEvent

  /** The `XMLStreamException`s that `read` throws. */
  datatype ReadError =
    | NotInStartTag
    | MissingType
    | InvalidType
    | UnexpectedSubelement
    | MissingText
    | UnexpectedEndElement
    | UnexpectedEndOfDocument

  /** A restriction read successfully; the reader is left at index `end`,
      the closing tag. */
  datatype Parsed = Parsed(restriction: Restriction, end: nat)

  // ---------------------------------------------------------------------------
  // Type names
  // ---------------------------------------------------------------------------

  /** The name of the enum constant. */
  function KindName(k: Kind): string
  {
    match k
    case Content => "CONTENT"
    case Word => "WORD"
    case Regex => "REGEX"
  }

  function AsciiUpper(s: string): (r: string)
    ensures |r| == |s|
  {
    seq(|s|, i requires 0 <= i < |s| => if 'a' <= s[i] <= 'z' then (s[i] as int - 32) as char else s[i])
  }

  /** `Enum.valueOf(Type.class, typeStr.toUpperCase())`, with `None` for the
      `IllegalArgumentException`. */
  function ParseType(typeStr: string): (r: Option<Kind>)
    ensures r.Some? <==> AsciiUpper(typeStr) in {"CONTENT", "WORD", "REGEX"}
    ensures r.Some? ==> KindName(r.value) == AsciiUpper(typeStr)
  {
    var u := AsciiUpper(typeStr);
    if u == "CONTENT" then Some(Content)
    else if u == "WORD" then Some(Word)
    else if u == "REGEX" then Some(Regex)
    else None
  }

  /** The type attribute `write` emits is read back as the same type. */
  lemma ParseTypeAttribute(k: Kind)
    ensures ParseType(FoldStr(KindName(k))) == Some(k)
  {
    match k
    case Content => assert AsciiUpper(FoldStr("CONTENT")) == "CONTENT";
    case Word => assert AsciiUpper(FoldStr("WORD")) == "WORD";
    case Regex => assert AsciiUpper(FoldStr("REGEX")) == "REGEX";
  }

  /** `getAttributeValue(null, name)`: the value of the first attribute with
      that name, if any. */
  function AttributeValue(attributes: seq<Attribute>, name: string): (r: Option<string>)
    ensures r.None? <==> forall i | 0 <= i < |attributes| :: attributes[i].name != name
    ensures r.Some? ==> exists i | 0 <= i < |attributes| ::
      attributes[i] == Attribute(name, r.value) && forall j | 0 <= j < i :: attributes[j].name != name
  {
    if attributes == [] then None
    else if attributes[0].name == name then Some(attributes[0].value)
    else
      var r := AttributeValue(attributes[1..], name);
      assert forall i | 1 <= i < |attributes| :: attributes[i] == attributes[1..][i - 1];
      if r.Some? then
        var i :| 0 <= i < |attributes[1..]| && attributes[1..][i] == Attribute(name, r.value)
          && forall j | 0 <= j < i :: attributes[1..][j].name != name;
        assert attributes[i + 1] == Attribute(name, r.value);
        r
      else r
  }

  // ---------------------------------------------------------------------------
  // write
  // ---------------------------------------------------------------------------

  /** `write`: start tag with the lower-case type name, the text, end tag.
      Writing empty characters produces no event a reader sees. */
  function Write(r: Restriction): (events: seq<Event>)
    ensures r.text != "" ==> |events| == 3 && events[1] == Characters(r.text)
    ensures r.text == "" ==> |events| == 2
    ensures events[0] == StartElement(TAG, [Attribute(TYPE_ATTRIBUTE, FoldStr(KindName(r.kind)))])
    ensures events[|events| - 1] == EndElement(TAG)
  {
    [StartElement(TAG, [Attribute(TYPE_ATTRIBUTE, FoldStr(KindName(r.kind)))])]
    + (if r.text == "" then [] else [Characters(r.text)])
    + [EndElement(TAG)]
  }

  // ---------------------------------------------------------------------------
  // read
  // ---------------------------------------------------------------------------

  /** The checks `read` makes on the current event before the loop: it must
      be a `restriction` start tag with a valid `type` attribute. */
  function Header(events: seq<Event>, pos: nat): Result<Kind, ReadError>
  {
    if pos >= |events| || !events[pos].StartElement? || events[pos].name != TAG then Err(NotInStartTag)
    else match AttributeValue(events[pos].attributes, TYPE_ATTRIBUTE)
      case None => Err(MissingType)
      case Some(typeStr) =>
        match ParseType(typeStr)
        case None => Err(InvalidType)
        case Some(k) => Ok(k)
  }

  /** The loop of `read` from event `i` on, with `text` the last character
      data seen so far. */
  function ScanBody(events: seq<Event>, i: nat, kind: Kind, text: Option<string>): Result<Parsed, ReadError>
    decreases |events| - i
  {
    if i >= |events| then Err(UnexpectedEndOfDocument)
    else match events[i]
      case StartElement(_, _) => Err(UnexpectedSubelement)
      case Characters(t) => ScanBody(events, i + 1, kind, Some(t))
      case EndElement(name) =>
        if name != TAG then Err(UnexpectedEndElement)
        else if text.None? then Err(MissingText)
        else Ok(Parsed(Restriction(text.value, kind), i))
      case OtherEvent => ScanBody(events, i + 1, kind, text)
  }

  /** What `read` produces when the reader is at event `pos`. */
  function ReadFrom(events: seq<Event>, pos: nat): Result<Parsed, ReadError>
  {
    match Header(events, pos)
    case Err(e) => Err(e)
    case Ok(kind) => ScanBody(events, pos + 1, kind, None)
  }

  /** `read`: checks the start tag and its type, then reads events until the
      closing tag, keeping the last character data. */
  method Read(events: seq<Event>, pos: nat) returns (result: Result<Parsed, ReadError>)
    ensures result == ReadFrom(events, pos)
    ensures result == ReadReference(events, pos)
  {
    ReadMatchesReference(events, pos);
    if pos >= |events| || !events[pos].StartElement? || events[pos].name != TAG {
      return Err(NotInStartTag);
    }
    var typeStr := AttributeValue(events[pos].attributes, TYPE_ATTRIBUTE);
    if typeStr.None? {
      return Err(MissingType);
    }
    var kind := ParseType(typeStr.value);
    if kind.None? {
      return Err(InvalidType);
    }
    var text: Option<string> := None;
    var i := pos;
    while i + 1 < |events|
      invariant pos <= i < |events|
      invariant ReadFrom(events, pos) == ScanBody(events, i + 1, kind.value, text)
      decreases |events| - i
    {
      i := i + 1;
      match events[i]
      case StartElement(_, _) =>
        return Err(UnexpectedSubelement);
      case Characters(t) =>
        text := Some(t);
      case EndElement(name) =>
        if name == TAG {
          if text.Some? {
            return Ok(Parsed(Restriction(text.value, kind.value), i));
          } else {
            return Err(MissingText);
          }
        } else {
          return Err(UnexpectedEndElement);
        }
      case OtherEvent =>
    }
    return Err(UnexpectedEndOfDocument);
  }

  // ---------------------------------------------------------------------------
  // An independent description of read
  // ---------------------------------------------------------------------------

  predicate IsTag(e: Event)
  {
    e.StartElement? || e.EndElement?
  }

  /** The index of the first tag at or after `i`, or the end of the stream. */
  function FirstTag(events: seq<Event>, i: nat): (f: nat)
    requires i <= |events|
    ensures i <= f <= |events|
    ensures forall j | i <= j < f :: !IsTag(events[j])
    ensures f < |events| ==> IsTag(events[f])
    decreases |events| - i
  {
    if i == |events| then i
    else if IsTag(events[i]) then i
    else FirstTag(events, i + 1)
  }

  /** The text of the last character event in [i, f), if any. */
  function LastText(events: seq<Event>, i: nat, f: nat): (r: Option<string>)
    requires i <= f <= |events|
    ensures r.None? ==> forall j | i <= j < f :: !events[j].Characters?
    ensures r.Some? ==> exists j | i <= j < f ::
      (events[j] == Characters(r.value) && forall k | j < k < f :: !events[k].Characters?)
    decreases f
  {
    if f == i then None
    else if events[f - 1].Characters? then Some(events[f - 1].text)
    else LastText(events, i, f - 1)
  }

  function Latest(earlier: Option<string>, later: Option<string>): Option<string>
  {
    if later.Some? then later else earlier
  }

  /** The outcome decided by the first tag after the start tag, at index `f`. */
  function Outcome(events: seq<Event>, f: nat, kind: Kind, text: Option<string>): Result<Parsed, ReadError>
    requires f < |events| ==> IsTag(events[f])
  {
    if f >= |events| then Err(UnexpectedEndOfDocument)
    else if events[f].StartElement? then Err(UnexpectedSubelement)
    else if events[f].name != TAG then Err(UnexpectedEndElement)
    else if text.None? then Err(MissingText)
    else Ok(Parsed(Restriction(text.value, kind), f))
  }

  /** `read` described without its loop: after a valid start tag, the first
      tag that follows decides. A start tag is an error, an end tag with
      another name is an error, the end of the stream is an error; the
      `restriction` end tag succeeds with the text of the last character
      event before it, and fails if there is none. */
  function ReadReference(events: seq<Event>, pos: nat): Result<Parsed, ReadError>
  {
    match Header(events, pos)
    case Err(e) => Err(e)
    case Ok(kind) =>
      var f := FirstTag(events, pos + 1);
      Outcome(events, f, kind, LastText(events, pos + 1, f))
  }

  lemma {:induction false} LastTextFront(events: seq<Event>, i: nat, f: nat)
    requires i < f <= |events|
    ensures LastText(events, i, f) ==
      if events[i].Characters? then Latest(Some(events[i].text), LastText(events, i + 1, f))
      else LastText(events, i + 1, f)
    decreases f - i
  {
    if f > i + 1 {
      LastTextFront(events, i, f - 1);
    }
  }

  lemma {:induction false} ScanBodyReference(events: seq<Event>, i: nat, kind: Kind, text: Option<string>)
    requires i <= |events|
    ensures ScanBody(events, i, kind, text)
      == Outcome(events, FirstTag(events, i), kind, Latest(text, LastText(events, i, FirstTag(events, i))))
    decreases |events| - i
  {
    if i < |events| && !IsTag(events[i]) {
      var f := FirstTag(events, i);
      assert f == FirstTag(events, i + 1);
      LastTextFront(events, i, f);
      match events[i]
      case Characters(t) => ScanBodyReference(events, i + 1, kind, Some(t));
      case OtherEvent => ScanBodyReference(events, i + 1, kind, text);
    }
  }

  /** `read` agrees with its loop-free description on every stream. */
  lemma ReadMatchesReference(events: seq<Event>, pos: nat)
    ensures ReadFrom(events, pos) == ReadReference(events, pos)
  {
    if Header(events, pos).Ok? {
      ScanBodyReference(events, pos + 1, Header(events, pos).value, None);
    }
  }

  // ---------------------------------------------------------------------------
  // Properties
  // ---------------------------------------------------------------------------

  /** Reading back what `write` wrote, wherever it sits in the stream, gives
      an equal restriction and leaves the reader at its closing tag, provided
      the text is not empty; an empty text is reported as missing. */
  lemma WriteThenRead(r: Restriction, before: seq<Event>, after: seq<Event>)
    ensures r.text != "" ==> ReadFrom(before + Write(r) + after, |before|) == Ok(Parsed(r, |before| + 2))
    ensures r.text == "" ==> ReadFrom(before + Write(r) + after, |before|) == Err(MissingText)
  {
    var events := before + Write(r) + after;
    var p := |before|;
    ParseTypeAttribute(r.kind);
    assert events[p] == Write(r)[0];
    assert Header(events, p) == Ok(r.kind);
    if r.text != "" {
      assert events[p + 1] == Characters(r.text);
      assert events[p + 2] == EndElement(TAG);
      assert ScanBody(events, p + 2, r.kind, Some(r.text)) == Ok(Parsed(r, p + 2));
    } else {
      assert events[p + 1] == EndElement(TAG);
    }
  }

  /** Character data split over several events: the last one wins. */
  lemma LastCharactersWin(k: Kind, first: string, last: string)
    ensures ReadFrom([StartElement(TAG, [Attribute(TYPE_ATTRIBUTE, FoldStr(KindName(k)))]),
                      Characters(first), OtherEvent, Characters(last), EndElement(TAG)], 0)
         == Ok(Parsed(Restriction(last, k), 4))
  {
    var events := [StartElement(TAG, [Attribute(TYPE_ATTRIBUTE, FoldStr(KindName(k)))]),
                   Characters(first), OtherEvent, Characters(last), EndElement(TAG)];
    ParseTypeAttribute(k);
    assert Header(events, 0) == Ok(k);
    assert ScanBody(events, 4, k, Some(last)) == Ok(Parsed(Restriction(last, k), 4));
    assert ScanBody(events, 2, k, Some(first)) == ScanBody(events, 3, k, Some(first));
  }

  /** The type attribute is read case-insensitively, and an unknown type is
      rejected. */
  lemma TypeAttributeExamples()
    ensures ReadFrom([StartElement(TAG, [Attribute(TYPE_ATTRIBUTE, "WoRd")]), Characters("x"), EndElement(TAG)], 0)
         == Ok(Parsed(Restriction("x", Word), 2))
    ensures ReadFrom([StartElement(TAG, [Attribute(TYPE_ATTRIBUTE, "bogus")]), Characters("x"), EndElement(TAG)], 0)
         == Err(InvalidType)
    ensures ReadFrom([StartElement(TAG, [Attribute("kind", "word")]), Characters("x"), EndElement(TAG)], 0)
         == Err(MissingType)
  {
    assert AsciiUpper("WoRd") == "WORD";
    var e1 := [StartElement(TAG, [Attribute(TYPE_ATTRIBUTE, "WoRd")]), Characters("x"), EndElement(TAG)];
    assert Header(e1, 0) == Ok(Word);
    assert ScanBody(e1, 2, Word, Some("x")) == Ok(Parsed(Restriction("x", Word), 2));
    var u := AsciiUpper("bogus");
    assert u[0] == 'B';
    assert u != "CONTENT" && u != "WORD" && u != "REGEX";
    assert AttributeValue([Attribute("kind", "word")], TYPE_ATTRIBUTE) == None;
  }

  /** Each failure of the body: a nested start tag, a foreign end tag, no
      text before the end tag, and the stream running out. */
  lemma BodyErrors(k: Kind)
    ensures var start := StartElement(TAG, [Attribute(TYPE_ATTRIBUTE, FoldStr(KindName(k)))]);
      && ReadFrom([start, Characters("x"), StartElement("b", []), EndElement(TAG)], 0) == Err(UnexpectedSubelement)
      && ReadFrom([start, Characters("x"), EndElement("b")], 0) == Err(UnexpectedEndElement)
      && ReadFrom([start, OtherEvent, EndElement(TAG)], 0) == Err(MissingText)
      && ReadFrom([start, Characters("x")], 0) == Err(UnexpectedEndOfDocument)
      && ReadFrom([EndElement(TAG)], 0) == Err(NotInStartTag)
  {
    ParseTypeAttribute(k);
    var start := StartElement(TAG, [Attribute(TYPE_ATTRIBUTE, FoldStr(KindName(k)))]);
    var e1 := [start, Characters("x"), StartElement("b", []), EndElement(TAG)];
    assert Header(e1, 0) == Ok(k);
    assert ScanBody(e1, 2, k, Some("x")) == Err(UnexpectedSubelement);
    var e2 := [start, Characters("x"), EndElement("b")];
    assert Header(e2, 0) == Ok(k);
    assert "b" != TAG;
    assert ScanBody(e2, 2, k, Some("x")) == Err(UnexpectedEndElement);
    var e3 := [start, OtherEvent, EndElement(TAG)];
    assert Header(e3, 0) == Ok(k);
    assert ScanBody(e3, 2, k, None) == Err(MissingText);
    var e4 := [start, Characters("x")];
    assert Header(e4, 0) == Ok(k);
    assert ScanBody(e4, 2, k, Some("x")) == Err(UnexpectedEndOfDocument);
  }
}
