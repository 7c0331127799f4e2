/**
 * The accept/reject rule of `TelemetryManager::parseXml` (src/TelemetryManager.cpp).
 *
 * QDomDocument parsing is abstracted: `setContent` either fails (None) or
 * yields a root element with its child elements, each a tag and its text.
 * `QString::toDouble` is abstracted as a partial conversion `toNum` passed in
 * by the caller; numbers are exact reals, not doubles.
 */
module Xml {
  import opened Wrappers

  type Num = real

  /** A child element of the root: its tag name and its `text()`. */
  datatype Child = Child(tag: string, text: string)

  /** A parsed document: the root element (its name is never checked) and its child elements in order. */
  datatype Document = Document(root: string, children: seq<Child>)

  /** The two values a status document carries. */
  datatype Sample = Sample(altitude: Num, roll: Num)

  const AltitudeTag: string := "cmd.pos.altitude"
  const RollTag: string := "est.att.roll"

  /** Child i is the first child whose tag is exactly `tag`. */
  ghost predicate IsFirst(cs: seq<Child>, tag: string, i: int)
  {
    0 <= i < |cs| && cs[i].tag == tag && forall j :: 0 <= j < i ==> cs[j].tag != tag
  }

  /** `root.firstChildElement(tag)` for a non-empty tag: the position of the first child with that exact tag, if any. */
  function FirstChildIndex(cs: seq<Child>, tag: string): (r: Option<nat>)
    ensures r.Some? ==> IsFirst(cs, tag, r.value)
    ensures r.None? <==> forall i :: 0 <= i < |cs| ==> cs[i].tag != tag
  {
    if cs == [] then None
    else if cs[0].tag == tag then Some(0)
    else match FirstChildIndex(cs[1..], tag)
      case None => None
      case Some(i) => Some(i + 1)
  }

  /** The document has both tags and the first child of each converts to a number. */
  ghost predicate Readable(d: Document, toNum: string -> Option<Num>)
  {
    exists i, k :: IsFirst(d.children, AltitudeTag, i) && IsFirst(d.children, RollTag, k) &&
      toNum(d.children[i].text).Some? && toNum(d.children[k].text).Some?
  }

  /**
   * `parseXml`: a sample exactly when the document parsed, both tags are
   * present and both first children's texts convert; the sample holds the
   * converted texts of those first children.
   */
  function ParseXml(doc: Option<Document>, toNum: string -> Option<Num>): (r: Option<Sample>)
    ensures r.Some? <==> doc.Some? && Readable(doc.value, toNum)
    ensures r.Some? ==> doc.Some? && forall i, k ::
      IsFirst(doc.value.children, AltitudeTag, i) && IsFirst(doc.value.children, RollTag, k) ==>
        r.value == Sample(toNum(doc.value.children[i].text).value, toNum(doc.value.children[k].text).value)
  {
    match doc
    case None => None
    case Some(d) =>
      var alt := FirstChildIndex(d.children, AltitudeTag);
      var roll := FirstChildIndex(d.children, RollTag);
      if alt.None? || roll.None? then None
      else
        var a := toNum(d.children[alt.value].text);
        var b := toNum(d.children[roll.value].text);
        if a.Some? && b.Some? then Some(Sample(a.value, b.value)) else None
  }

  /** A document that has no roll child is rejected, whatever its altitude child says. */
  lemma RollMissingRejected(d: Document, toNum: string -> Option<Num>)
    requires forall i :: 0 <= i < |d.children| ==> d.children[i].tag != RollTag
    ensures ParseXml(Some(d), toNum) == None
  {
  }

  /** The altitude-only document `<root><cmd.pos.altitude>500</cmd.pos.altitude></root>` is rejected. */
  lemma AltitudeOnlyRejected(toNum: string -> Option<Num>)
    ensures ParseXml(Some(Document("root", [Child(AltitudeTag, "500")])), toNum) == None
  {
    var d := Document("root", [Child(AltitudeTag, "500")]);
    assert d.children[0].tag != RollTag;
    RollMissingRejected(d, toNum);
  }

  /** The reference document: both values are read from their own tags. */
  lemma ReferenceDocumentAccepted(toNum: string -> Option<Num>)
    requires toNum("123.4") == Some(1234.0 / 10.0) && toNum("-2.1") == Some(-21.0 / 10.0)
    ensures ParseXml(Some(Document("root", [Child(AltitudeTag, "123.4"), Child(RollTag, "-2.1")])), toNum)
            == Some(Sample(1234.0 / 10.0, -21.0 / 10.0))
  {
    var cs := [Child(AltitudeTag, "123.4"), Child(RollTag, "-2.1")];
    assert cs[0].tag != RollTag;
    assert IsFirst(cs, AltitudeTag, 0) && IsFirst(cs, RollTag, 1);
  }
}
