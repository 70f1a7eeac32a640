/**
 * The element tree the document builder produces, as a value.
 * An element has a tag, attributes (keyed in lxml's `{namespace}name`
 * notation), an optional text and an ordered list of children.
 * Containers carry no text (lxml's `None`); leaves carry the string they
 * were given, which may be empty (`<tag></tag>` rather than `<tag/>`).
 */
module XmlTree {
  import opened Wrappers

  datatype Element = Element(tag: string, attributes: map<string, string>, text: Option<string>, children: seq<Element>)

  /** A childless element holding `text`, as `SubElement(parent, tag).text = text` creates. */
  function Leaf(tag: string, text: string): Element
  {
    Element(tag, map[], Some(text), [])
  }

  /** A container element without attributes or text. */
  function Node(tag: string, children: seq<Element>): Element
  {
    Element(tag, map[], None, children)
  }

  /** The tags of a list of children, in document order. */
  function Tags(children: seq<Element>): (r: seq<string>)
    ensures |r| == |children|
    ensures forall i :: 0 <= i < |children| ==> r[i] == children[i].tag
  {
    seq(|children|, i requires 0 <= i < |children| => children[i].tag)
  }
}
