/** The dom4j element tree, as far as the converter uses it. */
module Xml {

  datatype Attr = Attr(name: string, value: string)

  /** An element: local name, namespace URI ("" for none), attributes in document order, its
      own text, and its child elements in document order. */
  datatype Element = Element(name: string, ns: string, attrs: seq<Attr>, text: string, children: seq<Element>)

  /** Element.addElement(name) followed by addText(text): a child without namespace. */
  function Leaf(name: string, text: string): (e: Element)
    ensures e.name == name && e.text == text && e.children == [] && e.attrs == []
  {
    Element(name, "", [], text, [])
  }

  /** The elements of kids named tag, in order. */
  function Named(kids: seq<Element>, tag: string): (r: seq<Element>)
    ensures |r| <= |kids|
    ensures forall k :: 0 <= k < |r| ==> r[k].name == tag && r[k] in kids
    ensures forall k :: 0 <= k < |kids| && kids[k].name == tag ==> kids[k] in r
  {
    if |kids| == 0 then []
    else if kids[0].name == tag then [kids[0]] + Named(kids[1..], tag)
    else Named(kids[1..], tag)
  }

  /** The first element of the selection is the first kid named tag. */
  lemma {:induction false} NamedFirst(kids: seq<Element>, tag: string, p: nat)
    requires p < |kids| && kids[p].name == tag
    requires forall q :: 0 <= q < p ==> kids[q].name != tag
    ensures |Named(kids, tag)| > 0 && Named(kids, tag)[0] == kids[p]
  {
    if p > 0 {
      NamedFirst(kids[1..], tag, p - 1);
    }
  }

  /** Element.selectNodes(tag) for a plain name: the direct children with that name. */
  function SelectNodes(e: Element, tag: string): seq<Element> {
    Named(e.children, tag)
  }

  /** An element being filled in place: its children grow as elements are appended. */
  class ElementBuilder {
    const name: string
    const ns: string
    var children: seq<Element>

    constructor (name: string, ns: string)
      ensures this.name == name && this.ns == ns && children == []
    {
      this.name := name;
      this.ns := ns;
      children := [];
    }

    /** Element.add of a finished child element. */
    method Append(e: Element)
      modifies this
      ensures children == old(children) + [e]
    {
      children := children + [e];
    }

    /** Element.addElement(name).addText(text). */
    method AddLeaf(name: string, text: string)
      modifies this
      ensures children == old(children) + [Leaf(name, text)]
    {
      children := children + [Leaf(name, text)];
    }

    /** The element as built so far: no attributes and no text of its own. */
    function Value(): (e: Element)
      reads this
      ensures e.name == name && e.ns == ns && e.children == children
    {
      Element(name, ns, [], "", children)
    }
  }
}
