/**
 * XML elements as the ElementTree calls of the reconstructors build them:
 * `ET.Element`/`ET.SubElement` give a tag, attributes in the order they are
 * set, children in the order they are appended, and an optional text.
 * Serialisation is not modelled.
 */
module Xml {
  import opened Wrappers
  import opened Seqs

  datatype Element = Element(tag: string, attrs: seq<(string, string)>, children: seq<Element>, text: Option<string>)

  /** An element with attributes only. */
  function Leaf(tag: string, attrs: seq<(string, string)>): Element {
    Element(tag, attrs, [], None)
  }

  /** `e.get(name)`: the value last set for the attribute, if any. */
  function Attr(e: Element, name: string): Option<string> {
    LookupLast(e.attrs, name)
  }

  /** The value of the last pair with the given name, as a dictionary built by assignment keeps it. */
  function LookupLast<V>(pairs: seq<(string, V)>, name: string): Option<V>
    decreases |pairs|
  {
    if pairs == [] then None
    else if pairs[|pairs| - 1].0 == name then Some(pairs[|pairs| - 1].1)
    else LookupLast(pairs[..|pairs| - 1], name)
  }

  /** The pair at position j wins when no later pair has its name. */
  lemma {:induction false} LookupLastAt<V>(pairs: seq<(string, V)>, j: nat)
    requires j < |pairs|
    requires forall i :: j < i < |pairs| ==> pairs[i].0 != pairs[j].0
    ensures LookupLast(pairs, pairs[j].0) == Some(pairs[j].1)
    decreases |pairs|
  {
    if j < |pairs| - 1 {
      LookupLastAt(pairs[..|pairs| - 1], j);
    }
  }

  /** A name is found exactly when some pair carries it. */
  lemma {:induction false} LookupLastFound<V>(pairs: seq<(string, V)>, name: string)
    ensures LookupLast(pairs, name).Some? <==> exists i :: 0 <= i < |pairs| && pairs[i].0 == name
    decreases |pairs|
  {
    if pairs != [] {
      var init := pairs[..|pairs| - 1];
      LookupLastFound(init, name);
      if exists i :: 0 <= i < |init| && init[i].0 == name {
        var i :| 0 <= i < |init| && init[i].0 == name;
        assert pairs[i].0 == name;
      }
      if exists i :: 0 <= i < |pairs| && pairs[i].0 == name {
        var i :| 0 <= i < |pairs| && pairs[i].0 == name;
        if i < |pairs| - 1 { assert init[i].0 == name; }
      }
    }
  }

  /** `e.find(tag)`: the first child with the tag. */
  function FindChild(e: Element, tag: string): Option<Element> {
    FirstWithTag(e.children, tag)
  }

  function FirstWithTag(cs: seq<Element>, tag: string): Option<Element>
    decreases |cs|
  {
    if cs == [] then None
    else if cs[0].tag == tag then Some(cs[0])
    else FirstWithTag(cs[1..], tag)
  }

  /** The first child with the tag is the one at position i when no earlier child has it. */
  lemma {:induction false} FirstWithTagAt(cs: seq<Element>, i: nat, tag: string)
    requires i < |cs| && cs[i].tag == tag
    requires forall j :: 0 <= j < i ==> cs[j].tag != tag
    ensures FirstWithTag(cs, tag) == Some(cs[i])
    decreases i
  {
    if i > 0 {
      FirstWithTagAt(cs[1..], i - 1, tag);
    }
  }

  /** The `w:val` attribute of the first child with the tag. */
  function ChildVal(e: Element, tag: string): Option<string> {
    match FindChild(e, tag)
    case Some(c) => Attr(c, "w:val")
    case None => None
  }

  /** Every element below e, in document order (what `.//` walks). */
  function Descendants(e: Element): seq<Element>
    decreases e
  {
    Flatten(seq(|e.children|, i requires 0 <= i < |e.children| => [e.children[i]] + Descendants(e.children[i])))
  }

  /** `root.findall('.//' + tag)`: the descendants with the tag, in document order. */
  function FindAll(root: Element, tag: string): seq<Element> {
    FilterTag(Descendants(root), tag)
  }

  function FilterTag(es: seq<Element>, tag: string): (r: seq<Element>)
    ensures forall k :: 0 <= k < |r| ==> r[k].tag == tag
    decreases |es|
  {
    if es == [] then []
    else (if es[0].tag == tag then [es[0]] else []) + FilterTag(es[1..], tag)
  }
}
