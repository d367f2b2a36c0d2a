/**
 * An already parsed feed document: an element tree with plain local tag names
 * (no namespace resolution), as `ElementTree` exposes it to the feed code.
 */
module Xml {
  import opened Wrappers

  datatype Element = Element(tag: string, text: string, children: seq<Element>)

  /** `element.iter(tag)`: every element of the subtree with that tag, in pre-order, the root included. */
  function Iter(e: Element, tag: string): (r: seq<Element>)
    ensures forall i :: 0 <= i < |r| ==> r[i].tag == tag
    ensures e.tag == tag ==> |r| > 0 && r[0] == e
    decreases e, 1
  {
    (if e.tag == tag then [e] else []) + IterAll(e.children, tag)
  }

  function IterAll(es: seq<Element>, tag: string): (r: seq<Element>)
    ensures forall i :: 0 <= i < |r| ==> r[i].tag == tag
    decreases es, 0
  {
    if es == [] then [] else Iter(es[0], tag) + IterAll(es[1..], tag)
  }

  /** Independent reference: every element of the subtree in document (pre-)order. */
  function PreOrder(e: Element): seq<Element>
    decreases e, 1
  {
    [e] + PreOrderAll(e.children)
  }

  function PreOrderAll(es: seq<Element>): seq<Element>
    decreases es, 0
  {
    if es == [] then [] else PreOrder(es[0]) + PreOrderAll(es[1..])
  }

  /** The elements of `es` carrying `tag`, order kept. */
  function WithTag(es: seq<Element>, tag: string): (r: seq<Element>)
    ensures |r| <= |es|
    ensures forall x :: x in r <==> x in es && x.tag == tag
  {
    if es == [] then []
    else (if es[0].tag == tag then [es[0]] else []) + WithTag(es[1..], tag)
  }

  lemma WithTagAppend(xs: seq<Element>, ys: seq<Element>, tag: string)
    ensures WithTag(xs + ys, tag) == WithTag(xs, tag) + WithTag(ys, tag)
  {
    if xs == [] {
      assert xs + ys == ys;
    } else {
      assert (xs + ys)[0] == xs[0];
      assert (xs + ys)[1..] == xs[1..] + ys;
      WithTagAppend(xs[1..], ys, tag);
    }
  }

  /** `iter(tag)` is the pre-order walk of the whole subtree filtered by tag. */
  lemma {:induction false} IterIsFilteredPreOrder(e: Element, tag: string)
    ensures Iter(e, tag) == WithTag(PreOrder(e), tag)
    decreases e, 1
  {
    IterAllIsFilteredPreOrder(e.children, tag);
    WithTagAppend([e], PreOrderAll(e.children), tag);
  }

  lemma {:induction false} IterAllIsFilteredPreOrder(es: seq<Element>, tag: string)
    ensures IterAll(es, tag) == WithTag(PreOrderAll(es), tag)
    decreases es, 0
  {
    if es != [] {
      IterIsFilteredPreOrder(es[0], tag);
      IterAllIsFilteredPreOrder(es[1..], tag);
      WithTagAppend(PreOrder(es[0]), PreOrderAll(es[1..]), tag);
    }
  }

  /** The first element of `iter(tag)`, which the program takes for the feed's title and description. */
  function First(e: Element, tag: string): (r: Option<Element>)
    ensures r.None? <==> Iter(e, tag) == []
    ensures r.Some? ==> r.value == Iter(e, tag)[0] && r.value.tag == tag
  {
    var found := Iter(e, tag);
    if found == [] then None else Some(found[0])
  }

  /** The text of the first `tag` element in pre-order, or `default` when there is none. */
  function FirstText(e: Element, tag: string, default: string): (r: string)
    ensures Iter(e, tag) != [] ==> r == Iter(e, tag)[0].text
    ensures Iter(e, tag) == [] ==> r == default
  {
    match First(e, tag)
    case Some(found) => found.text
    case None => default
  }

  /** `element.find(tag)`: the first direct child with that tag. */
  function Find(e: Element, tag: string): (r: Option<Element>)
    ensures r.None? <==> forall i :: 0 <= i < |e.children| ==> e.children[i].tag != tag
    ensures r.Some? ==> exists i :: (0 <= i < |e.children| && e.children[i] == r.value
                                     && r.value.tag == tag
                                     && forall j :: 0 <= j < i ==> e.children[j].tag != tag)
  {
    FindIn(e.children, tag)
  }

  function FindIn(es: seq<Element>, tag: string): (r: Option<Element>)
    ensures r.None? <==> forall i :: 0 <= i < |es| ==> es[i].tag != tag
    ensures r.Some? ==> exists i :: (0 <= i < |es| && es[i] == r.value
                                     && r.value.tag == tag
                                     && forall j :: 0 <= j < i ==> es[j].tag != tag)
  {
    if es == [] then None
    else if es[0].tag == tag then Some(es[0])
    else
      var r := FindIn(es[1..], tag);
      assert r.Some? ==> exists i :: (0 <= i < |es[1..]| && es[1..][i] == r.value
                                      && forall j :: 0 <= j < i ==> es[1..][j].tag != tag);
      r
  }

  /** The text of the first child with `tag`, or `default` when there is none. */
  function ChildText(e: Element, tag: string, default: string): (r: string)
    ensures Find(e, tag).Some? ==> r == Find(e, tag).value.text
    ensures Find(e, tag).None? ==> r == default
  {
    match Find(e, tag)
    case Some(child) => child.text
    case None => default
  }
}
