/** The lxml element trees the marketplace builds, as values, and the one
    mutable piece: an element whose child list grows by `append` (what
    `etree.SubElement` does) and by `insert(i, x)`. */
module Xml {
  import opened Wrappers
  import opened Pairs

  /** Character content: ordinary (entity-escaped on output) or a CDATA section. */
  datatype Text = Plain(s: string) | CData(s: string)

  /** An element: tag, attributes in the order they were given, optional
      text, child elements in document order. */
  datatype Element = Element(tag: string, attrs: seq<(string, string)>, text: Option<Text>, children: seq<Element>)

  /** An element with text and no attributes or children. */
  function Leaf(tag: string, t: Text): Element
  {
    Element(tag, [], Some(t), [])
  }

  /** An element with no text and no children. */
  function Empty(tag: string, attrs: seq<(string, string)>): Element
  {
    Element(tag, attrs, None, [])
  }

  /** `e.get(key)`. */
  function Attr(e: Element, key: string): Option<string>
  {
    Lookup(e.attrs, key)
  }

  /** lxml's `insert(i, x)` for a non-negative index: `x` goes before the
      child at position `i`, or at the end when `i` is past the last child. */
  function InsertAt<T>(s: seq<T>, i: nat, x: T): (r: seq<T>)
    ensures |r| == |s| + 1
    ensures i >= |s| ==> r == s + [x]
    ensures i < |s| ==> r[..i] == s[..i] && r[i] == x && r[i + 1..] == s[i..]
  {
    if i < |s| then s[..i] + [x] + s[i..] else s + [x]
  }

  /** The order in which `insert(1, x)` applied to `s[0]`, `s[1]`, ... in turn
      leaves them in an initially empty parent: the first stays first (it was
      appended), every later one goes in front of the ones before it. */
  function InsertOrder<T>(s: seq<T>): (r: seq<T>)
    ensures |r| == |s|
  {
    seq(|s|, k requires 0 <= k < |s| => if k == 0 then s[0] else s[|s| - k])
  }

  /** One more `insert(1, x)` extends the insertion order by `x`. */
  lemma InsertOrderStep<T>(s: seq<T>, x: T)
    ensures InsertAt(InsertOrder(s), 1, x) == InsertOrder(s + [x])
  {
    var t := s + [x];
    var lhs, rhs := InsertAt(InsertOrder(s), 1, x), InsertOrder(t);
    if |s| == 0 {
      assert lhs == [x] == rhs;
    } else {
      forall k | 0 <= k < |t| ensures lhs[k] == rhs[k] {
        if k >= 2 {
          assert lhs[k] == InsertOrder(s)[k - 1];
        }
      }
    }
  }

  /** Insertion order places `s[0]` first and then `s[n-1]`, ..., `s[1]`:
      every element keeps exactly one place, so it is a permutation. */
  lemma InsertOrderPermutes<T>(s: seq<T>)
    ensures multiset(InsertOrder(s)) == multiset(s)
    ensures |s| > 0 ==> InsertOrder(s)[0] == s[0]
    ensures forall k :: 1 <= k < |s| ==> InsertOrder(s)[k] == s[|s| - k]
  {
    if |s| > 0 {
      var io := InsertOrder(s);
      var tail := s[1..];
      assert s == [s[0]] + tail;
      assert io == [s[0]] + Reverse(tail) by {
        ReverseAt(tail);
      }
      ReversePermutes(tail);
      calc {
        multiset(io);
        multiset([s[0]]) + multiset(Reverse(tail));
        multiset([s[0]]) + multiset(tail);
        multiset(s);
      }
    }
  }

  /** `s` read backwards. */
  function Reverse<T>(s: seq<T>): seq<T>
  {
    if s == [] then [] else [s[|s| - 1]] + Reverse(s[..|s| - 1])
  }

  lemma {:induction false} ReverseAt<T>(s: seq<T>)
    ensures |Reverse(s)| == |s|
    ensures forall k :: 0 <= k < |s| ==> Reverse(s)[k] == s[|s| - 1 - k]
  {
    if s != [] {
      ReverseAt(s[..|s| - 1]);
    }
  }

  lemma {:induction false} ReversePermutes<T>(s: seq<T>)
    ensures multiset(Reverse(s)) == multiset(s)
  {
    if s != [] {
      var init := s[..|s| - 1];
      ReversePermutes(init);
      assert s == init + [s[|s| - 1]];
    }
  }

  /** An lxml element under construction whose child list is changed in
      place; its tag, attributes and (empty) text are fixed when it is made. */
  class ElementBuilder {
    const tag: string
    const attrs: seq<(string, string)>
    var children: seq<Element>

    /** `etree.Element(tag, **attrs)`. */
    constructor (tag: string, attrs: seq<(string, string)>)
      ensures this.tag == tag && this.attrs == attrs && children == []
    {
      this.tag := tag;
      this.attrs := attrs;
      children := [];
    }

    /** The tree built so far. */
    function Value(): (e: Element)
      reads this
      ensures e.tag == tag && e.attrs == attrs && e.text == None && e.children == children
    {
      Element(tag, attrs, None, children)
    }

    /** `etree.SubElement(self, ...)`: a new last child. */
    method Append(e: Element)
      modifies this
      ensures children == old(children) + [e]
    {
      children := children + [e];
    }

    /** `self.insert(i, e)`. */
    method Insert(i: nat, e: Element)
      modifies this
      ensures children == InsertAt(old(children), i, e)
    {
      if i < |children| {
        children := children[..i] + [e] + children[i..];
      } else {
        children := children + [e];
      }
    }
  }
}
