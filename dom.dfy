/** The part of the XML DOM the parsers use: elements with a name,
    attributes, their text content and child elements, and the
    `querySelector` / `querySelectorAll` searches over them. */
module Dom {
  import opened Values

  /** An element as `DOMParser` builds it. `text` stands for its
      `textContent`. */
  datatype Element = Element(name: string, attrs: map<string, string>, text: string, children: seq<Element>)

  /** `getAttribute(key)`: the value, or `null` when the attribute is absent. */
  function Attr(e: Element, key: string): Option<string> {
    if key in e.attrs then Some(e.attrs[key]) else None
  }

  /** `getAttribute(key) || ''`. */
  function AttrText(e: Element, key: string): string {
    if key in e.attrs then e.attrs[key] else ""
  }

  /** A type selector: the element's name is `name`. */
  function Named(name: string): Element -> bool {
    (e: Element) => e.name == name
  }

  /** `querySelectorAll` over a forest: every element satisfying `sel`, in
      document (pre-)order. `element.querySelectorAll` searches the forest
      of its children; a document's searches the forest `[root]`. */
  function QueryAll(forest: seq<Element>, sel: Element -> bool): seq<Element>
    decreases forest
  {
    if forest == [] then []
    else QueryTree(forest[0], sel) + QueryAll(forest[1..], sel)
  }

  function QueryTree(e: Element, sel: Element -> bool): seq<Element>
    decreases e
  {
    (if sel(e) then [e] else []) + QueryAll(e.children, sel)
  }

  /** `querySelector`: the first element in document order satisfying `sel`. */
  function QueryFirst(forest: seq<Element>, sel: Element -> bool): Option<Element>
    decreases forest
  {
    if forest == [] then None
    else match QueryFirstTree(forest[0], sel)
      case Some(e) => Some(e)
      case None => QueryFirst(forest[1..], sel)
  }

  function QueryFirstTree(e: Element, sel: Element -> bool): Option<Element>
    decreases e
  {
    if sel(e) then Some(e) else QueryFirst(e.children, sel)
  }

  /** Every element `querySelectorAll` returns satisfies the selector. */
  lemma {:induction false} QueryAllMatches(forest: seq<Element>, sel: Element -> bool)
    ensures forall i :: 0 <= i < |QueryAll(forest, sel)| ==> sel(QueryAll(forest, sel)[i])
    decreases forest
  {
    if forest != [] {
      QueryTreeMatches(forest[0], sel);
      QueryAllMatches(forest[1..], sel);
      var a, b := QueryTree(forest[0], sel), QueryAll(forest[1..], sel);
      assert forall i :: 0 <= i < |a + b| ==> (a + b)[i] == (if i < |a| then a[i] else b[i - |a|]);
    }
  }

  lemma {:induction false} QueryTreeMatches(e: Element, sel: Element -> bool)
    ensures forall i :: 0 <= i < |QueryTree(e, sel)| ==> sel(QueryTree(e, sel)[i])
    decreases e
  {
    QueryAllMatches(e.children, sel);
    var a, b := (if sel(e) then [e] else []), QueryAll(e.children, sel);
    assert forall i :: 0 <= i < |a + b| ==> (a + b)[i] == (if i < |a| then a[i] else b[i - |a|]);
  }

  /** `querySelector` returns the first element `querySelectorAll` would,
      and nothing exactly when that list is empty. */
  lemma {:induction false} QueryFirstIsHead(forest: seq<Element>, sel: Element -> bool)
    ensures QueryFirst(forest, sel).None? <==> QueryAll(forest, sel) == []
    ensures QueryFirst(forest, sel).Some? ==> QueryFirst(forest, sel).value == QueryAll(forest, sel)[0]
    decreases forest
  {
    if forest != [] {
      QueryFirstTreeIsHead(forest[0], sel);
      QueryFirstIsHead(forest[1..], sel);
    }
  }

  lemma {:induction false} QueryFirstTreeIsHead(e: Element, sel: Element -> bool)
    ensures QueryFirstTree(e, sel).None? <==> QueryTree(e, sel) == []
    ensures QueryFirstTree(e, sel).Some? ==> QueryFirstTree(e, sel).value == QueryTree(e, sel)[0]
    decreases e
  {
    QueryFirstIsHead(e.children, sel);
  }
}
