/** The page as the agent sees it: element nodes with the attributes, text,
    layout box and computed style it reads, kept in document order in an arena
    (a node's index is its position in a pre-order walk, and its parent is a
    smaller index). Strings are the values the DOM reports; `None` is `null`. */
module Dom {
  import opened Wrappers

  /** `getBoundingClientRect()`, with the width and height abstracted to naturals. */
  datatype Rect = Rect(top: int, left: int, width: nat, height: nat)

  datatype Element = Element(
    tagName: string,                    // `el.tagName`, upper-case for HTML elements
    id: string,                         // `el.id`, "" when the element has none
    classList: seq<string>,
    role: Option<string>,               // `getAttribute("role")`
    placeholder: Option<string>,
    name: Option<string>,
    typeAttr: Option<string>,           // `getAttribute("type")`
    ariaLabel: Option<string>,
    contentEditableAttr: Option<string>,
    innerText: string,
    textContent: string,
    disabled: bool,                     // `el.disabled`; false where the element has no such property
    isContentEditable: bool,
    rect: Rect,
    visibility: string,                 // computed `visibility`
    display: string)                    // computed `display`

  datatype Node = Node(element: Element, parent: Option<nat>)

  datatype Arena = Arena(nodes: seq<Node>)

  /** Every parent comes before its children, as in document order. */
  predicate WellFormed(a: Arena) {
    forall j :: 0 <= j < |a.nodes| && a.nodes[j].parent.Some? ==> a.nodes[j].parent.value < j
  }

  type Document = a: Arena | WellFormed(a) witness Arena([])

  /** The document as the agent observes it at one moment: `document`, `location.href`,
      `document.title` and `document.body.innerText`. */
  datatype Page = Page(document: Document, url: string, title: string, bodyText: string)

  function ParentOf(doc: Document, j: nat): (p: Option<nat>)
    requires j < |doc.nodes|
    ensures p.Some? ==> p.value < j
  {
    doc.nodes[j].parent
  }

  /** Node `m` is a child of node `j`'s parent with the same tag name as `j`. */
  predicate SameTagSibling(doc: Document, j: nat, m: nat)
    requires j < |doc.nodes|
  {
    m < |doc.nodes| && doc.nodes[m].parent == doc.nodes[j].parent
    && doc.nodes[m].element.tagName == doc.nodes[j].element.tagName
  }

  /** The same-tag siblings of `j` among the nodes below `n`, in document order. */
  function SiblingsBelow(doc: Document, j: nat, n: nat): (r: seq<nat>)
    requires j < |doc.nodes| && n <= |doc.nodes|
    ensures forall m: nat :: m in r <==> m < n && SameTagSibling(doc, j, m)
    ensures forall k :: 0 <= k < |r| ==> r[k] < n
    ensures forall k, l :: 0 <= k < l < |r| ==> r[k] < r[l]
  {
    if n == 0 then [] else SiblingsBelow(doc, j, n - 1) + (if SameTagSibling(doc, j, n - 1) then [n - 1] else [])
  }

  /** `Array.from(parent.children).filter(child => child.tagName === el.tagName)`:
      the element's parent's children with its tag name, in document order. */
  function SameTagSiblings(doc: Document, j: nat): (r: seq<nat>)
    requires j < |doc.nodes| && doc.nodes[j].parent.Some?
    ensures j in r
    ensures forall m: nat :: m in r <==> SameTagSibling(doc, j, m)
    ensures forall k, l :: 0 <= k < l < |r| ==> r[k] < r[l]
  {
    SiblingsBelow(doc, j, |doc.nodes|)
  }

  /** `s.indexOf(x)` for an element that occurs. */
  function IndexOf(s: seq<nat>, x: nat): (r: nat)
    requires x in s
    ensures r < |s| && s[r] == x
    ensures forall k :: 0 <= k < r ==> s[k] != x
  {
    if s[0] == x then 0 else 1 + IndexOf(s[1..], x)
  }
}
