/** Choosing how to look for the price element (lines 49-54 of main.py).
    The parsed page is an oracle: BeautifulSoup's `soup.find` by id, and by tag
    name and class, each giving the text of the first matching element or nothing. */
module Selector {
  import opened Wrappers
  import opened Config

  /** What `soup.find(id=...)` and `soup.find(tag, class_=...)` answer on one page:
      the element's `get_text()`, or `None` when nothing matches. */
  datatype Page = Page(findById: string -> Option<string>, findByTagClass: (string, string) -> Option<string>)

  /** The search the tracker performs. */
  datatype Search = ById(id: string) | ByTagClass(tag: string, className: string) | NoSearch

  /** An id, when one is configured, wins; tag and class are used only when both
      are configured; otherwise nothing is searched. */
  function ChooseSearch(sel: Selectors): (s: Search)
    ensures Truthy(sel.elementId) ==> s == ById(sel.elementId.value)
    ensures !Truthy(sel.elementId) && Truthy(sel.elementTag) && Truthy(sel.elementClass) ==>
      s == ByTagClass(sel.elementTag.value, sel.elementClass.value)
    ensures s == NoSearch <==>
      !Truthy(sel.elementId) && (!Truthy(sel.elementClass) || !Truthy(sel.elementTag))
  {
    if Truthy(sel.elementId) then ById(sel.elementId.value)
    else if Truthy(sel.elementClass) && Truthy(sel.elementTag) then ByTagClass(sel.elementTag.value, sel.elementClass.value)
    else NoSearch
  }

  /** The text of the element the configured search finds, if any. */
  function Locate(page: Page, sel: Selectors): (found: Option<string>)
    ensures Truthy(sel.elementId) ==> found == page.findById(sel.elementId.value)
    ensures !Truthy(sel.elementId) && Truthy(sel.elementTag) && Truthy(sel.elementClass) ==>
      found == page.findByTagClass(sel.elementTag.value, sel.elementClass.value)
    ensures !Truthy(sel.elementId) && (!Truthy(sel.elementClass) || !Truthy(sel.elementTag)) ==> found == None
  {
    match ChooseSearch(sel)
    case ById(id) => page.findById(id)
    case ByTagClass(tag, className) => page.findByTagClass(tag, className)
    case NoSearch => None
  }

  /** With an id configured, only the id lookup is consulted: two pages that
      agree on it give the same answer, whatever their tag-and-class matches. */
  lemma IdPrecedence(p1: Page, p2: Page, sel: Selectors)
    requires Truthy(sel.elementId)
    requires p1.findById(sel.elementId.value) == p2.findById(sel.elementId.value)
    ensures Locate(p1, sel) == Locate(p2, sel)
  {
  }

  /** An id miss is a miss, even when a tag-and-class match exists. */
  lemma IdMissIsFinal(page: Page, sel: Selectors)
    requires Truthy(sel.elementId) && page.findById(sel.elementId.value) == None
    requires Truthy(sel.elementTag) && Truthy(sel.elementClass)
    requires page.findByTagClass(sel.elementTag.value, sel.elementClass.value).Some?
    ensures Locate(page, sel) == None
  {
  }

  /** With neither an id nor both tag and class, no page yields an element. */
  lemma NoSelectorNoElement(page: Page, sel: Selectors)
    requires !Truthy(sel.elementId) && (!Truthy(sel.elementClass) || !Truthy(sel.elementTag))
    ensures Locate(page, sel) == None
  {
  }
}
