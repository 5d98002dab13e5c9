/** The tutorial pager: four pages in the interface language, stepped one at a time. */
module TutorialModal {

  const EnglishPages: seq<string> := ["eng-page-1.png", "eng-page-2.png", "eng-page-3.png", "eng-page-4.png"]
  const PolishPages: seq<string> := ["pl-page-1.png", "pl-page-2.png", "pl-page-3.png", "pl-page-4.png"]

  /** The page images chosen when the interface language changes. */
  function PagesFor(language: string): (pages: seq<string>)
    ensures |pages| == 4
    ensures pages == PolishPages <==> language == "pl"
  {
    assert EnglishPages[0] != PolishPages[0];
    if language == "pl" then PolishPages else EnglishPages
  }

  /** handleNext: forward unless on the last page. */
  function NextPage(page: int, pageCount: int): int
  {
    if page < pageCount - 1 then page + 1 else page
  }

  /** handlePrev: back unless on the first page. */
  function PrevPage(page: int): int
  {
    if page > 0 then page - 1 else page
  }

  /**
   * Paging never leaves [0, pageCount); a button does nothing exactly
   * where it is disabled; away from those boundaries, prev undoes next and
   * next undoes prev.
   */
  lemma Paging(page: int, pageCount: int)
    requires 0 <= page < pageCount
    ensures 0 <= NextPage(page, pageCount) < pageCount && 0 <= PrevPage(page) < pageCount
    ensures NextPage(page, pageCount) == page <==> page == pageCount - 1
    ensures PrevPage(page) == page <==> page == 0
    ensures page != pageCount - 1 ==> PrevPage(NextPage(page, pageCount)) == page
    ensures page != 0 ==> NextPage(PrevPage(page), pageCount) == page
  {
  }

  class TutorialPager {
    var currentPage: int
    var pages: seq<string>

    predicate Valid()
      reads this
    {
      |pages| == 4 && 0 <= currentPage < |pages|
    }

    constructor()
      ensures Valid() && currentPage == 0 && pages == EnglishPages
    {
      currentPage := 0;
      pages := EnglishPages;
    }

    /** The language effect swaps the images and keeps the page number. */
    method LanguageChanged(language: string)
      requires Valid()
      modifies this
      ensures Valid() && pages == PagesFor(language) && currentPage == old(currentPage)
    {
      pages := if language == "pl" then PolishPages else EnglishPages;
    }

    /** The Prev button's disabled flag. */
    predicate PrevDisabled()
      reads this
    {
      currentPage == 0
    }

    /** The Next button's disabled flag. */
    predicate NextDisabled()
      reads this
    {
      currentPage == |pages| - 1
    }

    method HandleNext()
      requires Valid()
      modifies this
      ensures Valid() && pages == old(pages) && currentPage == NextPage(old(currentPage), |pages|)
      ensures currentPage == old(currentPage) <==> old(NextDisabled())
    {
      if currentPage < |pages| - 1 {
        currentPage := currentPage + 1;
      }
    }

    method HandlePrev()
      requires Valid()
      modifies this
      ensures Valid() && pages == old(pages) && currentPage == PrevPage(old(currentPage))
      ensures currentPage == old(currentPage) <==> old(PrevDisabled())
    {
      if currentPage > 0 {
        currentPage := currentPage - 1;
      }
    }
  }
}
