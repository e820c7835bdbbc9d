/** The product list page: the selected category and its mirror in the URL. */
module ProductsPage {
  import opened Text
  import opened Constants

  type Params = map<string, string>

  const CategoryKey := "category"

  /** The page's state: the query string and the highlighted category. */
  datatype Page = Page(params: Params, selected: string)

  /** The category the URL asks for: `searchParams.get("category") || "All"`. */
  function UrlCategory(params: Params): (c: string)
    ensures c != ""
    ensures CategoryKey !in params ==> c == "All"
    ensures CategoryKey in params && params[CategoryKey] != "" ==> c == params[CategoryKey]
    ensures CategoryKey in params && params[CategoryKey] == "" ==> c == "All"
  {
    if CategoryKey in params then OrElse(params[CategoryKey], "All") else "All"
  }

  /** The page on arrival. */
  function Open(params: Params): (p: Page)
    ensures p.params == params && p.selected == UrlCategory(params)
  {
    Page(params, UrlCategory(params))
  }

  /** The effect on a URL change: a non-empty category parameter becomes the
      selection; without one the selection is kept. */
  function SyncFromUrl(p: Page): (r: Page)
    ensures r.params == p.params
    ensures CategoryKey in p.params && p.params[CategoryKey] != "" ==> r.selected == p.params[CategoryKey]
    ensures CategoryKey !in p.params || p.params[CategoryKey] == "" ==> r.selected == p.selected
  {
    if CategoryKey in p.params && p.params[CategoryKey] != "" then p.(selected := p.params[CategoryKey]) else p
  }

  /** `handleCategoryChange`, from one of the category buttons: "All" removes
      the parameter, any other category sets it; the selection follows. */
  function ChooseCategory(p: Page, c: string): (r: Page)
    ensures c !in PerfumeCategories ==> r == p
    ensures c in PerfumeCategories ==> r.selected == c
    ensures c == "All" ==> CategoryKey !in r.params
    ensures c in PerfumeCategories && c != "All" ==> CategoryKey in r.params && r.params[CategoryKey] == c
    ensures forall k :: k in p.params && k != CategoryKey ==> k in r.params && r.params[k] == p.params[k]
  {
    if c !in PerfumeCategories then p
    else if c == "All" then Page(p.params - {CategoryKey}, c)
    else Page(p.params[CategoryKey := c], c)
  }

  /** Choosing a category and then letting the URL effect run keeps that
      category, and reopening the resulting URL selects it again. */
  lemma ChoiceSurvivesReload(p: Page, c: string)
    requires c in PerfumeCategories
    ensures SyncFromUrl(ChooseCategory(p, c)).selected == c
    ensures Open(ChooseCategory(p, c).params).selected == c
  {
    EnumerationsDistinct();
  }

  /** Following a link whose URL has no category does not reset the selection to "All". */
  lemma LinkWithoutCategoryKeepsSelection(p: Page, params: Params)
    requires CategoryKey !in params
    ensures SyncFromUrl(p.(params := params)).selected == p.selected
  {
  }
}
