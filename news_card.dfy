/** A news card's decisions: what a click on its button does, which tooltip
    it shows, which class its button gets, and its keyword tag. */
module NewsCard {
  import opened Outcomes
  import opened Entities

  const SavedCard := "saved"
  const SearchResultCard := "search-result"

  const SignInTooltip := "Sign in to save articles"
  const RemoveTooltip := "Remove from saved"

  const BaseButtonClass := "card__save-button"
  const DeleteModifier := " card__save-button--delete"
  const CheckedModifier := " card__save-button--checked"

  /** What a click asks of the store. */
  datatype ClickEffect = NoEffect | DeleteRequested(url: string) | SaveRequested(payload: Article)

  /** `onButtonClick` for a card showing `article`. */
  function OnButtonClick(isLoggedIn: bool, isSaved: bool, article: Article): ClickEffect {
    if !isLoggedIn then NoEffect
    else if isSaved then DeleteRequested(article.url)
    else SaveRequested(Article(article.source, article.title, article.publishedAt, article.content,
                               article.urlToImage, article.url, article.keywords))
  }

  /** The tooltip text; "" means no tooltip is rendered. */
  function TooltipText(isHovered: bool, isLoggedIn: bool, isSaved: bool): string {
    if isHovered then
      if !isLoggedIn && !isSaved then SignInTooltip
      else if isLoggedIn && isSaved then RemoveTooltip
      else ""
    else ""
  }

  /** The save button's class list. */
  function ButtonClassName(isSaved: bool, cardType: string): string {
    if isSaved && cardType == SavedCard then BaseButtonClass + DeleteModifier
    else if isSaved && cardType == SearchResultCard then BaseButtonClass + CheckedModifier
    else BaseButtonClass
  }

  /** The keyword tag: rendered only on saved-page cards that carry a tag
      list, showing its first entry (nothing when the list is empty). */
  function KeywordTag(cardType: string, keywords: Option<seq<string>>): Option<string> {
    if cardType == SavedCard && keywords.Some? then
      Some(if keywords.value == [] then "" else keywords.value[0])
    else None
  }

  /** A click does something only when signed in: a delete of exactly the
      card's url when saved, else a save of the card's seven fields. */
  lemma ClickDispatch(isLoggedIn: bool, isSaved: bool, article: Article)
    ensures OnButtonClick(isLoggedIn, isSaved, article) == NoEffect <==> !isLoggedIn
    ensures OnButtonClick(isLoggedIn, isSaved, article).DeleteRequested? <==> isLoggedIn && isSaved
    ensures OnButtonClick(isLoggedIn, isSaved, article).SaveRequested? <==> isLoggedIn && !isSaved
    ensures isLoggedIn && isSaved ==> OnButtonClick(isLoggedIn, isSaved, article).url == article.url
    ensures isLoggedIn && !isSaved ==> OnButtonClick(isLoggedIn, isSaved, article).payload == article
  {
  }

  /** The tooltip appears only on hover, and then exactly when the login
      state and the saved state agree. */
  lemma TooltipRules(isHovered: bool, isLoggedIn: bool, isSaved: bool)
    ensures TooltipText(isHovered, isLoggedIn, isSaved) != "" <==> isHovered && isLoggedIn == isSaved
    ensures TooltipText(isHovered, isLoggedIn, isSaved) == SignInTooltip <==> isHovered && !isLoggedIn && !isSaved
    ensures TooltipText(isHovered, isLoggedIn, isSaved) == RemoveTooltip <==> isHovered && isLoggedIn && isSaved
  {
  }

  /** The button carries a modifier only for saved articles on the two
      known card types, and the modifier follows the card type. */
  lemma ButtonClassRules(isSaved: bool, cardType: string)
    ensures ButtonClassName(isSaved, cardType) == BaseButtonClass <==>
              !isSaved || (cardType != SavedCard && cardType != SearchResultCard)
    ensures ButtonClassName(isSaved, cardType) == BaseButtonClass + DeleteModifier <==> isSaved && cardType == SavedCard
    ensures ButtonClassName(isSaved, cardType) == BaseButtonClass + CheckedModifier <==> isSaved && cardType == SearchResultCard
  {
  }

  /** The tag is shown only on saved-page cards with a tag list, and shows
      only its first entry. */
  lemma KeywordTagRules(cardType: string, keywords: Option<seq<string>>)
    ensures KeywordTag(cardType, keywords).Some? <==> cardType == SavedCard && keywords.Some?
    ensures KeywordTag(cardType, keywords).Some? && keywords.value != [] ==>
              KeywordTag(cardType, keywords).value == keywords.value[0]
  {
  }

  /** The hover flag toggled by the button's mouse handlers. */
  class CardHover {
    var isHovered: bool

    constructor ()
      ensures !isHovered
    {
      isHovered := false;
    }

    method MouseEnter()
      modifies this
      ensures isHovered
    {
      isHovered := true;
    }

    method MouseLeave()
      modifies this
      ensures !isHovered
    {
      isHovered := false;
    }
  }
}
