/** The session and saved-article store behind the current-user context:
    the five state slots, the persisted token slot, and the operations that
    update them. Each backend call is a function parameter, so the model
    states which arguments it receives; its outcome is whatever that
    function returns. Every operation runs to completion as one step. */
module Session {
  import opened Outcomes
  import opened Entities
  import opened Keywords
  import opened Sequences

  /** `savedArticles.find(a => a.url === url)`. */
  function FindByUrl(saved: seq<SavedArticle>, url: string): (r: Option<SavedArticle>)
    ensures r.None? <==> forall i :: 0 <= i < |saved| ==> saved[i].article.url != url
    ensures r.Some? ==> r.value in saved && r.value.article.url == url
  {
    if saved == [] then None
    else if saved[0].article.url == url then Some(saved[0])
    else FindByUrl(saved[1..], url)
  }

  /** `savedArticles.filter(a => a._id !== id)`. */
  function WithoutId(saved: seq<SavedArticle>, id: string): (r: seq<SavedArticle>)
    ensures |r| <= |saved|
    ensures forall a :: a in r <==> a in saved && a.id != id
  {
    if saved == [] then []
    else (if saved[0].id == id then [] else [saved[0]]) + WithoutId(saved[1..], id)
  }

  /** The first entry with a given url is the earliest one. */
  lemma {:induction false} FindByUrlIsFirst(saved: seq<SavedArticle>, url: string)
    requires FindByUrl(saved, url).Some?
    ensures exists i :: 0 <= i < |saved| && saved[i] == FindByUrl(saved, url).value &&
                        forall j :: 0 <= j < i ==> saved[j].article.url != url
  {
    if saved[0].article.url != url {
      FindByUrlIsFirst(saved[1..], url);
      var i :| 0 <= i < |saved[1..]| && saved[1..][i] == FindByUrl(saved, url).value &&
               forall j :: 0 <= j < i ==> saved[1..][j].article.url != url;
      assert saved[i + 1] == FindByUrl(saved, url).value;
      forall j | 0 <= j < i + 1 ensures saved[j].article.url != url {
        if j > 0 { assert saved[j] == saved[1..][j - 1]; }
      }
    } else {
      assert saved[0] == FindByUrl(saved, url).value;
    }
  }

  /** The filter on a list with a first entry. */
  lemma WithoutIdCons(x: SavedArticle, rest: seq<SavedArticle>, id: string)
    ensures WithoutId([x] + rest, id) == (if x.id == id then [] else [x]) + WithoutId(rest, id)
  {
    assert ([x] + rest)[0] == x && ([x] + rest)[1..] == rest;
  }

  /** The filter keeps an entry exactly when its id differs, and keeps the
      entries in their old relative order: it works piece by piece. */
  lemma {:induction false} WithoutIdConcat(a: seq<SavedArticle>, b: seq<SavedArticle>, id: string)
    ensures WithoutId(a + b, id) == WithoutId(a, id) + WithoutId(b, id)
    decreases |a|
  {
    if a == [] {
      assert a + b == b;
    } else {
      var x, tail := a[0], a[1..];
      assert a == [x] + tail;
      assert a + b == [x] + (tail + b);
      var head, rest, later := if x.id == id then [] else [x], WithoutId(tail, id), WithoutId(b, id);
      WithoutIdCons(x, tail + b, id);
      WithoutIdCons(x, tail, id);
      WithoutIdConcat(tail, b, id);
      AppendAssociative(head, rest, later);
    }
  }

  /** The filter on one entry. */
  lemma WithoutIdSingle(x: SavedArticle, id: string)
    ensures WithoutId([x], id) == if x.id == id then [] else [x]
  {
    WithoutIdCons(x, [], id);
    assert [x] + [] == [x];
  }

  /** Removing the entries that share a present entry's id shrinks the list. */
  lemma {:induction false} WithoutIdShrinks(saved: seq<SavedArticle>, target: SavedArticle)
    requires target in saved
    ensures |WithoutId(saved, target.id)| < |saved|
  {
    if saved[0] != target {
      WithoutIdShrinks(saved[1..], target);
    }
  }

  /** The persisted token counts only when present and non-empty. */
  predicate HasToken(token: Option<string>) {
    Truthy(token)
  }

  class CurrentUserStore {
    var isLoggedIn: bool
    var currentUser: User
    var authLoading: bool
    var savedArticles: seq<SavedArticle>
    var keywords: seq<string>
    /** The browser-storage slot that holds the token across reloads. */
    var token: Option<string>

    /** The keyword index holds each keyword once and never "". */
    ghost predicate Valid()
      reads this
    {
      NoDuplicates(keywords) && "" !in keywords
    }

    /** The provider's initial state, given what storage already holds. */
    constructor (storedToken: Option<string>)
      ensures Valid()
      ensures !isLoggedIn && currentUser == EmptyUser && authLoading
      ensures savedArticles == [] && keywords == [] && token == storedToken
    {
      isLoggedIn := false;
      currentUser := EmptyUser;
      authLoading := true;
      savedArticles := [];
      keywords := [];
      token := storedToken;
    }

    /** `extractAndSetKeywords`: merge a batch's tags into the index. */
    method ExtractAndSetKeywords(articles: seq<SavedArticle>)
      requires Valid()
      modifies this
      ensures Valid()
      ensures keywords == Merge(old(keywords), articles)
      ensures old(keywords) <= keywords
      ensures isLoggedIn == old(isLoggedIn) && currentUser == old(currentUser)
      ensures authLoading == old(authLoading) && savedArticles == old(savedArticles)
      ensures token == old(token)
    {
      MergeMembers(keywords, articles, "");
      MergeNoEmpty(keywords, articles);
      MergeKeepsPrefix(keywords, articles);
      keywords := Merge(keywords, articles);
    }

    /** Start-up reconciliation of the stored token with the server. */
    method CheckAuth(checkToken: string -> Result<User, Failure>,
                     getSavedArticles: string -> Result<seq<SavedArticle>, Failure>)
      requires Valid()
      modifies this
      ensures Valid()
      ensures !authLoading
      // no token: only the loading flag changes
      ensures !HasToken(old(token)) ==>
                isLoggedIn == old(isLoggedIn) && currentUser == old(currentUser) &&
                savedArticles == old(savedArticles) && keywords == old(keywords) &&
                token == old(token)
      // the token is rejected: it is removed and the session is anonymous
      ensures HasToken(old(token)) && checkToken(old(token).value).Err? ==>
                token == None && !isLoggedIn && currentUser == old(currentUser) &&
                savedArticles == old(savedArticles) && keywords == old(keywords)
      // the user is known but the saved articles fail to load: the token is
      // still removed and the session is anonymous, the user stays set
      ensures HasToken(old(token)) && checkToken(old(token).value).Ok? &&
              getSavedArticles(old(token).value).Err? ==>
                token == None && !isLoggedIn &&
                currentUser == checkToken(old(token).value).value &&
                savedArticles == old(savedArticles) && keywords == old(keywords)
      // both calls succeed: signed in, with the server list reversed
      ensures HasToken(old(token)) && checkToken(old(token).value).Ok? &&
              getSavedArticles(old(token).value).Ok? ==>
                token == old(token) && isLoggedIn &&
                currentUser == checkToken(old(token).value).value &&
                savedArticles == Reversed(getSavedArticles(old(token).value).value) &&
                keywords == Merge(old(keywords), savedArticles)
    {
      if !HasToken(token) {
        authLoading := false;
        return;
      }
      var t := token.value;
      var user := checkToken(t);
      if user.Err? {
        token := None;
        isLoggedIn := false;
        authLoading := false;
        return;
      }
      currentUser := user.value;
      isLoggedIn := true;
      var articles := getSavedArticles(t);
      if articles.Err? {
        token := None;
        isLoggedIn := false;
        authLoading := false;
        return;
      }
      var reversedArticles := Reversed(articles.value);
      savedArticles := reversedArticles;
      ExtractAndSetKeywords(reversedArticles);
      authLoading := false;
    }

    /** Sign in: authorize, persist the token, fetch the user, then load the
        saved articles. A failing step ends the operation with its error and
        leaves the earlier steps' effects in place. */
    method Login(userData: Fields,
                 authorize: Fields -> Result<AuthResponse, Failure>,
                 checkToken: string -> Result<User, Failure>,
                 getSavedArticles: string -> Result<seq<SavedArticle>, Failure>)
      returns (r: Result<(), Failure>)
      requires Valid()
      modifies this
      ensures Valid()
      ensures authLoading == old(authLoading)
      // authorization rejected, or it returned no token: nothing changes
      ensures authorize(userData).Err? ==>
                r == Err(authorize(userData).error) && token == old(token) &&
                isLoggedIn == old(isLoggedIn) && currentUser == old(currentUser) &&
                savedArticles == old(savedArticles) && keywords == old(keywords)
      ensures authorize(userData).Ok? && !HasToken(authorize(userData).value.token) ==>
                r == Err(NoTokenReceived) && token == old(token) &&
                isLoggedIn == old(isLoggedIn) && currentUser == old(currentUser) &&
                savedArticles == old(savedArticles) && keywords == old(keywords)
      // a token was received: it is persisted whatever happens next
      ensures authorize(userData).Ok? && HasToken(authorize(userData).value.token) ==>
                var t := authorize(userData).value.token.value;
                token == Some(t) &&
                (checkToken(t).Err? ==>
                   r == Err(checkToken(t).error) &&
                   isLoggedIn == old(isLoggedIn) && currentUser == old(currentUser) &&
                   savedArticles == old(savedArticles) && keywords == old(keywords)) &&
                (checkToken(t).Ok? ==>
                   isLoggedIn && currentUser == checkToken(t).value) &&
                (checkToken(t).Ok? && getSavedArticles(t).Err? ==>
                   r == Err(getSavedArticles(t).error) &&
                   savedArticles == old(savedArticles) && keywords == old(keywords)) &&
                (checkToken(t).Ok? && getSavedArticles(t).Ok? ==>
                   r == Ok(()) &&
                   savedArticles == Reversed(getSavedArticles(t).value) &&
                   keywords == Merge(old(keywords), savedArticles))
    {
      var data := authorize(userData);
      if data.Err? {
        return Err(data.error);
      }
      if !HasToken(data.value.token) {
        return Err(NoTokenReceived);
      }
      token := data.value.token;
      var user := checkToken(token.value);
      if user.Err? {
        return Err(user.error);
      }
      currentUser := user.value;
      isLoggedIn := true;
      var articles := getSavedArticles(token.value);
      if articles.Err? {
        return Err(articles.error);
      }
      var reversedArticles := Reversed(articles.value);
      savedArticles := reversedArticles;
      ExtractAndSetKeywords(reversedArticles);
      r := Ok(());
    }

    /** Sign up: the backend's answer is returned and no state changes. */
    method Register<U>(userData: Fields, signup: Fields -> Result<U, Failure>)
      returns (r: Result<U, Failure>)
      ensures r == signup(userData)
    {
      r := signup(userData);
    }

    /** Sign out: drop the token and clear the session and its collections. */
    method Logout()
      modifies this
      ensures Valid()
      ensures token == None && !isLoggedIn && currentUser == EmptyUser
      ensures savedArticles == [] && keywords == []
      ensures authLoading == old(authLoading)
    {
      token := None;
      isLoggedIn := false;
      currentUser := EmptyUser;
      savedArticles := [];
      keywords := [];
    }

    /** Save an article: whatever token storage holds (possibly none) is
        sent, and the server's article is put in front; the same url may be
        saved more than once. */
    method SaveArticle(article: Article,
                       saveApi: (Article, Option<string>) -> Result<SavedArticle, Failure>)
      returns (r: Result<SavedArticle, Failure>)
      requires Valid()
      modifies this
      ensures Valid()
      ensures r == saveApi(article, old(token))
      ensures r.Ok? ==>
                savedArticles == [r.value] + old(savedArticles) &&
                keywords == Merge(old(keywords), [r.value])
      ensures r.Err? ==> savedArticles == old(savedArticles) && keywords == old(keywords)
      ensures isLoggedIn == old(isLoggedIn) && currentUser == old(currentUser)
      ensures authLoading == old(authLoading) && token == old(token)
    {
      var savedArticle := saveApi(article, token);
      if savedArticle.Err? {
        return savedArticle;
      }
      savedArticles := [savedArticle.value] + savedArticles;
      ExtractAndSetKeywords([savedArticle.value]);
      r := savedArticle;
    }

    /** Delete the first saved entry with a url: the backend is asked to
        delete its `_id`, then every entry with that `_id` is dropped and the
        remaining list is reversed. The keyword index is left as it was. */
    method DeleteArticle(url: string,
                         deleteApi: (string, Option<string>) -> Result<(), Failure>)
      returns (r: Result<(), Failure>)
      requires Valid()
      modifies this
      ensures Valid()
      ensures FindByUrl(old(savedArticles), url).None? ==>
                r == Err(UndefinedRead("_id")) && savedArticles == old(savedArticles)
      ensures FindByUrl(old(savedArticles), url).Some? ==>
                var found := FindByUrl(old(savedArticles), url).value;
                r == deleteApi(found.id, old(token)) &&
                (r.Ok? ==> savedArticles == Reversed(WithoutId(old(savedArticles), found.id)) &&
                           |savedArticles| < |old(savedArticles)|) &&
                (r.Err? ==> savedArticles == old(savedArticles))
      ensures keywords == old(keywords)
      ensures isLoggedIn == old(isLoggedIn) && currentUser == old(currentUser)
      ensures authLoading == old(authLoading) && token == old(token)
    {
      var articleToDelete := FindByUrl(savedArticles, url);
      if articleToDelete.None? {
        return Err(UndefinedRead("_id"));
      }
      r := deleteApi(articleToDelete.value.id, token);
      if r.Err? {
        return;
      }
      WithoutIdShrinks(savedArticles, articleToDelete.value);
      var updatedSavedArticles := WithoutId(savedArticles, articleToDelete.value.id);
      savedArticles := Reversed(updatedSavedArticles);
    }
  }
}
