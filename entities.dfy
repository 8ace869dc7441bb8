/** The records the client keeps: articles, saved articles, the signed-in
    user and the response of the sign-in endpoint. */
module Entities {
  import opened Outcomes

  /** A news article as the cards and the store see it; `source` is the
      source's display name and `keywords` the optional tag list. */
  datatype Article = Article(
    source: string,
    title: string,
    publishedAt: string,
    content: string,
    urlToImage: string,
    url: string,
    keywords: Option<seq<string>>)

  /** An article as the backend returns it once saved: with its `_id`. */
  datatype SavedArticle = SavedArticle(id: string, article: Article)

  /** `currentUser`: `{}` before sign-in, else the identity endpoint's user. */
  datatype User = EmptyUser | User(id: string, name: string, email: string)

  /** The body returned by the sign-in endpoint; `token` may be missing. */
  datatype AuthResponse = AuthResponse(token: Option<string>)

  /** A form's `values` object, sent as the body of sign-in and sign-up. */
  type Fields = map<string, string>

  /** `Array.prototype.reverse` on a list, as a value. */
  function Reversed<T>(s: seq<T>): (r: seq<T>)
    ensures |r| == |s|
    ensures forall k :: 0 <= k < |s| ==> r[k] == s[|s| - 1 - k]
  {
    if s == [] then [] else [s[|s| - 1]] + Reversed(s[..|s| - 1])
  }

  /** Reversing keeps every entry and its multiplicity. */
  lemma {:induction false} ReversedSameEntries<T>(s: seq<T>)
    ensures multiset(Reversed(s)) == multiset(s)
  {
    if s != [] {
      ReversedSameEntries(s[..|s| - 1]);
      assert s == s[..|s| - 1] + [s[|s| - 1]];
    }
  }
}
