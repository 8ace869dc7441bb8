/** The keyword index kept beside the saved articles: the flatten-and-filter
    of the articles' tags, and the `indexOf`-based de-duplication of the
    previous index followed by those tags. */
module Keywords {
  import opened Outcomes
  import opened Entities
  import opened Sequences

  /** No keyword occurs twice. */
  predicate NoDuplicates(s: seq<string>) {
    forall i, j :: 0 <= i < j < |s| ==> s[i] != s[j]
  }

  /** `article.keywords`, with an absent tag list contributing nothing. */
  function TagsOf(a: SavedArticle): seq<string> {
    match a.article.keywords
    case None => []
    case Some(ks) => ks
  }

  /** `articles.map(a => a.keywords).flat()`, with absent lists dropped. */
  function Flat(articles: seq<SavedArticle>): seq<string> {
    if articles == [] then [] else TagsOf(articles[0]) + Flat(articles[1..])
  }

  /** `.filter(Boolean)` over strings: drops the empty ones. */
  function NonEmpty(ks: seq<string>): (r: seq<string>)
    ensures forall k :: k in r <==> k in ks && k != ""
  {
    if ks == [] then []
    else (if ks[0] == "" then [] else [ks[0]]) + NonEmpty(ks[1..])
  }

  /** The filter on a list with a first keyword. */
  lemma NonEmptyCons(k: string, rest: seq<string>)
    ensures NonEmpty([k] + rest) == (if k == "" then [] else [k]) + NonEmpty(rest)
  {
    assert ([k] + rest)[0] == k && ([k] + rest)[1..] == rest;
  }

  /** The filter keeps a keyword exactly when it is non-empty, in order. */
  lemma {:induction false} NonEmptyConcat(a: seq<string>, b: seq<string>)
    ensures NonEmpty(a + b) == NonEmpty(a) + NonEmpty(b)
    ensures NonEmpty([]) == []
    ensures forall k :: NonEmpty([k]) == if k == "" then [] else [k]
    decreases |a|
  {
    if a == [] {
      assert a + b == b;
    } else {
      var k, tail := a[0], a[1..];
      assert a == [k] + tail;
      assert a + b == [k] + (tail + b);
      var head := if k == "" then [] else [k];
      NonEmptyCons(k, tail + b);
      NonEmptyCons(k, tail);
      NonEmptyConcat(tail, b);
      AppendAssociative(head, NonEmpty(tail), NonEmpty(b));
    }
    forall k ensures NonEmpty([k]) == if k == "" then [] else [k] {
      NonEmptyCons(k, []);
      assert [k] + [] == [k];
    }
  }

  /** The keywords carried by a batch of articles, in batch order. */
  function ArticleKeywords(articles: seq<SavedArticle>): seq<string> {
    NonEmpty(Flat(articles))
  }

  /** `self.indexOf(k)`: the first index holding `k`, or -1. */
  function IndexOf(s: seq<string>, k: string): (i: int)
    ensures -1 <= i < |s|
    ensures i == -1 <==> k !in s
    ensures 0 <= i ==> s[i] == k && k !in s[..i]
  {
    if s == [] then -1
    else if s[0] == k then 0
    else
      var j := IndexOf(s[1..], k);
      assert s[1..][..if j < 0 then 0 else j] == s[1..1 + if j < 0 then 0 else j];
      if j < 0 then -1 else j + 1
  }

  /** `s.filter((k, i, self) => self.indexOf(k) === i)` over the first `n`
      indices of `s`. */
  function KeepFirst(s: seq<string>, n: nat): seq<string>
    requires n <= |s|
  {
    if n == 0 then []
    else KeepFirst(s, n - 1) + (if IndexOf(s, s[n - 1]) == n - 1 then [s[n - 1]] else [])
  }

  /** The whole `indexOf === index` filter. */
  function Dedup(s: seq<string>): seq<string> {
    KeepFirst(s, |s|)
  }

  /** The functional update in `extractAndSetKeywords`: the previous index
      followed by the batch's keywords, de-duplicated. */
  function Merge(prev: seq<string>, articles: seq<SavedArticle>): seq<string> {
    Dedup(prev + ArticleKeywords(articles))
  }

  /** Reference definition: walk a batch and append each keyword that is
      not yet present. */
  function Absorb(acc: seq<string>, batch: seq<string>): seq<string>
    decreases batch
  {
    if batch == [] then acc
    else Absorb(if batch[0] in acc then acc else acc + [batch[0]], batch[1..])
  }

  /** The keywords of `batch` that are not in `known`, in batch order. */
  function Without(batch: seq<string>, known: seq<string>): (r: seq<string>)
    ensures forall k :: k in r <==> k in batch && k !in known
  {
    if batch == [] then []
    else (if batch[0] in known then [] else [batch[0]]) + Without(batch[1..], known)
  }

  /** The filter on a batch with a first keyword. */
  lemma WithoutCons(k: string, rest: seq<string>, known: seq<string>)
    ensures Without([k] + rest, known) == (if k in known then [] else [k]) + Without(rest, known)
  {
    assert ([k] + rest)[0] == k && ([k] + rest)[1..] == rest;
  }

  /** The filter keeps a keyword exactly when it is not known, in order. */
  lemma {:induction false} WithoutConcat(a: seq<string>, b: seq<string>, known: seq<string>)
    ensures Without(a + b, known) == Without(a, known) + Without(b, known)
    ensures Without([], known) == []
    ensures forall k :: Without([k], known) == if k in known then [] else [k]
    decreases |a|
  {
    if a == [] {
      assert a + b == b;
    } else {
      var k, tail := a[0], a[1..];
      assert a == [k] + tail;
      assert a + b == [k] + (tail + b);
      var head := if k in known then [] else [k];
      WithoutCons(k, tail + b, known);
      WithoutCons(k, tail, known);
      WithoutConcat(tail, b, known);
      AppendAssociative(head, Without(tail, known), Without(b, known));
    }
    forall k ensures Without([k], known) == if k in known then [] else [k] {
      WithoutCons(k, [], known);
      assert [k] + [] == [k];
    }
  }

  // ---------------------------------------------------------------------
  // Facts about the batch keywords

  lemma {:induction false} FlatMembers(articles: seq<SavedArticle>, k: string)
    ensures k in Flat(articles) <==> exists i :: 0 <= i < |articles| && k in TagsOf(articles[i])
  {
    if articles != [] {
      FlatMembers(articles[1..], k);
      if k in Flat(articles[1..]) {
        var i :| 0 <= i < |articles[1..]| && k in TagsOf(articles[1..][i]);
        assert k in TagsOf(articles[i + 1]);
      }
      forall i | 1 <= i < |articles| && k in TagsOf(articles[i])
        ensures k in Flat(articles[1..])
      {
        assert articles[1..][i - 1] == articles[i];
      }
    }
  }

  /** Every batch keyword is non-empty and is a tag of some article of the
      batch, and every non-empty tag of the batch is among them. */
  lemma ArticleKeywordsMembers(articles: seq<SavedArticle>, k: string)
    ensures k in ArticleKeywords(articles) <==>
              k != "" && exists i :: 0 <= i < |articles| && k in TagsOf(articles[i])
  {
    FlatMembers(articles, k);
  }

  // ---------------------------------------------------------------------
  // The indexOf filter

  /** The prefix filter keeps exactly the keywords of the prefix, once each. */
  lemma {:induction false} KeepFirstFacts(s: seq<string>, n: nat)
    requires n <= |s|
    ensures forall k :: k in KeepFirst(s, n) <==> k in s[..n]
    ensures NoDuplicates(KeepFirst(s, n))
  {
    if n > 0 {
      KeepFirstFacts(s, n - 1);
      assert s[..n] == s[..n - 1] + [s[n - 1]];
      var i := IndexOf(s, s[n - 1]);
      if i != n - 1 {
        assert s[n - 1] in s[..n - 1] by {
          assert i < n - 1;
          assert s[..n - 1][i] == s[i];
        }
      } else {
        assert s[n - 1] !in KeepFirst(s, n - 1);
      }
    }
  }

  /** The de-duplicated list has no repeats and the same members. */
  lemma DedupFacts(s: seq<string>)
    ensures NoDuplicates(Dedup(s))
    ensures forall k :: k in Dedup(s) <==> k in s
  {
    KeepFirstFacts(s, |s|);
    assert s[..|s|] == s;
  }

  /** One more index through the filter is one step of the walk. */
  lemma KeepFirstStep(s: seq<string>, n: nat)
    requires n < |s|
    ensures KeepFirst(s, n + 1) ==
              if s[n] in KeepFirst(s, n) then KeepFirst(s, n) else KeepFirst(s, n) + [s[n]]
  {
    KeepFirstFacts(s, n);
    var i := IndexOf(s, s[n]);
    if i == n {
      assert s[n] !in s[..n];
    } else {
      assert s[..n][i] == s[i];
    }
  }

  /** The indexOf filter agrees with the append-if-absent walk from any
      prefix point. */
  lemma {:induction false} KeepFirstThenAbsorb(s: seq<string>, n: nat)
    requires n <= |s|
    ensures Absorb(KeepFirst(s, n), s[n..]) == Dedup(s)
    decreases |s| - n
  {
    if n < |s| {
      var acc, next, rest := KeepFirst(s, n), KeepFirst(s, n + 1), s[n..];
      KeepFirstStep(s, n);
      assert next == if rest[0] in acc then acc else acc + [rest[0]];
      assert rest[1..] == s[n + 1..];
      assert Absorb(acc, rest) == Absorb(next, s[n + 1..]);
      KeepFirstThenAbsorb(s, n + 1);
    } else {
      assert s[n..] == [];
    }
  }

  /** The indexOf filter is the append-if-absent walk from the empty list. */
  lemma DedupIsAbsorb(s: seq<string>)
    ensures Dedup(s) == Absorb([], s)
  {
    KeepFirstThenAbsorb(s, 0);
    assert s[0..] == s;
  }

  // ---------------------------------------------------------------------
  // The reference walk

  lemma {:induction false} AbsorbConcat(acc: seq<string>, a: seq<string>, b: seq<string>)
    ensures Absorb(acc, a + b) == Absorb(Absorb(acc, a), b)
    decreases a
  {
    if a != [] {
      assert (a + b)[0] == a[0];
      assert (a + b)[1..] == a[1..] + b;
      AbsorbConcat(if a[0] in acc then acc else acc + [a[0]], a[1..], b);
    } else {
      assert a + b == b;
    }
  }

  lemma {:induction false} AbsorbFromPrefix(s: seq<string>, n: nat)
    requires NoDuplicates(s) && n <= |s|
    ensures Absorb(s[..n], s[n..]) == s
    decreases |s| - n
  {
    if n < |s| {
      assert s[n] !in s[..n] by {
        forall i | 0 <= i < n ensures s[..n][i] != s[n] { assert s[..n][i] == s[i]; }
      }
      assert s[..n] + [s[n]] == s[..n + 1];
      assert s[n..][1..] == s[n + 1..];
      AbsorbFromPrefix(s, n + 1);
    } else {
      assert s[..n] == s;
    }
  }

  /** A list without repeats passes the walk unchanged. */
  lemma AbsorbNoDuplicates(s: seq<string>)
    requires NoDuplicates(s)
    ensures Absorb([], s) == s
  {
    AbsorbFromPrefix(s, 0);
    assert s[..0] == [] && s[0..] == s;
  }

  /** Appending after a known block: the block stays in front and only the
      keywords outside it are walked. */
  lemma {:induction false} AbsorbAfter(known: seq<string>, x: seq<string>, batch: seq<string>)
    requires forall k :: k in x ==> k !in known
    ensures Absorb(known + x, batch) == known + Absorb(x, Without(batch, known))
    decreases batch
  {
    if batch != [] {
      var k := batch[0];
      if k in known {
        assert Without(batch, known) == Without(batch[1..], known);
        AbsorbAfter(known, x, batch[1..]);
      } else {
        assert Without(batch, known) == [k] + Without(batch[1..], known);
        assert ([k] + Without(batch[1..], known))[1..] == Without(batch[1..], known);
        if k in x {
          AbsorbAfter(known, x, batch[1..]);
        } else {
          assert known + x + [k] == known + (x + [k]);
          AbsorbAfter(known, x + [k], batch[1..]);
        }
      }
    } else {
      assert Without(batch, known) == [];
    }
  }

  // ---------------------------------------------------------------------
  // The merge

  /** After a merge the index holds no keyword twice, and it holds exactly
      the previous keywords and the batch's non-empty tags. */
  lemma MergeMembers(prev: seq<string>, articles: seq<SavedArticle>, k: string)
    ensures NoDuplicates(Merge(prev, articles))
    ensures k in Merge(prev, articles) <==>
              k in prev || (k != "" && exists i :: 0 <= i < |articles| && k in TagsOf(articles[i]))
  {
    DedupFacts(prev + ArticleKeywords(articles));
    ArticleKeywordsMembers(articles, k);
  }

  /** A merge into an index without repeats appends each new keyword once,
      in the order the batch first shows it. */
  lemma MergeIsAbsorb(prev: seq<string>, articles: seq<SavedArticle>)
    requires NoDuplicates(prev)
    ensures Merge(prev, articles) == Absorb(prev, ArticleKeywords(articles))
  {
    var batch := ArticleKeywords(articles);
    DedupIsAbsorb(prev + batch);
    AbsorbConcat([], prev, batch);
    AbsorbNoDuplicates(prev);
  }

  /** A merge into an index without repeats keeps that index as its prefix
      and follows it with the batch's new keywords, de-duplicated in
      first-seen order. */
  lemma MergeKeepsPrefix(prev: seq<string>, articles: seq<SavedArticle>)
    requires NoDuplicates(prev)
    ensures Merge(prev, articles) == prev + Dedup(Without(ArticleKeywords(articles), prev))
  {
    var batch := ArticleKeywords(articles);
    MergeIsAbsorb(prev, articles);
    AbsorbAfter(prev, [], batch);
    assert prev + [] == prev;
    DedupIsAbsorb(Without(batch, prev));
  }

  /** The index never holds the empty keyword if it did not before. */
  lemma MergeNoEmpty(prev: seq<string>, articles: seq<SavedArticle>)
    requires "" !in prev
    ensures "" !in Merge(prev, articles)
  {
    MergeMembers(prev, articles, "");
  }
}
