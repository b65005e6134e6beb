/** The article section of src/feedManager.js as functions of the article
    list: the record `addArticle` creates, the read / star / archive
    changes, the sorted queries and the `cleanupOldArticles` retention
    rule. */
module ArticleOps {
  import opened Values
  import opened Types
  import opened Seqs
  import opened Strings

  /** The object handed to `addArticle`. */
  datatype ArticleInput = ArticleInput(
    feedId: string,
    title: string,
    url: string,
    author: string,
    summary: string,
    content: string,
    publishedAt: Option<string>)

  /** `{ ...article, id, fetchedAt: now(), isRead: false, ... }`: the input's
      fields, a fresh id, fetched now, unread, unstarred, unarchived, no
      score, highlights or tags. */
  function NewArticle(input: ArticleInput, id: string, now: string): (a: Article)
    ensures a.id == id && a.fetchedAt == now
    ensures a.feedId == input.feedId && a.url == input.url && a.title == input.title
    ensures a.author == input.author && a.summary == input.summary && a.content == input.content
    ensures a.publishedAt == input.publishedAt
    ensures !a.isRead && !a.isStarred && !a.isArchived
    ensures a.highlights == [] && a.tags == [] && a.engagementScore == 0
    ensures Consistent(a)
  {
    Article(id, input.feedId, input.title, input.url, input.author, input.summary, input.content,
            input.publishedAt, now, false, None, false, None, false, 0, [], [])
  }

  /** The read and starred flags agree with their time stamps. */
  predicate Consistent(a: Article) {
    (a.isRead <==> a.readAt.Some?) && (a.isStarred <==> a.starredAt.Some?)
  }

  /** `a => a.id === id`. */
  function ArticleWithId(id: string): Article -> bool {
    (a: Article) => a.id == id
  }

  /** The `findIndex` / copy / replace pattern every article change uses:
      nothing when no article has the id; otherwise the first article with
      the id is replaced by `change` of it and every other article stays. */
  function ChangeArticle(articles: seq<Article>, id: string, change: Article -> Article): (r: Option<seq<Article>>)
    ensures r.None? <==> forall i :: 0 <= i < |articles| ==> articles[i].id != id
    ensures r.Some? ==>
              var k := FindIndex(articles, ArticleWithId(id)).value;
              && |r.value| == |articles|
              && r.value[k] == change(articles[k])
              && forall j :: 0 <= j < |articles| && j != k ==> r.value[j] == articles[j]
  {
    match FindIndex(articles, ArticleWithId(id))
    case None => None
    case Some(k) => Some(articles[k := change(articles[k])])
  }

  /** `markArticleRead`'s spread. */
  function MarkedRead(now: string): Article -> Article {
    (a: Article) => a.(isRead := true, readAt := Some(now))
  }

  /** `markArticleUnread`'s spread (`readAt: undefined`). */
  function MarkedUnread(): Article -> Article {
    (a: Article) => a.(isRead := false, readAt := None)
  }

  /** `toggleArticleStar`'s spread: the flag flipped, the time stamp set
      when now starred and removed otherwise. */
  function ToggledStar(now: string): Article -> Article {
    (a: Article) => a.(isStarred := !a.isStarred, starredAt := if !a.isStarred then Some(now) else None)
  }

  /** `archiveArticle`'s spread. */
  function Archived(): Article -> Article {
    (a: Article) => a.(isArchived := true)
  }

  /** `toggleArticleArchive`'s spread. */
  function ToggledArchive(): Article -> Article {
    (a: Article) => a.(isArchived := !a.isArchived)
  }

  /** Every change keeps the flags and stamps consistent, and touches only
      the fields it names. */
  lemma ChangesKeepConsistency(a: Article, now: string)
    requires Consistent(a)
    ensures Consistent(MarkedRead(now)(a)) && Consistent(MarkedUnread()(a))
    ensures Consistent(ToggledStar(now)(a)) && Consistent(Archived()(a)) && Consistent(ToggledArchive()(a))
    ensures MarkedRead(now)(a).(isRead := a.isRead, readAt := a.readAt) == a
    ensures ToggledStar(now)(a).(isStarred := a.isStarred, starredAt := a.starredAt) == a
  {
  }

  /** Two star toggles restore the flag (the stamp is the second toggle's
      time when the article ends starred); two archive toggles restore the
      article. */
  lemma ToggleTwice(a: Article, t1: string, t2: string)
    ensures ToggledStar(t2)(ToggledStar(t1)(a)).isStarred == a.isStarred
    ensures ToggledStar(t2)(ToggledStar(t1)(a)).starredAt == (if a.isStarred then Some(t2) else None)
    ensures ToggledArchive()(ToggledArchive()(a)) == a
  {
  }

  /** `toggleArticleStar(id)` on the list: the new list and the new flag,
      which is the opposite of the old one. */
  function ToggleStar(articles: seq<Article>, id: string, now: string): (r: Option<(seq<Article>, bool)>)
    ensures r.None? <==> forall i :: 0 <= i < |articles| ==> articles[i].id != id
    ensures r.Some? ==>
              var k := FindIndex(articles, ArticleWithId(id)).value;
              && r.value.1 == !articles[k].isStarred && |r.value.0| == |articles|
              && r.value.0[k] == articles[k].(isStarred := r.value.1, starredAt := if r.value.1 then Some(now) else None)
              && forall j :: 0 <= j < |articles| && j != k ==> r.value.0[j] == articles[j]
  {
    match ChangeArticle(articles, id, ToggledStar(now))
    case None => None
    case Some(s) => Some((s, !articles[FindIndex(articles, ArticleWithId(id)).value].isStarred))
  }

  /** `toggleArticleArchive(id)` on the list: the new list and the new flag. */
  function ToggleArchive(articles: seq<Article>, id: string): (r: Option<(seq<Article>, bool)>)
    ensures r.None? <==> forall i :: 0 <= i < |articles| ==> articles[i].id != id
    ensures r.Some? ==>
              var k := FindIndex(articles, ArticleWithId(id)).value;
              && r.value.1 == !articles[k].isArchived && |r.value.0| == |articles|
              && r.value.0[k] == articles[k].(isArchived := r.value.1)
              && forall j :: 0 <= j < |articles| && j != k ==> r.value.0[j] == articles[j]
  {
    match ChangeArticle(articles, id, ToggledArchive())
    case None => None
    case Some(s) => Some((s, !articles[FindIndex(articles, ArticleWithId(id)).value].isArchived))
  }

  /** Toggling the star of the same article twice gives back the flags of
      every article. */
  lemma {:induction false} ToggleStarTwice(articles: seq<Article>, id: string, t1: string, t2: string)
    requires ToggleStar(articles, id, t1).Some?
    ensures var once := ToggleStar(articles, id, t1).value.0;
            && ToggleStar(once, id, t2).Some?
            && var twice := ToggleStar(once, id, t2).value.0;
            && |twice| == |articles|
            && forall i :: 0 <= i < |articles| ==> twice[i].isStarred == articles[i].isStarred
  {
    var k := FindIndex(articles, ArticleWithId(id)).value;
    var once := ToggleStar(articles, id, t1).value.0;
    assert once[k].id == id;
    assert forall j :: 0 <= j < k ==> once[j] == articles[j] && !ArticleWithId(id)(once[j]);
    FirstIndex(once, ArticleWithId(id), k);
  }

  /** `getArticle(id)`. */
  function GetArticle(articles: seq<Article>, id: string): Option<Article> {
    Find(articles, ArticleWithId(id))
  }

  // ---- sorted queries ----

  /** `a.publishedAt || a.fetchedAt`: the date the lists sort by. */
  function SortDate(a: Article): string {
    OrElse(a.publishedAt, a.fetchedAt)
  }

  /** The comparator `(a, b) => (b.publishedAt || b.fetchedAt).localeCompare(...)`
      as "`a` may come first": `a` is not older than `b`. */
  function NewestFirst(): (Article, Article) -> bool {
    (a: Article, b: Article) => AtMost(SortDate(b), SortDate(a))
  }

  /** The comparator of `getStarredArticles`, on `starredAt || ''`. */
  function LatestStarredFirst(): (Article, Article) -> bool {
    (a: Article, b: Article) => AtMost(OrElse(b.starredAt, ""), OrElse(a.starredAt, ""))
  }

  /** Both comparators are total preorders, so the sorts order fully. */
  lemma ComparatorsArePreorders(s: seq<Article>)
    ensures Preorder(s, NewestFirst())
    ensures Preorder(s, LatestStarredFirst())
  {
    forall x, y | x in s && y in s
      ensures NewestFirst()(x, y) || NewestFirst()(y, x)
      ensures LatestStarredFirst()(x, y) || LatestStarredFirst()(y, x)
    {
      AtMostTotal(SortDate(x), SortDate(y));
      AtMostTotal(OrElse(x.starredAt, ""), OrElse(y.starredAt, ""));
    }
    forall x, y, z | x in s && y in s && z in s && NewestFirst()(x, y) && NewestFirst()(y, z)
      ensures NewestFirst()(x, z)
    {
      AtMostTransitive(SortDate(z), SortDate(y), SortDate(x));
    }
    forall x, y, z | x in s && y in s && z in s && LatestStarredFirst()(x, y) && LatestStarredFirst()(y, z)
      ensures LatestStarredFirst()(x, z)
    {
      AtMostTransitive(OrElse(z.starredAt, ""), OrElse(y.starredAt, ""), OrElse(x.starredAt, ""));
    }
  }

  function Unarchived(): Article -> bool {
    (a: Article) => !a.isArchived
  }

  function InFeedUnarchived(feedId: string): Article -> bool {
    (a: Article) => a.feedId == feedId && !a.isArchived
  }

  /** `getArticlesByFeed(feedId)`. */
  function ArticlesByFeed(articles: seq<Article>, feedId: string): seq<Article> {
    SortBy(Filter(articles, InFeedUnarchived(feedId)), NewestFirst())
  }

  /** `getAllArticles()`. */
  function AllArticles(articles: seq<Article>): seq<Article> {
    SortBy(Filter(articles, Unarchived()), NewestFirst())
  }

  function Unread(): Article -> bool {
    (a: Article) => !a.isRead
  }

  /** `getUnreadArticles()`. */
  function UnreadArticles(articles: seq<Article>): seq<Article> {
    Filter(AllArticles(articles), Unread())
  }

  /** `getStarredArticles()`. */
  function StarredArticles(articles: seq<Article>): seq<Article> {
    SortBy(Filter(articles, (a: Article) => a.isStarred), LatestStarredFirst())
  }

  /** A list sorted with `le` is still sorted after a filter. */
  lemma {:induction false} FilterKeepsSorted(s: seq<Article>, p: Article -> bool, le: (Article, Article) -> bool)
    requires SortedBy(s, le)
    ensures SortedBy(Filter(s, p), le)
  {
    if s != [] {
      FilterKeepsSorted(s[1..], p, le);
      var t := Filter(s[1..], p);
      if p(s[0]) {
        forall j | 0 < j < |[s[0]] + t| ensures le(s[0], ([s[0]] + t)[j]) {
          var x := ([s[0]] + t)[j];
          assert x in t;
          assert x in s[1..];
          var m :| 0 <= m < |s[1..]| && s[1..][m] == x;
          assert s[m + 1] == x;
        }
      }
    }
  }

  /** `getArticlesByFeed`: the feed's unarchived articles, each exactly as
      often as stored, newest first. */
  lemma ArticlesByFeedSorted(articles: seq<Article>, feedId: string)
    ensures SortedBy(ArticlesByFeed(articles, feedId), NewestFirst())
    ensures multiset(ArticlesByFeed(articles, feedId)) == multiset(Filter(articles, InFeedUnarchived(feedId)))
    ensures forall a :: a in ArticlesByFeed(articles, feedId) <==> a in articles && a.feedId == feedId && !a.isArchived
  {
    var s := Filter(articles, InFeedUnarchived(feedId));
    ComparatorsArePreorders(s);
    SortBySorted(s, NewestFirst());
    SameElements(ArticlesByFeed(articles, feedId), s);
  }

  /** `getAllArticles`: the unarchived articles, newest first. */
  lemma AllArticlesSorted(articles: seq<Article>)
    ensures SortedBy(AllArticles(articles), NewestFirst())
    ensures multiset(AllArticles(articles)) == multiset(Filter(articles, Unarchived()))
    ensures forall a :: a in AllArticles(articles) <==> a in articles && !a.isArchived
  {
    var s := Filter(articles, Unarchived());
    ComparatorsArePreorders(s);
    SortBySorted(s, NewestFirst());
    SameElements(AllArticles(articles), s);
  }

  /** `getUnreadArticles`: the unarchived unread articles, newest first. */
  lemma UnreadArticlesSorted(articles: seq<Article>)
    ensures SortedBy(UnreadArticles(articles), NewestFirst())
    ensures multiset(UnreadArticles(articles)) == multiset(Filter(articles, Both(Unarchived(), Unread())))
    ensures forall a :: a in UnreadArticles(articles) <==> a in articles && !a.isArchived && !a.isRead
  {
    AllArticlesSorted(articles);
    FilterKeepsSorted(AllArticles(articles), Unread(), NewestFirst());
    FilterSameMultiset(AllArticles(articles), Filter(articles, Unarchived()), Unread());
    FilterFilter(articles, Unarchived(), Unread());
  }

  /** `getStarredArticles`: the starred articles, archived or not, most
      recently starred first. */
  lemma StarredArticlesSorted(articles: seq<Article>)
    ensures SortedBy(StarredArticles(articles), LatestStarredFirst())
    ensures multiset(StarredArticles(articles)) == multiset(Filter(articles, (a: Article) => a.isStarred))
    ensures forall a :: a in StarredArticles(articles) <==> a in articles && a.isStarred
  {
    var s := Filter(articles, (a: Article) => a.isStarred);
    ComparatorsArePreorders(s);
    SortBySorted(s, LatestStarredFirst());
    SameElements(StarredArticles(articles), s);
  }

  /** Helper: sequences with the same multiset have the same members. */
  lemma SameElements(a: seq<Article>, b: seq<Article>)
    requires multiset(a) == multiset(b)
    ensures forall x :: x in a <==> x in b
  {
    forall x ensures x in a <==> x in b {
      assert x in a <==> x in multiset(a);
      assert x in b <==> x in multiset(b);
    }
  }

  // ---- retention ----

  /** The test of `cleanupOldArticles`: starred, highlighted, or fetched
      after the cutoff. */
  function Retained(cutoff: string): Article -> bool {
    (a: Article) => a.isStarred || |a.highlights| > 0 || Below(cutoff, a.fetchedAt)
  }

  /** The articles `cleanupOldArticles` keeps and the number it reports. */
  function Cleanup(articles: seq<Article>, cutoff: string): (r: (seq<Article>, nat))
    ensures forall a :: a in r.0 <==> a in articles && (a.isStarred || |a.highlights| > 0 || Below(cutoff, a.fetchedAt))
    ensures r.0 == Filter(articles, Retained(cutoff))
    ensures forall a :: multiset(r.0)[a] == if Retained(cutoff)(a) then multiset(articles)[a] else 0
    ensures r.1 == |articles| - |r.0|
    ensures r.1 == 0 <==> r.0 == articles
  {
    var kept := Filter(articles, Retained(cutoff));
    FilterKeepsLength(articles, Retained(cutoff));
    FilterCounts(articles, Retained(cutoff));
    (kept, |articles| - |kept|)
  }

  /** A second sweep with the same cutoff drops nothing. */
  lemma CleanupIdempotent(articles: seq<Article>, cutoff: string)
    ensures Cleanup(Cleanup(articles, cutoff).0, cutoff) == (Cleanup(articles, cutoff).0, 0)
  {
    var kept := Filter(articles, Retained(cutoff));
    FilterKeepsLength(kept, Retained(cutoff));
  }

  /** A later cutoff keeps no more than an earlier one: what survives a
      sweep at `later` survived one at `earlier`. */
  lemma CleanupMonotone(articles: seq<Article>, earlier: string, later: string)
    requires AtMost(earlier, later)
    ensures forall a :: a in Cleanup(articles, later).0 ==> a in Cleanup(articles, earlier).0
  {
    forall a | a in Cleanup(articles, later).0 ensures a in Cleanup(articles, earlier).0 {
      if Below(later, a.fetchedAt) {
        AtMostBelowTransitive(earlier, later, a.fetchedAt);
      }
    }
  }
}
