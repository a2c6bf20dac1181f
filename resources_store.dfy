/** The client resources store: the in-memory `articles` and `ratings`
    lists, the published-content getters, the per-article rating summary, and
    the actions that add, update and delete articles and upsert a rating. */
module ResourcesStore {
  import opened Common
  import opened Seqs
  import UserStore

  /** An article is a plain object: `id`, `type`, `published` and whatever
      else the author supplied. */
  type Article = Record

  /** A rating as held in `ratings`. */
  datatype Rating = Rating(id: string, articleId: string, userId: string, rating: int)

  /** `getArticleRating`: how many ratings the article has, their sum, and
      their mean (0 when there are none). */
  datatype RatingSummary = RatingSummary(count: nat, sum: int, average: real)

  datatype RatingError = NotLoggedIn

  // -------------------------------------------------------------- getters

  predicate IsPublished(a: Article) {
    Truthy(Get(a, "published"))
  }

  /** `publishedArticles`: the articles whose `published` is truthy, in list order. */
  function PublishedArticles(articles: seq<Article>): (r: seq<Article>)
    ensures forall a :: a in r <==> a in articles && IsPublished(a)
  {
    Filter(IsPublished, articles)
  }

  /** The test of `newsArticles`, `blogPosts` and `mediaItems`. */
  predicate IsPublishedOfType(a: Article, kind: string) {
    Get(a, "type") == Str(kind) && IsPublished(a)
  }

  /** The published articles of one type: part of the published list. */
  function PublishedOfType(articles: seq<Article>, kind: string): (r: seq<Article>)
    ensures forall a :: a in r <==> a in articles && Get(a, "type") == Str(kind) && IsPublished(a)
    ensures forall a :: a in r ==> a in PublishedArticles(articles)
  {
    Filter((a: Article) => IsPublishedOfType(a, kind), articles)
  }

  /** No article is listed under two types. */
  lemma TypesDisjoint(articles: seq<Article>, kind: string, other: string, a: Article)
    requires kind != other && a in PublishedOfType(articles, kind)
    ensures a !in PublishedOfType(articles, other)
  {
  }

  /** `newsArticles` */
  function NewsArticles(articles: seq<Article>): (r: seq<Article>)
    ensures forall a :: a in r <==> a in articles && Get(a, "type") == Str("news") && IsPublished(a)
  {
    PublishedOfType(articles, "news")
  }

  /** `blogPosts` */
  function BlogPosts(articles: seq<Article>): (r: seq<Article>)
    ensures forall a :: a in r <==> a in articles && Get(a, "type") == Str("blog") && IsPublished(a)
  {
    PublishedOfType(articles, "blog")
  }

  /** `mediaItems` */
  function MediaItems(articles: seq<Article>): (r: seq<Article>)
    ensures forall a :: a in r <==> a in articles && Get(a, "type") == Str("media") && IsPublished(a)
  {
    PublishedOfType(articles, "media")
  }

  // -------------------------------------------------------------- ratings

  /** `ratings.value.filter((r) => r.articleId === articleId)` */
  function RatingsFor(ratings: seq<Rating>, articleId: string): (r: seq<Rating>)
    ensures forall x :: x in r <==> x in ratings && x.articleId == articleId
  {
    Filter((x: Rating) => x.articleId == articleId, ratings)
  }

  predicate NonNegative(rs: seq<Rating>) {
    forall i :: 0 <= i < |rs| ==> rs[i].rating >= 0
  }

  /** The `reduce` that adds up the `rating` fields: non-negative ratings
      give a non-negative sum, no larger than the ratings' maximum times
      their number (see `SumBounds`). */
  function Sum(rs: seq<Rating>): (r: int)
    ensures NonNegative(rs) ==> r >= 0
  {
    if rs == [] then 0 else rs[0].rating + Sum(rs[1..])
  }

  lemma MulSucc(a: int, n: nat)
    ensures a * (n + 1) == a * n + a
  {
  }

  /** Every rating between `lo` and `hi` puts the sum between `lo` and `hi` times the count. */
  lemma {:induction false} SumBounds(rs: seq<Rating>, lo: int, hi: int)
    requires forall i :: 0 <= i < |rs| ==> lo <= rs[i].rating <= hi
    ensures lo * |rs| <= Sum(rs) <= hi * |rs|
  {
    if rs != [] {
      var t := rs[1..];
      SumBounds(t, lo, hi);
      assert Sum(rs) == rs[0].rating + Sum(t);
      MulSucc(lo, |t|);
      MulSucc(hi, |t|);
    }
  }

  /** `getArticleRating(articleId)`: the summary of that article's ratings. */
  function ArticleRating(ratings: seq<Rating>, articleId: string): (r: RatingSummary)
    ensures r.count == |RatingsFor(ratings, articleId)|
    ensures r.sum == Sum(RatingsFor(ratings, articleId))
    ensures r.count == 0 ==> r.sum == 0 && r.average == 0.0
    ensures r.count > 0 ==> r.average == Mean(r.sum, r.count)
  {
    var rs := RatingsFor(ratings, articleId);
    if |rs| == 0 then RatingSummary(0, 0, 0.0)
    else RatingSummary(|rs|, Sum(rs), Mean(Sum(rs), |rs|))
  }

  /** `sum / count`: the value that, taken `count` times, gives `sum`. */
  function Mean(sum: int, count: nat): (m: real)
    requires count > 0
    ensures m * (count as real) == sum as real
  {
    var n := count as real;
    assert sum as real / n * n == sum as real;
    sum as real / n
  }

  /** A mean of `n` values, each between `lo` and `hi`, lies between them. */
  lemma MeanBounds(sum: int, count: nat, lo: int, hi: int)
    requires count > 0
    requires lo * count <= sum <= hi * count
    ensures lo as real <= Mean(sum, count) <= hi as real
  {
    var m := count as real;
    var avg := Mean(sum, count);
    assert (avg - lo as real) * m == sum as real - (lo as real) * m >= 0.0;
    assert (hi as real - avg) * m == (hi as real) * m - sum as real >= 0.0;
  }

  /** Every rating of the article between `lo` and `hi` puts its sum between
      `lo` and `hi` times its count. */
  lemma ArticleSumBounds(ratings: seq<Rating>, articleId: string, lo: int, hi: int)
    requires forall i :: 0 <= i < |ratings| && ratings[i].articleId == articleId ==> lo <= ratings[i].rating <= hi
    ensures lo * ArticleRating(ratings, articleId).count <= ArticleRating(ratings, articleId).sum
    ensures ArticleRating(ratings, articleId).sum <= hi * ArticleRating(ratings, articleId).count
  {
    var rs := RatingsFor(ratings, articleId);
    forall i | 0 <= i < |rs|
      ensures lo <= rs[i].rating <= hi
    {
      assert rs[i] in ratings;
    }
    SumBounds(rs, lo, hi);
  }

  /** When every rating of the article lies between `lo` and `hi` (one to five
      stars, say), so does its mean. */
  lemma AverageWithinBounds(ratings: seq<Rating>, articleId: string, lo: int, hi: int)
    requires forall i :: 0 <= i < |ratings| && ratings[i].articleId == articleId ==> lo <= ratings[i].rating <= hi
    requires ArticleRating(ratings, articleId).count > 0
    ensures lo as real <= ArticleRating(ratings, articleId).average <= hi as real
  {
    var s := ArticleRating(ratings, articleId);
    ArticleSumBounds(ratings, articleId, lo, hi);
    MeanBounds(s.sum, s.count, lo, hi);
  }

  predicate RatesArticle(x: Rating, articleId: string, userId: string) {
    x.articleId == articleId && x.userId == userId
  }

  /** The position `getUserRating` finds. */
  function UserRatingIndex(ratings: seq<Rating>, articleId: string, userId: string): (r: Option<nat>)
    ensures r.Some? ==> r.value < |ratings| && RatesArticle(ratings[r.value], articleId, userId)
    ensures r.Some? ==> forall j :: 0 <= j < r.value ==> !RatesArticle(ratings[j], articleId, userId)
    ensures r.None? <==> forall j :: 0 <= j < |ratings| ==> !RatesArticle(ratings[j], articleId, userId)
  {
    FindIndex((x: Rating) => RatesArticle(x, articleId, userId), ratings)
  }

  /** `getUserRating(articleId, userId)`: the first rating by that user of
      that article, if any. */
  function GetUserRating(ratings: seq<Rating>, articleId: string, userId: string): (r: Option<Rating>)
    ensures r.Some? ==> r.value in ratings && RatesArticle(r.value, articleId, userId)
    ensures r.Some? ==>
      exists i :: 0 <= i < |ratings| && ratings[i] == r.value && forall j :: 0 <= j < i ==> !RatesArticle(ratings[j], articleId, userId)
    ensures r.None? <==> forall j :: 0 <= j < |ratings| ==> !RatesArticle(ratings[j], articleId, userId)
  {
    match UserRatingIndex(ratings, articleId, userId)
    case None => None
    case Some(i) => Some(ratings[i])
  }

  /** `ratings.value.findIndex((r) => r.id === id)` */
  function RatingIndex(ratings: seq<Rating>, id: string): (r: Option<nat>)
    ensures r.Some? ==> r.value < |ratings| && ratings[r.value].id == id
    ensures r.Some? ==> forall j :: 0 <= j < r.value ==> ratings[j].id != id
    ensures r.None? <==> forall j :: 0 <= j < |ratings| ==> ratings[j].id != id
  {
    FindIndex((x: Rating) => x.id == id, ratings)
  }

  /** The local list after `addRating` by a signed-in user: the rating with the
      existing rating's id gets the new value, or a new rating is appended. */
  function Upserted(ratings: seq<Rating>, articleId: string, userId: string, rating: int, newId: string)
    : (r: seq<Rating>)
    ensures GetUserRating(ratings, articleId, userId).None? ==>
      r == ratings + [Rating(newId, articleId, userId, rating)]
    ensures GetUserRating(ratings, articleId, userId).Some? ==> |r| == |ratings|
  {
    match GetUserRating(ratings, articleId, userId)
    case None => ratings + [Rating(newId, articleId, userId, rating)]
    case Some(existing) =>
      match RatingIndex(ratings, existing.id)
      case None => ratings
      case Some(i) => ratings[i := ratings[i].(rating := rating)]
  }

  /** No two ratings share an id. */
  predicate UniqueIds(ratings: seq<Rating>) {
    forall i, j :: 0 <= i < j < |ratings| ==> ratings[i].id != ratings[j].id
  }

  /** No user has two ratings of the same article. */
  predicate UniquePairs(ratings: seq<Rating>) {
    forall i, j :: 0 <= i < j < |ratings| ==>
      !RatesArticle(ratings[j], ratings[i].articleId, ratings[i].userId)
  }

  /** With unique ids, the rating the upsert changes is the one
      `getUserRating` found, and only its value changes. */
  lemma UpsertReplacesFound(ratings: seq<Rating>, articleId: string, userId: string, rating: int, newId: string)
    requires UniqueIds(ratings)
    requires UserRatingIndex(ratings, articleId, userId).Some?
    ensures var i := UserRatingIndex(ratings, articleId, userId).value;
      Upserted(ratings, articleId, userId, rating, newId) == ratings[i := ratings[i].(rating := rating)]
  {
    var i := UserRatingIndex(ratings, articleId, userId).value;
    var k := RatingIndex(ratings, ratings[i].id);
    assert k.Some?;
    assert k.value == i;
  }

  /** Reading back after the upsert gives the new value: the appended rating
      when the user had none for the article, otherwise the updated one, which
      keeps its id. */
  lemma GetAfterUpsert(ratings: seq<Rating>, articleId: string, userId: string, rating: int, newId: string)
    requires UniqueIds(ratings)
    ensures var after := GetUserRating(Upserted(ratings, articleId, userId, rating, newId), articleId, userId);
      && after.Some? && after.value.rating == rating
      && RatesArticle(after.value, articleId, userId)
    ensures GetUserRating(ratings, articleId, userId).None? ==>
      GetUserRating(Upserted(ratings, articleId, userId, rating, newId), articleId, userId)
        == Some(Rating(newId, articleId, userId, rating))
    ensures GetUserRating(ratings, articleId, userId).Some? ==>
      GetUserRating(Upserted(ratings, articleId, userId, rating, newId), articleId, userId)
        == Some(GetUserRating(ratings, articleId, userId).value.(rating := rating))
  {
    var r := Upserted(ratings, articleId, userId, rating, newId);
    var found := UserRatingIndex(ratings, articleId, userId);
    if found.None? {
      var x := Rating(newId, articleId, userId, rating);
      assert r[|ratings|] == x;
      assert forall j :: 0 <= j < |ratings| ==> r[j] == ratings[j];
      var k := UserRatingIndex(r, articleId, userId);
      assert k == Some(|ratings|);
    } else {
      var i := found.value;
      UpsertReplacesFound(ratings, articleId, userId, rating, newId);
      var k := UserRatingIndex(r, articleId, userId);
      assert RatesArticle(r[i], articleId, userId);
      assert k.Some? && k.value <= i;
      assert k.value == i;
    }
  }

  /** The upsert keeps at most one rating per user and article. */
  lemma UpsertKeepsUniquePairs(ratings: seq<Rating>, articleId: string, userId: string, rating: int, newId: string)
    ensures UniquePairs(ratings) ==> UniquePairs(Upserted(ratings, articleId, userId, rating, newId))
  {
    var r := Upserted(ratings, articleId, userId, rating, newId);
    if !UniquePairs(ratings) {
    } else if GetUserRating(ratings, articleId, userId).None? {
      forall i, j | 0 <= i < j < |r|
        ensures !RatesArticle(r[j], r[i].articleId, r[i].userId)
      {
        if j == |ratings| {
          assert !RatesArticle(ratings[i], articleId, userId);
        }
      }
    } else {
      assert forall i :: 0 <= i < |r| ==> r[i].articleId == ratings[i].articleId && r[i].userId == ratings[i].userId;
    }
  }

  /** With unique ids and a `newId` no rating has yet, ids stay unique. */
  lemma UpsertKeepsUniqueIds(ratings: seq<Rating>, articleId: string, userId: string, rating: int, newId: string)
    requires UniqueIds(ratings)
    requires forall i :: 0 <= i < |ratings| ==> ratings[i].id != newId
    ensures UniqueIds(Upserted(ratings, articleId, userId, rating, newId))
  {
    var r := Upserted(ratings, articleId, userId, rating, newId);
    if GetUserRating(ratings, articleId, userId).Some? {
      assert forall i :: 0 <= i < |r| ==> r[i].id == ratings[i].id;
    }
  }

  /** With unique ids, a first rating by the user adds one to the article's
      count, a re-rating leaves it as it was, and no other article's summary changes. */
  lemma UpsertCounts(ratings: seq<Rating>, articleId: string, userId: string, rating: int, newId: string, other: string)
    requires UniqueIds(ratings)
    requires other != articleId
    ensures ArticleRating(Upserted(ratings, articleId, userId, rating, newId), articleId).count ==
      ArticleRating(ratings, articleId).count + (if GetUserRating(ratings, articleId, userId).None? then 1 else 0)
    ensures ArticleRating(Upserted(ratings, articleId, userId, rating, newId), other) == ArticleRating(ratings, other)
  {
    var r := Upserted(ratings, articleId, userId, rating, newId);
    var mine := (x: Rating) => x.articleId == articleId;
    var theirs := (x: Rating) => x.articleId == other;
    var added := Rating(newId, articleId, userId, rating);
    var found := UserRatingIndex(ratings, articleId, userId);
    if found.None? {
      FilterAppend(mine, ratings, [added]);
      FilterAppend(theirs, ratings, [added]);
      assert Filter(mine, [added]) == [added];
      assert Filter(theirs, [added]) == [];
      assert Filter(theirs, r) == Filter(theirs, ratings);
    } else {
      var i := found.value;
      UpsertReplacesFound(ratings, articleId, userId, rating, newId);
      FilterUpdate(mine, ratings, i, ratings[i].(rating := rating));
      FilterUpdate(theirs, ratings, i, ratings[i].(rating := rating));
      assert Filter(theirs, r) == Filter(theirs, ratings);
    }
  }

  // ------------------------------------------------------------- articles

  predicate HasId(a: Article, articleId: string) {
    Get(a, "id") == Str(articleId)
  }

  /** The document `addArticle` writes: `published` defaults to `false`, so
      it is always truthy or `false`, and it is truthy exactly when the data's is. */
  function StoredArticle(articleData: Record, now: int): (d: Record)
    ensures Truthy(Get(d, "published")) || Get(d, "published") == Bool(false)
    ensures Truthy(Get(d, "published")) <==> Truthy(Get(articleData, "published"))
  {
    Spread(articleData, map["createdAt" := Time(now), "updatedAt" := Time(now),
                            "published" := Or(Get(articleData, "published"), Bool(false))])
  }

  /** The local object `addArticle` puts first in the list:
      `{ id, ...articleData, createdAt, updatedAt }`. */
  function NewArticle(newId: string, articleData: Record, now: int): (a: Article)
    ensures "id" !in articleData ==> HasId(a, newId)
    ensures forall k :: k in articleData && k != "createdAt" && k != "updatedAt" ==> Get(a, k) == articleData[k]
    ensures Get(a, "createdAt") == Time(now) && Get(a, "updatedAt") == Time(now)
  {
    Spread(Spread(map["id" := Str(newId)], articleData), map["createdAt" := Time(now), "updatedAt" := Time(now)])
  }

  /** The local object is published exactly when the stored document is,
      though only the document has the `false` default. */
  lemma NewArticleAgreesOnPublished(newId: string, articleData: Record, now: int)
    ensures IsPublished(NewArticle(newId, articleData, now)) <==> IsPublished(StoredArticle(articleData, now))
    ensures Truthy(Get(StoredArticle(articleData, now), "published")) || Get(StoredArticle(articleData, now), "published") == Bool(false)
  {
  }

  function ArticleIndex(articles: seq<Article>, articleId: string): (r: Option<nat>)
    ensures r.Some? ==> r.value < |articles| && HasId(articles[r.value], articleId)
    ensures r.Some? ==> forall j :: 0 <= j < r.value ==> !HasId(articles[j], articleId)
    ensures r.None? <==> forall j :: 0 <= j < |articles| ==> !HasId(articles[j], articleId)
  {
    FindIndex((a: Article) => HasId(a, articleId), articles)
  }

  /** `articles.filter((article) => article.id !== articleId)` */
  function WithoutArticle(articles: seq<Article>, articleId: string): (r: seq<Article>)
    ensures forall a :: a in r <==> a in articles && !HasId(a, articleId)
  {
    Filter((a: Article) => !HasId(a, articleId), articles)
  }

  class ResourcesStore {
    var articles: seq<Article>
    var ratings: seq<Rating>

    constructor ()
      ensures articles == [] && ratings == []
    {
      articles := [];
      ratings := [];
    }

    /** `addArticle(articleData)`; `newId` is the id of the added document. */
    method AddArticle(articleData: Record, newId: string, now: int) returns (id: string)
      modifies this
      ensures id == newId
      ensures articles == [NewArticle(newId, articleData, now)] + old(articles)
      ensures ratings == old(ratings)
    {
      articles := [NewArticle(newId, articleData, now)] + articles;
      id := newId;
    }

    /** `updateArticle(articleId, updates)`: merged into the first article
        with that id, stamped with `now`. */
    method UpdateArticle(articleId: string, updates: Record, now: int)
      modifies this
      ensures ArticleIndex(old(articles), articleId).None? ==> articles == old(articles)
      ensures ArticleIndex(old(articles), articleId).Some? ==>
        var i := ArticleIndex(old(articles), articleId).value;
        articles == old(articles)[i := MergeStamped(old(articles)[i], updates, now)]
      ensures ratings == old(ratings)
    {
      var index := ArticleIndex(articles, articleId);
      if index.Some? {
        var i := index.value;
        articles := articles[i := MergeStamped(articles[i], updates, now)];
      }
    }

    /** `deleteArticle(articleId)`: every article with that id is removed;
        its ratings stay. */
    method DeleteArticle(articleId: string)
      modifies this
      ensures articles == WithoutArticle(old(articles), articleId)
      ensures ratings == old(ratings)
    {
      articles := WithoutArticle(articles, articleId);
    }

    /** `addRating(articleId, rating)` by `user`, with `newId` the id of a
        new rating document. */
    method AddRating(user: Option<UserStore.User>, articleId: string, rating: int, newId: string)
      returns (r: Result<(), RatingError>)
      modifies this
      ensures r.Err? <==> user.None?
      ensures r.Err? ==> ratings == old(ratings)
      ensures r.Ok? ==> ratings == Upserted(old(ratings), articleId, user.value.uid, rating, newId)
      ensures UniquePairs(old(ratings)) ==> UniquePairs(ratings)
      ensures articles == old(articles)
    {
      if user.None? {
        return Err(NotLoggedIn);
      }
      var userId := user.value.uid;
      UpsertKeepsUniquePairs(ratings, articleId, userId, rating, newId);
      var existingRating := GetUserRating(ratings, articleId, userId);
      if existingRating.Some? {
        var index := RatingIndex(ratings, existingRating.value.id);
        if index.Some? {
          var i := index.value;
          ratings := ratings[i := ratings[i].(rating := rating)];
        }
      } else {
        ratings := ratings + [Rating(newId, articleId, userId, rating)];
      }
      r := Ok(());
    }
  }
}
