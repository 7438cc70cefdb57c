/** The catalog service: top platforms, name search, lookup and delete by id,
    and the per-user rating upsert/removal that keeps a product's cached
    TotalRating equal to the rounded mean of its ratings. */
module GameService {
  import opened Common
  import opened Data
  import opened RatingMath

  const SearchParamsError := "Invalid parameters: Limit must be greater than zero and Offset cannot be negative."
  const ProductNotFound := "Product not found"
  const GameNotFound := "Game not found"
  const NotAuthenticated := "User is not authenticated or user ID claim is not found"

  // ---------------------------------------------------------------------------
  // Lookups on the tables

  function ProductIndexByName(ps: seq<Product>, name: string): (r: Option<nat>) {
    FirstIndexWhere(ps, (p: Product) => p.name == name)
  }

  function RatingIndex(rs: seq<ProductRating>, pid: int, uid: UserId): (r: Option<nat>) {
    FirstIndexWhere(rs, (r: ProductRating) => r.productId == pid && r.userId == uid)
  }

  /** The rating that user uid holds for product pid, if any. */
  function RatingFor(rs: seq<ProductRating>, pid: int, uid: UserId): (r: Option<int>) {
    match RatingIndex(rs, pid, uid)
    case None => None
    case Some(i) => Some(rs[i].rating)
  }

  function RatingValues(rs: seq<ProductRating>): (r: seq<int>) {
    if rs == [] then [] else [rs[0].rating] + RatingValues(rs[1..])
  }

  /** The ratings of product pid, the input of its average. */
  function RatingsOf(rs: seq<ProductRating>, pid: int): (r: seq<int>) {
    RatingValues(Where(rs, (r: ProductRating) => r.productId == pid))
  }

  // ---------------------------------------------------------------------------
  // GetProductByIdAsync

  function GetProductById(ps: seq<Product>, id: int): (r: Result<Product>)
    ensures r.Ok? <==> exists i :: 0 <= i < |ps| && ps[i].id == id
    ensures r.Ok? ==> r.value in ps && r.value.id == id
    ensures r.Err? ==> r.error == RaiseBare(NotFound)
  {
    match ProductIndexById(ps, id)
    case None => Err(RaiseBare(NotFound))
    case Some(i) => Ok(ps[i])
  }

  // ---------------------------------------------------------------------------
  // SearchGamesAsync

  /** Ordinal substring test, as string.Contains. */
  function ContainsText(s: string, t: string): (r: bool)
    decreases |s|
  {
    |t| <= |s| && (s[..|t|] == t || ContainsText(s[1..], t))
  }

  /** t occurs in s starting at position i. */
  ghost predicate OccursAt(s: string, t: string, i: int) {
    0 <= i <= |s| - |t| && s[i..i + |t|] == t
  }

  /** An occurrence in the tail is an occurrence one place later in the whole. */
  lemma OccursAtShift(s: string, t: string, i: int)
    requires |s| > 0 && i >= 0
    ensures OccursAt(s[1..], t, i) == OccursAt(s, t, i + 1)
  {
    if i <= |s| - 1 - |t| {
      assert s[1..][i..i + |t|] == s[i + 1..i + 1 + |t|];
    }
  }

  /** ContainsText holds exactly when t occurs at some position of s. */
  lemma {:induction false} ContainsTextIffOccurs(s: string, t: string)
    ensures ContainsText(s, t) <==> exists i :: OccursAt(s, t, i)
  {
    if |t| <= |s| && s[..|t|] != t {
      ContainsTextIffOccurs(s[1..], t);
      if ContainsText(s[1..], t) {
        var i :| OccursAt(s[1..], t, i);
        OccursAtShift(s, t, i);
      } else {
        forall i ensures !OccursAt(s, t, i) {
          if i > 0 {
            OccursAtShift(s, t, i - 1);
          }
        }
      }
    } else if |t| <= |s| {
      assert OccursAt(s, t, 0);
    }
  }

  /** Where(p => p.Name.Contains(term)).Select(p => p.Name), in table order. */
  function NamesContaining(ps: seq<Product>, term: string): (r: seq<string>)
    ensures |r| <= |ps|
    ensures forall n :: n in r ==> ContainsText(n, term)
    ensures forall i :: 0 <= i < |ps| && ContainsText(ps[i].name, term) ==> ps[i].name in r
  {
    if ps == [] then []
    else (if ContainsText(ps[0].name, term) then [ps[0].name] else []) + NamesContaining(ps[1..], term)
  }

  /** Skip(skip).Take(take). */
  function SkipTake<T>(xs: seq<T>, skip: nat, take: nat): (r: seq<T>)
    ensures |r| == if skip >= |xs| then 0 else if take < |xs| - skip then take else |xs| - skip
    ensures forall i :: 0 <= i < |r| ==> r[i] == xs[skip + i]
  {
    if skip >= |xs| then [] else if take < |xs| - skip then xs[skip..skip + take] else xs[skip..]
  }

  function SearchGames(ps: seq<Product>, term: string, limit: int, offset: int): (r: Result<seq<string>>)
    ensures r.Err? <==> limit <= 0 || offset < 0
    ensures r.Err? ==> r.error == Raise(BadRequest, SearchParamsError)
    ensures r.Ok? ==> |r.value| <= limit && forall n :: n in r.value ==> ContainsText(n, term)
    ensures r.Ok? ==>
      var matches := NamesContaining(ps, term);
      && |r.value| == (if offset >= |matches| then 0 else if limit < |matches| - offset then limit else |matches| - offset)
      && forall i :: 0 <= i < |r.value| ==> r.value[i] == matches[offset + i]
  {
    if limit <= 0 || offset < 0 then Err(Raise(BadRequest, SearchParamsError))
    else Ok(SkipTake(NamesContaining(ps, term), offset, limit))
  }

  // ---------------------------------------------------------------------------
  // GetTopPlatformsAsync

  datatype PlatformPopularity = PlatformPopularity(platform: Platform, count: nat)

  function CountOn(ps: seq<Product>, pl: Platform): (r: nat) {
    |Where(ps, (p: Product) => p.platform == pl)|
  }

  lemma CountOnPositive(ps: seq<Product>, i: nat)
    requires i < |ps|
    ensures CountOn(ps, ps[i].platform) > 0
  {
    var pl := ps[i].platform;
    assert ps[i] in Where(ps, (p: Product) => p.platform == pl);
  }

  /** The keys GroupBy yields: each platform once, in order of first appearance. */
  function PlatformKeys(ps: seq<Product>): (r: seq<Platform>) {
    if ps == [] then []
    else
      var ks := PlatformKeys(ps[..|ps| - 1]);
      var pl := ps[|ps| - 1].platform;
      if pl in ks then ks else ks + [pl]
  }

  /** A further product never lowers a platform's count. */
  lemma CountOnDropLast(ps: seq<Product>, pl: Platform)
    requires ps != []
    ensures CountOn(ps, pl) >= CountOn(ps[..|ps| - 1], pl)
  {
    assert ps == ps[..|ps| - 1] + [ps[|ps| - 1]];
    WhereAppend(ps[..|ps| - 1], ps[|ps| - 1], (p: Product) => p.platform == pl);
  }

  /** The last product adds its platform to the keys unless it is already there. */
  lemma PlatformKeysStep(ps: seq<Product>)
    requires ps != []
    ensures var ks := PlatformKeys(ps[..|ps| - 1]);
      PlatformKeys(ps) == if ps[|ps| - 1].platform in ks then ks else ks + [ps[|ps| - 1].platform]
  {
  }

  /** Each platform appears once among the keys. */
  lemma {:induction false} PlatformKeysDistinct(ps: seq<Product>)
    ensures forall i, j :: 0 <= i < j < |PlatformKeys(ps)| ==> PlatformKeys(ps)[i] != PlatformKeys(ps)[j]
  {
    if ps != [] {
      var init := ps[..|ps| - 1];
      PlatformKeysDistinct(init);
      PlatformKeysStep(ps);
      var ks, r := PlatformKeys(init), PlatformKeys(ps);
      if r != ks {
        forall i, j | 0 <= i < j < |r| ensures r[i] != r[j] {
          assert r[i] == ks[i];
          if j < |ks| { assert r[j] == ks[j]; }
        }
      }
    }
  }

  /** Every key has products. */
  lemma {:induction false} PlatformKeysCounted(ps: seq<Product>)
    ensures forall i :: 0 <= i < |PlatformKeys(ps)| ==> CountOn(ps, PlatformKeys(ps)[i]) > 0
  {
    if ps != [] {
      var init := ps[..|ps| - 1];
      PlatformKeysCounted(init);
      PlatformKeysStep(ps);
      var ks, r := PlatformKeys(init), PlatformKeys(ps);
      forall i | 0 <= i < |r| ensures CountOn(ps, r[i]) > 0 {
        if i < |ks| {
          assert r[i] == ks[i];
          CountOnDropLast(ps, ks[i]);
        } else {
          CountOnPositive(ps, |ps| - 1);
        }
      }
    }
  }

  /** Every product's platform is a key. */
  lemma {:induction false} PlatformKeysCover(ps: seq<Product>)
    ensures forall i :: 0 <= i < |ps| ==> ps[i].platform in PlatformKeys(ps)
  {
    if ps != [] {
      var init := ps[..|ps| - 1];
      PlatformKeysCover(init);
      PlatformKeysStep(ps);
      var ks, r := PlatformKeys(init), PlatformKeys(ps);
      assert forall k :: k in ks ==> k in r;
      forall i | 0 <= i < |ps| ensures ps[i].platform in r {
        if i < |init| {
          assert ps[i] == init[i];
        }
      }
    }
  }

  /** One (platform, count) entry per group. */
  function Groups(ps: seq<Product>): (gs: seq<PlatformPopularity>)
    ensures forall i, j :: 0 <= i < j < |gs| ==> gs[i].platform != gs[j].platform
    ensures forall i :: 0 <= i < |gs| ==> gs[i].count == CountOn(ps, gs[i].platform) > 0
    ensures forall i :: 0 <= i < |ps| ==> PlatformPopularity(ps[i].platform, CountOn(ps, ps[i].platform)) in gs
  {
    PlatformKeysDistinct(ps);
    PlatformKeysCounted(ps);
    PlatformKeysCover(ps);
    var ks := PlatformKeys(ps);
    var gs := seq(|ks|, i requires 0 <= i < |ks| => PlatformPopularity(ks[i], CountOn(ps, ks[i])));
    assert forall i :: 0 <= i < |ps| ==> PlatformPopularity(ps[i].platform, CountOn(ps, ps[i].platform)) in gs by {
      forall i | 0 <= i < |ps| ensures PlatformPopularity(ps[i].platform, CountOn(ps, ps[i].platform)) in gs {
        var k :| 0 <= k < |ks| && ks[k] == ps[i].platform;
        assert gs[k] == PlatformPopularity(ps[i].platform, CountOn(ps, ps[i].platform));
      }
    }
    gs
  }

  ghost predicate NonIncreasing(s: seq<PlatformPopularity>) {
    forall i, j :: 0 <= i < j < |s| ==> s[i].count >= s[j].count
  }

  ghost predicate DistinctPlatforms(s: seq<PlatformPopularity>) {
    forall i, j :: 0 <= i < j < |s| ==> s[i].platform != s[j].platform
  }

  /** Places x before the first entry whose count does not exceed x's, so equal counts keep their order. */
  function InsertByCount(x: PlatformPopularity, s: seq<PlatformPopularity>): (r: seq<PlatformPopularity>)
    ensures multiset(r) == multiset(s) + multiset{x}
  {
    if s == [] || s[0].count <= x.count then [x] + s
    else
      assert s == [s[0]] + s[1..];
      [s[0]] + InsertByCount(x, s[1..])
  }

  /** Inserting an entry under a bound into a list under that bound keeps the list under it. */
  lemma {:induction false} InsertByCountBounded(x: PlatformPopularity, s: seq<PlatformPopularity>, bound: nat)
    requires x.count <= bound
    requires forall i :: 0 <= i < |s| ==> s[i].count <= bound
    ensures forall i :: 0 <= i < |InsertByCount(x, s)| ==> InsertByCount(x, s)[i].count <= bound
  {
    if !(s == [] || s[0].count <= x.count) {
      InsertByCountBounded(x, s[1..], bound);
    }
  }

  lemma {:induction false} InsertKeepsNonIncreasing(x: PlatformPopularity, s: seq<PlatformPopularity>)
    requires NonIncreasing(s)
    ensures NonIncreasing(InsertByCount(x, s))
  {
    if !(s == [] || s[0].count <= x.count) {
      InsertKeepsNonIncreasing(x, s[1..]);
      InsertByCountBounded(x, s[1..], s[0].count);
      var r, rest := InsertByCount(x, s), InsertByCount(x, s[1..]);
      assert r == [s[0]] + rest;
      forall i, j | 0 <= i < j < |r| ensures r[i].count >= r[j].count {
        assert r[j] == rest[j - 1];
        if i > 0 {
          assert r[i] == rest[i - 1];
        }
      }
    }
  }

  /** Stable sort by descending count (OrderByDescending). */
  function SortByCountDesc(s: seq<PlatformPopularity>): (r: seq<PlatformPopularity>)
    ensures multiset(r) == multiset(s)
  {
    if s == [] then []
    else
      assert s == [s[0]] + s[1..];
      InsertByCount(s[0], SortByCountDesc(s[1..]))
  }

  /** The sort yields counts in non-increasing order, and distinct platforms stay distinct. */
  lemma {:induction false} SortByCountDescIsSorted(s: seq<PlatformPopularity>)
    ensures NonIncreasing(SortByCountDesc(s))
    ensures DistinctPlatforms(s) ==> DistinctPlatforms(SortByCountDesc(s))
  {
    if s != [] {
      SortByCountDescIsSorted(s[1..]);
      var sorted := SortByCountDesc(s[1..]);
      InsertKeepsNonIncreasing(s[0], sorted);
      if DistinctPlatforms(s) {
        assert DistinctPlatforms(s[1..]) by {
          forall i, j | 0 <= i < j < |s[1..]| ensures s[1..][i].platform != s[1..][j].platform {
            assert s[1..][i] == s[i + 1] && s[1..][j] == s[j + 1];
          }
        }
        forall y | y in sorted ensures y.platform != s[0].platform {
          assert y in multiset(s[1..]);
          var j :| 0 <= j < |s[1..]| && s[1..][j] == y;
          assert s[j + 1] == y;
        }
        InsertKeepsDistinctPlatforms(s[0], sorted);
      }
    }
  }

  lemma {:induction false} InsertKeepsDistinctPlatforms(x: PlatformPopularity, s: seq<PlatformPopularity>)
    requires DistinctPlatforms(s)
    requires forall y :: y in s ==> y.platform != x.platform
    ensures DistinctPlatforms(InsertByCount(x, s))
  {
    if !(s == [] || s[0].count <= x.count) {
      assert DistinctPlatforms(s[1..]) by {
        forall i, j | 0 <= i < j < |s[1..]| ensures s[1..][i].platform != s[1..][j].platform {
          assert s[1..][i] == s[i + 1] && s[1..][j] == s[j + 1];
        }
      }
      InsertKeepsDistinctPlatforms(x, s[1..]);
      var rest := InsertByCount(x, s[1..]);
      forall y | y in rest ensures y.platform != s[0].platform {
        assert y in multiset(rest);
        if y != x {
          var j :| 0 <= j < |s[1..]| && s[1..][j] == y;
          assert s[j + 1] == y;
        }
      }
    }
  }

  /** Any reordering of the groups still pairs each platform with its product count. */
  lemma PermutedGroupsCounted(ps: seq<Product>, s: seq<PlatformPopularity>)
    requires multiset(s) == multiset(Groups(ps))
    ensures forall i :: 0 <= i < |s| ==> s[i].count == CountOn(ps, s[i].platform) > 0
  {
    var gs := Groups(ps);
    forall i | 0 <= i < |s| ensures s[i].count == CountOn(ps, s[i].platform) > 0 {
      assert s[i] in multiset(gs);
      var t :| 0 <= t < |gs| && gs[t] == s[i];
    }
  }

  /** Any reordering of the groups still lists every platform in use. */
  lemma PermutedGroupsCover(ps: seq<Product>, s: seq<PlatformPopularity>)
    requires multiset(s) == multiset(Groups(ps))
    ensures forall k :: 0 <= k < |ps| ==> exists t :: 0 <= t < |s| && s[t].platform == ps[k].platform
  {
    forall k | 0 <= k < |ps| ensures exists t :: 0 <= t < |s| && s[t].platform == ps[k].platform {
      var g := PlatformPopularity(ps[k].platform, CountOn(ps, ps[k].platform));
      assert g in Groups(ps);
      assert g in multiset(s);
      var t :| 0 <= t < |s| && s[t] == g;
    }
  }

  /** At most three platforms, the most common ones, each with its product count. */
  function GetTopPlatforms(ps: seq<Product>): (r: seq<PlatformPopularity>)
    ensures |r| <= 3
  {
    var sorted := SortByCountDesc(Groups(ps));
    if |sorted| <= 3 then sorted else sorted[..3]
  }

  /** The result is the first three sorted groups, or all of them when there are fewer. */
  lemma TopPlatformsArePrefix(ps: seq<Product>)
    ensures var sorted, r := SortByCountDesc(Groups(ps)), GetTopPlatforms(ps);
      && |r| == (if |sorted| <= 3 then |sorted| else 3)
      && forall i :: 0 <= i < |r| ==> r[i] == sorted[i]
  {
  }

  /** Each platform listed comes with its product count. */
  lemma TopPlatformsCounted(ps: seq<Product>)
    ensures var r := GetTopPlatforms(ps);
      forall i :: 0 <= i < |r| ==> r[i].count == CountOn(ps, r[i].platform) > 0
  {
    var sorted, r := SortByCountDesc(Groups(ps)), GetTopPlatforms(ps);
    TopPlatformsArePrefix(ps);
    PermutedGroupsCounted(ps, sorted);
    forall i | 0 <= i < |r| ensures r[i].count == CountOn(ps, r[i].platform) > 0 {
      assert r[i] == sorted[i];
    }
  }

  /** The platforms listed are distinct, most common first. */
  lemma TopPlatformsOrdered(ps: seq<Product>)
    ensures var r := GetTopPlatforms(ps);
      && (forall i, j :: 0 <= i < j < |r| ==> r[i].platform != r[j].platform)
      && (forall i, j :: 0 <= i < j < |r| ==> r[i].count >= r[j].count)
  {
    var gs := Groups(ps);
    var sorted, r := SortByCountDesc(gs), GetTopPlatforms(ps);
    assert DistinctPlatforms(gs);
    SortByCountDescIsSorted(gs);
    TopPlatformsArePrefix(ps);
    forall i, j | 0 <= i < j < |r| ensures r[i].platform != r[j].platform && r[i].count >= r[j].count {
      assert r[i] == sorted[i] && r[j] == sorted[j];
    }
  }

  /** A platform in use that is not listed means three are listed, none with fewer products. */
  lemma LeftOutPlatformIsNoMoreCommon(ps: seq<Product>, k: nat)
    requires k < |ps|
    requires forall i :: 0 <= i < |GetTopPlatforms(ps)| ==> GetTopPlatforms(ps)[i].platform != ps[k].platform
    ensures |GetTopPlatforms(ps)| == 3 && CountOn(ps, ps[k].platform) <= GetTopPlatforms(ps)[2].count
  {
    var gs := Groups(ps);
    var sorted, r := SortByCountDesc(gs), GetTopPlatforms(ps);
    TopPlatformsArePrefix(ps);
    PermutedGroupsCover(ps, sorted);
    var t :| 0 <= t < |sorted| && sorted[t].platform == ps[k].platform;
    forall i | 0 <= i < |r| ensures sorted[i].platform != ps[k].platform {
      assert r[i] == sorted[i];
    }
    assert t >= 3;
    PermutedGroupsCounted(ps, sorted);
    assert sorted[t].count == CountOn(ps, ps[k].platform);
    SortByCountDescIsSorted(gs);
    assert r[2] == sorted[2];
  }

  /** The top platforms are real groups with their counts, distinct, most common first, and no
      platform left out has more products than the third one kept. */
  lemma TopPlatformsAreTheMostCommon(ps: seq<Product>)
    ensures var r := GetTopPlatforms(ps);
      && (forall i :: 0 <= i < |r| ==> r[i].count == CountOn(ps, r[i].platform) > 0)
      && (forall i, j :: 0 <= i < j < |r| ==> r[i].platform != r[j].platform)
      && (forall i, j :: 0 <= i < j < |r| ==> r[i].count >= r[j].count)
      && (forall k :: 0 <= k < |ps| && (forall i :: 0 <= i < |r| ==> r[i].platform != ps[k].platform) ==>
            |r| == 3 && CountOn(ps, ps[k].platform) <= r[2].count)
  {
    TopPlatformsCounted(ps);
    TopPlatformsOrdered(ps);
    var r := GetTopPlatforms(ps);
    forall k | 0 <= k < |ps| && (forall i :: 0 <= i < |r| ==> r[i].platform != ps[k].platform)
      ensures |r| == 3 && CountOn(ps, ps[k].platform) <= r[2].count
    {
      LeftOutPlatformIsNoMoreCommon(ps, k);
    }
  }

  // ---------------------------------------------------------------------------
  // Facts about the ratings table used by the mutating operations

  lemma {:induction false} RatingValuesAppend(rs: seq<ProductRating>, x: ProductRating)
    ensures RatingValues(rs + [x]) == RatingValues(rs) + [x.rating]
  {
    if rs == [] {
      assert rs + [x] == [x];
    } else {
      assert (rs + [x])[1..] == rs[1..] + [x];
      RatingValuesAppend(rs[1..], x);
    }
  }

  /** Upserting keeps the (product, user) keys unique. */
  lemma UpsertKeepsKeysUnique(rs: seq<ProductRating>, rs': seq<ProductRating>, pid: int, uid: UserId, v: int)
    requires UniqueRatingKeys(rs)
    requires rs' == match RatingIndex(rs, pid, uid)
      case None => rs + [ProductRating(pid, uid, v)]
      case Some(k) => rs[k := rs[k].(rating := v)]
    ensures UniqueRatingKeys(rs')
  {
    match RatingIndex(rs, pid, uid)
    case None =>
      forall i, j | 0 <= i < j < |rs'| ensures rs'[i].productId != rs'[j].productId || rs'[i].userId != rs'[j].userId {
        assert rs'[i] == rs[i];
        if j == |rs| {
          assert rs'[j] == ProductRating(pid, uid, v);
        } else {
          assert rs'[j] == rs[j];
        }
      }
    case Some(k) =>
      assert forall i :: 0 <= i < |rs| ==> rs'[i].productId == rs[i].productId && rs'[i].userId == rs[i].userId;
  }

  /** Upserting (pid, uid) leaves every other product's ratings, and every other key's rating, as they were. */
  lemma UpsertFrame(rs: seq<ProductRating>, rs': seq<ProductRating>, pid: int, uid: UserId, v: int)
    requires rs' == match RatingIndex(rs, pid, uid)
      case None => rs + [ProductRating(pid, uid, v)]
      case Some(k) => rs[k := rs[k].(rating := v)]
    ensures RatingFor(rs', pid, uid) == Some(v)
    ensures forall p, u :: p != pid || u != uid ==> RatingFor(rs', p, u) == RatingFor(rs, p, u)
    ensures forall p :: p != pid ==> RatingsOf(rs', p) == RatingsOf(rs, p)
  {
    var x := ProductRating(pid, uid, v);
    match RatingIndex(rs, pid, uid)
    case None =>
      FirstIndexWhereAppend(rs, x, (r: ProductRating) => r.productId == pid && r.userId == uid);
      forall p, u | p != pid || u != uid ensures RatingFor(rs', p, u) == RatingFor(rs, p, u) {
        FirstIndexWhereAppend(rs, x, (r: ProductRating) => r.productId == p && r.userId == u);
        if RatingIndex(rs, p, u).Some? {
          assert rs'[RatingIndex(rs, p, u).value] == rs[RatingIndex(rs, p, u).value];
        }
      }
      assert rs' == rs + [x];
      forall p | p != pid ensures RatingsOf(rs', p) == RatingsOf(rs, p) {
        WhereAppend(rs, x, (r: ProductRating) => r.productId == p);
        assert Where(rs', (r: ProductRating) => r.productId == p) == Where(rs, (r: ProductRating) => r.productId == p);
      }
    case Some(k) =>
      var y := rs[k].(rating := v);
      FirstIndexWhereUpdate(rs, k, y, (r: ProductRating) => r.productId == pid && r.userId == uid);
      forall p, u | p != pid || u != uid ensures RatingFor(rs', p, u) == RatingFor(rs, p, u) {
        FirstIndexWhereUpdate(rs, k, y, (r: ProductRating) => r.productId == p && r.userId == u);
      }
      forall p | p != pid ensures RatingsOf(rs', p) == RatingsOf(rs, p) {
        WhereUpdateDropped(rs, k, y, (r: ProductRating) => r.productId == p);
      }
  }

  /** Removing one row keeps the rating keys unique. */
  lemma RemoveKeepsKeysUnique(rs: seq<ProductRating>, k: nat)
    requires UniqueRatingKeys(rs)
    requires k < |rs|
    ensures UniqueRatingKeys(rs[..k] + rs[k + 1..])
  {
    var rs' := rs[..k] + rs[k + 1..];
    forall i, j | 0 <= i < j < |rs'|
      ensures rs'[i].productId != rs'[j].productId || rs'[i].userId != rs'[j].userId
    {
      var i0 := if i < k then i else i + 1;
      var j0 := if j < k then j else j + 1;
      assert rs'[i] == rs[i0] && rs'[j] == rs[j0] && i0 < j0;
    }
  }

  /** With unique keys, once the row of (pid, uid) is removed no row carries that key. */
  lemma RemoveDropsKey(rs: seq<ProductRating>, k: nat, pid: int, uid: UserId)
    requires UniqueRatingKeys(rs)
    requires RatingIndex(rs, pid, uid) == Some(k)
    ensures RatingFor(rs[..k] + rs[k + 1..], pid, uid) == None
  {
    var rs' := rs[..k] + rs[k + 1..];
    forall j | 0 <= j < |rs'| ensures rs'[j].productId != pid || rs'[j].userId != uid {
      if j < k { assert rs'[j] == rs[j]; } else { assert rs'[j] == rs[j + 1]; }
    }
  }

  /** With unique keys, removing the row of (pid, uid) removes that key's rating and nothing else. */
  lemma RemoveFrame(rs: seq<ProductRating>, k: nat, pid: int, uid: UserId)
    requires UniqueRatingKeys(rs)
    requires RatingIndex(rs, pid, uid) == Some(k)
    ensures UniqueRatingKeys(rs[..k] + rs[k + 1..])
    ensures RatingFor(rs[..k] + rs[k + 1..], pid, uid) == None
    ensures forall p, u :: p != pid || u != uid ==> RatingFor(rs[..k] + rs[k + 1..], p, u) == RatingFor(rs, p, u)
    ensures forall p :: p != pid ==> RatingsOf(rs[..k] + rs[k + 1..], p) == RatingsOf(rs, p)
  {
    RemoveKeepsKeysUnique(rs, k);
    RemoveDropsKey(rs, k, pid, uid);
    var rs' := rs[..k] + rs[k + 1..];
    forall p, u | p != pid || u != uid ensures RatingFor(rs', p, u) == RatingFor(rs, p, u) {
      FirstIndexWhereRemove(rs, k, (r: ProductRating) => r.productId == p && r.userId == u);
    }
    forall p | p != pid ensures RatingsOf(rs', p) == RatingsOf(rs, p) {
      WhereRemoveDropped(rs, k, (r: ProductRating) => r.productId == p);
    }
  }

  /** The ratings the cascade keeps (those of other products) still have unique keys. */
  lemma CascadeKeepsKeysUnique(rs: seq<ProductRating>, id: int)
    requires UniqueRatingKeys(rs)
    ensures UniqueRatingKeys(Where(rs, (r: ProductRating) => r.productId != id))
  {
    var differentKeys := (x: ProductRating, y: ProductRating) => x.productId != y.productId || x.userId != y.userId;
    WhereKeepsPairwise(rs, (r: ProductRating) => r.productId != id, differentKeys);
  }

  lemma {:induction false} RatingValuesConcat(a: seq<ProductRating>, b: seq<ProductRating>)
    ensures RatingValues(a + b) == RatingValues(a) + RatingValues(b)
  {
    if a != [] {
      assert (a + b)[1..] == a[1..] + b;
      RatingValuesConcat(a[1..], b);
    } else {
      assert a + b == b;
    }
  }

  lemma {:induction false} WhereConcat<T>(a: seq<T>, b: seq<T>, keep: T -> bool)
    ensures Where(a + b, keep) == Where(a, keep) + Where(b, keep)
  {
    if a != [] {
      assert (a + b)[1..] == a[1..] + b;
      WhereConcat(a[1..], b, keep);
    } else {
      assert a + b == b;
    }
  }

  /** After the cascade a deleted product's pairs are unrated and every other pair keeps its rating. */
  lemma CascadeRatingFor(rs: seq<ProductRating>, id: int, p: int, u: UserId)
    ensures RatingFor(Where(rs, (pr: ProductRating) => pr.productId != id), p, u) ==
      if p == id then None else RatingFor(rs, p, u)
  {
    if p != id {
      FirstIndexWhereThroughWhere(rs, (pr: ProductRating) => pr.productId != id,
        (r: ProductRating) => r.productId == p && r.userId == u);
    }
  }

  /** The ratings of a product are those before row k, row k's, and those after it. */
  lemma RatingsOfAround(rs: seq<ProductRating>, k: nat)
    requires k < |rs|
    ensures var pid := rs[k].productId;
      RatingsOf(rs, pid) == RatingsOf(rs[..k], pid) + [rs[k].rating] + RatingsOf(rs[k + 1..], pid)
  {
    var pid := rs[k].productId;
    assert rs == rs[..k] + [rs[k]] + rs[k + 1..];
    WhereConcat(rs[..k] + [rs[k]], rs[k + 1..], (r: ProductRating) => r.productId == pid);
    WhereAppend(rs[..k], rs[k], (r: ProductRating) => r.productId == pid);
    var before := Where(rs[..k], (r: ProductRating) => r.productId == pid);
    var after := Where(rs[k + 1..], (r: ProductRating) => r.productId == pid);
    RatingValuesConcat(before + [rs[k]], after);
    RatingValuesAppend(before, rs[k]);
  }

  /** Upserting (pid, uid) with v changes the sum of the product's ratings by v less the rating
      it replaces, and adds one rating exactly when the pair had none: the mean is over the old
      ratings with this one added or replaced. */
  lemma UpsertChangesSum(rs: seq<ProductRating>, rs': seq<ProductRating>, pid: int, uid: UserId, v: int)
    requires rs' == match RatingIndex(rs, pid, uid)
      case None => rs + [ProductRating(pid, uid, v)]
      case Some(k) => rs[k := rs[k].(rating := v)]
    ensures |RatingsOf(rs', pid)| == |RatingsOf(rs, pid)| + (if RatingFor(rs, pid, uid).None? then 1 else 0)
    ensures Sum(RatingsOf(rs', pid)) ==
      Sum(RatingsOf(rs, pid)) + v - (match RatingFor(rs, pid, uid) case None => 0 case Some(o) => o)
  {
    match RatingIndex(rs, pid, uid)
    case None =>
      var x := ProductRating(pid, uid, v);
      RatingsOfAround(rs', |rs|);
      assert rs'[..|rs|] == rs && rs'[|rs| + 1..] == [];
      assert RatingsOf([], pid) == [];
      assert RatingsOf(rs', pid) == RatingsOf(rs, pid) + [v];
      SumOfAppend(RatingsOf(rs, pid), [v]);
      assert Sum([v]) == v + Sum([]);
    case Some(k) =>
      RatingsOfAround(rs, k);
      RatingsOfAround(rs', k);
      assert rs'[..k] == rs[..k] && rs'[k + 1..] == rs[k + 1..];
      var a, b := RatingsOf(rs[..k], pid), RatingsOf(rs[k + 1..], pid);
      SumOfAppend(a + [rs[k].rating], b);
      SumOfAppend(a, [rs[k].rating]);
      SumOfAppend(a + [v], b);
      SumOfAppend(a, [v]);
  }

  /** After the cascade a deleted product has no ratings and every other product keeps its own. */
  lemma CascadeRatingsOf(rs: seq<ProductRating>, id: int, p: int)
    ensures RatingsOf(Where(rs, (r: ProductRating) => r.productId != id), p) ==
      if p == id then [] else RatingsOf(rs, p)
  {
    var notId := (r: ProductRating) => r.productId != id;
    var isP := (r: ProductRating) => r.productId == p;
    if p == id {
      WhereOfWhereExcluded(rs, notId, isP);
    } else {
      WhereOfWhereImplied(rs, notId, isP);
    }
  }

  // ---------------------------------------------------------------------------
  // UpdateTotalRating, UpdateRatingAsync, RemoveRatingAsync, DeleteProductAsync

  /** Recomputes the cached TotalRating of the first product named gameName. */
  method UpdateTotalRating(db: AppDbContext, gameName: string)
    requires db.Valid()
    modifies db`products
    ensures db.Valid()
    ensures match ProductIndexByName(old(db.products), gameName)
      case None => db.products == old(db.products)
      case Some(k) =>
        db.products == old(db.products)[k := old(db.products)[k].(totalRating :=
          MeanRounded(RatingsOf(db.productRatings, old(db.products)[k].id)))]
  {
    var found := ProductIndexByName(db.products, gameName);
    if found.Some? {
      var k := found.value;
      var product := db.products[k];
      var total := MeanRounded(RatingsOf(db.productRatings, product.id));
      db.products := db.products[k := product.(totalRating := total)];
      assert forall i :: 0 <= i < |db.products| ==> db.products[i].id == old(db.products)[i].id;
    }
  }

  /** Inserts the (pid, uid) rating row with value v, or overwrites the rating of the first row of
      that pair. */
  method UpsertRating(db: AppDbContext, pid: int, uid: UserId, v: int) returns (rating: ProductRating)
    requires db.Valid()
    modifies db`productRatings
    ensures db.Valid()
    ensures rating == ProductRating(pid, uid, v)
    ensures db.productRatings == match RatingIndex(old(db.productRatings), pid, uid)
      case None => old(db.productRatings) + [rating]
      case Some(k) => old(db.productRatings)[k := old(db.productRatings)[k].(rating := v)]
    ensures RatingFor(db.productRatings, pid, uid) == Some(v)
    ensures |db.productRatings| == |old(db.productRatings)| + (if RatingFor(old(db.productRatings), pid, uid).None? then 1 else 0)
    ensures forall p, u :: p != pid || u != uid ==> RatingFor(db.productRatings, p, u) == RatingFor(old(db.productRatings), p, u)
    ensures forall p :: p != pid ==> RatingsOf(db.productRatings, p) == RatingsOf(old(db.productRatings), p)
    ensures |RatingsOf(db.productRatings, pid)| ==
      |RatingsOf(old(db.productRatings), pid)| + (if RatingFor(old(db.productRatings), pid, uid).None? then 1 else 0)
    ensures Sum(RatingsOf(db.productRatings, pid)) == Sum(RatingsOf(old(db.productRatings), pid)) + v
      - (match RatingFor(old(db.productRatings), pid, uid) case None => 0 case Some(o) => o)
  {
    var rs := db.productRatings;
    var existing := RatingIndex(rs, pid, uid);
    var rs': seq<ProductRating>;
    if existing.None? {
      rating := ProductRating(pid, uid, v);
      rs' := rs + [rating];
    } else {
      rating := rs[existing.value].(rating := v);
      rs' := rs[existing.value := rating];
    }
    UpsertFrame(rs, rs', pid, uid, v);
    UpsertChangesSum(rs, rs', pid, uid, v);
    UpsertKeepsKeysUnique(rs, rs', pid, uid, v);
    db.productRatings := rs';
  }

  /** Inserts or overwrites the current user's rating of the product named gameName, then
      recomputes that product's TotalRating. */
  method UpdateRating(db: AppDbContext, gameName: string, currentUser: Option<UserId>, newRating: int)
    returns (r: Result<ProductRating>)
    requires db.Valid()
    modifies db`products, db`productRatings
    ensures db.Valid()
    ensures ProductIndexByName(old(db.products), gameName).None? ==>
      r == Err(Raise(NotFound, GameNotFound))
      && db.products == old(db.products) && db.productRatings == old(db.productRatings)
    ensures ProductIndexByName(old(db.products), gameName).Some? && currentUser.None? ==>
      r == Err(Raise(BadRequest, NotAuthenticated))
      && db.products == old(db.products) && db.productRatings == old(db.productRatings)
    ensures ProductIndexByName(old(db.products), gameName).Some? && currentUser.Some? ==>
      var k := ProductIndexByName(old(db.products), gameName).value;
      var pid, uid := old(db.products)[k].id, currentUser.value;
      && r == Ok(ProductRating(pid, uid, newRating))
      && RatingFor(db.productRatings, pid, uid) == Some(newRating)
      && |db.productRatings| == |old(db.productRatings)| + (if RatingFor(old(db.productRatings), pid, uid).None? then 1 else 0)
      && (forall p, u :: p != pid || u != uid ==> RatingFor(db.productRatings, p, u) == RatingFor(old(db.productRatings), p, u))
      && (forall p :: p != pid ==> RatingsOf(db.productRatings, p) == RatingsOf(old(db.productRatings), p))
      && |RatingsOf(db.productRatings, pid)| ==
           |RatingsOf(old(db.productRatings), pid)| + (if RatingFor(old(db.productRatings), pid, uid).None? then 1 else 0)
      && Sum(RatingsOf(db.productRatings, pid)) == Sum(RatingsOf(old(db.productRatings), pid)) + newRating
           - (match RatingFor(old(db.productRatings), pid, uid) case None => 0 case Some(o) => o)
      && db.products == old(db.products)[k := old(db.products)[k].(totalRating := MeanRounded(RatingsOf(db.productRatings, pid)))]
  {
    var found := ProductIndexByName(db.products, gameName);
    if found.None? {
      return Err(Raise(NotFound, GameNotFound));
    }
    var product := db.products[found.value];
    if currentUser.None? {
      return Err(Raise(BadRequest, NotAuthenticated));
    }
    var rating := UpsertRating(db, product.id, currentUser.value, newRating);
    UpdateTotalRating(db, gameName);
    r := Ok(rating);
  }

  /** Deletes the user's rating of the product named gameName, if there is one, and
      recomputes that product's TotalRating; false when product or rating is absent. */
  method RemoveRating(db: AppDbContext, gameName: string, uid: UserId) returns (removed: bool)
    requires db.Valid()
    modifies db`products, db`productRatings
    ensures db.Valid()
    ensures removed <==>
      ProductIndexByName(old(db.products), gameName).Some?
      && RatingFor(old(db.productRatings), old(db.products)[ProductIndexByName(old(db.products), gameName).value].id, uid).Some?
    ensures !removed ==> db.products == old(db.products) && db.productRatings == old(db.productRatings)
    ensures removed ==>
      var k := ProductIndexByName(old(db.products), gameName).value;
      var pid := old(db.products)[k].id;
      && RatingFor(db.productRatings, pid, uid) == None
      && |db.productRatings| == |old(db.productRatings)| - 1
      && (forall p, u :: p != pid || u != uid ==> RatingFor(db.productRatings, p, u) == RatingFor(old(db.productRatings), p, u))
      && (forall p :: p != pid ==> RatingsOf(db.productRatings, p) == RatingsOf(old(db.productRatings), p))
      && db.products == old(db.products)[k := old(db.products)[k].(totalRating := MeanRounded(RatingsOf(db.productRatings, pid)))]
  {
    var found := ProductIndexByName(db.products, gameName);
    if found.None? {
      return false;
    }
    var product := db.products[found.value];
    var existing := RatingIndex(db.productRatings, product.id, uid);
    if existing.None? {
      return false;
    }
    var j := existing.value;
    RemoveFrame(db.productRatings, j, product.id, uid);
    db.productRatings := db.productRatings[..j] + db.productRatings[j + 1..];
    UpdateTotalRating(db, gameName);
    removed := true;
  }

  /** Removing the row of a primary key removes exactly the rows with that key. */
  lemma RemoveProductFacts(ps: seq<Product>, k: nat)
    requires k < |ps| && UniqueProductIds(ps)
    ensures var ps' := ps[..k] + ps[k + 1..];
      && |ps'| == |ps| - 1
      && UniqueProductIds(ps')
      && (forall i :: 0 <= i < |ps'| ==> ps'[i].id != ps[k].id && ps'[i] in ps)
      && (forall i :: 0 <= i < |ps| && ps[i].id != ps[k].id ==> ps[i] in ps')
  {
    var ps' := ps[..k] + ps[k + 1..];
    assert forall i :: 0 <= i < k ==> ps'[i] == ps[i];
    assert forall i :: k <= i < |ps'| ==> ps'[i] == ps[i + 1];
    forall i | 0 <= i < |ps| && i != k ensures ps[i] in ps' {
      if i < k { assert ps'[i] == ps[i]; } else { assert ps'[i - 1] == ps[i]; }
    }
    forall i, j | 0 <= i < j < |ps'| ensures ps'[i].id != ps'[j].id {
      var i0, j0 := if i < k then i else i + 1, if j < k then j else j + 1;
      assert ps'[i] == ps[i0] && ps'[j] == ps[j0];
    }
  }

  /** Deletes the product with that id; its ratings go with it (cascade). */
  method DeleteProduct(db: AppDbContext, id: int) returns (r: Result<bool>)
    requires db.Valid()
    modifies db`products, db`productRatings
    ensures db.Valid()
    ensures r.Ok? <==> exists i :: 0 <= i < |old(db.products)| && old(db.products)[i].id == id
    ensures r.Ok? ==> r.value
    ensures r.Err? ==>
      && r.error == Raise(NotFound, ProductNotFound)
      && db.products == old(db.products) && db.productRatings == old(db.productRatings)
    ensures r.Ok? ==>
      && |db.products| == |old(db.products)| - 1
      && (forall i :: 0 <= i < |db.products| ==> db.products[i].id != id && db.products[i] in old(db.products))
      && (forall i :: 0 <= i < |old(db.products)| && old(db.products)[i].id != id ==> old(db.products)[i] in db.products)
      && (forall p :: RatingsOf(db.productRatings, p) == if p == id then [] else RatingsOf(old(db.productRatings), p))
      && (forall p, u :: RatingFor(db.productRatings, p, u) == if p == id then None else RatingFor(old(db.productRatings), p, u))
      && db.productRatings == Where(old(db.productRatings), (pr: ProductRating) => pr.productId != id)
  {
    var found := ProductIndexById(db.products, id);
    if found.None? {
      return Err(Raise(NotFound, ProductNotFound));
    }
    var k := found.value;
    var ps, rs := db.products, db.productRatings;
    RemoveProductFacts(ps, k);
    db.products := ps[..k] + ps[k + 1..];
    db.productRatings := Where(rs, (pr: ProductRating) => pr.productId != id);
    CascadeKeepsKeysUnique(rs, id);
    forall p ensures RatingsOf(db.productRatings, p) == if p == id then [] else RatingsOf(rs, p) {
      CascadeRatingsOf(rs, id, p);
    }
    forall p, u ensures RatingFor(db.productRatings, p, u) == if p == id then None else RatingFor(rs, p, u) {
      CascadeRatingFor(rs, id, p, u);
    }
    r := Ok(true);
  }
}
