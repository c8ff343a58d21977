/** Seeding of the user–article links: random (user, article) pairs are drawn until `count`
    distinct pairs are collected or `3 * count` draws have been made. The random draws are an
    input: pick k names the user and the article of the k-th draw by their positions. */
module SeedUserArticle {
  import Text
  import Seqs

  /** One row of the link table. Ids are the stores' non-negative generated keys. */
  datatype UserArticle = UserArticle(userId: nat, articleId: nat)

  /** The key of a pair in the set of pairs already taken: `${UserId}-${ArticleId}`. */
  function PairKey(l: UserArticle): string {
    Text.NatToString(l.userId) + "-" + Text.NatToString(l.articleId)
  }

  /** The position of the first '-' in `w`, or |w| when there is none. */
  function DashAt(w: string): (i: nat)
    ensures i <= |w|
    decreases |w|
  {
    if w == [] || w[0] == '-' then 0 else 1 + DashAt(w[1..])
  }

  lemma {:induction false} DashAfterDigits(s: string, t: string)
    requires Text.IsDigits(s)
    ensures DashAt(s + "-" + t) == |s|
    decreases |s|
  {
    if s == [] {
      assert s + "-" + t == ['-'] + t;
    } else {
      DashAfterDigits(s[1..], t);
      assert (s + "-" + t)[1..] == s[1..] + "-" + t;
    }
  }

  lemma DigitsSplitAtDash(s1: string, t1: string, s2: string, t2: string)
    requires Text.IsDigits(s1) && Text.IsDigits(s2)
    requires s1 + "-" + t1 == s2 + "-" + t2
    ensures s1 == s2 && t1 == t2
  {
    var w := s1 + "-" + t1;
    DashAfterDigits(s1, t1);
    DashAfterDigits(s2, t2);
    assert s1 == w[..|s1|] == s2;
    assert t1 == w[|s1| + 1..] == t2;
  }

  /** Different pairs have different keys, so the set of keys tells the pairs apart. */
  lemma PairKeyInjective(l: UserArticle, m: UserArticle)
    ensures PairKey(l) == PairKey(m) <==> l == m
  {
    if PairKey(l) == PairKey(m) {
      DigitsSplitAtDash(Text.NatToString(l.userId), Text.NatToString(l.articleId),
                        Text.NatToString(m.userId), Text.NatToString(m.articleId));
      Text.NatToStringInjective(l.userId, m.userId);
      Text.NatToStringInjective(l.articleId, m.articleId);
    }
  }

  function KeysOf(links: seq<UserArticle>): set<string> {
    set l | l in links :: PairKey(l)
  }

  /** A valid draw names a loaded user and a loaded article. */
  predicate ValidPicks(picks: seq<(nat, nat)>, users: seq<nat>, articles: seq<nat>) {
    forall k :: 0 <= k < |picks| ==> picks[k].0 < |users| && picks[k].1 < |articles|
  }

  /** The pairs drawn. */
  function Draws(users: seq<nat>, articles: seq<nat>, picks: seq<(nat, nat)>): (ds: seq<UserArticle>)
    requires ValidPicks(picks, users, articles)
    ensures |ds| == |picks|
    ensures forall k :: 0 <= k < |ds| ==> ds[k].userId in users && ds[k].articleId in articles
  {
    seq(|picks|, k requires 0 <= k < |picks| => UserArticle(users[picks[k].0], articles[picks[k].1]))
  }

  /** The links a run generates: the first `count` distinct pairs among the first
      `3 * count` draws. */
  function Generated(users: seq<nat>, articles: seq<nat>, count: nat, picks: seq<(nat, nat)>): seq<UserArticle>
    requires ValidPicks(picks, users, articles) && |picks| >= 3 * count
  {
    Seqs.Take(Seqs.Distinct(Draws(users, articles, picks[..3 * count])), count)
  }

  /** What `Generated` promises: distinct pairs, at most `count`, exactly `count` when the
      draws hold that many distinct pairs, and every id a loaded one. */
  lemma GeneratedProperties(users: seq<nat>, articles: seq<nat>, count: nat, picks: seq<(nat, nat)>)
    requires ValidPicks(picks, users, articles) && |picks| >= 3 * count
    ensures Seqs.NoDuplicates(Generated(users, articles, count, picks))
    ensures |Generated(users, articles, count, picks)| <= count
    ensures var d := Seqs.Distinct(Draws(users, articles, picks[..3 * count]));
      |d| >= count ==> |Generated(users, articles, count, picks)| == count
    ensures forall l :: l in Generated(users, articles, count, picks) ==> l.userId in users && l.articleId in articles
  {
    var ds := Draws(users, articles, picks[..3 * count]);
    var d := Seqs.Distinct(ds);
    Seqs.DistinctProperties(ds);
    var g := Generated(users, articles, count, picks);
    forall l | l in g ensures l.userId in users && l.articleId in articles {
      var k :| 0 <= k < |g| && g[k] == l;
      assert l in d;
      assert l in ds;
    }
  }

  /** `seedUserArticles(count)`. Existing rows are returned as they are; with no users or no
      articles nothing is generated; otherwise draws are made while fewer than `count` links
      exist and fewer than `3 * count` draws were made, and a pair is kept the first time its
      key is seen. */
  method SeedUserArticles(existing: seq<UserArticle>, users: seq<nat>, articles: seq<nat>,
                          count: nat, picks: seq<(nat, nat)>)
    returns (links: seq<UserArticle>, attempts: nat)
    requires existing == [] && users != [] && articles != [] ==>
               ValidPicks(picks, users, articles) && |picks| >= 3 * count
    ensures existing != [] ==> links == existing && attempts == 0
    ensures existing == [] && (users == [] || articles == []) ==> links == [] && attempts == 0
    ensures existing == [] && users != [] && articles != [] ==>
              links == Generated(users, articles, count, picks)
    ensures existing == [] && users != [] && articles != [] ==>
              attempts <= 3 * count && (|links| == count || attempts == 3 * count)
  {
    attempts := 0;
    if existing != [] {
      return existing, 0;
    }
    if users == [] || articles == [] {
      return [], 0;
    }
    links, attempts := Generate(users, articles, count, picks);
  }

  lemma KeysOfAppend(links: seq<UserArticle>, l: UserArticle)
    ensures KeysOf(links + [l]) == KeysOf(links) + {PairKey(l)}
  {
    assert forall m :: m in links + [l] <==> m in links || m == l;
  }

  /** One draw of the loop: the candidate joins the links exactly when its key is new. */
  lemma DrawStep(draws: seq<UserArticle>, i: nat)
    requires i < |draws|
    ensures var before := Seqs.Distinct(draws[..i]);
      Seqs.Distinct(draws[..i + 1]) == if draws[i] in before then before else before + [draws[i]]
  {
    assert draws[..i + 1][..i] == draws[..i];
  }

  /** The loop of `seedUserArticles`. */
  method Generate(users: seq<nat>, articles: seq<nat>, count: nat, picks: seq<(nat, nat)>)
    returns (links: seq<UserArticle>, attempts: nat)
    requires ValidPicks(picks, users, articles) && |picks| >= 3 * count
    ensures links == Generated(users, articles, count, picks)
    ensures attempts <= 3 * count && (|links| == count || attempts == 3 * count)
  {
    assert picks[..3 * count][..] == picks[..3 * count];
    ghost var draws := Draws(users, articles, picks[..3 * count]);
    links := [];
    attempts := 0;
    var existingPairs: set<string> := {};
    var maxAttempts := count * 3;
    while |links| < count && attempts < maxAttempts
      invariant attempts <= maxAttempts
      invariant |links| <= count
      invariant links == Seqs.Distinct(draws[..attempts])
      invariant existingPairs == KeysOf(links)
      decreases maxAttempts - attempts
    {
      var candidate := UserArticle(users[picks[attempts].0], articles[picks[attempts].1]);
      assert candidate == draws[attempts];
      DrawStep(draws, attempts);
      var pairKey := PairKey(candidate);
      if pairKey !in existingPairs {
        KeysOfAppend(links, candidate);
        links := links + [candidate];
        existingPairs := existingPairs + {pairKey};
      } else {
        var l :| l in links && PairKey(l) == pairKey;
        PairKeyInjective(l, candidate);
      }
      attempts := attempts + 1;
    }
    StoppedLoop(draws, attempts, count);
  }

  /** Where the loop stops, its links are the first `count` distinct draws. */
  lemma StoppedLoop(draws: seq<UserArticle>, attempts: nat, count: nat)
    requires attempts <= |draws|
    requires |Seqs.Distinct(draws[..attempts])| >= count || attempts == |draws|
    requires |Seqs.Distinct(draws[..attempts])| <= count
    ensures Seqs.Take(Seqs.Distinct(draws), count) == Seqs.Distinct(draws[..attempts])
  {
    Seqs.DistinctPrefix(draws, attempts);
    if attempts == |draws| {
      assert draws[..attempts] == draws;
    }
  }
}
