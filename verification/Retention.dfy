/** The stored rows and what a cleanup leaves of them, internal/results/store_cleanup.go.
    SQL is abstract: a table is a map from id to row. */
module Retention {
  datatype Row = Row(
    downloadMbps: real,
    uploadMbps: real,
    latencyMs: real,
    jitterMs: real,
    loadedLatencyMs: real,
    bufferbloatGrade: string,
    ipv4: string,
    ipv6: string,
    serverName: string,
    createdAt: int)

  type Table = map<string, Row>

  // ----- the order: created_at, then id -----

  predicate TextLess(a: string, b: string) {
    b != "" && (a == "" || a[0] < b[0] || (a[0] == b[0] && TextLess(a[1..], b[1..])))
  }

  lemma {:induction false} TextLessTotal(a: string, b: string)
    ensures a == b || TextLess(a, b) || TextLess(b, a)
  {
    if a != "" && b != "" {
      TextLessTotal(a[1..], b[1..]);
      assert a == [a[0]] + a[1..] && b == [b[0]] + b[1..];
    }
  }

  lemma {:induction false} TextLessTransitive(a: string, b: string, c: string)
    requires TextLess(a, b) && TextLess(b, c)
    ensures TextLess(a, c)
  {
    if a != "" && a[0] == b[0] == c[0] { TextLessTransitive(a[1..], b[1..], c[1..]); }
  }

  lemma {:induction false} TextLessIrreflexive(a: string)
    ensures !TextLess(a, a)
  {
    if a != "" { TextLessIrreflexive(a[1..]); }
  }

  /** `a` comes before `b` in ORDER BY created_at DESC, id DESC. */
  predicate Outranks(t: Table, a: string, b: string)
    requires a in t && b in t
  {
    t[a].createdAt > t[b].createdAt || (t[a].createdAt == t[b].createdAt && TextLess(b, a))
  }

  lemma OutranksIsStrictOrder(t: Table, a: string, b: string, c: string)
    requires a in t && b in t && c in t
    ensures !Outranks(t, a, a)
    ensures a == b || Outranks(t, a, b) || Outranks(t, b, a)
    ensures Outranks(t, a, b) && Outranks(t, b, c) ==> Outranks(t, a, c)
  {
    TextLessIrreflexive(a);
    TextLessTotal(a, b);
    if TextLess(c, b) && TextLess(b, a) { TextLessTransitive(c, b, a); }
  }

  predicate IsTop(t: Table, ids: set<string>, top: string)
    requires ids <= t.Keys
  {
    top in ids && forall id | id in ids && id != top :: Outranks(t, top, id)
  }

  /** Some row of a non-empty set of rows outranks all the others. */
  lemma {:induction false} TopExists(t: Table, ids: set<string>) returns (top: string)
    requires ids != {} && ids <= t.Keys
    ensures IsTop(t, ids, top)
    decreases |ids|
  {
    var first :| first in ids;
    if ids == {first} {
      top := first;
    } else {
      assert ids - {first} != {};
      var other := TopExists(t, ids - {first});
      OutranksIsStrictOrder(t, first, other, other);
      top := if Outranks(t, first, other) then first else other;
      forall id | id in ids && id != top
        ensures Outranks(t, top, id)
      {
        if id != other && id != first { OutranksIsStrictOrder(t, first, other, id); }
      }
    }
  }

  lemma OneTop(t: Table, ids: set<string>)
    requires ids != {} && ids <= t.Keys
    ensures exists top :: IsTop(t, ids, top)
    ensures forall a, b | IsTop(t, ids, a) && IsTop(t, ids, b) :: a == b
  {
    var top := TopExists(t, ids);
    forall a, b | IsTop(t, ids, a) && IsTop(t, ids, b)
      ensures a == b
    {
      OutranksIsStrictOrder(t, a, b, a);
    }
  }

  // ----- the two deletions -----

  function Expire(t: Table, cutoff: int): Table {
    map id | id in t && t[id].createdAt >= cutoff :: t[id]
  }

  /** The ids of `ids` as the subquery lists them. */
  function Listed(t: Table, ids: set<string>): seq<string>
    requires ids <= t.Keys
    decreases |ids|
  {
    if ids == {} then []
    else
      OneTop(t, ids);
      var top :| IsTop(t, ids, top);
      [top] + Listed(t, ids - {top})
  }

  ghost predicate Ranking(t: Table, list: seq<string>) {
    && (forall id | id in list :: id in t)
    && (forall i, j | 0 <= i < j < |list| :: Outranks(t, list[i], list[j]))
  }

  lemma {:induction false} ListedIsRanking(t: Table, ids: set<string>)
    requires ids <= t.Keys
    ensures var list := Listed(t, ids);
            && |list| == |ids|
            && (forall id :: id in list <==> id in ids)
            && Ranking(t, list)
    decreases |ids|
  {
    if ids != {} {
      var list := Listed(t, ids);
      ListedIsRanking(t, ids - {list[0]});
      assert list[1..] == Listed(t, ids - {list[0]});
      forall i, j | 0 <= i < j < |list|
        ensures Outranks(t, list[i], list[j])
      {
        assert list[j] == list[1..][j - 1] && list[j] in list[1..];
        if i > 0 { assert list[i] == list[1..][i - 1]; }
      }
      forall id
        ensures id in list <==> id in ids
      {
        assert id in list <==> id == list[0] || id in list[1..];
      }
    }
  }

  function Elems(list: seq<string>): set<string> { set id | id in list }

  /** DELETE ... WHERE id IN (SELECT id ... ORDER BY created_at DESC, id DESC LIMIT -1 OFFSET max). */
  function Trim(t: Table, max: nat): Table {
    var list := Listed(t, t.Keys);
    if |list| <= max then t else t - Elems(list[max..])
  }

  /** One successful cleanup; a maximum that is not positive turns trimming off. */
  function Cleaned(t: Table, cutoff: int, maxResults: int): Table {
    if maxResults > 0 then Trim(Expire(t, cutoff), maxResults) else Expire(t, cutoff)
  }

  ghost predicate Distinct(list: seq<string>) {
    forall i, j | 0 <= i < j < |list| :: list[i] != list[j]
  }

  lemma RankedIsDistinct(t: Table, list: seq<string>)
    requires Ranking(t, list)
    ensures Distinct(list)
  {
    forall i, j | 0 <= i < j < |list|
      ensures list[i] != list[j]
    {
      assert list[i] in list && list[j] in list;
      assert Outranks(t, list[i], list[j]);
      OutranksIsStrictOrder(t, list[i], list[i], list[i]);
    }
  }

  lemma {:induction false} DistinctSize(list: seq<string>)
    requires Distinct(list)
    ensures |Elems(list)| == |list|
  {
    if list != [] {
      var init, last := list[..|list| - 1], list[|list| - 1];
      DistinctSize(init);
      assert list == init + [last];
      assert Elems(list) == Elems(init) + {last};
      assert last !in init;
    }
  }

  lemma SplitAt(list: seq<string>, n: nat)
    requires Distinct(list) && n <= |list|
    ensures Elems(list[..n]) + Elems(list[n..]) == Elems(list) && Elems(list[..n]) !! Elems(list[n..])
    ensures Distinct(list[..n])
  {
    assert list == list[..n] + list[n..];
    forall id | id in list[..n]
      ensures id !in list[n..]
    {
      var i :| 0 <= i < n && list[i] == id;
      assert forall j | 0 <= j < |list| - n :: list[n..][j] == list[n + j] && list[n + j] != id;
    }
  }

  lemma TrimKeepsTheFront(t: Table, max: nat)
    requires |t| > max
    ensures var list := Listed(t, t.Keys);
            && Ranking(t, list) && max <= |list|
            && Trim(t, max).Keys == Elems(list[..max]) && t.Keys == Elems(list[..max]) + Elems(list[max..])
            && |Trim(t, max)| == max
  {
    hide Outranks;
    ListedIsRanking(t, t.Keys);
    var list := Listed(t, t.Keys);
    RankedIsDistinct(t, list);
    SplitAt(list, max);
    DistinctSize(list[..max]);
    assert Elems(list) == t.Keys;
    assert Trim(t, max).Keys == Elems(list[..max]);
    assert |Trim(t, max)| == |Trim(t, max).Keys|;
  }

  /** What trimming keeps: exactly min(max, |t|) rows, unchanged, each of which
      outranks every row that went. */
  lemma TrimKeepsTheBest(t: Table, max: nat)
    ensures var r := Trim(t, max);
            && r.Keys <= t.Keys && (forall id | id in r :: r[id] == t[id])
            && |r| == (if |t| <= max then |t| else max)
            && (forall kept, gone | kept in r && gone in t && gone !in r :: Outranks(t, kept, gone))
  {
    hide Outranks, Ranking;
    ListedIsRanking(t, t.Keys);
    if |t| > max {
      TrimKeepsTheFront(t, max);
      var list := Listed(t, t.Keys);
      forall kept, gone | kept in Trim(t, max) && gone in t && gone !in Trim(t, max)
        ensures Outranks(t, kept, gone)
      {
        FrontOutranksBack(t, list, max, kept, gone);
      }
    }
  }

  lemma FrontOutranksBack(t: Table, list: seq<string>, n: nat, kept: string, gone: string)
    requires Ranking(t, list) && n <= |list| && kept in list[..n] && gone in list[n..]
    ensures kept in t && gone in t && Outranks(t, kept, gone)
  {
    var i :| 0 <= i < n && list[..n][i] == kept;
    var j :| 0 <= j < |list| - n && list[n..][j] == gone;
    assert list[i] in list && list[n + j] in list;
    assert Outranks(t, list[i], list[n + j]);
  }

  /** Retention: after a successful cleanup the table holds rows of before, none older
      than the cutoff, as many as there are up to the maximum, and every one outranks
      every recent row that was trimmed. */
  lemma CleanupKeepsTheNewest(t: Table, cutoff: int, maxResults: int)
    ensures var r, recent := Cleaned(t, cutoff, maxResults), set id | id in t && t[id].createdAt >= cutoff;
            && (forall id | id in r :: id in t && r[id] == t[id] && r[id].createdAt >= cutoff)
            && |r| == (if maxResults > 0 && |recent| > maxResults then maxResults else |recent|)
            && (forall kept, gone | kept in r && gone in t && gone !in r ::
                  t[gone].createdAt < cutoff || Outranks(t, kept, gone))
  {
    var recent := Expire(t, cutoff);
    assert recent.Keys == set id | id in t && t[id].createdAt >= cutoff;
    assert |recent| == |recent.Keys|;
    if maxResults > 0 {
      TrimKeepsTheBest(recent, maxResults);
      forall kept, gone | kept in recent && gone in recent
        ensures Outranks(recent, kept, gone) == Outranks(t, kept, gone)
      {
      }
    }
  }

  /** No other table meets that description: what is kept is determined. */
  lemma CleanupIsDetermined(t: Table, cutoff: int, maxResults: int, other: Table)
    requires forall id | id in other :: id in t && other[id] == t[id] && other[id].createdAt >= cutoff
    requires var recent := set id | id in t && t[id].createdAt >= cutoff;
             |other| == if maxResults > 0 && |recent| > maxResults then maxResults else |recent|
    requires forall kept, gone | kept in other && gone in t && gone !in other ::
               t[gone].createdAt < cutoff || Outranks(t, kept, gone)
    ensures other == Cleaned(t, cutoff, maxResults)
  {
    var r := Cleaned(t, cutoff, maxResults);
    CleanupKeepsTheNewest(t, cutoff, maxResults);
    SameSize(r, other);
    if r.Keys != other.Keys {
      var a :| a in r.Keys - other.Keys;
      var b :| b in other.Keys - r.Keys;
      OutranksIsStrictOrder(t, a, b, a);
      assert false;
    }
  }

  lemma SameSize(r: Table, other: Table)
    requires |r| == |other|
    ensures r.Keys != other.Keys ==> r.Keys - other.Keys != {} && other.Keys - r.Keys != {}
  {
    assert |r.Keys| == |r| && |other.Keys| == |other|;
    if r.Keys - other.Keys == {} {
      assert other.Keys == r.Keys + (other.Keys - r.Keys);
    }
    if other.Keys - r.Keys == {} {
      assert r.Keys == other.Keys + (r.Keys - other.Keys);
    }
  }

  /** A second cleanup with the same cutoff changes nothing. */
  lemma CleanupIsIdempotent(t: Table, cutoff: int, maxResults: int)
    ensures Cleaned(Cleaned(t, cutoff, maxResults), cutoff, maxResults) == Cleaned(t, cutoff, maxResults)
  {
    var r := Cleaned(t, cutoff, maxResults);
    CleanupKeepsTheNewest(t, cutoff, maxResults);
    assert Expire(r, cutoff) == r;
    CleanupIsDetermined(r, cutoff, maxResults, r);
  }
}
