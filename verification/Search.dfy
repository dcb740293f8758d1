/** Event search: ids ranked by an untrusted index, rows fetched as a set and re-ranked
    (backend/app/services/search_service.py, search_events). */
module Search {
  import opened Sorting
  import opened Wrappers

  datatype Event = Event(id: nat, deleted: bool, published: bool, isPublic: bool, categoryId: Option<nat>, format: string)

  type Table = map<nat, Event>

  datatype Filters = Filters(categoryId: Option<nat>, format: Option<string>)

  predicate Shown(e: Event, f: Filters) {
    && !e.deleted && e.published && e.isPublic
    && (f.categoryId.Some? ==> e.categoryId == f.categoryId)
    && (f.format.Some? ==> e.format == f.format.value)
  }

  ghost predicate TableOk(table: Table) {
    forall id :: id in table ==> table[id].id == id
  }

  predicate Hits(table: Table, f: Filters, id: nat) {
    id in table && Shown(table[id], f)
  }

  /** The specification: walk the ranking from position i and keep what may be shown; an id that the
      index repeats counts at its last position. */
  function Ranked(table: Table, f: Filters, ids: seq<nat>, i: nat): seq<Event>
    requires i <= |ids|
    decreases |ids| - i
  {
    if i == |ids| then [] else
    (if Hits(table, f, ids[i]) && ids[i] !in ids[i + 1..] then [table[ids[i]]] else []) + Ranked(table, f, ids, i + 1)
  }

  /** For a ranking without repetitions: simply the ids that may be shown, in rank order. */
  function InOrder(table: Table, f: Filters, ids: seq<nat>, i: nat): seq<Event>
    requires i <= |ids|
    decreases |ids| - i
  {
    if i == |ids| then [] else
    (if Hits(table, f, ids[i]) then [table[ids[i]]] else []) + InOrder(table, f, ids, i + 1)
  }

  lemma {:induction false} DistinctIdsAreFilteredInOrder(table: Table, f: Filters, ids: seq<nat>, i: nat)
    requires i <= |ids| && forall a, b :: 0 <= a < b < |ids| ==> ids[a] != ids[b]
    ensures Ranked(table, f, ids, i) == InOrder(table, f, ids, i)
    decreases |ids| - i
  {
    if i < |ids| {
      DistinctIdsAreFilteredInOrder(table, f, ids, i + 1);
    }
  }

  /** What a search result must be: an event named by the ranking that is live, published, public and of
      the category and format asked for. */
  predicate MayAppear(table: Table, f: Filters, ids: seq<nat>, e: Event) {
    && e.id in ids && e.id in table && table[e.id] == e
    && !e.deleted && e.published && e.isPublic
    && (f.categoryId == None || e.categoryId == f.categoryId)
    && (f.format == None || e.format == f.format.value)
  }

  /** The results are exactly the events that may appear, and each once. */
  lemma ResultsAreExact(table: Table, f: Filters, ids: seq<nat>)
    requires TableOk(table)
    ensures forall e :: e in Ranked(table, f, ids, 0) <==> MayAppear(table, f, ids, e)
    ensures var r := Ranked(table, f, ids, 0); forall i, j :: 0 <= i < j < |r| ==> r[i] != r[j]
  {
    var rank := BuiltRank(ids);
    RankedIsStrictlySorted(table, f, ids, rank, 0);
    forall e ensures e in Ranked(table, f, ids, 0) <==> MayAppear(table, f, ids, e) {
      assert e.id in rank ==> ids[rank[e.id]] == e.id;
    }
  }

  lemma {:induction false} BuiltRank(ids: seq<nat>) returns (rank: map<nat, int>)
    ensures IsRank(ids, rank)
    decreases |ids|
  {
    rank := map[];
    if ids != [] {
      var n := |ids| - 1;
      var less := BuiltRank(ids[..n]);
      rank := less[ids[n] := n];
    }
  }

  /** `rank` maps every id to its last position. */
  predicate IsRank(ids: seq<nat>, rank: map<nat, int>) {
    && (forall i :: 0 <= i < |ids| ==> ids[i] in rank && i <= rank[ids[i]])
    && (forall id :: id in rank ==> 0 <= rank[id] < |ids| && ids[rank[id]] == id)
  }

  function RankOf(ids: seq<nat>, rank: map<nat, int>): Event -> int {
    (e: Event) => if e.id in rank then rank[e.id] else |ids|
  }

  method BuildRank(ids: seq<nat>) returns (rank: map<nat, int>)
    ensures IsRank(ids, rank)
  {
    rank := map[];
    for i := 0 to |ids|
      invariant forall j :: 0 <= j < i ==> ids[j] in rank && j <= rank[ids[j]]
      invariant forall id :: id in rank ==> 0 <= rank[id] < i && ids[rank[id]] == id
    {
      rank := rank[ids[i] := i];
    }
  }

  /** The database query: the matching rows, each once, in no particular order. */
  method Fetch(table: Table, ids: seq<nat>, f: Filters) returns (rows: seq<Event>)
    requires TableOk(table)
    ensures forall e :: e in rows <==> e.id in ids && Hits(table, f, e.id) && e == table[e.id]
    ensures forall i, j :: 0 <= i < j < |rows| ==> rows[i].id != rows[j].id
  {
    rows := [];
    var wanted := set id | id in ids && Hits(table, f, id);
    var left := wanted;
    while left != {}
      invariant left <= wanted
      invariant forall e :: e in rows <==> e.id in wanted - left && e == table[e.id]
      invariant forall i, j :: 0 <= i < j < |rows| ==> rows[i].id != rows[j].id
      decreases left
    {
      var id :| id in left;
      assert forall i :: 0 <= i < |rows| ==> rows[i] in rows;
      rows := rows + [table[id]];
      left := left - {id};
    }
  }

  /** Fetching a set and sorting it by rank is the same as filtering the ranking in order,
      whatever the index contains and in whatever order the rows arrive. */
  method SearchEvents(count: nat, ids: seq<nat>, table: Table, f: Filters) returns (r: seq<Event>)
    requires TableOk(table)
    ensures r == if count == 0 then [] else Ranked(table, f, ids, 0)
  {
    if count == 0 || ids == [] {
      return [];
    }
    var rows := Fetch(table, ids, f);
    var rank := BuildRank(ids);
    r := Sort(rows, RankOf(ids, rank));
    SortedFetchIsRanked(table, f, ids, rank, rows);
  }

  predicate StrictlySorted(s: seq<Event>, key: Event -> int) {
    forall i, j :: 0 <= i < j < |s| ==> key(s[i]) < key(s[j])
  }

  lemma {:induction false} StrictlySortedIsUnique(s: seq<Event>, t: seq<Event>, key: Event -> int)
    requires StrictlySorted(s, key) && StrictlySorted(t, key) && forall e :: e in s <==> e in t
    ensures s == t
    decreases |s|
  {
    assert 0 < |s| ==> s[0] in t;
    assert 0 < |t| ==> t[0] in s;
    if s != [] {
      assert s[0] == t[0];
      forall e ensures e in s[1..] <==> e in t[1..] {
        if e in s[1..] { assert e in s && e != s[0]; }
        if e in t[1..] { assert e in t && e != t[0]; }
      }
      StrictlySortedIsUnique(s[1..], t[1..], key);
    }
  }

  lemma {:induction false} RankedIsStrictlySorted(table: Table, f: Filters, ids: seq<nat>, rank: map<nat, int>, i: nat)
    requires i <= |ids| && TableOk(table) && IsRank(ids, rank)
    ensures StrictlySorted(Ranked(table, f, ids, i), RankOf(ids, rank))
    ensures forall e :: e in Ranked(table, f, ids, i)
              <==> e.id in rank && i <= rank[e.id] && Hits(table, f, e.id) && e == table[e.id]
    decreases |ids| - i
  {
    if i < |ids| {
      RankedIsStrictlySorted(table, f, ids, rank, i + 1);
      assert ids[i] !in ids[i + 1..] <==> rank[ids[i]] == i by {
        if ids[i] in ids[i + 1..] {
          var j :| i + 1 <= j < |ids| && ids[j] == ids[i];
        }
      }
      var rest := Ranked(table, f, ids, i + 1);
      assert forall k :: 0 <= k < |rest| ==> rest[k] in rest;
    }
  }

  lemma SortedFetchIsRanked(table: Table, f: Filters, ids: seq<nat>, rank: map<nat, int>, rows: seq<Event>)
    requires TableOk(table) && IsRank(ids, rank)
    requires forall e :: e in rows <==> e.id in ids && Hits(table, f, e.id) && e == table[e.id]
    requires forall i, j :: 0 <= i < j < |rows| ==> rows[i].id != rows[j].id
    ensures Sort(rows, RankOf(ids, rank)) == Ranked(table, f, ids, 0)
  {
    var key := RankOf(ids, rank);
    var s := Sort(rows, key);
    SortSorts(rows, key);
    RankedIsStrictlySorted(table, f, ids, rank, 0);
    forall e ensures e in s <==> e in Ranked(table, f, ids, 0) {
      assert e in s <==> e in multiset(s);
      assert e in rows <==> e in multiset(rows);
    }
    DistinctRowsSortStrictly(ids, rank, rows, s);
    StrictlySortedIsUnique(s, Ranked(table, f, ids, 0), key);
  }

  lemma DistinctRowsSortStrictly(ids: seq<nat>, rank: map<nat, int>, rows: seq<Event>, s: seq<Event>)
    requires IsRank(ids, rank) && Sorted(s, RankOf(ids, rank)) && multiset(s) == multiset(rows)
    requires forall i :: 0 <= i < |rows| ==> rows[i].id in ids
    requires forall i, j :: 0 <= i < j < |rows| ==> rows[i].id != rows[j].id
    ensures StrictlySorted(s, RankOf(ids, rank))
  {
    forall i, j | 0 <= i < j < |s| ensures RankOf(ids, rank)(s[i]) < RankOf(ids, rank)(s[j]) {
      assert s[i] in multiset(rows) && s[j] in multiset(rows);
      if s[i].id == s[j].id {
        OnceOnly(rows, s[i]);
        assert s[i] == s[j];
        TwiceIn(s, i, j);
      }
    }
  }

  lemma {:induction false} OnceOnly(rows: seq<Event>, e: Event)
    requires forall i, j :: 0 <= i < j < |rows| ==> rows[i].id != rows[j].id
    ensures multiset(rows)[e] <= 1
    ensures forall d :: d in rows && e in rows && d.id == e.id ==> d == e
    decreases |rows|
  {
    if rows != [] {
      OnceOnly(rows[1..], e);
      assert rows == [rows[0]] + rows[1..];
      assert forall k :: 0 <= k < |rows[1..]| ==> rows[1..][k].id == rows[k + 1].id != rows[0].id;
    }
  }

  lemma TwiceIn(s: seq<Event>, i: nat, j: nat)
    requires i < j < |s| && s[i] == s[j]
    ensures multiset(s)[s[i]] >= 2
  {
    assert s == s[..i] + [s[i]] + s[i + 1..j] + [s[j]] + s[j + 1..];
  }
}
