/**
 * The `news` table: one row per id. `Insert` replaces a row whose id is already
 * present (REPLACE on conflict); `News` is the query ordered by publication,
 * most recent first.
 */
module Dao {
  import opened Options
  import opened Model

  /** Every row is stored under its own id. */
  ghost predicate KeyedById(rows: map<string, News>)
  {
    forall id :: id in rows ==> rows[id].id == id
  }

  function IdsOf(batch: seq<News>): set<string>
  {
    set n | n in batch :: n.id
  }

  /** The last element of the batch carrying `id`: the one whose values a REPLACE insert keeps. */
  function LastWithId(batch: seq<News>, id: string): (r: Option<News>)
    ensures r.Some? <==> id in IdsOf(batch)
    ensures r.Some? ==> r.value in batch && r.value.id == id
  {
    if batch == [] then None
    else if batch[|batch| - 1].id == id then Some(batch[|batch| - 1])
    else
      assert batch == batch[..|batch| - 1] + [batch[|batch| - 1]];
      LastWithId(batch[..|batch| - 1], id)
  }

  /** The table after inserting the batch one row at a time, each replacing the row with its id. */
  function UpsertAll(rows: map<string, News>, batch: seq<News>): (r: map<string, News>)
    ensures r.Keys == rows.Keys + IdsOf(batch)
    ensures forall id :: id in rows && id !in IdsOf(batch) ==> r[id] == rows[id]
    ensures forall id :: id in IdsOf(batch) ==> Some(r[id]) == LastWithId(batch, id)
  {
    if batch == [] then rows
    else
      var init := batch[..|batch| - 1];
      var last := batch[|batch| - 1];
      assert batch == init + [last];
      UpsertAll(rows, init)[last.id := last]
  }

  /** At most one row per id survives any insert: the table stays keyed by id. */
  lemma UpsertKeyedById(rows: map<string, News>, batch: seq<News>)
    requires KeyedById(rows)
    ensures KeyedById(UpsertAll(rows, batch))
  {
  }

  /** The row count after an insert is the number of distinct ids among old rows and the batch. */
  lemma UpsertCount(rows: map<string, News>, batch: seq<News>)
    ensures |UpsertAll(rows, batch)| == |rows.Keys + IdsOf(batch)|
  {
    assert UpsertAll(rows, batch).Keys == rows.Keys + IdsOf(batch);
  }

  /** Inserting the same batch twice leaves the table as after the first insert. */
  lemma UpsertIdempotent(rows: map<string, News>, batch: seq<News>)
    ensures UpsertAll(UpsertAll(rows, batch), batch) == UpsertAll(rows, batch)
  {
    var once := UpsertAll(rows, batch);
    var twice := UpsertAll(once, batch);
    assert twice.Keys == once.Keys;
    forall id | id in twice
      ensures twice[id] == once[id]
    {
    }
  }

  // ---------------------------------------------------------------------------
  // ORDER BY publication DESC
  // ---------------------------------------------------------------------------

  /** `a` may precede `b` in the query's order: a later publication first; rows without one last. */
  predicate Before(a: News, b: News)
  {
    b.publication.None? || (a.publication.Some? && a.publication.value >= b.publication.value)
  }

  predicate SortedDesc(s: seq<News>)
  {
    forall i, j :: 0 <= i < j < |s| ==> Before(s[i], s[j])
  }

  /** Total: of two rows, one may always precede the other. */
  lemma BeforeTotal(a: News, b: News)
    ensures Before(a, b) || Before(b, a)
  {
  }

  function InsertDesc(x: News, s: seq<News>): (r: seq<News>)
    ensures multiset(r) == multiset(s) + multiset{x}
  {
    if s == [] then [x]
    else if Before(x, s[0]) then [x] + s
    else
      assert s == [s[0]] + s[1..];
      [s[0]] + InsertDesc(x, s[1..])
  }

  lemma {:induction false} InsertDescSorted(x: News, s: seq<News>)
    requires SortedDesc(s)
    ensures SortedDesc(InsertDesc(x, s))
  {
    if s != [] && !Before(x, s[0]) {
      var rest := InsertDesc(x, s[1..]);
      InsertDescSorted(x, s[1..]);
      var r := [s[0]] + rest;
      assert r == InsertDesc(x, s);
      forall k | 0 <= k < |rest|
        ensures Before(s[0], rest[k])
      {
        assert rest[k] in multiset(rest);
        if rest[k] != x {
          assert rest[k] in multiset(s[1..]);
          var j :| 0 <= j < |s[1..]| && s[1..][j] == rest[k];
          assert s[j + 1] == rest[k];
        } else {
          BeforeTotal(x, s[0]);
        }
      }
      forall i, j | 0 <= i < j < |r|
        ensures Before(r[i], r[j])
      {
        if i > 0 {
          assert r[i] == rest[i - 1] && r[j] == rest[j - 1];
        } else {
          assert r[j] == rest[j - 1];
        }
      }
    }
  }

  function SortDesc(s: seq<News>): (r: seq<News>)
    ensures multiset(r) == multiset(s)
  {
    if s == [] then []
    else
      assert s == [s[0]] + s[1..];
      InsertDesc(s[0], SortDesc(s[1..]))
  }

  lemma {:induction false} SortDescSorted(s: seq<News>)
    ensures SortedDesc(SortDesc(s))
  {
    if s != [] {
      SortDescSorted(s[1..]);
      InsertDescSorted(s[0], SortDesc(s[1..]));
    }
  }

  /** The table's rows in some order, one element per row. */
  ghost function RowsOf(rows: map<string, News>): (r: seq<News>)
    requires KeyedById(rows)
    ensures |r| == |rows|
    ensures forall x :: x in r ==> x.id in rows && rows[x.id] == x
    ensures forall id :: id in rows ==> rows[id] in r
  {
    if rows == map[] then []
    else
      var id :| id in rows;
      var rest := rows - {id};
      assert forall other :: other in rows && other != id ==> other in rest;
      [rows[id]] + RowsOf(rest)
  }

  /** `SELECT * FROM news ORDER BY publication DESC`. */
  ghost function Query(rows: map<string, News>): (r: seq<News>)
    requires KeyedById(rows)
    ensures |r| == |rows|
    ensures forall x :: x in r ==> x.id in rows && rows[x.id] == x
    ensures forall id :: id in rows ==> rows[id] in r
    ensures forall i, j :: 0 <= i < j < |r| && r[i].publication.Some? && r[j].publication.Some?
                           ==> r[i].publication.value >= r[j].publication.value
  {
    var all := RowsOf(rows);
    var r := SortDesc(all);
    assert forall x :: x in r <==> x in all by {
      forall x ensures x in r <==> x in all {
        assert x in r <==> x in multiset(r);
        assert x in all <==> x in multiset(all);
      }
    }
    SortDescSorted(all);
    r
  }

  /** The DAO over the table. */
  class NewsDao {
    var rows: map<string, News>

    ghost predicate Valid()
      reads this
    {
      KeyedById(rows)
    }

    constructor(initial: map<string, News>)
      requires KeyedById(initial)
      ensures Valid() && rows == initial
    {
      rows := initial;
    }

    /** `@Insert(onConflict = REPLACE)`: each element replaces the row with its id, in list order. */
    method Insert(news: seq<News>)
      requires Valid()
      modifies this
      ensures Valid()
      ensures rows == UpsertAll(old(rows), news)
    {
      ghost var start := rows;
      for i := 0 to |news|
        invariant rows == UpsertAll(start, news[..i])
        invariant KeyedById(rows)
      {
        assert news[..i + 1][..i] == news[..i];
        rows := rows[news[i].id := news[i]];
      }
      assert news[..|news|] == news;
    }

    /** `news()`: the rows, most recent publication first. */
    ghost function News(): (r: seq<News>)
      reads this
      requires Valid()
      ensures |r| == |rows|
    {
      Query(rows)
    }
  }
}
