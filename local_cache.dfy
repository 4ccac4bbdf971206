/**
 * The local cache in front of the DAO. Writes run one after another on a
 * single I/O thread; here each write is applied when it is called, and the
 * caller's completion runs after the method returns. `writes` records the
 * completed writes in order.
 */
module Cache {
  import opened Options
  import opened Model
  import opened Dao

  /** A completed write to the table. */
  datatype Write = Inserted(news: seq<News>) | Cleared

  function Apply(rows: map<string, News>, w: Write): map<string, News>
  {
    match w
    case Inserted(news) => UpsertAll(rows, news)
    case Cleared => map[]
  }

  /** The table after the writes, applied in the order they completed. */
  function ApplyAll(rows: map<string, News>, ws: seq<Write>): map<string, News>
  {
    if ws == [] then rows
    else Apply(ApplyAll(rows, ws[..|ws| - 1]), ws[|ws| - 1])
  }

  /** Writes compose in call order: the later batch is applied to the table the earlier one left. */
  lemma {:induction false} ApplyAllAppend(rows: map<string, News>, first: seq<Write>, second: seq<Write>)
    ensures ApplyAll(rows, first + second) == ApplyAll(ApplyAll(rows, first), second)
  {
    if second != [] {
      var init := second[..|second| - 1];
      assert (first + second)[..|first + second| - 1] == first + init;
      ApplyAllAppend(rows, first, init);
    } else {
      assert first + second == first;
    }
  }

  /** Any sequence of writes keeps the table keyed by id. */
  lemma {:induction false} ApplyAllKeyedById(rows: map<string, News>, ws: seq<Write>)
    requires KeyedById(rows)
    ensures KeyedById(ApplyAll(rows, ws))
  {
    if ws != [] {
      ApplyAllKeyedById(rows, ws[..|ws| - 1]);
      if ws[|ws| - 1].Inserted? {
        UpsertKeyedById(ApplyAll(rows, ws[..|ws| - 1]), ws[|ws| - 1].news);
      }
    }
  }

  /** A clear followed by an insert leaves exactly the inserted batch, whatever the table held. */
  lemma ClearThenInsert(rows: map<string, News>, news: seq<News>)
    ensures var r := ApplyAll(rows, [Cleared, Inserted(news)]);
      && r.Keys == IdsOf(news)
      && forall id :: id in r ==> Some(r[id]) == LastWithId(news, id)
  {
    assert [Cleared, Inserted(news)][..1] == [Cleared];
    assert ApplyAll(rows, [Cleared]) == map[];
  }

  /** An empty insert leaves the table unchanged. */
  lemma EmptyInsert(rows: map<string, News>)
    ensures Apply(rows, Inserted([])) == rows
  {
  }

  class LocalCache {
    const dao: NewsDao
    /** The writes completed so far, in order. */
    var writes: seq<Write>
    /** The table when the cache was built. */
    ghost const initialRows: map<string, News>

    ghost predicate Valid()
      reads this, dao
    {
      dao.Valid() && dao.rows == ApplyAll(initialRows, writes)
    }

    constructor(dao: NewsDao)
      requires dao.Valid()
      ensures Valid() && this.dao == dao && writes == [] && initialRows == dao.rows
    {
      this.dao := dao;
      writes := [];
      initialRows := dao.rows;
    }

    /** `insert(news, insertFinished)`: the whole list goes to the DAO; the completion runs on return. */
    method Insert(news: seq<News>)
      requires Valid()
      modifies this, dao
      ensures Valid()
      ensures writes == old(writes) + [Inserted(news)]
      ensures dao.rows == UpsertAll(old(dao.rows), news)
    {
      dao.Insert(news);
      writes := writes + [Inserted(news)];
      assert writes[..|writes| - 1] == old(writes);
    }

    /**
     * `clear(continuation)`: deletes every row, then the continuation runs on return.
     * The controller calls it, but LocalCache.kt does not define it; the model gives it that meaning.
     */
    method Clear()
      requires Valid()
      modifies this, dao
      ensures Valid()
      ensures writes == old(writes) + [Cleared]
      ensures dao.rows == map[]
    {
      dao.rows := map[];
      writes := writes + [Cleared];
      assert writes[..|writes| - 1] == old(writes);
    }

    /** `news()`: the DAO's ordered view, unchanged. */
    ghost function News(): (r: seq<News>)
      reads this, dao
      requires Valid()
      ensures |r| == |dao.rows|
      ensures forall x :: x in r <==> x.id in dao.rows && dao.rows[x.id] == x
      ensures forall i, j :: 0 <= i < j < |r| && r[i].publication.Some? && r[j].publication.Some?
                             ==> r[i].publication.value >= r[j].publication.value
    {
      dao.News()
    }
  }
}
