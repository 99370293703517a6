/**
 * The `orders` table as an in-memory map from order id to row, and the two
 * lookups the routes make on it: by primary key, and by download token with
 * the "exactly one row" semantics of a `.single()` query.
 */
module Store {
  import opened Options
  import opened OrderModel

  /** Every row is filed under its own id and its download counter lies within its allowance. */
  predicate WellFormed(rows: map<string, Order>) {
    forall id :: id in rows ==> rows[id].id == id && 0 <= rows[id].downloadCount <= rows[id].maxDownloads
  }

  /** Inserting under an unused key adds that key and leaves every existing row as it was. */
  lemma InsertFresh(rows: map<string, Order>, id: string, o: Order)
    requires id !in rows
    ensures rows[id := o].Keys == rows.Keys + {id}
    ensures forall k :: k in rows ==> rows[id := o][k] == rows[k]
  {
  }

  /** Filing a row under its own id, with its counter within its allowance, keeps the table well formed. */
  lemma PutKeepsWellFormed(rows: map<string, Order>, o: Order)
    requires WellFormed(rows) && 0 <= o.downloadCount <= o.maxDownloads
    ensures WellFormed(rows[o.id := o])
  {
  }

  /** Ids of the rows whose download token is `token`. */
  function TokenMatches(rows: map<string, Order>, token: string): set<string> {
    set id | id in rows && rows[id].downloadToken == Some(token)
  }

  /** The id `.eq("download_token", token).single()` yields: the only matching row, none when zero or several match. */
  ghost function RowByToken(rows: map<string, Order>, token: string): (r: Option<string>)
    ensures r.Some? <==> |TokenMatches(rows, token)| == 1
    ensures r.Some? ==> r.value in rows && rows[r.value].downloadToken == Some(token)
  {
    var ids := TokenMatches(rows, token);
    if |ids| == 1 then
      var id :| id in ids;
      Some(id)
    else None
  }

  /** A set of one element has no other member. */
  lemma SingletonMember<T>(s: set<T>, a: T, b: T)
    requires |s| == 1 && a in s && b in s
    ensures a == b
  {
    assert |s - {a}| == 0;
    assert b !in s - {a};
  }

  /** A token held by exactly one row resolves to that row. */
  lemma RowByTokenUnique(rows: map<string, Order>, token: string, id: string)
    requires id in rows && rows[id].downloadToken == Some(token)
    requires forall other :: other in rows && other != id ==> rows[other].downloadToken != Some(token)
    ensures RowByToken(rows, token) == Some(id)
  {
    assert TokenMatches(rows, token) == {id};
  }

  class OrderStore {
    var rows: map<string, Order>

    ghost predicate Valid()
      reads this
    {
      WellFormed(rows)
    }

    constructor ()
      ensures Valid() && rows == map[]
    {
      rows := map[];
    }

    /** Looks a row up by download token; none when no row, or more than one row, carries it. */
    method FindByToken(token: string) returns (id: Option<string>)
      ensures id == RowByToken(rows, token)
    {
      var ids := set k | k in rows && rows[k].downloadToken == Some(token);
      if |ids| == 1 {
        var k :| k in ids;
        var chosen := RowByToken(rows, token);
        SingletonMember(ids, k, chosen.value);
        id := Some(k);
      } else {
        id := None;
      }
    }
  }
}
