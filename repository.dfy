/**
 * A table behind a Spring Data repository: records with a generated `id`,
 * kept in ascending id order because ids come from a sequence.
 */
module Repository {
  import opened Wrappers
  import opened Beans

  predicate Keyed(r: Record) { "id" in r && r["id"].VLong? }

  function IdOf(r: Record): int
    requires Keyed(r)
  {
    r["id"].n
  }

  /** Every record has an id and the ids strictly increase. */
  predicate Ascending(rows: seq<Record>)
  {
    (forall i :: 0 <= i < |rows| ==> Keyed(rows[i]))
    && (forall i, j :: 0 <= i < j < |rows| ==> IdOf(rows[i]) < IdOf(rows[j]))
  }

  /** The records satisfying `p`, in table order. */
  function Where<T(!new)>(rows: seq<T>, p: T -> bool): (r: seq<T>)
    ensures |r| <= |rows|
    ensures forall x :: x in r <==> x in rows && p(x)
  {
    if rows == [] then []
    else Where(rows[..|rows| - 1], p) + (if p(rows[|rows| - 1]) then [rows[|rows| - 1]] else [])
  }

  /**
   * The finder keeps table order: filtering a table made of two parts lists
   * the matches of the first part before those of the second.
   */
  lemma {:induction false} WhereAppend<T(!new)>(a: seq<T>, b: seq<T>, p: T -> bool)
    ensures Where(a + b, p) == Where(a, p) + Where(b, p)
    decreases |b|
  {
    if b == [] {
      assert a + b == a;
    } else {
      var init, last := b[..|b| - 1], b[|b| - 1];
      assert (a + b)[..|a + b| - 1] == a + init;
      assert (a + b)[|a + b| - 1] == last;
      WhereAppend(a, init, p);
      var tail := if p(last) then [last] else [];
      assert Where(a + b, p) == Where(a + init, p) + tail;
      assert Where(b, p) == Where(init, p) + tail;
    }
  }

  /** A single record is listed by the finder exactly when it matches. */
  lemma WhereSingle<T(!new)>(x: T, p: T -> bool)
    ensures Where([x], p) == if p(x) then [x] else []
  {
    assert [x][..0] == [];
  }

  lemma {:induction false} WhereAscending(rows: seq<Record>, p: Record -> bool)
    requires Ascending(rows)
    ensures Ascending(Where(rows, p))
    ensures forall x :: x in Where(rows, p) ==> Keyed(x) && IdOf(x) <= IdOf(rows[|rows| - 1])
  {
    if rows != [] {
      var init, last := rows[..|rows| - 1], rows[|rows| - 1];
      assert Ascending(init);
      WhereAscending(init, p);
      var w := Where(init, p);
      assert Where(rows, p) == w + (if p(last) then [last] else []);
      forall i | 0 <= i < |w| ensures IdOf(w[i]) < IdOf(last) {
        assert w[i] in init;
        var k :| 0 <= k < |init| && init[k] == w[i];
        assert init[k] == rows[k];
      }
      if p(last) {
        AscendingSnoc(w, last);
      }
    }
  }

  /** A record whose id exceeds every id of an ascending sequence may follow it. */
  lemma AscendingSnoc(w: seq<Record>, last: Record)
    requires Ascending(w) && Keyed(last)
    requires forall i :: 0 <= i < |w| ==> IdOf(w[i]) < IdOf(last)
    ensures Ascending(w + [last])
  {
    var s := w + [last];
    assert forall i :: 0 <= i < |w| ==> s[i] == w[i];
  }

  /** The unique record with the given id, if any. */
  function Lookup(rows: seq<Record>, id: int): (r: Option<Record>)
    ensures r.Some? ==> r.value in rows && Keyed(r.value) && IdOf(r.value) == id
    ensures r.None? ==> forall i :: 0 <= i < |rows| && Keyed(rows[i]) ==> IdOf(rows[i]) != id
  {
    if rows == [] then None
    else if Keyed(rows[0]) && IdOf(rows[0]) == id then Some(rows[0])
    else Lookup(rows[1..], id)
  }

  /** Position of the record with the given id. */
  function IndexOfId(rows: seq<Record>, id: int): (i: int)
    requires Ascending(rows)
    ensures -1 <= i < |rows|
    ensures i >= 0 ==> IdOf(rows[i]) == id
    ensures i == -1 <==> Lookup(rows, id).None?
  {
    if rows == [] then -1
    else if IdOf(rows[0]) == id then 0
    else
      var k := IndexOfId(rows[1..], id);
      if k == -1 then -1 else k + 1
  }

  /** The table without the record of the given id. */
  function Without(rows: seq<Record>, id: int): seq<Record>
  {
    if rows == [] then []
    else (if Keyed(rows[0]) && IdOf(rows[0]) == id then [] else [rows[0]]) + Without(rows[1..], id)
  }

  lemma {:induction false} WithoutMembers(rows: seq<Record>, id: int)
    requires forall i :: 0 <= i < |rows| ==> Keyed(rows[i])
    ensures forall x :: x in Without(rows, id) <==> x in rows && IdOf(x) != id
  {
    if rows != [] {
      WithoutMembers(rows[1..], id);
      assert rows == [rows[0]] + rows[1..];
    }
  }

  lemma {:induction false} WithoutAscending(rows: seq<Record>, id: int)
    requires Ascending(rows)
    ensures Ascending(Without(rows, id))
  {
    if rows != [] {
      var tail := rows[1..];
      assert Ascending(tail);
      WithoutAscending(tail, id);
      WithoutMembers(tail, id);
      var w := Without(tail, id);
      forall j | 0 <= j < |w| ensures IdOf(rows[0]) < IdOf(w[j]) {
        assert w[j] in tail;
        var i :| 0 <= i < |tail| && tail[i] == w[j];
        assert rows[i + 1] == w[j];
      }
    }
  }

  lemma {:induction false} WithoutCount(rows: seq<Record>, id: int)
    requires Ascending(rows)
    ensures Lookup(rows, id).Some? ==> |Without(rows, id)| == |rows| - 1
    ensures Lookup(rows, id).None? ==> Without(rows, id) == rows
  {
    if rows != [] {
      var tail := rows[1..];
      assert Ascending(tail);
      WithoutCount(tail, id);
      if IdOf(rows[0]) == id {
        forall i | 0 <= i < |tail| ensures IdOf(tail[i]) != id {
          assert rows[i + 1] == tail[i];
        }
        assert Lookup(tail, id).None?;
      } else {
        assert rows == [rows[0]] + tail;
      }
    }
  }

  lemma WithoutSpec(rows: seq<Record>, id: int)
    requires Ascending(rows)
    ensures Ascending(Without(rows, id))
    ensures forall x :: x in Without(rows, id) <==> x in rows && IdOf(x) != id
    ensures Lookup(rows, id).Some? ==> |Without(rows, id)| == |rows| - 1
    ensures Lookup(rows, id).None? ==> Without(rows, id) == rows
  {
    WithoutMembers(rows, id);
    WithoutAscending(rows, id);
    WithoutCount(rows, id);
  }

  class Table {
    var rows: seq<Record>
    /** The next value of the id sequence. */
    var nextId: int

    ghost predicate Valid()
      reads this
    {
      Ascending(rows) && forall i :: 0 <= i < |rows| ==> IdOf(rows[i]) < nextId
    }

    constructor ()
      ensures Valid() && rows == [] && nextId == 1
    {
      rows := [];
      nextId := 1;
    }

    /**
     * `save`: a record whose id is stored replaces that record in place; any
     * other record is inserted at the end under the next sequence value.
     */
    method Save(rec: Record) returns (saved: Record)
      requires Valid()
      modifies this
      ensures Valid()
      ensures Keyed(saved) && saved == rec["id" := saved["id"]]
      ensures Keyed(rec) && Lookup(old(rows), IdOf(rec)).Some? ==>
        saved == rec && nextId == old(nextId)
        && rows == old(rows)[IndexOfId(old(rows), IdOf(rec)) := rec]
      ensures !(Keyed(rec) && Lookup(old(rows), IdOf(rec)).Some?) ==>
        saved == rec["id" := VLong(old(nextId))] && nextId == old(nextId) + 1
        && rows == old(rows) + [saved]
      ensures Lookup(rows, IdOf(saved)) == Some(saved)
      ensures forall x :: x in rows ==> x in old(rows) || x == saved
    {
      if Keyed(rec) && Lookup(rows, IdOf(rec)).Some? {
        var i := IndexOfId(rows, IdOf(rec));
        assert rec == rec["id" := rec["id"]];
        ReplaceKeepsOrder(rows, nextId, rec);
        rows := rows[i := rec];
        saved := rec;
      } else {
        saved := rec["id" := VLong(nextId)];
        AppendKeepsOrder(rows, nextId, saved);
        rows := rows + [saved];
        nextId := nextId + 1;
      }
    }

    /** `delete` of a stored record: exactly that record goes. */
    method Delete(id: int)
      requires Valid()
      modifies this`rows
      ensures Valid()
      ensures rows == Without(old(rows), id)
      ensures forall x :: x in rows <==> x in old(rows) && IdOf(x) != id
    {
      WithoutSpec(rows, id);
      rows := Without(rows, id);
    }

    /** A derived `deleteBy…`: every record satisfying `p` goes. */
    method DeleteWhere(p: Record -> bool)
      requires Valid()
      modifies this`rows
      ensures Valid()
      ensures rows == Where(old(rows), x => !p(x))
    {
      WhereAscending(rows, x => !p(x));
      var kept := Where(rows, x => !p(x));
      forall i | 0 <= i < |kept| ensures IdOf(kept[i]) < nextId {
        assert kept[i] in rows;
      }
      rows := kept;
    }
  }

  /** Replacing a stored record by one with the same id keeps the ids ascending and below the sequence. */
  lemma ReplaceKeepsOrder(rows: seq<Record>, nextId: int, rec: Record)
    requires Ascending(rows) && forall i :: 0 <= i < |rows| ==> IdOf(rows[i]) < nextId
    requires Keyed(rec) && Lookup(rows, IdOf(rec)).Some?
    ensures var s := rows[IndexOfId(rows, IdOf(rec)) := rec];
      Ascending(s) && (forall i :: 0 <= i < |s| ==> IdOf(s[i]) < nextId) && Lookup(s, IdOf(rec)) == Some(rec)
  {
    var k := IndexOfId(rows, IdOf(rec));
    var s := rows[k := rec];
    assert forall i :: 0 <= i < |s| ==> IdOf(s[i]) == IdOf(rows[i]);
    LookupAscending(s, k);
  }

  /** Appending a record under the next sequence value keeps the ids ascending and below the advanced sequence. */
  lemma AppendKeepsOrder(rows: seq<Record>, nextId: int, saved: Record)
    requires Ascending(rows) && forall i :: 0 <= i < |rows| ==> IdOf(rows[i]) < nextId
    requires Keyed(saved) && IdOf(saved) == nextId
    ensures var s := rows + [saved];
      Ascending(s) && (forall i :: 0 <= i < |s| ==> IdOf(s[i]) < nextId + 1) && Lookup(s, nextId) == Some(saved)
  {
    AscendingSnoc(rows, saved);
    LookupAscending(rows + [saved], |rows|);
  }

  lemma LookupAscending(rows: seq<Record>, i: int)
    requires Ascending(rows) && 0 <= i < |rows|
    ensures Lookup(rows, IdOf(rows[i])) == Some(rows[i])
  {
    if i > 0 {
      assert Ascending(rows[1..]);
      LookupAscending(rows[1..], i - 1);
    }
  }
}
