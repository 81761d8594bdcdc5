/** A document collection as the handlers see it: records keyed by id, plus the
    order in which the store returns them when no sort is given (insertion order). */
module Tables {

  import opened Common

  type Id = string

  predicate Distinct(ids: seq<Id>)
  {
    forall i, j :: 0 <= i < j < |ids| ==> ids[i] != ids[j]
  }

  /** `ids` with every occurrence of `id` taken out, the rest in order. */
  function Without(ids: seq<Id>, id: Id): (r: seq<Id>)
    ensures forall x :: x in r <==> x in ids && x != id
    ensures |r| <= |ids|
  {
    if ids == [] then []
    else (if ids[0] == id then [] else [ids[0]]) + Without(ids[1..], id)
  }

  lemma {:induction false} WithoutAbsent(ids: seq<Id>, id: Id)
    requires id !in ids
    ensures Without(ids, id) == ids
  {
    if ids != [] {
      WithoutAbsent(ids[1..], id);
    }
  }

  lemma {:induction false} WithoutAppend(a: seq<Id>, b: seq<Id>, id: Id)
    ensures Without(a + b, id) == Without(a, id) + Without(b, id)
  {
    if a == [] {
      assert a + b == b;
    } else {
      assert (a + b)[0] == a[0];
      assert (a + b)[1..] == a[1..] + b;
      WithoutAppend(a[1..], b, id);
      var head := if a[0] == id then [] else [a[0]];
      assert Without(a + b, id) == head + Without(a[1..] + b, id);
      assert Without(a, id) == head + Without(a[1..], id);
    }
  }

  lemma {:induction false} WithoutDistinct(ids: seq<Id>, id: Id)
    requires Distinct(ids)
    ensures Distinct(Without(ids, id))
  {
    if ids != [] {
      WithoutDistinct(ids[1..], id);
      var rest := Without(ids[1..], id);
      assert ids[0] !in ids[1..];
      assert ids[0] !in rest;
    }
  }

  datatype Table<R> = Table(rows: map<Id, R>, order: seq<Id>)
  {
    /** Every stored id appears in the order exactly once. */
    ghost predicate Valid()
    {
      Distinct(order) && forall id :: id in rows <==> id in order
    }

    /** The records in store order (`Model.find()` with no filter). */
    function Values(): (vs: seq<R>)
      requires Valid()
      ensures |vs| == |order| == |rows|
      ensures forall i :: 0 <= i < |order| ==> vs[i] == rows[order[i]]
    {
      DistinctCard(order, rows.Keys);
      seq(|order|, i requires 0 <= i < |order| => rows[order[i]])
    }

    /** Saving a new document: it is stored under `id` and comes last in store order. */
    function Insert(id: Id, r: R): (t: Table<R>)
      requires Valid() && id !in rows
      ensures t.Valid()
      ensures t.rows.Keys == rows.Keys + {id} && t.rows[id] == r
      ensures forall k :: k in rows ==> t.rows[k] == rows[k]
    {
      Table(rows[id := r], order + [id])
    }

    /** Deleting by id: only that document goes, the others keep their order. */
    function Remove(id: Id): (t: Table<R>)
      requires Valid()
      ensures t.Valid() && t.order == Without(order, id)
      ensures t.rows.Keys == rows.Keys - {id}
      ensures forall k :: k in t.rows ==> t.rows[k] == rows[k]
      ensures id !in rows ==> t == this
    {
      WithoutDistinct(order, id);
      if id !in rows then WithoutAbsent(order, id); this
      else Table(rows - {id}, Without(order, id))
    }

    /** Updating a stored document in place: its position in store order is kept. */
    function Replace(id: Id, r: R): (t: Table<R>)
      requires Valid() && id in rows
      ensures t.Valid() && t.order == order
      ensures t.rows.Keys == rows.Keys && t.rows[id] == r
      ensures forall k :: k in rows && k != id ==> t.rows[k] == rows[k]
    {
      Table(rows[id := r], order)
    }

    /** `Model.findOne(filter)`: the first document in store order that matches. */
    function FindFirst(p: R -> bool): (found: Option<Id>)
      requires Valid()
      ensures found.Some? ==> found.value in rows && p(rows[found.value])
      ensures found.Some? ==> exists i :: 0 <= i < |order| && order[i] == found.value
                                          && forall j :: 0 <= j < i ==> !p(rows[order[j]])
      ensures found.None? ==> forall k :: k in rows ==> !p(rows[k])
    {
      FirstIn(order, rows, p)
    }

    /** `Model.find(filter)`: every matching document, in store order. */
    function Select(p: R -> bool): (vs: seq<R>)
      requires Valid()
      ensures forall v :: v in vs ==> p(v) && exists k :: k in rows && rows[k] == v
      ensures forall k :: k in rows && p(rows[k]) ==> rows[k] in vs
      ensures vs == Filter(Values(), p)
    {
      SelectInFilters(order, rows, p);
      assert Values() == Lookup(order, rows);
      SelectIn(order, rows, p)
    }
  }

  function FirstIn<R>(ids: seq<Id>, rows: map<Id, R>, p: R -> bool): (found: Option<Id>)
    requires forall id :: id in ids ==> id in rows
    ensures found.Some? ==> found.value in ids && p(rows[found.value])
    ensures found.Some? ==> exists i :: 0 <= i < |ids| && ids[i] == found.value
                                        && forall j :: 0 <= j < i ==> !p(rows[ids[j]])
    ensures found.None? ==> forall k :: k in ids ==> !p(rows[k])
  {
    if ids == [] then None
    else if p(rows[ids[0]]) then Some(ids[0])
    else
      var found := FirstIn(ids[1..], rows, p);
      if found.Some? then
        var i :| 0 <= i < |ids[1..]| && ids[1..][i] == found.value
                 && forall j :: 0 <= j < i ==> !p(rows[ids[1..][j]]);
        assert ids[i + 1] == found.value;
        assert forall j :: 1 <= j < i + 1 ==> ids[j] == ids[1..][j - 1];
        found
      else found
  }

  function SelectIn<R>(ids: seq<Id>, rows: map<Id, R>, p: R -> bool): (vs: seq<R>)
    requires forall id :: id in ids ==> id in rows
    ensures forall v :: v in vs ==> p(v) && exists k :: k in ids && rows[k] == v
    ensures forall k :: k in ids && p(rows[k]) ==> rows[k] in vs
  {
    if ids == [] then []
    else (if p(rows[ids[0]]) then [rows[ids[0]]] else []) + SelectIn(ids[1..], rows, p)
  }

  /** The records of `ids`, in that order. */
  function Lookup<R>(ids: seq<Id>, rows: map<Id, R>): seq<R>
    requires forall id :: id in ids ==> id in rows
  {
    seq(|ids|, i requires 0 <= i < |ids| => rows[ids[i]])
  }

  /** The elements of `vs` that satisfy `p`, in order: the reference for `find(filter)`. */
  function Filter<R>(vs: seq<R>, p: R -> bool): (r: seq<R>)
    ensures forall i :: 0 <= i < |r| ==> r[i] in vs && p(r[i])
    ensures forall i :: 0 <= i < |vs| && p(vs[i]) ==> vs[i] in r
    ensures |r| <= |vs|
  {
    if vs == [] then []
    else (if p(vs[0]) then [vs[0]] else []) + Filter(vs[1..], p)
  }

  /** Walking the ids and keeping the matching records filters the looked-up records. */
  lemma {:induction false} SelectInFilters<R>(ids: seq<Id>, rows: map<Id, R>, p: R -> bool)
    requires forall id :: id in ids ==> id in rows
    ensures SelectIn(ids, rows, p) == Filter(Lookup(ids, rows), p)
  {
    if ids != [] {
      var all := Lookup(ids, rows);
      assert all[1..] == Lookup(ids[1..], rows);
      assert all[0] == rows[ids[0]];
      SelectInFilters(ids[1..], rows, p);
    }
  }

  lemma {:induction false} DistinctCard(ids: seq<Id>, keys: set<Id>)
    requires Distinct(ids) && forall id :: id in keys <==> id in ids
    ensures |keys| == |ids|
  {
    if ids != [] {
      var rest := keys - {ids[0]};
      assert forall id :: id in rest <==> id in ids[1..] by {
        forall id ensures id in rest <==> id in ids[1..] {
          if id in ids[1..] {
            var j :| 0 <= j < |ids[1..]| && ids[1..][j] == id;
            assert ids[j + 1] == id;
          }
        }
      }
      DistinctCard(ids[1..], rest);
    }
  }

  /** A saved document comes last in store order. */
  lemma InsertAppends<R>(t: Table<R>, id: Id, r: R)
    requires t.Valid() && id !in t.rows
    ensures t.Insert(id, r).Values() == t.Values() + [r]
  {
    var u := Table(t.rows[id := r], t.order + [id]);
    assert u == t.Insert(id, r);
    var a, b := u.Values(), t.Values() + [r];
    assert |a| == |b|;
    forall i | 0 <= i < |a| ensures a[i] == b[i] {
      if i < |t.order| {
        assert t.order[i] in t.rows;
        assert a[i] == u.rows[u.order[i]];
      }
    }
    assert a == b;
  }

  /** Saving a document and then deleting it by its id gives back the collection. */
  lemma InsertThenRemove<R>(t: Table<R>, id: Id, r: R)
    requires t.Valid() && id !in t.rows
    ensures t.Insert(id, r).Remove(id) == t
  {
    assert id !in t.order;
    WithoutAppend(t.order, [id], id);
    WithoutAbsent(t.order, id);
    assert Without([id], id) == [];
    assert (t.rows[id := r]) - {id} == t.rows;
  }
}
