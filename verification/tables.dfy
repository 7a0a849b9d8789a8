/**
 * A database table as the `IdModel` base class sees it: rows keyed by an
 * integer primary key, held in ascending id order (the order `paginate`
 * requests with `ORDER BY id`).
 */
module Tables {
  import opened Wrappers
  import opened Json
  import opened Seqs

  /** A stored entity: its primary key and its column values. */
  datatype Row<T> = Row(id: int, value: T)

  /** Ids strictly ascend, so each id occurs at most once. */
  predicate IdOrdered<T>(t: seq<Row<T>>) {
    forall i, j :: 0 <= i < j < |t| ==> t[i].id < t[j].id
  }

  /** `get_by_id(oid)`: the row with that primary key, or None. */
  function GetById<T>(t: seq<Row<T>>, id: int): (r: Option<Row<T>>)
    ensures r.Some? ==> r.value in t && r.value.id == id
    ensures r.None? <==> forall i :: 0 <= i < |t| ==> t[i].id != id
  {
    if t == [] then None
    else if t[0].id == id then Some(t[0])
    else GetById(t[1..], id)
  }

  /** In an id-ordered table a lookup finds the one row with that id. */
  lemma GetByIdFinds<T>(t: seq<Row<T>>, i: int)
    requires IdOrdered(t) && 0 <= i < |t|
    ensures GetById(t, t[i].id) == Some(t[i])
  {
    var r := GetById(t, t[i].id);
    if r.Some? {
      var j :| 0 <= j < |t| && t[j] == r.value;
      assert j == i;
    }
  }

  /**
   * `entity.delete()` followed by a commit: the row with that id is gone and
   * every other row is kept, in order.
   */
  function Delete<T(!new)>(t: seq<Row<T>>, id: int): (r: seq<Row<T>>)
    ensures forall x :: x in r <==> x in t && x.id != id
    ensures |r| <= |t|
    ensures IdOrdered(t) ==> IdOrdered(r)
  {
    if t == [] then []
    else
      var rest := Delete(t[1..], id);
      assert forall x :: x in t <==> x == t[0] || x in t[1..];
      if t[0].id == id then rest
      else
        assert forall x :: x in rest ==> x in t[1..];
        [t[0]] + rest
  }

  /** After a delete, no row has the id and the other lookups are as before. */
  lemma DeleteLookups<T(!new)>(t: seq<Row<T>>, id: int, k: int)
    requires IdOrdered(t)
    ensures GetById(Delete(t, id), id).None?
    ensures k != id ==> GetById(Delete(t, id), k) == GetById(t, k)
  {
    var r := Delete(t, id);
    if k != id {
      if GetById(t, k).Some? {
        var j :| 0 <= j < |t| && t[j] == GetById(t, k).value;
        assert t[j] in r;
        var m :| 0 <= m < |r| && r[m] == t[j];
        GetByIdFinds(r, m);
      } else {
        assert forall x :: x in r ==> x in t;
      }
    }
  }

  /** The lookups after a delete, for every id at once. */
  lemma DeleteLookupsAll<T(!new)>(t: seq<Row<T>>, id: int)
    ensures IdOrdered(t) ==> GetById(Delete(t, id), id).None?
    ensures IdOrdered(t) ==> forall k :: k != id ==> GetById(Delete(t, id), k) == GetById(t, k)
  {
    if IdOrdered(t) {
      forall k
        ensures GetById(Delete(t, id), id).None?
        ensures k != id ==> GetById(Delete(t, id), k) == GetById(t, k)
      {
        DeleteLookups(t, id, k);
      }
    }
  }

  /**
   * `entity.save()` followed by a commit: an existing row with the same id is
   * replaced in place, otherwise the row is inserted at its id position.
   */
  function Save<T(!new)>(t: seq<Row<T>>, row: Row<T>): (r: seq<Row<T>>)
    ensures IdOrdered(t) ==> IdOrdered(r)
    ensures IdOrdered(t) ==> GetById(r, row.id) == Some(row)
    ensures IdOrdered(t) ==> forall k :: k != row.id ==> GetById(r, k) == GetById(t, k)
    ensures IdOrdered(t) ==> forall x :: x in r <==> x == row || (x in t && x.id != row.id)
  {
    if t == [] then [row]
    else if t[0].id == row.id then
      var r := [row] + t[1..];
      assert r[1..] == t[1..];
      r
    else if row.id < t[0].id then
      var r := [row] + t;
      assert r[1..] == t;
      assert IdOrdered(t) ==> forall x :: x in t ==> x.id != row.id;
      r
    else
      var rest := Save(t[1..], row);
      var r := [t[0]] + rest;
      assert r[1..] == rest;
      assert forall x :: x in t <==> x == t[0] || x in t[1..];
      r
  }

  /** The attribute names `IdModel.serialize` exports unless a model overrides them. */
  const DefaultSerializable: seq<string> := ["id"]

  /**
   * `serialize()`: the dictionary `{key: getattr(self, key) for key in
   * serializable}`, with `attr` standing for `getattr(self, ·)`.
   */
  function Serialize(names: seq<string>, attr: string -> Json): (fields: seq<(string, Json)>)
    ensures forall k :: k in Keys(fields) <==> k in names
    ensures forall k :: k in names ==> Get(fields, k) == Some(attr(k))
    ensures Distinct(names) ==> Keys(fields) == names
  {
    if names == [] then []
    else
      var init := names[..|names| - 1];
      var last := names[|names| - 1];
      assert names == init + [last];
      assert Distinct(names) ==> Distinct(init) && last !in init;
      Set(Serialize(init, attr), last, attr(last))
  }

  /** The columns of a plain model: only its id. */
  function RowAttr<T>(r: Row<T>): string -> Json {
    k => if k == "id" then JInt(r.id) else JNull
  }

  /** A model that keeps the default list serialises to `{"id": id}`. */
  lemma DefaultSerialization<T>(r: Row<T>)
    ensures Serialize(DefaultSerializable, RowAttr(r)) == [("id", JInt(r.id))]
  {
    var fs := Serialize(DefaultSerializable, RowAttr(r));
    assert Keys(fs) == ["id"];
    assert Get(fs, "id") == Some(JInt(r.id));
  }
}
