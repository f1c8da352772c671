/** The in-memory collection behind each controller: an ordered sequence of records.

A record is an id plus the fields a client may change. `Array.prototype.find`
and `findIndex` both stop at the first record whose id matches; an update
writes through the reference `find` returned, which is the record at that
index; `push` appends; `splice(index, 1)` removes one element in place.
 */
module Store {
  import opened Pipeline

  datatype Record<+F> = Record(id: string, fields: F)

  /** No record in `s` has id `id`. */
  predicate Fresh<F>(s: seq<Record<F>>, id: string)
  {
    forall j :: 0 <= j < |s| ==> s[j].id != id
  }

  /** The store's invariant: ids are unique. */
  predicate UniqueIds<F>(s: seq<Record<F>>)
  {
    forall i, j :: 0 <= i < j < |s| ==> s[i].id != s[j].id
  }

  /** The index of the first record with id `id`: what `find`/`findIndex` locate. */
  function IndexOf<F>(s: seq<Record<F>>, id: string): (r: Option<nat>)
    ensures r.Some? ==> r.value < |s| && s[r.value].id == id
    ensures r.Some? ==> forall j :: 0 <= j < r.value ==> s[j].id != id
    ensures r.None? <==> Fresh(s, id)
    decreases |s|
  {
    if |s| == 0 then None
    else if s[0].id == id then Some(0)
    else
      match IndexOf(s[1..], id)
      case None => None
      case Some(k) => Some(k + 1)
  }

  /** With unique ids the first match is the only match. */
  lemma IndexOfUnique<F>(s: seq<Record<F>>, i: nat)
    requires UniqueIds(s) && i < |s|
    ensures IndexOf(s, s[i].id) == Some(i)
  {
  }

  /** Lookup depends only on the ids, position by position. */
  lemma IndexOfSameIds<F>(s: seq<Record<F>>, t: seq<Record<F>>, id: string)
    requires |s| == |t|
    requires forall j :: 0 <= j < |s| ==> s[j].id == t[j].id
    ensures IndexOf(s, id) == IndexOf(t, id)
  {
  }

  /** `push`: the record goes at the end. */
  function Insert<F>(s: seq<Record<F>>, id: string, fields: F): (r: seq<Record<F>>)
    ensures |r| == |s| + 1 && r[|s|] == Record(id, fields)
    ensures forall j :: 0 <= j < |s| ==> r[j] == s[j]
  {
    s + [Record(id, fields)]
  }

  /** Appending a record with a fresh id keeps ids unique, finds the new record
      at the end, and finds every other id where it was. */
  lemma InsertFresh<F>(s: seq<Record<F>>, id: string, fields: F)
    requires Fresh(s, id)
    ensures UniqueIds(s) ==> UniqueIds(Insert(s, id, fields))
    ensures IndexOf(Insert(s, id, fields), id) == Some(|s|)
    ensures forall other :: other != id ==> IndexOf(Insert(s, id, fields), other) == IndexOf(s, other)
  {
  }

  /** `Object.assign` on the record at index `i`: new fields, same id. */
  function SetFields<F>(s: seq<Record<F>>, i: nat, fields: F): (r: seq<Record<F>>)
    requires i < |s|
    ensures |r| == |s| && r[i] == Record(s[i].id, fields)
    ensures forall j :: 0 <= j < |s| && j != i ==> r[j] == s[j]
    ensures UniqueIds(s) ==> UniqueIds(r)
    ensures forall id :: IndexOf(r, id) == IndexOf(s, id)
  {
    var r := s[i := Record(s[i].id, fields)];
    forall id ensures IndexOf(r, id) == IndexOf(s, id) {
      IndexOfSameIds(r, s, id);
    }
    r
  }

  /** `splice(i, 1)`: the record at `i` goes, the rest keep their relative order. */
  function RemoveAt<F>(s: seq<Record<F>>, i: nat): (r: seq<Record<F>>)
    requires i < |s|
    ensures |r| == |s| - 1
    ensures forall j :: 0 <= j < i ==> r[j] == s[j]
    ensures forall j :: i <= j < |r| ==> r[j] == s[j + 1]
  {
    s[..i] + s[i + 1..]
  }

  /** Removing from a store with unique ids keeps them unique, and the removed id
      is no longer found. */
  lemma RemoveAtUnique<F>(s: seq<Record<F>>, i: nat)
    requires UniqueIds(s) && i < |s|
    ensures UniqueIds(RemoveAt(s, i))
    ensures IndexOf(RemoveAt(s, i), s[i].id).None?
  {
  }
}
