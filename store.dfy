/** The vector-store collection `code_analysis` as the pipeline uses it: a
    map from document id to the stored text and metadata. Embeddings and the
    similarity ranking are foreign; a query is answered from a ranking the
    store supplies. */
module Store {

  /** The metadata the pipeline attaches to a document: `{"path": ...}`. */
  datatype Metadata = Metadata(path: string)

  datatype StoredDoc = StoredDoc(document: string, metadata: Metadata)

  predicate Distinct<T(==)>(s: seq<T>) {
    forall i, j :: 0 <= i < j < |s| ==> s[i] != s[j]
  }

  function IdSet(ids: seq<string>): set<string> {
    set id | id in ids
  }

  /** Distinct ids make a set of the same size. */
  lemma {:induction false} DistinctSetSize(ids: seq<string>)
    requires Distinct(ids)
    ensures |IdSet(ids)| == |ids|
    decreases |ids|
  {
    if ids != [] {
      var init := ids[..|ids| - 1];
      var last := ids[|ids| - 1];
      assert IdSet(ids) == IdSet(init) + {last};
      assert last !in IdSet(init);
      DistinctSetSize(init);
    }
  }

  /** The effect of `add` on the stored map: each id is inserted with its
      document and metadata in turn; an id already present keeps its entry. */
  function Inserted(m: map<string, StoredDoc>, ids: seq<string>, docs: seq<string>, metas: seq<Metadata>)
    : map<string, StoredDoc>
    requires |ids| == |docs| == |metas|
    decreases |ids|
  {
    if ids == [] then m
    else
      var m' := if ids[0] in m then m else m[ids[0] := StoredDoc(docs[0], metas[0])];
      Inserted(m', ids[1..], docs[1..], metas[1..])
  }

  /** Inserting fresh, distinct ids adds exactly those ids, each with its own
      document, and leaves every earlier entry as it was. */
  lemma {:induction false} InsertedFresh(m: map<string, StoredDoc>, ids: seq<string>, docs: seq<string>, metas: seq<Metadata>)
    requires |ids| == |docs| == |metas|
    requires Distinct(ids)
    requires forall i :: 0 <= i < |ids| ==> ids[i] !in m
    ensures Inserted(m, ids, docs, metas).Keys == m.Keys + IdSet(ids)
    ensures forall k :: k in m ==> Inserted(m, ids, docs, metas)[k] == m[k]
    ensures forall i :: 0 <= i < |ids| ==> Inserted(m, ids, docs, metas)[ids[i]] == StoredDoc(docs[i], metas[i])
    decreases |ids|
  {
    if ids != [] {
      var m' := m[ids[0] := StoredDoc(docs[0], metas[0])];
      var rest := ids[1..];
      forall i | 0 <= i < |rest|
        ensures rest[i] !in m'
      {
        assert rest[i] == ids[i + 1];
      }
      InsertedFresh(m', rest, docs[1..], metas[1..]);
      var r := Inserted(m, ids, docs, metas);
      assert IdSet(ids) == {ids[0]} + IdSet(rest);
      forall i | 0 <= i < |ids|
        ensures r[ids[i]] == StoredDoc(docs[i], metas[i])
      {
        if i > 0 {
          assert rest[i - 1] == ids[i];
        }
      }
    }
  }

  class Collection {
    var entries: map<string, StoredDoc>

    /** `get_or_create_collection` on a name that does not exist yet. */
    constructor ()
      ensures entries == map[]
    {
      entries := map[];
    }

    /** `collection.count()`: the number of stored documents. */
    function Count(): (n: nat)
      reads this
      ensures n == 0 <==> entries == map[]
    {
      |entries|
    }

    /** `collection.delete(ids=...)`; `fails` stands for the store raising,
        in which case nothing is removed. */
    method Delete(ids: seq<string>, fails: bool) returns (ok: bool)
      modifies this
      ensures ok == !fails
      ensures entries == if ok then old(entries) - IdSet(ids) else old(entries)
    {
      if fails {
        return false;
      }
      entries := entries - IdSet(ids);
      return true;
    }

    /** `collection.add(...)`: raises, changing nothing, when the store fails,
        when the three lists differ in length or when an id repeats within
        the batch. */
    method Add(ids: seq<string>, docs: seq<string>, metas: seq<Metadata>, fails: bool) returns (ok: bool)
      modifies this
      ensures ok == (!fails && |ids| == |docs| == |metas| && Distinct(ids))
      ensures entries == if ok then Inserted(old(entries), ids, docs, metas) else old(entries)
    {
      if fails || !(|ids| == |docs| == |metas|) || !Distinct(ids) {
        return false;
      }
      entries := Inserted(entries, ids, docs, metas);
      return true;
    }

    /** `collection.query(..., n_results=n)`: the stored documents of the
        ids in the store's own `ranking`, best first, at most `n` of them. */
    function Query(n: nat, ranking: seq<string>): (r: seq<StoredDoc>)
      reads this
      ensures |r| <= n
      ensures forall k :: 0 <= k < |r| ==> r[k] in entries.Values
      decreases |ranking|
    {
      if n == 0 || ranking == [] then []
      else if ranking[0] in entries then [entries[ranking[0]]] + Query(n - 1, ranking[1..])
      else Query(n, ranking[1..])
    }

    /** `client.delete_collection(...)`; a failure is logged and ignored,
        leaving the documents in place. */
    method Drop(fails: bool)
      modifies this
      ensures entries == if fails then old(entries) else map[]
    {
      if !fails {
        entries := map[];
      }
    }
  }
}
