/** The native address book (Android's contacts provider, Darwin's
    CNContactStore) seen from the bridge: records keyed by identifier, plus
    the order in which a query without a sort order enumerates them. */
module Store {
  import opened Wrappers

  datatype Store<C> = Store(byId: map<string, C>, order: seq<string>)

  ghost predicate Distinct(ids: seq<string>) {
    forall i, j :: 0 <= i < j < |ids| ==> ids[i] != ids[j]
  }

  /** Every stored record is enumerated exactly once. */
  ghost predicate Valid<C>(st: Store<C>) {
    && Distinct(st.order)
    && (forall id :: id in st.byId <==> id in st.order)
  }

  function Lookup<C>(st: Store<C>, id: string): (r: Option<C>)
    ensures r.Some? <==> id in st.byId
    ensures r.Some? ==> r.value == st.byId[id]
  {
    if id in st.byId then Some(st.byId[id]) else None
  }

  /** The records named by `ids`, in that order, paired with their ids;
      ids without a record are skipped. */
  function EnumerateIds<C>(byId: map<string, C>, ids: seq<string>): (rows: seq<(string, C)>)
    ensures forall i :: 0 <= i < |rows| ==> rows[i].0 in byId && byId[rows[i].0] == rows[i].1
    ensures (forall i :: 0 <= i < |ids| ==> ids[i] in byId) ==>
              |rows| == |ids| && forall i :: 0 <= i < |ids| ==> rows[i].0 == ids[i]
  {
    if |ids| == 0 then []
    else
      var rest := EnumerateIds(byId, ids[1..]);
      if ids[0] in byId then [(ids[0], byId[ids[0]])] + rest else rest
  }

  /** What a query without selection and sort order returns. */
  function Enumerate<C>(st: Store<C>): (rows: seq<(string, C)>)
    ensures forall i :: 0 <= i < |rows| ==> Lookup(st, rows[i].0) == Some(rows[i].1)
    ensures Valid(st) ==> |rows| == |st.order| && forall i :: 0 <= i < |rows| ==> rows[i].0 == st.order[i]
  {
    EnumerateIds(st.byId, st.order)
  }

  function Without(ids: seq<string>, id: string): (r: seq<string>)
    ensures forall x :: x in r <==> x in ids && x != id
    ensures Distinct(ids) ==> Distinct(r)
  {
    if |ids| == 0 then []
    else if ids[0] == id then Without(ids[1..], id)
    else
      assert Distinct(ids) ==> ids[0] !in ids[1..];
      [ids[0]] + Without(ids[1..], id)
  }

  /** Adds a record under a new id at the end of the enumeration order, or
      replaces the record an existing id names in place. */
  function Insert<C>(st: Store<C>, id: string, c: C): (st': Store<C>)
    ensures Valid(st) ==> Valid(st')
    ensures Lookup(st', id) == Some(c)
    ensures forall other :: other != id ==> Lookup(st', other) == Lookup(st, other)
  {
    if id in st.byId then Store(st.byId[id := c], st.order)
    else
      assert Valid(st) ==> Distinct(st.order + [id]);
      Store(st.byId[id := c], st.order + [id])
  }

  function Remove<C>(st: Store<C>, id: string): (st': Store<C>)
    ensures Valid(st) ==> Valid(st')
    ensures Lookup(st', id) == None
    ensures forall other :: other != id ==> Lookup(st', other) == Lookup(st, other)
  {
    Store(st.byId - {id}, Without(st.order, id))
  }
}
