/** The database records the pipeline works on (the `deals` and `pipelines` tables of types/supabase.ts). */
module Records {
  import opened Wrappers

  /** A deal (opportunity) with its joined assignee name, custom fields and computed progress. */
  datatype Deal = Deal(
    id: string,
    clientName: string,
    contactName: Option<string>,
    cnpj: Option<string>,
    email: Option<string>,
    phone: Option<string>,
    phoneSecondary: Option<string>,
    title: string,
    tag: Option<string>,
    status: Option<string>,
    assigneeId: Option<string>,
    assigneeName: Option<string>,
    pipelineId: Option<string>,
    value: Option<real>,
    recoveredValue: Option<real>,
    /** Creation instant, in minutes; `None` when missing. */
    createdAt: Option<int>,
    /** `custom_fields` as key/text pairs in key order; empty when absent. */
    customFields: seq<(string, string)>,
    progress: int)

  /** A pipeline stage: one column of the board. */
  datatype Column = Column(id: string, name: string, orderIndex: int)

  /** `xs.find(d => d.id === id)`. */
  function FindDeal(deals: seq<Deal>, id: string): (r: Option<Deal>)
    ensures r.Some? ==> r.value in deals && r.value.id == id
    ensures r.None? ==> forall i :: 0 <= i < |deals| ==> deals[i].id != id
    ensures r.Some? ==>
      exists i :: 0 <= i < |deals| && deals[i] == r.value
                  && forall j :: 0 <= j < i ==> deals[j].id != id
  {
    if deals == [] then None
    else if deals[0].id == id then Some(deals[0])
    else FindDeal(deals[1..], id)
  }

  /** `columns.findIndex(c => c.id === id)`, with -1 when absent. */
  function ColumnIndex(columns: seq<Column>, id: Option<string>): (i: int)
    ensures -1 <= i < |columns|
    ensures i >= 0 ==> id.Some? && columns[i].id == id.value
    ensures i >= 0 ==> forall j :: 0 <= j < i ==> columns[j].id != id.value
    ensures i == -1 ==> id.None? || forall j :: 0 <= j < |columns| ==> columns[j].id != id.value
  {
    if id.None? || columns == [] then -1
    else if columns[0].id == id.value then 0
    else
      var k := ColumnIndex(columns[1..], id);
      if k == -1 then -1 else k + 1
  }

  /** The value stored under key `k` in a JavaScript object read as its entries. */
  function Lookup<V>(entries: seq<(string, V)>, k: string): (r: Option<V>)
    ensures r.Some? ==> exists i :: 0 <= i < |entries| && entries[i] == (k, r.value)
    ensures r.None? ==> forall i :: 0 <= i < |entries| ==> entries[i].0 != k
  {
    if entries == [] then None
    else if entries[0].0 == k then Some(entries[0].1)
    else Lookup(entries[1..], k)
  }

  /** `{ ...entries, [k]: v }`: an existing key keeps its place, a new one goes last. */
  function SetEntry<V>(entries: seq<(string, V)>, k: string, v: V): (r: seq<(string, V)>)
    ensures Lookup(r, k) == Some(v)
    ensures forall j :: j != k ==> Lookup(r, j) == Lookup(entries, j)
  {
    if entries == [] then [(k, v)]
    else if entries[0].0 == k then [(k, v)] + entries[1..]
    else
      var rest := SetEntry(entries[1..], k, v);
      assert ([entries[0]] + rest)[1..] == rest;
      [entries[0]] + rest
  }
}
