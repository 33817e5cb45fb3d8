/** The in-memory frequency-table store (adapter/persistence/memory.go). */
module Persistence {
  import opened Wrappers
  import opened Entity

  const ErrNotFound := Err("not found")

  /** What `Get(id)` answers for the entries `elements`. */
  function Lookup(elements: map<string, FrequencyTable>, id: string): (FrequencyTable, Option<Err>)
  {
    if id in elements then (elements[id], None) else (Zero, Some(ErrNotFound))
  }

  class Memory {
    var elements: map<string, FrequencyTable>

    constructor NewInMemory()
      ensures elements == map[]
    {
      elements := map[];
    }

    /** Store `ft` under its identifier, replacing any earlier entry; never fails. */
    method Save(ft: FrequencyTable) returns (err: Option<Err>)
      modifies this
      ensures err == None
      ensures elements == old(elements)[ft.id := ft]
    {
      elements := elements[ft.id := ft];
      err := None;
    }

    /** The table stored under `id`, or the zero table and "not found". */
    method Get(id: string) returns (ft: FrequencyTable, err: Option<Err>)
      ensures (ft, err) == Lookup(elements, id)
      ensures err == None <==> id in elements
    {
      if id !in elements {
        return Zero, Some(ErrNotFound);
      }
      ft := elements[id];
      err := None;
    }
  }

  /** A new store holds nothing. */
  lemma EmptyStoreFindsNothing(id: string)
    ensures Lookup(map[], id) == (Zero, Some(ErrNotFound))
  {
  }

  /** After saving `ft`, getting its identifier returns it. */
  lemma GetAfterSave(elements: map<string, FrequencyTable>, ft: FrequencyTable)
    ensures Lookup(elements[ft.id := ft], ft.id) == (ft, None)
  {
  }

  /** Saving touches no other identifier. */
  lemma SaveLeavesOthers(elements: map<string, FrequencyTable>, ft: FrequencyTable, id: string)
    requires id != ft.id
    ensures Lookup(elements[ft.id := ft], id) == Lookup(elements, id)
  {
  }

  /** The last table saved under an identifier wins. */
  lemma LastSaveWins(elements: map<string, FrequencyTable>, first: FrequencyTable, second: FrequencyTable)
    requires first.id == second.id
    ensures elements[first.id := first][second.id := second] == elements[second.id := second]
  {
  }
}
