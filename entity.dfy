/** The frequency table entity (entity/freqtable.go). */
module Entity {
  import opened Wrappers

  /** A table: its identifier, the error that spoilt it (if any), and its word counts. */
  datatype FrequencyTable = FrequencyTable(id: string, error: Option<Err>, values: map<string, int>)
  {
    /** "invalid" when an error is recorded, "valid" otherwise. */
    function Status(): (r: string)
      ensures r == "valid" || r == "invalid"
      ensures r == "invalid" <==> error.Some?
      ensures r == "valid" <==> error.None?
    {
      if error != None then "invalid" else "valid"
    }
  }

  /** Go's zero `FrequencyTable{}`. */
  const Zero := FrequencyTable("", None, map[])

  /** The status looks at the error alone, never at the identifier or the counts. */
  lemma StatusDependsOnlyOnError(a: FrequencyTable, b: FrequencyTable)
    requires a.error.Some? <==> b.error.Some?
    ensures a.Status() == b.Status()
  {
  }
}
