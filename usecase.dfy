/**
 * Creating a frequency table (usecase/create_freqtable.go): extract the counts
 * for a URL, then save the table.  The two repositories are given by the
 * outcome each of their calls has.
 */
module Usecase {
  import opened Wrappers
  import opened Entity

  /** `WordCountRepository.Extract`. */
  type Extractor = string -> Result<map<string, int>>

  /** `FrequencyTableRepository.Save`: the error (or nil) it returns for a table. */
  type Saver = FrequencyTable -> Option<Err>

  datatype CreateFrequencyTableUsecase = CreateFrequencyTableUsecase(wcr: Extractor, ftr: Saver)
  {
    /** The table handed to `Save` once extraction succeeded. */
    function ToSave(values: map<string, int>): FrequencyTable
    {
      FrequencyTable("", None, values)
    }

    /**
     * `Create(ctx, url)`: the table and the error.  The table records exactly
     * the error returned; it succeeds only when extraction and saving both do,
     * and then holds the extracted counts.
     */
    function Create(url: string): (r: (FrequencyTable, Option<Err>))
      ensures r.0.error == r.1
      ensures r.0.id == ""
      ensures r.1 == None <==> wcr(url).Ok? && ftr(ToSave(wcr(url).value)) == None
      ensures wcr(url).Fail? ==> r.1 == Some(wcr(url).err) && r.0.values == map[]
      ensures wcr(url).Ok? ==> r.0.values == wcr(url).value
      ensures wcr(url).Ok? && r.1 != None ==> r.1 == ftr(ToSave(wcr(url).value))
    {
      var ft := FrequencyTable("", None, map[]);
      match wcr(url)
      case Fail(err) =>
        (ft.(error := Some(err)), Some(err))
      case Ok(values) =>
        var ft := ft.(values := values);
        var err := ftr(ft);
        if err != None then (ft.(error := err), err) else (ft, None)
    }
  }

  /** The returned table is "valid" exactly when `Create` returns no error. */
  lemma CreateStatus(uc: CreateFrequencyTableUsecase, url: string)
    ensures uc.Create(url).0.Status() == (if uc.Create(url).1 == None then "valid" else "invalid")
  {
  }

  /** When extraction fails, `Save` is never called: no saver changes the outcome. */
  lemma CreateSkipsSaveAfterExtractFailure(uc: CreateFrequencyTableUsecase, other: Saver, url: string)
    requires uc.wcr(url).Fail?
    ensures uc.(ftr := other).Create(url) == uc.Create(url)
  {
  }

  /** `Save` is consulted only on the table holding the extracted counts. */
  lemma CreateSavesExtractedTable(uc: CreateFrequencyTableUsecase, other: Saver, url: string)
    requires uc.wcr(url).Ok?
    requires other(uc.ToSave(uc.wcr(url).value)) == uc.ftr(uc.ToSave(uc.wcr(url).value))
    ensures uc.(ftr := other).Create(url) == uc.Create(url)
  {
  }
}
