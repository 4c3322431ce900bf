/** `readTheInputsFrom` as a whole: extract the records of a form, then
    merge them into the catalog read from the catalog file. */
module Scraping {
  import opened Questions
  import opened Extractor
  import opened Catalog

  /** Extracts the numbered records of the form and merges them into the
      catalog loaded from `file`; the returned catalog holds what would be
      written back. Every record extracted has an entry in it afterwards. */
  method ReadTheInputsFromAndSave(form: seq<Container>, file: StoredCatalog, now: Timestamp)
    returns (questions: seq<Question>, questionCount: nat, catalog: QuestionCatalog)
    ensures questions == Numbered(Fields(form)) && questionCount == |questions|
    ensures fresh(catalog)
    ensures catalog.entries == MergeAll(Loaded(file), questions, now)
    ensures forall i :: 0 <= i < |questions| ==> KeyOf(questions[i]) in catalog.entries
  {
    questions, questionCount := ReadTheInputsFrom(form);
    catalog := new QuestionCatalog.Load(file);
    catalog.SaveQuestions(questions, now);
    forall i | 0 <= i < |questions|
      ensures KeyOf(questions[i]) in catalog.entries
    {
      MergeCoversBatch(Loaded(file), questions, now, i);
    }
  }
}
