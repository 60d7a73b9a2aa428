/**
 * The upload panel (`Upload.tsx`): the selected file, the error message and
 * the analysis, and the three handlers that update them. The `fetch` of the
 * upload is an input: what the server answered, or that the request failed.
 */
module Upload {
  import opened Wrappers

  /** The file the browser hands over: only its type matters here. */
  datatype SelectedFile = SelectedFile(name: string, mimetype: string)

  /** What `handleUpload` got back: the parsed `{ error, analysis }` body, or a thrown failure. */
  datatype FetchOutcome<A> = Responded(error: Option<string>, analysis: Option<A>) | Failed

  const ALLOWED_TYPES: seq<string> := ["application/pdf", "text/csv"]
  const WRONG_TYPE: string := "Only PDF or CSV files are allowed."
  const UPLOAD_FAILED: string := "Failed to upload file"

  /** `data.error` is truthy: present and not empty. */
  predicate ReportsError<A>(outcome: FetchOutcome<A>) {
    outcome.Responded? && outcome.error.Some? && outcome.error.value != []
  }

  class UploadPanel<A> {
    var file: Option<SelectedFile>
    var error: string
    var analysis: Option<A>

    /** The panel only ever holds a file of an allowed type. */
    predicate Valid()
      reads this
    {
      file.Some? ==> file.value.mimetype in ALLOWED_TYPES
    }

    /** An error message and an analysis are not shown together. */
    predicate Settled()
      reads this
    {
      !(error != [] && analysis.Some?)
    }

    /** The panel as it first renders: nothing chosen, no error, no analysis. */
    constructor()
      ensures file == None && error == [] && analysis == None
      ensures Valid() && Settled()
    {
      file := None;
      error := [];
      analysis := None;
    }

    /**
     * `handleFileChange`: nothing selected changes nothing; a file of another
     * type is refused (the analysis stays); an allowed file is taken and the
     * error and analysis are cleared.
     */
    method HandleFileChange(selected: Option<SelectedFile>)
      requires Valid()
      modifies this
      ensures Valid()
      ensures selected.None? ==> file == old(file) && error == old(error) && analysis == old(analysis)
      ensures selected.Some? && selected.value.mimetype !in ALLOWED_TYPES ==>
        file == None && error == WRONG_TYPE && analysis == old(analysis)
      ensures selected.Some? && selected.value.mimetype in ALLOWED_TYPES ==>
        file == selected && error == [] && analysis == None && Settled()
    {
      if selected.None? {
        return;
      }
      var allowedTypes := ALLOWED_TYPES;
      if selected.value.mimetype !in allowedTypes {
        error := WRONG_TYPE;
        file := None;
        return;
      }
      file := selected;
      error := [];
      analysis := None;
    }

    /** `handleRemove`: back to the state the panel first rendered with. */
    method HandleRemove()
      modifies this
      ensures file == None && error == [] && analysis == None
      ensures Valid() && Settled()
    {
      file := None;
      error := [];
      analysis := None;
    }

    /**
     * `handleUpload`: without a file nothing happens and nothing is sent;
     * otherwise the chosen file is posted and the outcome decides the error
     * and the analysis. Whatever the outcome, error and analysis are not both set.
     */
    method HandleUpload(outcome: FetchOutcome<A>) returns (posted: Option<SelectedFile>)
      requires Valid()
      modifies this
      ensures Valid() && file == old(file) && posted == old(file)
      ensures old(file).None? ==> error == old(error) && analysis == old(analysis)
      ensures old(file).Some? && ReportsError(outcome) ==> error == outcome.error.value && analysis == None
      ensures old(file).Some? && outcome.Responded? && !ReportsError(outcome) ==>
        analysis == outcome.analysis && error == []
      ensures old(file).Some? && outcome.Failed? ==> error == UPLOAD_FAILED && analysis == None
      ensures old(file).Some? ==> Settled()
    {
      if file.None? {
        return None;
      }
      posted := file;
      match outcome {
        case Responded(dataError, dataAnalysis) =>
          if dataError.Some? && dataError.value != [] {
            error := dataError.value;
            analysis := None;
          } else {
            analysis := dataAnalysis;
            error := [];
          }
        case Failed =>
          error := UPLOAD_FAILED;
          analysis := None;
      }
    }
  }

  /**
   * A refused selection after an analysis leaves both the error and the old
   * analysis in place: only `handleUpload` and `handleRemove` settle the panel.
   */
  method RefusedSelectionKeepsAnalysis<A>(a: A) returns (panel: UploadPanel<A>)
    ensures panel.error == WRONG_TYPE && panel.analysis == Some(a)
  {
    panel := new UploadPanel();
    panel.HandleFileChange(Some(SelectedFile("statement.csv", "text/csv")));
    var _ := panel.HandleUpload(Responded(None, Some(a)));
    panel.HandleFileChange(Some(SelectedFile("photo.png", "image/png")));
  }
}
