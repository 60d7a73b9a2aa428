/**
 * What the two `/api/upload` handlers have in common: the uploaded file, the
 * reply, and the `try` block that turns a CSV or PDF statement into normalised
 * lines, asks the model, and parses its answer. The libraries involved are
 * parameters: `decodeUtf8` is `buffer.toString("utf-8")`, `extractPdf` is
 * `pdf-parse` (`Thrown` when it throws), `complete` is the chat completion
 * call (`Thrown` when it throws; `None` when the first choice has no content),
 * and `parseJson` is `JSON.parse` (`None` when it throws).
 */
module UploadEndpoint {
  import opened Wrappers
  import opened Lines

  /** The outcome of a call that may throw. */
  datatype Attempt<T> = Ok(value: T) | Thrown

  /** `req.file` as multer leaves it in memory. */
  datatype UploadedFile = UploadedFile(mimetype: string, buffer: seq<bv8>)

  /** A JSON body: `{ analysis }` or `{ error }`. */
  datatype Body<J> = AnalysisBody(analysis: J) | ErrorBody(error: string)

  /** `res.status(status).json(body)`; `res.json` alone is status 200. */
  datatype Reply<J> = Reply(status: int, body: Body<J>)

  const CSV: string := "text/csv"
  const PDF: string := "application/pdf"

  const NO_FILE: string := "No file uploaded"
  const UNSUPPORTED: string := "Unsupported file type"
  const INVALID_JSON: string := "AI returned invalid JSON"
  const FAILED: string := "Failed to process file"

  const HEADER: string := "Bank statement lines:\n"

  /** The user message sent to the model: the header, then the file text; the text can be read back off it. */
  function Prompt(fileContent: string): (p: string)
    ensures |p| == |HEADER| + |fileContent| && p[..|HEADER|] == HEADER && p[|HEADER|..] == fileContent
  {
    HEADER + fileContent
  }

  /** The file text handed to the model, or why there is none. */
  function FileContent(file: UploadedFile, decodeUtf8: seq<bv8> -> string, extractPdf: seq<bv8> -> Attempt<string>)
    : Option<Attempt<string>>
  {
    if file.mimetype == CSV then Some(Ok(Normalise(decodeUtf8(file.buffer))))
    else if file.mimetype == PDF then
      match extractPdf(file.buffer)
      case Ok(text) => Some(Ok(Normalise(text)))
      case Thrown => Some(Thrown)
    else None
  }

  /** The reply of the `try` block, given the file content. */
  function Analysed<J>(content: Option<Attempt<string>>, complete: string -> Attempt<Option<string>>,
                       parseJson: string -> Option<J>): Reply<J>
  {
    match content
    case None => Reply(400, ErrorBody(UNSUPPORTED))
    case Some(Thrown) => Reply(500, ErrorBody(FAILED))
    case Some(Ok(fileContent)) =>
      match complete(Prompt(fileContent))
      case Thrown => Reply(500, ErrorBody(FAILED))
      case Ok(answer) =>
        match parseJson(answer.GetOr(""))
        case None => Reply(500, ErrorBody(INVALID_JSON))
        case Some(analysisJson) => Reply(200, AnalysisBody(analysisJson))
  }

  /**
   * The `try` block: `fileContent` from the CSV or PDF branch (or the early
   * return for any other type), the completion, and the JSON parse. Returns
   * the reply and the user message the model was sent, if any.
   */
  method AnalyseFile<J>(file: UploadedFile, decodeUtf8: seq<bv8> -> string, extractPdf: seq<bv8> -> Attempt<string>,
                        complete: string -> Attempt<Option<string>>, parseJson: string -> Option<J>)
    returns (reply: Reply<J>, sent: Option<string>)
    ensures reply == Analysed(FileContent(file, decodeUtf8, extractPdf), complete, parseJson)
    ensures sent.Some? <==> FileContent(file, decodeUtf8, extractPdf).Some? &&
                            FileContent(file, decodeUtf8, extractPdf).value.Ok?
    ensures sent.Some? ==> sent.value == Prompt(FileContent(file, decodeUtf8, extractPdf).value.value)
  {
    sent := None;
    var fileContent := "";
    if file.mimetype == CSV {
      var csvText := decodeUtf8(file.buffer);
      fileContent := Normalise(csvText);
    } else if file.mimetype == PDF {
      var result := extractPdf(file.buffer);
      if result.Thrown? {
        return Reply(500, ErrorBody(FAILED)), None;
      }
      fileContent := Normalise(result.value);
    } else {
      return Reply(400, ErrorBody(UNSUPPORTED)), None;
    }

    sent := Some(Prompt(fileContent));
    var completion := complete(Prompt(fileContent));
    if completion.Thrown? {
      return Reply(500, ErrorBody(FAILED)), sent;
    }
    var analysisText := completion.value.GetOr("");

    var analysisJson := parseJson(analysisText);
    if analysisJson.None? {
      return Reply(500, ErrorBody(INVALID_JSON)), sent;
    }
    reply := Reply(200, AnalysisBody(analysisJson.value));
  }

  /** Success is status 200 with the parsed answer; every failure is 400 or 500 with one of the known messages. */
  lemma AnalysedStatus<J>(content: Option<Attempt<string>>, complete: string -> Attempt<Option<string>>,
                          parseJson: string -> Option<J>)
    ensures var r := Analysed(content, complete, parseJson);
      (r.status == 200 <==> r.body.AnalysisBody?) &&
      (r.body.ErrorBody? ==> r.status in {400, 500} && r.body.error in {UNSUPPORTED, FAILED, INVALID_JSON}) &&
      (r.status == 400 <==> content.None?)
  {
  }

  /** The answer is served exactly when the content was read, the model answered and the answer parsed. */
  lemma AnalysedSuccess<J>(content: Option<Attempt<string>>, complete: string -> Attempt<Option<string>>,
                           parseJson: string -> Option<J>, j: J)
    ensures Analysed(content, complete, parseJson) == Reply(200, AnalysisBody(j)) <==>
      content.Some? && content.value.Ok? && complete(Prompt(content.value.value)).Ok? &&
      parseJson(complete(Prompt(content.value.value)).value.GetOr("")) == Some(j)
  {
  }

  /** Any type other than CSV or PDF is refused with 400, and nothing is read. */
  lemma UnsupportedType(file: UploadedFile, decodeUtf8: seq<bv8> -> string, extractPdf: seq<bv8> -> Attempt<string>)
    requires file.mimetype != CSV && file.mimetype != PDF
    ensures FileContent(file, decodeUtf8, extractPdf) == None
  {
  }

  /** A CSV file and a PDF whose extracted text equals the CSV's text are treated alike. */
  lemma CsvAndPdfAlike(csvBuffer: seq<bv8>, pdfBuffer: seq<bv8>, decodeUtf8: seq<bv8> -> string,
                       extractPdf: seq<bv8> -> Attempt<string>)
    requires extractPdf(pdfBuffer) == Ok(decodeUtf8(csvBuffer))
    ensures FileContent(UploadedFile(CSV, csvBuffer), decodeUtf8, extractPdf) ==
            FileContent(UploadedFile(PDF, pdfBuffer), decodeUtf8, extractPdf)
  {
  }

  /** What the model is sent after the header is normalised text: no blank lines, every line trimmed. */
  lemma FileContentNormalised(file: UploadedFile, decodeUtf8: seq<bv8> -> string, extractPdf: seq<bv8> -> Attempt<string>)
    requires FileContent(file, decodeUtf8, extractPdf).Some? && FileContent(file, decodeUtf8, extractPdf).value.Ok?
    ensures var text := FileContent(file, decodeUtf8, extractPdf).value.value;
      Normalise(text) == text
  {
    var c := FileContent(file, decodeUtf8, extractPdf).value.value;
    if file.mimetype == CSV {
      NormaliseIdempotent(decodeUtf8(file.buffer));
    } else {
      NormaliseIdempotent(extractPdf(file.buffer).value);
    }
  }
}
