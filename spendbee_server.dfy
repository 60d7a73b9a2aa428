/**
 * The original server (`spendbee/src/server.ts`): the same `/api/upload`
 * handler with no CI mock, no CORS and an always-created client.
 */
module SpendBeeServer {
  import opened Wrappers
  import opened UploadEndpoint

  /** The `/api/upload` handler: 400 without a file, otherwise the `try` block. */
  method HandleUpload<J>(file: Option<UploadedFile>, decodeUtf8: seq<bv8> -> string,
                         extractPdf: seq<bv8> -> Attempt<string>, complete: string -> Attempt<Option<string>>,
                         parseJson: string -> Option<J>)
    returns (reply: Reply<J>, sent: Option<string>)
    ensures file.None? ==> reply == Reply(400, ErrorBody(NO_FILE)) && sent.None?
    ensures file.Some? ==> reply == Analysed(FileContent(file.value, decodeUtf8, extractPdf), complete, parseJson)
    ensures file.Some? && file.value.mimetype != CSV && file.value.mimetype != PDF ==>
      reply == Reply(400, ErrorBody(UNSUPPORTED)) && sent.None?
    ensures sent.Some? ==>
      (file.Some? && FileContent(file.value, decodeUtf8, extractPdf).Some? &&
       FileContent(file.value, decodeUtf8, extractPdf).value.Ok? &&
       sent.value == Prompt(FileContent(file.value, decodeUtf8, extractPdf).value.value))
    ensures reply.status == 200 <==> reply.body.AnalysisBody?
  {
    if file.None? {
      return Reply(400, ErrorBody(NO_FILE)), None;
    }
    reply, sent := AnalyseFile(file.value, decodeUtf8, extractPdf, complete, parseJson);
    AnalysedStatus(FileContent(file.value, decodeUtf8, extractPdf), complete, parseJson);
  }
}
