/** What the HTTP handlers answer, and the title rule shared by the three
    YAML upload handlers. */
module Common {
  import opened Json

  /** The outcome of one handler.
      - Success: 200 with the saved document or the result "ok";
      - NoContent: 204 after a delete;
      - BadRequest / NotFound: 400 / 404 with the error text;
      - InternalError: 500, an exception the handler's own try/catch caught;
      - Unhandled: an exception that escapes the handler, because it returns the
        promise of its helper without awaiting it inside its try block. */
  datatype Reply =
    | Success
    | NoContent
    | BadRequest(error: string)
    | NotFound(error: string)
    | InternalError
    | Unhandled

  const YamlSuffixLength: nat := 5

  /** `name.substring(0, name.length - 5)`: the uploaded file name without its
      last five characters; `substring` clamps a negative end to 0. */
  function YamlTitle(fileName: string): (title: string)
    ensures |fileName| < YamlSuffixLength ==> title == ""
    ensures |fileName| >= YamlSuffixLength ==>
              |title| == |fileName| - YamlSuffixLength &&
              title + fileName[|fileName| - YamlSuffixLength..] == fileName
  {
    if |fileName| < YamlSuffixLength then "" else fileName[..|fileName| - YamlSuffixLength]
  }

  /** Uploading `<title>.yaml` gives back `<title>`; any five-character
      extension is cut the same way. */
  lemma YamlTitleOfUpload(title: string, extension: string)
    requires |extension| == YamlSuffixLength
    ensures YamlTitle(title + extension) == title
  {
    assert (title + extension)[..|title|] == title;
  }

  /** A decoded YAML document with `title` set from the file name, as
      `fileContent['title'] = ...` does before the document is saved. */
  function YamlDocument(decoded: seq<Member>, fileName: string): (doc: seq<Member>)
    ensures Get(doc, "title") == Some(JStr(YamlTitle(fileName)))
    ensures forall k :: k != "title" ==> Get(doc, k) == Get(decoded, k)
  {
    Put(decoded, "title", JStr(YamlTitle(fileName)))
  }
}
