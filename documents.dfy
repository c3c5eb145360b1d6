/** LangChain's `Document`: a page of text with a string-keyed metadata dictionary. */
module Documents {

  datatype Document = Document(pageContent: string, metadata: map<string, string>)

  /** The page contents of `docs`, in order. */
  function Contents(docs: seq<Document>): (r: seq<string>)
    ensures |r| == |docs|
    ensures forall i :: 0 <= i < |docs| ==> r[i] == docs[i].pageContent
  {
    if docs == [] then [] else [docs[0].pageContent] + Contents(docs[1..])
  }
}
