/** The retrieval-augmented question answering script: the retrieved
    documents are serialised into one context text, and no answer is asked
    for when retrieval found nothing. The embedding, the vector search and
    the completion call are not modelled. */
module HealthcareRag {

  /** A retrieved document: its text and the label of where it came from. */
  datatype Document = Document(content: string, source: string)

  /** Characters each block adds around the source and the content:
      "Source: " (8), "\nContent: " (10) and "\n\n" (2). */
  const BlockOverhead: nat := 20

  /** The block one document contributes to the context. */
  function Block(d: Document): (b: string)
    ensures |b| == BlockOverhead + |d.source| + |d.content|
    ensures "Source: " <= b
  {
    "Source: " + d.source + "\nContent: " + d.content + "\n\n"
  }

  /** Reference definition of the context: the blocks of the documents,
      in retrieval order. */
  function Context(docs: seq<Document>): string
  {
    if |docs| == 0 then "" else Block(docs[0]) + Context(docs[1..])
  }

  /** Total length of the sources and contents of `docs`. */
  function TextLength(docs: seq<Document>): nat
  {
    if |docs| == 0 then 0 else |docs[0].source| + |docs[0].content| + TextLength(docs[1..])
  }

  /** The context of two document lists is the concatenation of their
      contexts. */
  lemma {:induction false} ContextAppend(a: seq<Document>, b: seq<Document>)
    ensures Context(a + b) == Context(a) + Context(b)
  {
    if |a| == 0 {
      assert a + b == b;
    } else {
      assert (a + b)[0] == a[0];
      assert (a + b)[1..] == a[1..] + b;
      ContextAppend(a[1..], b);
    }
  }

  /** The context is as long as the fixed overhead of each block plus the
      sources and contents themselves. */
  lemma {:induction false} ContextLength(docs: seq<Document>)
    ensures |Context(docs)| == BlockOverhead * |docs| + TextLength(docs)
  {
    if |docs| > 0 {
      ContextLength(docs[1..]);
    }
  }

  /** The context is empty exactly when there are no documents. */
  lemma ContextEmptyIff(docs: seq<Document>)
    ensures Context(docs) == "" <==> |docs| == 0
  {
    ContextLength(docs);
  }

  /** `build_context`: starts from the empty text and appends one block per
      document, in order. */
  method BuildContext(docs: seq<Document>) returns (context: string)
    ensures context == Context(docs)
    ensures |context| == BlockOverhead * |docs| + TextLength(docs)
  {
    context := "";
    var i := 0;
    while i < |docs|
      invariant 0 <= i <= |docs|
      invariant context == Context(docs[..i])
    {
      ContextAppend(docs[..i], [docs[i]]);
      assert docs[..i + 1] == docs[..i] + [docs[i]];
      context := context + Block(docs[i]);
      i := i + 1;
    }
    assert docs[..|docs|] == docs;
    ContextLength(docs);
  }

  /** What the script does with one question once retrieval has run: give
      up when nothing was found, otherwise ask the model with the question
      and the context. */
  datatype Outcome = NoDocumentsFound | Generate(question: string, context: string)

  /** The body of `main` after retrieval. */
  method Answer(question: string, docs: seq<Document>) returns (outcome: Outcome)
    ensures outcome.NoDocumentsFound? <==> |docs| == 0
    ensures outcome.Generate? ==> outcome.question == question && outcome.context == Context(docs)
    ensures outcome.Generate? ==> |outcome.context| > 0
  {
    if |docs| == 0 {
      return NoDocumentsFound;
    }
    var context := BuildContext(docs);
    ContextEmptyIff(docs);
    return Generate(question, context);
  }
}
