/** The JSON values exchanged between the app, the two serverless handlers and the
    reasoning service, as datatypes. */
module Wire {
  import opened Wrappers
  import opened Text

  /** A JSON string that may be `null`: every `prompt()` answer is one (null on cancel). */
  type Entry = Option<string>

  /** The status taxonomy the classifier handler can return. */
  datatype Status = Coherent | Incoherent | Contradictory | Harmful | Pending

  /** The status as it appears on the wire; the same word is the keyword searched for. */
  function StatusName(s: Status): string {
    match s
    case Coherent => "coherent"
    case Incoherent => "incoherent"
    case Contradictory => "contradictory"
    case Harmful => "harmful"
    case Pending => "pending"
  }

  /** `parseInt`'s result once it has gone through JSON: a number, or NaN (sent as null). */
  datatype Confidence = Num(n: int) | NaN

  /** The body of the request the app posts to the classifier handler. */
  datatype AnalyzeRequest = AnalyzeRequest(
    coreBeliefs: seq<Entry>,
    upstreamBeliefs: seq<Entry>,
    newBelief: Entry,
    confidence: Confidence,
    userNotes: Entry)

  /** A response body: the classifier's result, a suggestion, or an error message. */
  datatype Body =
    | Analysis(summary: string, details: string, status: Status)
    | Suggestion(suggestion: string)
    | Failure(error: string)

  datatype Response = Response(statusCode: int, body: Body)

  /** What the call to the reasoning service ended with: an exception (transport
      failure, unreadable JSON) or a reply whose first content block's text may be absent. */
  datatype ServiceReply = Threw(message: string) | Replied(text: Option<string>)

  /** One handler invocation: the prompt it sent to the service, if any, and its response. */
  datatype Exchange = Exchange(sent: Option<string>, response: Response)

  const MissingKeyMessage := "Claude API key missing"

  /** The response of either handler when the service credential is not configured. */
  function MissingKeyResponse(): (r: Response)
    ensures r.statusCode == 500 && r.body.Failure?
  {
    Response(500, Failure(MissingKeyMessage))
  }

  /** The response of either handler when its `try` block throws. */
  function ExceptionResponse(message: string): (r: Response)
    ensures r.statusCode == 500 && r.body == Failure(message)
  {
    Response(500, Failure(message))
  }

  /** `${e}` in a template literal: null renders as "null". */
  function Interpolated(e: Entry): (r: string)
    ensures e.Some? ==> r == e.value
    ensures e.None? ==> r == "null"
    ensures r == JoinItem(e) <==> e.Some?
  {
    e.GetOr("null")
  }

  /** An element of `Array.prototype.join`: null renders as the empty string. */
  function JoinItem(e: Entry): string {
    e.GetOr("")
  }

  /** `es.join(sep)` over nullable strings. */
  function JoinEntries(es: seq<Entry>, sep: string): string {
    Join(JoinItems(es), sep)
  }

  function JoinItems(es: seq<Entry>): (r: seq<string>)
    ensures |r| == |es| && forall i :: 0 <= i < |es| ==> r[i] == JoinItem(es[i])
  {
    if |es| == 0 then [] else [JoinItem(es[0])] + JoinItems(es[1..])
  }

  /** `${confidence}` after the JSON round trip: NaN was sent as null. */
  function ConfidenceText(c: Confidence): string {
    match c
    case Num(n) => IntToString(n)
    case NaN => "null"
  }

  /** The confidence as written into the prompt reads back, through `parseInt`, as the
      number it was; NaN is written "null", which reads as NaN again. */
  lemma ConfidenceTextReadsBack(c: Confidence)
    ensures c.Num? ==> ParseInt(ConfidenceText(c)) == Some(c.n)
    ensures c.NaN? ==> ConfidenceText(c) == "null" && ParseInt(ConfidenceText(c)).None?
  {
    match c
    case Num(n) =>
      ParseIntOfIntToString(n);
    case NaN =>
      var s := "null";
      assert !IsSpace(s[0]) && !IsDigit(s[0]);
      assert TrimStart(s) == s;
  }
}
