/** The classifier handler (netlify/functions/analyze.js): it builds the evaluation
    prompt, and parses the service's free-text reply into a summary, details and a status. */
module Analyze {
  import opened Wrappers
  import opened Text
  import opened Wire

  // ---------------------------------------------------------------------
  // Reply parsing
  // ---------------------------------------------------------------------

  /** `output.trim().split('\n').filter(Boolean)`. */
  function Lines(output: string): (r: seq<string>)
    ensures forall i :: 0 <= i < |r| ==> r[i] != "" && r[i] in Split(Trim(output), '\n')
    ensures forall x :: x in Split(Trim(output), '\n') && x != "" ==> x in r
  {
    NonEmpty(Split(Trim(output), '\n'))
  }

  /** Every line is non-empty and has no line break, and the lines, concatenated,
      are the trimmed reply with its line breaks deleted (so they keep their order). */
  lemma LinesShape(output: string)
    ensures forall i :: 0 <= i < |Lines(output)| ==> Lines(output)[i] != "" && '\n' !in Lines(output)[i]
    ensures forall i :: 0 <= i < |Lines(output)| ==> Lines(output)[i] in Split(Trim(output), '\n')
    ensures Concat(Lines(output)) == Remove(Trim(output), '\n')
  {
    var t := Trim(output);
    var pieces := Split(t, '\n');
    var lines := NonEmpty(pieces);
    assert Lines(output) == lines;
    ConcatSplit(t, '\n');
    forall i | 0 <= i < |lines| ensures lines[i] != "" && '\n' !in lines[i] {
      var j :| 0 <= j < |pieces| && pieces[j] == lines[i];
    }
  }

  /** There are no lines exactly when the reply is all whitespace. */
  lemma LinesEmptyIff(output: string)
    ensures Lines(output) == [] <==> AllSpace(output)
  {
    TrimEmptyIff(output);
    var t := Trim(output);
    var pieces := Split(t, '\n');
    if t == [] {
      assert pieces == [""];
      assert NonEmpty(pieces) == NonEmpty(pieces[1..]);
      assert pieces[1..] == [];
    } else {
      ConcatSplit(t, '\n');
      assert Remove(t, '\n') == [t[0]] + Remove(t[1..], '\n');
      assert Concat(NonEmpty(pieces)) != "";
    }
  }

  /** A reply that is one line without surrounding whitespace is that single line. */
  lemma SingleLine(output: string)
    requires output != "" && Trimmed(output) && '\n' !in output
    ensures Lines(output) == [output]
  {
    TrimOfTrimmed(output);
    SplitNoSep(output, '\n');
  }

  /** `lines[0] || ''`. */
  function Summary(lines: seq<string>): (r: string)
    ensures |lines| > 0 ==> r == lines[0]
    ensures |lines| == 0 ==> r == ""
  {
    if |lines| > 0 && lines[0] != "" then lines[0] else ""
  }

  /** `lines.slice(1, -1)`: the lines strictly between the first and the last. */
  function Middle(lines: seq<string>): (r: seq<string>)
    ensures |lines| < 3 ==> r == []
    ensures |lines| >= 3 ==> |r| == |lines| - 2 && forall i :: 0 <= i < |r| ==> r[i] == lines[i + 1]
  {
    if |lines| >= 3 then lines[1..|lines| - 1] else []
  }

  /** `lines.slice(1, -1).join('\n').trim()`. */
  function Details(lines: seq<string>): (r: string)
    ensures Trimmed(r)
    ensures |lines| < 3 ==> r == ""
  {
    Trim(Join(Middle(lines), "\n"))
  }

  /** The if/else-if chain over the lower-cased status line: the first keyword found,
      in the order harmful, contradictory, incoherent, coherent, wins; none gives pending. */
  function DeriveStatus(statusLine: string): (r: Status)
    ensures r != Pending ==> Contains(statusLine, StatusName(r))
    ensures r == Pending <==>
      && !Contains(statusLine, "harmful") && !Contains(statusLine, "contradictory")
      && !Contains(statusLine, "incoherent") && !Contains(statusLine, "coherent")
    ensures r == Contradictory ==> !Contains(statusLine, "harmful")
    ensures r == Incoherent ==> !Contains(statusLine, "harmful") && !Contains(statusLine, "contradictory")
    ensures r == Coherent ==>
      !Contains(statusLine, "harmful") && !Contains(statusLine, "contradictory") && !Contains(statusLine, "incoherent")
  {
    if Contains(statusLine, "harmful") then Harmful
    else if Contains(statusLine, "contradictory") then Contradictory
    else if Contains(statusLine, "incoherent") then Incoherent
    else if Contains(statusLine, "coherent") then Coherent
    else Pending
  }

  /** A line that mentions "incoherent" is never classified coherent, although it
      also contains "coherent". */
  lemma IncoherentNeverCoherent(statusLine: string)
    requires Contains(statusLine, "incoherent")
    ensures DeriveStatus(statusLine) != Coherent && DeriveStatus(statusLine) != Pending
  {
    assert OccursAt("incoherent", "coherent", 2);
    ContainsAt("incoherent", "coherent", 2);
    ContainsTrans(statusLine, "incoherent", "coherent");
  }

  /** What V8 throws for `undefined.toLowerCase()`, the status line of an empty reply. */
  const UndefinedStatusLine := "Cannot read properties of undefined (reading 'toLowerCase')"

  /** The `try` block after the reply text is known: the parsed body, or the exception
      thrown when there is no last line. */
  function ParseReply(output: string): (r: Result<Body>)
    ensures r.Err? <==> AllSpace(output)
    ensures r.Err? ==> r.message == UndefinedStatusLine
    ensures r.Ok? ==>
      && r.value.Analysis?
      && r.value.summary == Lines(output)[0]
      && r.value.details == Details(Lines(output))
      && r.value.status == DeriveStatus(ToLower(Lines(output)[|Lines(output)| - 1]))
  {
    LinesEmptyIff(output);
    ParseLines(Lines(output))
  }

  /** The parse once the reply is split into its non-empty lines. */
  function ParseLines(lines: seq<string>): (r: Result<Body>)
    ensures r.Err? <==> |lines| == 0
    ensures r.Err? ==> r.message == UndefinedStatusLine
    ensures r.Ok? ==> r.value == Analysis(lines[0], Details(lines), DeriveStatus(ToLower(lines[|lines| - 1])))
  {
    if |lines| == 0 then Err(UndefinedStatusLine)
    else Ok(Analysis(Summary(lines), Details(lines), DeriveStatus(ToLower(lines[|lines| - 1]))))
  }

  /** A one-line reply is both the summary and the status line, with no details. */
  lemma OneLineReply(output: string)
    requires Lines(output) == [output]
    ensures ParseReply(output) == Ok(Analysis(output, "", DeriveStatus(ToLower(output))))
  {
    LinesEmptyIff(output);
  }

  /** The first keyword in priority order wins: "contradictory and harmful" is harmful. */
  lemma HarmfulOutranksContradictory(line: string)
    requires line == "this is clearly contradictory and harmful overall"
    ensures DeriveStatus(line) == Harmful
  {
    assert line[34..41] == "harmful";
    ContainsAt(line, "harmful", 34);
  }

  /** "incoherent" is classified incoherent, never coherent. */
  lemma IncoherentExample(line: string)
    requires line == "incoherent"
    ensures DeriveStatus(line) == Incoherent
  {
    MissingCharNotContained(line, "harmful", 'f');
    LongerNotContained(line, "contradictory");
    ContainsAt(line, "incoherent", 0);
  }

  /** A line naming only "coherent" is coherent. */
  lemma CoherentExample(line: string)
    requires line == "seems " + "coherent" + " enough"
    ensures DeriveStatus(line) == Coherent
  {
    assert 'f' !in line && 'd' !in line && 'i' !in line;
    MissingCharNotContained(line, "harmful", 'f');
    MissingCharNotContained(line, "contradictory", 'd');
    MissingCharNotContained(line, "incoherent", 'i');
    ContainsInfix("seems ", "coherent", " enough");
  }

  /** A status line naming no keyword leaves the status pending. */
  lemma NoKeywordIsPending(line: string)
    requires line == "unclear " + "rambling " + "text"
    ensures DeriveStatus(line) == Pending
  {
    assert 'h' !in line && 'd' !in line && 'o' !in line;
    MissingCharNotContained(line, "harmful", 'h');
    MissingCharNotContained(line, "contradictory", 'd');
    MissingCharNotContained(line, "incoherent", 'o');
    MissingCharNotContained(line, "coherent", 'o');
  }

  /** A three-line reply: its first line is the summary, its middle line the details,
      and its last line, lower-cased, decides the status. */
  lemma ThreeLineReply(out: string, a: string, b: string, c: string)
    requires out == a + "\n" + b + "\n" + c
    requires a != "" && b != "" && c != "" && Trimmed(a) && Trimmed(b) && Trimmed(c)
    requires '\n' !in a && '\n' !in b && '\n' !in c
    ensures ParseReply(out) == Ok(Analysis(a, b, DeriveStatus(ToLower(c))))
  {
    ThreeLines(out, a, b, c);
    var lines := Lines(out);
    assert Middle(lines) == [b];
    TrimOfTrimmed(b);
    assert Details(lines) == b;
    LinesEmptyIff(out);
  }

  /** Three trimmed, non-empty, break-free lines joined by line breaks split back into those lines. */
  lemma ThreeLines(out: string, a: string, b: string, c: string)
    requires out == a + "\n" + b + "\n" + c
    requires a != "" && c != "" && !IsSpace(a[0]) && !IsSpace(c[|c| - 1])
    requires '\n' !in a && '\n' !in b && '\n' !in c && b != ""
    ensures Lines(out) == [a, b, c]
  {
    JoinThree(a, b, c, "\n");
    assert out[0] == a[0] && out[|out| - 1] == c[|c| - 1];
    TrimOfTrimmed(out);
    SplitJoin([a, b, c], '\n');
    NonEmptyKeepsAll([a, b, c]);
  }

  /** Lines joined by line breaks, with no whitespace at the ends of the whole, are cut
      back at every break and only the empty ones are dropped. */
  lemma LinesOfJoin(xs: seq<string>)
    requires |xs| >= 1
    requires forall i :: 0 <= i < |xs| ==> '\n' !in xs[i]
    requires Trimmed(Join(xs, "\n"))
    ensures Lines(Join(xs, "\n")) == NonEmpty(xs)
  {
    TrimOfTrimmed(Join(xs, "\n"));
    SplitJoin(xs, '\n');
  }

  /** Non-empty, break-free lines joined by line breaks come back as exactly those lines. */
  lemma LinesOfCleanJoin(xs: seq<string>)
    requires |xs| >= 1
    requires forall i :: 0 <= i < |xs| ==> xs[i] != "" && '\n' !in xs[i]
    requires Trimmed(Join(xs, "\n"))
    ensures Lines(Join(xs, "\n")) == xs
  {
    LinesOfJoin(xs);
    NonEmptyKeepsAll(xs);
  }

  /** A blank line between two lines is dropped: "a\n\nb" has the lines a and b. */
  lemma BlankLineDropped(out: string, a: string, b: string)
    requires out == a + "\n\n" + b
    requires a != "" && b != "" && !IsSpace(a[0]) && !IsSpace(b[|b| - 1])
    requires '\n' !in a && '\n' !in b
    ensures Lines(out) == [a, b]
  {
    var xs := [a, "", b];
    JoinThree(a, "", b, "\n");
    assert Join(xs, "\n") == out;
    assert Trimmed(out) by {
      assert out[0] == a[0] && out[|out| - 1] == b[|b| - 1];
    }
    LinesOfJoin(xs);
    NonEmptyBlankMiddle(a, b);
  }

  lemma ContradictoryLine(line: string)
    requires line == "contradictory"
    ensures DeriveStatus(line) == Contradictory
  {
    MissingCharNotContained(line, "harmful", 'h');
    ContainsAt(line, "contradictory", 0);
  }

  // ---------------------------------------------------------------------
  // The prompt and the handler
  // ---------------------------------------------------------------------

  const PromptHead :=
    "\nYou are a logical and ethical evaluator of belief systems.\n\n"
    + "Analyze the following belief within the context of the core belief(s), upstream beliefs, "
    + "user-provided notes, and confidence level.\n\n"
    + "Return:\n1. A one-line TL;DR summary\n2. A more detailed paragraph explanation\n"
    + "3. A single word status label: coherent, incoherent, contradictory, or harmful\n\n"
    + "Core Belief(s):\n"

  const UpstreamHeading := "\n\nUpstream Beliefs:\n"
  const CurrentHeading := "\n\nCurrent Belief:\n"
  const NotesHeading := "\n\nUser Notes:\n"

  function ConfidenceLine(c: Confidence): string {
    "User Confidence: " + ConfidenceText(c)
  }

  /** The pieces of the template literal sent to the service, in order. */
  function PromptParts(req: AnalyzeRequest): seq<string>
  {
    [ PromptHead, JoinEntries(req.coreBeliefs, "\n"),
      UpstreamHeading, JoinEntries(req.upstreamBeliefs, "\n"),
      CurrentHeading, Interpolated(req.newBelief),
      NotesHeading, Interpolated(req.userNotes),
      "\n\n" + ConfidenceLine(req.confidence), "\n" ]
  }

  /** The template literal sent to the service. */
  function Prompt(req: AnalyzeRequest): (r: string)
    ensures IsPrefix(PromptHead, r)
  {
    var parts := PromptParts(req);
    assert Concat(parts) == PromptHead + Concat(parts[1..]);
    Concat(parts)
  }

  /** The prompt carries the candidate belief and the notes. */
  lemma PromptMentionsCandidate(req: AnalyzeRequest)
    ensures Contains(Prompt(req), Interpolated(req.newBelief))
    ensures Contains(Prompt(req), Interpolated(req.userNotes))
  {
    var parts := PromptParts(req);
    assert parts[5] == Interpolated(req.newBelief) && parts[7] == Interpolated(req.userNotes);
    ConcatContains(parts, 5);
    ConcatContains(parts, 7);
  }

  /** The prompt carries the confidence line. */
  lemma PromptMentionsConfidence(req: AnalyzeRequest)
    ensures Contains(Prompt(req), ConfidenceLine(req.confidence))
  {
    var parts := PromptParts(req);
    var conf := ConfidenceLine(req.confidence);
    ConcatContains(parts, 8);
    ContainsInfix("\n\n", conf, "");
    assert "\n\n" + conf + "" == parts[8];
    ContainsTrans(Prompt(req), parts[8], conf);
  }

  /** The prompt carries every core belief and every upstream belief. */
  lemma PromptMentionsContext(req: AnalyzeRequest)
    ensures forall i :: 0 <= i < |req.upstreamBeliefs| ==> Contains(Prompt(req), JoinItem(req.upstreamBeliefs[i]))
    ensures forall i :: 0 <= i < |req.coreBeliefs| ==> Contains(Prompt(req), JoinItem(req.coreBeliefs[i]))
  {
    PromptMentionsUpstream(req);
    PromptMentionsCore(req);
  }

  lemma PromptMentionsUpstream(req: AnalyzeRequest)
    ensures forall i :: 0 <= i < |req.upstreamBeliefs| ==> Contains(Prompt(req), JoinItem(req.upstreamBeliefs[i]))
  {
    var parts := PromptParts(req);
    assert parts[3] == JoinEntries(req.upstreamBeliefs, "\n");
    PromptMentionsJoined(Prompt(req), parts, 3, req.upstreamBeliefs);
  }

  lemma PromptMentionsCore(req: AnalyzeRequest)
    ensures forall i :: 0 <= i < |req.coreBeliefs| ==> Contains(Prompt(req), JoinItem(req.coreBeliefs[i]))
  {
    var parts := PromptParts(req);
    assert parts[1] == JoinEntries(req.coreBeliefs, "\n");
    PromptMentionsJoined(Prompt(req), parts, 1, req.coreBeliefs);
  }

  /** Every entry of a list joined into one part of a template occurs in the whole. */
  lemma PromptMentionsJoined(p: string, parts: seq<string>, k: int, es: seq<Entry>)
    requires 0 <= k < |parts| && p == Concat(parts) && parts[k] == JoinEntries(es, "\n")
    ensures forall i :: 0 <= i < |es| ==> Contains(p, JoinItem(es[i]))
  {
    ConcatContains(parts, k);
    forall i | 0 <= i < |es| ensures Contains(p, JoinItem(es[i])) {
      JoinContains(JoinItems(es), "\n", i);
      ContainsTrans(p, parts[k], JoinItem(es[i]));
    }
  }

  /** `result?.content?.[0]?.text || ''`. */
  function ReplyText(text: Option<string>): (r: string)
    ensures text.Some? ==> r == text.value
    ensures text.None? ==> r == ""
  {
    text.GetOr("")
  }

  /** `exports.handler`: the credential check, the service call, the parse, and the
      `catch` that turns any exception into a 500 carrying its message. */
  function Handle(hasKey: bool, req: AnalyzeRequest, service: ServiceReply): (x: Exchange)
    ensures !hasKey ==> x == Exchange(None, MissingKeyResponse())
    ensures hasKey ==> x.sent == Some(Prompt(req))
    ensures x.response.statusCode == 200 || x.response.statusCode == 500
    ensures x.response.statusCode == 200 <==>
      hasKey && service.Replied? && !AllSpace(ReplyText(service.text))
    ensures x.response.statusCode == 200 ==> Ok(x.response.body) == ParseReply(ReplyText(service.text))
    ensures hasKey && service.Threw? ==> x.response == ExceptionResponse(service.message)
    ensures hasKey && service.Replied? && AllSpace(ReplyText(service.text)) ==>
      x.response == ExceptionResponse(UndefinedStatusLine)
  {
    if !hasKey then Exchange(None, MissingKeyResponse())
    else
      var response :=
        match service
        case Threw(m) => ExceptionResponse(m)
        case Replied(t) =>
          match ParseReply(ReplyText(t))
          case Ok(body) => Response(200, body)
          case Err(m) => ExceptionResponse(m);
      Exchange(Some(Prompt(req)), response)
  }
}
