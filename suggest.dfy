/** The suggestion handler (netlify/functions/suggest.js): it lists the existing
    beliefs as a numbered prompt and returns the service's trimmed reply, or a
    fixed fallback when the reply is missing or blank. */
module Suggest {
  import opened Wrappers
  import opened Text
  import opened Wire

  const Fallback := "No suggestion available."

  /** `result?.content?.[0]?.text?.trim() || 'No suggestion available.'`. */
  function SuggestionText(text: Option<string>): (r: string)
    ensures r != "" && Trimmed(r)
    ensures text.Some? && !AllSpace(text.value) ==> r == Trim(text.value)
    ensures text.None? || AllSpace(text.value) ==> r == Fallback
  {
    match text
    case None => Fallback
    case Some(t) =>
      TrimEmptyIff(t);
      var trimmed := Trim(t);
      if trimmed != "" then trimmed else Fallback
  }

  /** A suggestion comes back unchanged when the handler sees it again: it is already trimmed. */
  lemma SuggestionStable(text: Option<string>)
    ensures SuggestionText(Some(SuggestionText(text))) == SuggestionText(text)
  {
    var r := SuggestionText(text);
    TrimOfTrimmed(r);
    TrimEmptyIff(r);
  }

  /** One entry of the list: `${i + 1}. ${b}`. */
  function NumberedLine(n: nat, belief: Entry): string {
    NatToString(n) + ". " + Interpolated(belief)
  }

  /** `beliefs.map((b, i) => ...)` with the numbering starting at `first`. */
  function NumberedFrom(beliefs: seq<Entry>, first: nat): (r: seq<string>)
    ensures |r| == |beliefs|
    ensures forall i :: 0 <= i < |beliefs| ==> r[i] == NumberedLine(first + i, beliefs[i])
  {
    if |beliefs| == 0 then []
    else [NumberedLine(first, beliefs[0])] + NumberedFrom(beliefs[1..], first + 1)
  }

  /** The existing beliefs, one per line, numbered from 1 in input order. */
  function NumberedList(beliefs: seq<Entry>): (r: string)
    ensures r == "" <==> |beliefs| == 0
  {
    Join(NumberedFrom(beliefs, 1), "\n")
  }

  /** When no belief spans several lines, the list's lines are exactly the numbered entries. */
  lemma NumberedListLines(beliefs: seq<Entry>)
    requires |beliefs| > 0
    requires forall i :: 0 <= i < |beliefs| ==> '\n' !in Interpolated(beliefs[i])
    ensures Split(NumberedList(beliefs), '\n') == NumberedFrom(beliefs, 1)
    ensures forall i :: 0 <= i < |beliefs| ==>
      Split(NumberedList(beliefs), '\n')[i] == NatToString(i + 1) + ". " + Interpolated(beliefs[i])
  {
    var lines := NumberedFrom(beliefs, 1);
    forall i | 0 <= i < |lines| ensures '\n' !in lines[i] {
      NumberedLineNoBreak(1 + i, beliefs[i]);
    }
    SplitJoin(lines, '\n');
  }

  lemma NumberedLineNoBreak(n: nat, belief: Entry)
    requires '\n' !in Interpolated(belief)
    ensures '\n' !in NumberedLine(n, belief)
  {
    var d := NatToString(n);
    assert '\n' !in d;
  }

  const PromptHead :=
    "\nYou are an AI reasoning assistant tasked with helping users explore their belief systems.\n\n"
    + "The user has already entered the following beliefs:\n"

  const PromptTail :=
    "\n\nSuggest one new belief that might:\n- Build upon these existing beliefs\n"
    + "- Contradict them in an interesting way\n- Introduce a new angle or implication\n\n"
    + "Respond ONLY with the new belief suggestion, nothing else.\n"

  /** The template literal sent to the service. */
  function Prompt(beliefs: seq<Entry>): (r: string)
    ensures IsPrefix(PromptHead, r)
    ensures Contains(r, NumberedList(beliefs))
  {
    var parts := [PromptHead, NumberedList(beliefs), PromptTail];
    assert Concat(parts) == PromptHead + Concat(parts[1..]);
    ConcatContains(parts, 1);
    Concat(parts)
  }

  /** The prompt lists every existing belief under its number. */
  lemma PromptListsBeliefs(beliefs: seq<Entry>, i: nat)
    requires i < |beliefs|
    ensures Contains(Prompt(beliefs), NatToString(i + 1) + ". " + Interpolated(beliefs[i]))
  {
    var parts := [PromptHead, NumberedList(beliefs), PromptTail];
    ConcatContains(parts, 1);
    JoinContains(NumberedFrom(beliefs, 1), "\n", i);
    ContainsTrans(Prompt(beliefs), NumberedList(beliefs), NumberedFrom(beliefs, 1)[i]);
  }

  /** `exports.handler`: the credential check, the service call, and the `catch`
      that turns any exception into a 500 carrying its message. */
  function Handle(hasKey: bool, existingBeliefs: seq<Entry>, service: ServiceReply): (x: Exchange)
    ensures !hasKey ==> x == Exchange(None, MissingKeyResponse())
    ensures hasKey ==> x.sent == Some(Prompt(existingBeliefs))
    ensures x.response.statusCode == 200 <==> hasKey && service.Replied?
    ensures x.response.statusCode == 200 ==>
      && x.response.body == Suggestion(SuggestionText(service.text))
      && x.response.body.suggestion != ""
    ensures hasKey && service.Threw? ==> x.response == ExceptionResponse(service.message)
  {
    if !hasKey then Exchange(None, MissingKeyResponse())
    else
      var response :=
        match service
        case Threw(m) => ExceptionResponse(m)
        case Replied(t) => Response(200, Suggestion(SuggestionText(t)));
      Exchange(Some(Prompt(existingBeliefs)), response)
  }

  /** A blank reply still yields a non-empty suggestion: the fallback. */
  lemma BlankReplyFallsBack(beliefs: seq<Entry>)
    ensures Handle(true, beliefs, Replied(Some(""))).response == Response(200, Suggestion(Fallback))
  {
  }
}
