/** The enrichment client of enricher.py (`get_enriched_data_from_gemini`):
    choose a context, short-circuit when there is none, otherwise ask the
    generative model and turn its free-form reply into a
    {summary, tags, category} result that is always populated. */
module Enrichment {
  import opened Outcomes
  import opened Text
  import opened Json

  /** The foreign calls the client makes. */
  datatype Services = Services(
    /** The generative-model call on (model name, prompt): the reply text, or
        None when the call raises or the response carries no text. */
    generate: (string, string) -> Option<string>,
    /** `json.loads`: the decoded value, or None when it raises. */
    loads: string -> Option<Json>)

  /** The dictionary the client returns. `tags` is always a string; the
      summary and category are whatever the reply held under those keys. */
  datatype Enriched = Enriched(summary: Json, tags: string, category: Json)

  /** The result when there is no context to enrich from. */
  const NotEnoughContent := Enriched(Str("Not enough content."), "", Str("Uncategorized"))

  /** The result when the model call or the parsing of its reply fails. */
  const ErrorResult := Enriched(Str("Error"), "Error", Str("Error"))

  /** The text sent to the model: the transcript when it is truthy, else the
      description. */
  function Context(description: Json, transcript: Json): Json {
    if Truthy(transcript) then transcript else description
  }

  /** The fixed-shape prompt asking for the three fields. */
  const PromptIntro: string :=
    "\nYou are an expert YouTube video metadata enrichment agent and cataloger. "
    + "Analyze the provided video title and content and return output for a cataloging system. "
    + "Output a JSON object with:\n"
    + "- summary: A concise one-sentence summary.\n"
    + "- tags: A list of up to 7 specific, informative tags.\n"
    + "- category: The most relevant YouTube category.\n"
    
  function Prompt(title: Json, context: Json): string {
    PromptIntro + "\nVideo Title: " + PyStr(title) + "\nVideo Content:\n" + PyStr(context) + "\n"
  }

  /* ---------------------------------------------------------------------- */
  /* Cleaning the reply                                                      */
  /* ---------------------------------------------------------------------- */

  /** The stripped reply both starts and ends with a three-backtick fence. */
  predicate IsFenced(t: string) {
    StartsWith(t, "```") && EndsWith(t, "```")
  }

  /** `t` starts with `json` and a newline, letters compared case-insensitively
      the way Python's `re.IGNORECASE` does, which also matches 's' with the
      long s U+017F. */
  predicate HasJsonHint(t: string) {
    && |t| >= 5
    && (t[0] == 'j' || t[0] == 'J')
    && (t[1] == 's' || t[1] == 'S' || t[1] == '\U{17f}')
    && (t[2] == 'o' || t[2] == 'O')
    && (t[3] == 'n' || t[3] == 'N')
    && t[4] == '\n'
  }

  /** The reply with surrounding whitespace removed and, when it is fenced,
      every outer backtick, the whitespace inside the fence and a leading
      `json` language hint removed as well. */
  function CleanReply(reply: string): string {
    var t := Strip(reply);
    if IsFenced(t) then
      var u := Strip(StripBy(t, Chars("`")));
      if HasJsonHint(u) then u[5..] else u
    else t
  }

  /** The greedy pattern `\{.*\}` (dot matching newlines) matches somewhere:
      some '{' comes before some '}'. */
  predicate HasBracePair(text: string) {
    exists i, j :: 0 <= i < j < |text| && text[i] == '{' && text[j] == '}'
  }

  /** The span from the first '{' to the last '}' when the pattern matches,
      otherwise the whole cleaned text. */
  function Candidate(text: string): (r: string)
    ensures !HasBracePair(text) ==> r == text
    ensures HasBracePair(text) ==>
      exists i, j :: 0 <= i < j < |text| && r == text[i..j + 1]
        && text[i] == '{' && text[j] == '}'
        && (forall k :: 0 <= k < i ==> text[k] != '{')
        && (forall k :: j < k < |text| ==> text[k] != '}')
  {
    var open := IndexOf(text, '{');
    var close := LastIndexOf(text, '}');
    if open < close then
      text[open..close + 1]
    else
      text
  }

  /* ---------------------------------------------------------------------- */
  /* Reading the decoded reply                                               */
  /* ---------------------------------------------------------------------- */

  /** The tag string: a list's elements, each `str()`-ed and stripped, joined
      with ", "; a string as it is; anything else the empty string. */
  function TagsText(tags: Json): string {
    match tags
    case Arr(items) => Join(seq(|items|, k requires 0 <= k < |items| => Strip(PyStr(items[k]))), ", ")
    case Str(s) => s
    case _ => ""
  }

  /** The result built from a decoded reply dictionary, with the defaults for
      missing keys. */
  function FromFields(fields: Dict): Enriched {
    Enriched(
      Get(fields, "summary", Str("No summary provided.")),
      TagsText(Get(fields, "tags", Arr([]))),
      Get(fields, "category", Str("Uncategorized")))
  }

  /** The result for a reply text: the candidate is decoded; a value that is
      not a dictionary fails on `.get` like one that does not decode. */
  function ParseReply(reply: string, loads: string -> Option<Json>): Enriched {
    match loads(Candidate(CleanReply(reply)))
    case Some(Obj(fields)) => FromFields(fields)
    case _ => ErrorResult
  }

  /** `get_enriched_data_from_gemini(title, description, transcript, model)`. */
  function Enrich(title: Json, description: Json, transcript: Json, modelName: string, services: Services): Enriched {
    var context := Context(description, transcript);
    if !Truthy(context) then NotEnoughContent
    else
      match services.generate(modelName, Prompt(title, context))
      case None => ErrorResult
      case Some(reply) => ParseReply(reply, services.loads)
  }

  /* ---------------------------------------------------------------------- */
  /* Properties                                                              */
  /* ---------------------------------------------------------------------- */

  /** With neither a truthy transcript nor a truthy description the result
      is the fixed "not enough content" triple, whatever the model would have
      said: the model is not consulted. */
  lemma EmptyContextShortCircuits(title: Json, description: Json, transcript: Json, modelName: string,
                                  services: Services, other: Services)
    requires !Truthy(transcript) && !Truthy(description)
    ensures Enrich(title, description, transcript, modelName, services) == NotEnoughContent
    ensures Enrich(title, description, transcript, modelName, services)
         == Enrich(title, description, transcript, modelName, other)
  {
  }

  /** A truthy transcript is the context: the description then plays no part,
      and the model is asked with the transcript in the prompt. */
  lemma TranscriptIsPreferred(title: Json, description: Json, otherDescription: Json, transcript: Json,
                              modelName: string, services: Services)
    requires Truthy(transcript)
    ensures Enrich(title, description, transcript, modelName, services)
         == Enrich(title, otherDescription, transcript, modelName, services)
    ensures services.generate(modelName, Prompt(title, transcript)).None? ==>
              Enrich(title, description, transcript, modelName, services) == ErrorResult
  {
  }

  /** Whenever there is context, a failed model call, a candidate that does
      not decode, or one that decodes to something other than a dictionary,
      gives exactly the "Error" triple. */
  lemma FailureGivesErrorTriple(title: Json, description: Json, transcript: Json, modelName: string,
                                services: Services)
    requires Truthy(Context(description, transcript))
    requires var reply := services.generate(modelName, Prompt(title, Context(description, transcript)));
      reply.None? || !services.loads(Candidate(CleanReply(reply.value))).Some?
      || !services.loads(Candidate(CleanReply(reply.value))).value.Obj?
    ensures Enrich(title, description, transcript, modelName, services) == ErrorResult
  {
  }

  /** A dictionary without the summary, tags or category key gets the
      placeholder summary, the empty tag string and the "Uncategorized"
      category respectively; present keys are taken as they are. */
  lemma MissingFieldsDefault(fields: Dict)
    ensures !HasKey(fields, "summary") ==> FromFields(fields).summary == Str("No summary provided.")
    ensures !HasKey(fields, "tags") ==> FromFields(fields).tags == ""
    ensures !HasKey(fields, "category") ==> FromFields(fields).category == Str("Uncategorized")
    ensures HasKey(fields, "summary") ==> ("summary", FromFields(fields).summary) in fields
    ensures HasKey(fields, "category") ==> ("category", FromFields(fields).category) in fields
  {
  }

  /** Tags given as a list of already-stripped strings and tags given as the
      same strings joined with ", " normalise to the same text. */
  lemma TagsListAndStringAgree(items: seq<Json>, parts: seq<string>)
    requires |items| == |parts|
    requires forall k :: 0 <= k < |parts| ==> items[k] == Str(parts[k])
    requires forall k :: 0 <= k < |parts| ==> Strip(parts[k]) == parts[k]
    ensures TagsText(Arr(items)) == TagsText(Str(Join(parts, ", "))) == Join(parts, ", ")
  {
    assert seq(|items|, k requires 0 <= k < |items| => Strip(PyStr(items[k]))) == parts;
  }

  /** A JSON object surrounded by text holding no '{' before it and no '}'
      after it is exactly the candidate. */
  lemma CandidateOfEmbeddedObject(pre: string, body: string, post: string)
    requires |body| >= 2 && body[0] == '{' && body[|body| - 1] == '}'
    requires forall k :: 0 <= k < |pre| ==> pre[k] != '{'
    requires forall k :: 0 <= k < |post| ==> post[k] != '}'
    ensures Candidate(pre + body + post) == body
  {
    var text := pre + body + post;
    var a := |pre|;
    var b := |pre| + |body| - 1;
    assert text[a] == '{' && text[b] == '}';
    assert forall k :: 0 <= k < a ==> text[k] == pre[k];
    assert forall k :: b < k < |text| ==> text[k] == post[k - b - 1];
    IndexOfIs(text, '{', a);
    LastIndexOfIs(text, '}', b);
    assert text[a..b + 1] == body;
  }

  /** The body of a JSON object is a non-empty text from '{' to '}'. */
  predicate IsObjectText(body: string) {
    |body| >= 2 && body[0] == '{' && body[|body| - 1] == '}'
  }

  /** A language hint after the opening fence: none, or `json` in any case. */
  predicate IsHint(hint: string) {
    hint == "" || (|hint| == 4 && HasJsonHint(hint + "\n"))
  }

  /** An object alone on its line inside a fence is stripped to itself. */
  lemma FenceInsideWithoutHint(body: string)
    requires IsObjectText(body)
    ensures Strip("\n" + body + "\n") == body && !HasJsonHint(body)
  {
    StripByPadded("\n", body, "\n", Whitespace);
  }

  /** After a `json` hint line, stripping keeps the hint and the object. */
  lemma FenceInsideWithHint(hint: string, body: string)
    requires |hint| == 4 && HasJsonHint(hint + "\n")
    requires IsObjectText(body)
    ensures var core := hint + "\n" + body;
      Strip(core + "\n") == core && HasJsonHint(core) && core[5..] == body
  {
    var line := hint + "\n";
    var core := line + body;
    assert core[..5] == line;
    assert HasJsonHint(core);
    assert core[0] == hint[0] && core[|core| - 1] == '}';
    assert core + "\n" == "" + core + "\n";
    StripByPadded("", core, "\n", Whitespace);
  }

  /** Inside a fence, the whitespace and an optional `json` hint go. */
  lemma FenceInsideCleans(hint: string, body: string)
    requires IsHint(hint) && IsObjectText(body)
    ensures var u := Strip(hint + "\n" + body + "\n");
      (if HasJsonHint(u) then u[5..] else u) == body
  {
    if hint == "" {
      assert hint + "\n" + body + "\n" == "\n" + body + "\n";
      FenceInsideWithoutHint(body);
    } else {
      FenceInsideWithHint(hint, body);
    }
  }

  /** Every character of `s` is whitespace. */
  predicate AllSpace(s: string) {
    forall k :: 0 <= k < |s| ==> IsSpace(s[k])
  }

  /** The fenced block as it stands once the outer whitespace is gone. */
  function Fenced(hint: string, body: string): string {
    "```" + hint + "\n" + body + "\n```"
  }

  /** The fence's backticks go and leave the hint line, the object and the
      closing newline. */
  lemma FenceOpens(hint: string, body: string)
    requires IsHint(hint) && IsObjectText(body)
    ensures IsFenced(Fenced(hint, body))
    ensures StripBy(Fenced(hint, body), Chars("`")) == hint + "\n" + body + "\n"
  {
    var inner := hint + "\n" + body + "\n";
    var fenced := "```" + inner + "```";
    assert Fenced(hint, body) == fenced;
    assert fenced[..3] == "```";
    assert fenced[|fenced| - 3..] == "```";
    assert inner[0] == (if hint == "" then '\n' else hint[0]);
    assert inner[|inner| - 1] == '\n';
    StripByPadded("```", inner, "```", Chars("`"));
  }

  /** A reply fenced with three backticks, optionally tagged `json` (in any
      case), padded with whitespace outside the fence and a newline inside
      it, cleans to the bare object. */
  lemma FencedReplyCleans(lead: string, hint: string, body: string, trail: string)
    requires AllSpace(lead) && AllSpace(trail)
    requires IsHint(hint) && IsObjectText(body)
    ensures CleanReply(lead + Fenced(hint, body) + trail) == body
  {
    var fenced := Fenced(hint, body);
    assert fenced[0] == '`' && fenced[|fenced| - 1] == '`';
    StripByPadded(lead, fenced, trail, Whitespace);
    FenceOpens(hint, body);
    FenceInsideCleans(hint, body);
  }

  /** A bare object is its own cleaned text and its own candidate. */
  lemma BareObjectIsCandidate(body: string)
    requires IsObjectText(body)
    ensures CleanReply(body) == body
    ensures Candidate(body) == body
  {
    StripByPadded("", body, "", Whitespace);
    assert "" + body + "" == body;
    assert !StartsWith(body, "```");
    CandidateOfEmbeddedObject("", body, "");
  }

  /** So a fenced reply yields the same candidate, and the same result, as
      the bare object. */
  lemma FencedReplyParsesLikeBare(lead: string, hint: string, body: string, trail: string,
                                  loads: string -> Option<Json>)
    requires AllSpace(lead) && AllSpace(trail)
    requires IsHint(hint) && IsObjectText(body)
    ensures Candidate(CleanReply(lead + Fenced(hint, body) + trail)) == Candidate(CleanReply(body)) == body
    ensures ParseReply(lead + Fenced(hint, body) + trail, loads) == ParseReply(body, loads)
  {
    FencedReplyCleans(lead, hint, body, trail);
    BareObjectIsCandidate(body);
  }
}
