/** The transcript fetch of enricher.py (`get_video_transcript`). Its primary
    stage holds no call, so the subtitle fallback runs only when that stage
    raises; the fallback downloads TTML subtitles, reads the `en` file or else
    the `hi` file, pulls the paragraph texts out with `>([^<]+)</p>` and puts
    them together with the video description. */
module Transcript {
  import opened Outcomes
  import opened Text
  import opened Json

  /** What the subtitle download left behind: the download raised, or the
      state of the two subtitle files afterwards. */
  datatype SubtitleFetch = DownloadRaised | Downloaded(en: FileState, hi: FileState)

  /* ---------------------------------------------------------------------- */
  /* re.findall(r">([^<]+)</p>", content)                                    */
  /* ---------------------------------------------------------------------- */

  /** The groups of every non-overlapping match of `>([^<]+)</p>`, left to
      right. At a '>' the group takes every following character up to the
      next '<' (the class admits newlines), and the match needs that run to
      be non-empty and `</p>` to follow it; scanning resumes after `</p>` on a
      match and at the next character otherwise. */
  function Spans(s: string): (r: seq<string>)
    ensures forall k :: 0 <= k < |r| ==> r[k] != [] && '<' !in r[k]
    decreases |s|
  {
    if s == [] then []
    else if s[0] == '>' then
      var q := 1 + IndexOf(s[1..], '<');
      if q > 1 && StartsWith(s[q..], "</p>") then
        assert forall c :: c in s[1..q] ==> c != '<';
        [s[1..q]] + Spans(s[q + 4..])
      else Spans(s[1..])
    else Spans(s[1..])
  }

  /** A stretch without '>' produces no match and is skipped. */
  lemma {:induction false} SpansSkip(pre: string, s: string)
    requires '>' !in pre
    ensures Spans(pre + s) == Spans(s)
    decreases |pre|
  {
    if pre != [] {
      assert pre[0] in pre;
      assert (pre + s)[1..] == pre[1..] + s;
      assert forall c :: c in pre[1..] ==> c in pre;
      SpansSkip(pre[1..], s);
    } else {
      assert pre + s == s;
    }
  }

  /** `>text</p>` with a non-empty `text` free of '<' is one match. */
  lemma SpansParagraph(text: string, rest: string)
    requires text != [] && '<' !in text
    ensures Spans(">" + text + "</p>" + rest) == [text] + Spans(rest)
  {
    var s := ">" + text + "</p>" + rest;
    var t := s[1..];
    assert t == text + ("</p>" + rest);
    assert forall k :: 0 <= k < |text| ==> t[k] == text[k];
    IndexOfIs(t, '<', |text|);
    var q := 1 + |text|;
    assert s[1..q] == text;
    assert s[q..] == "</p>" + rest;
    assert s[q + 4..] == rest;
  }

  /** One subtitle paragraph, `<p ...>text</p>`, with the markup before it. */
  datatype Paragraph = Paragraph(lead: string, attrs: string, text: string)

  function Render(p: Paragraph): string {
    p.lead + "<p" + p.attrs + ">" + p.text + "</p>"
  }

  function Document(ps: seq<Paragraph>): string
    decreases |ps|
  {
    if ps == [] then "" else Render(ps[0]) + Document(ps[1..])
  }

  /** A paragraph the pattern reads back: no '>' before the text, and a
      non-empty text without '<'. */
  predicate Extractable(p: Paragraph) {
    '>' !in p.lead && '>' !in p.attrs && p.text != [] && '<' !in p.text
  }

  function Texts(ps: seq<Paragraph>): (r: seq<string>)
    ensures |r| == |ps| && forall k :: 0 <= k < |ps| ==> r[k] == ps[k].text
  {
    seq(|ps|, k requires 0 <= k < |ps| => ps[k].text)
  }

  /** One paragraph followed by more text yields its text, then the rest. */
  lemma SpansOfRender(p: Paragraph, rest: string)
    requires Extractable(p)
    ensures Spans(Render(p) + rest) == [p.text] + Spans(rest)
  {
    var pre := p.lead + "<p" + p.attrs;
    assert forall c :: c in pre ==> c in p.lead || c in p.attrs || c in "<p";
    assert Render(p) + rest == pre + (">" + p.text + "</p>" + rest);
    SpansSkip(pre, ">" + p.text + "</p>" + rest);
    SpansParagraph(p.text, rest);
  }

  /** The spans of a subtitle document are its paragraph texts, in order. */
  lemma {:induction false} SpansOfDocument(ps: seq<Paragraph>)
    requires forall k :: 0 <= k < |ps| ==> Extractable(ps[k])
    ensures Spans(Document(ps)) == Texts(ps)
    decreases |ps|
  {
    if ps != [] {
      SpansOfRender(ps[0], Document(ps[1..]));
      SpansOfDocument(ps[1..]);
      assert Texts(ps) == [ps[0].text] + Texts(ps[1..]);
    }
  }

  /* ---------------------------------------------------------------------- */
  /* Assembling the text                                                     */
  /* ---------------------------------------------------------------------- */

  /** One span as it enters the transcript: stripped, then each newline
      turned into a space. */
  function Cleaned(span: string): (r: string)
    ensures '\n' !in r
  {
    ReplaceChar(Strip(span), '\n', ' ')
  }

  /** The spans' cleaned texts joined with single spaces. */
  function TranscriptText(spans: seq<string>): string {
    Join(seq(|spans|, k requires 0 <= k < |spans| => Cleaned(spans[k])), " ")
  }

  /** The transcript never holds a newline: every span's newlines became
      spaces and the pieces are joined with spaces. */
  lemma TranscriptIsOneLine(spans: seq<string>)
    ensures '\n' !in TranscriptText(spans)
  {
    var parts := seq(|spans|, k requires 0 <= k < |spans| => Cleaned(spans[k]));
    JoinAvoids(parts, " ", '\n');
  }

  /** The transcript is empty exactly when there is no span, or one span that
      is all whitespace; two blank spans already give a single space. */
  lemma TranscriptEmptyIff(spans: seq<string>)
    ensures TranscriptText(spans) == "" <==> |spans| == 0 || (|spans| == 1 && Strip(spans[0]) == "")
  {
    var parts := seq(|spans|, k requires 0 <= k < |spans| => Cleaned(spans[k]));
    JoinEmptyIff(parts, " ");
    if |spans| == 1 {
      assert parts[0] == Cleaned(spans[0]);
    }
  }

  /** A span that is already stripped and on one line. */
  predicate IsClean(span: string) {
    Strip(span) == span && '\n' !in span
  }

  /** Spans that are already stripped and single-line enter unchanged. */
  lemma {:induction false} TranscriptOfCleanSpans(spans: seq<string>)
    requires forall k :: 0 <= k < |spans| ==> IsClean(spans[k])
    ensures TranscriptText(spans) == Join(spans, " ")
  {
    var parts := seq(|spans|, k requires 0 <= k < |spans| => Cleaned(spans[k]));
    forall k | 0 <= k < |spans|
      ensures parts[k] == spans[k]
    {
      ReplaceAbsent(spans[k], '\n', ' ');
    }
    assert parts == spans;
  }

  /* ---------------------------------------------------------------------- */
  /* get_video_transcript                                                    */
  /* ---------------------------------------------------------------------- */

  const DescriptionHeading := "Video Description:\n"
  const TranscriptHeading := "\n\nTranscript:"
  const NoTranscript := " No transcript available."

  /** The description block every non-empty result starts with. */
  function Head(description: Json): string {
    DescriptionHeading + PyStr(description) + TranscriptHeading
  }

  /** The fallback's result for a description and the download's outcome. */
  function Fallback(description: Json, fetch: SubtitleFetch): string {
    match fetch
    case DownloadRaised => ""
    case Downloaded(en, hi) =>
      match (if en != Absent then en else hi)
      case Absent => ""
      case Unreadable => ""
      case Readable(content) =>
        var t := TranscriptText(Spans(content));
        if t != "" then Head(description) + "\n" + t
        else if Truthy(description) then Head(description) + NoTranscript
        else ""
  }

  /** `get_video_transcript(video_id, video_info)`: None (the model's `Null`)
      when the primary stage returns normally, which falls off the end of the
      function; otherwise the fallback's text for the info's description. */
  function GetVideoTranscript(info: Dict, primaryRaises: bool, fetch: SubtitleFetch): (r: Json)
    ensures !primaryRaises <==> r == Null
    ensures primaryRaises ==> r == Str(Fallback(Get(info, "description", Str("")), fetch))
  {
    if primaryRaises then Str(Fallback(Get(info, "description", Str("")), fetch)) else Null
  }

  /** The `en` file, when present, decides the result: the `hi` file is then
      never looked at. */
  lemma EnglishIsProbedFirst(description: Json, en: FileState, hi: FileState, otherHi: FileState)
    requires en != Absent
    ensures Fallback(description, Downloaded(en, hi)) == Fallback(description, Downloaded(en, otherHi))
  {
  }

  /** Without an `en` file the `hi` file is read as the `en` one would be. */
  lemma HindiStandsIn(description: Json, hi: FileState)
    ensures Fallback(description, Downloaded(Absent, hi)) == Fallback(description, Downloaded(hi, Absent))
  {
  }

  /** With no subtitle file, with an unreadable one, or when the download
      raises, the result is empty even when there is a description. */
  lemma NoFileGivesEmpty(description: Json, file: FileState)
    requires file != Absent ==> file == Unreadable
    ensures Fallback(description, Downloaded(Absent, file)) == ""
    ensures Fallback(description, DownloadRaised) == ""
  {
  }

  /** Every result is empty or starts with the description block; it names a
      transcript exactly when the subtitle text yields one. */
  lemma FallbackShapes(description: Json, content: string, hi: FileState)
    ensures var r := Fallback(description, Downloaded(Readable(content), hi));
      var t := TranscriptText(Spans(content));
      && (t != "" ==> r == Head(description) + "\n" + t)
      && (t == "" && Truthy(description) ==> r == Head(description) + NoTranscript)
      && (t == "" && !Truthy(description) ==> r == "")
      && (r == "" || StartsWith(r, Head(description)))
  {
    var r := Fallback(description, Downloaded(Readable(content), hi));
    var t := TranscriptText(Spans(content));
    if t != "" {
      PrefixStartsWith(Head(description), "\n" + t);
    } else if Truthy(description) {
      PrefixStartsWith(Head(description), NoTranscript);
    }
  }

  /** A subtitle document of clean, single-line paragraph texts yields
      those texts joined with spaces as its transcript. */
  lemma TranscriptOfDocument(ps: seq<Paragraph>)
    requires ps != []
    requires forall k :: 0 <= k < |ps| ==> Extractable(ps[k])
    requires forall k :: 0 <= k < |ps| ==> IsClean(ps[k].text)
    ensures TranscriptText(Spans(Document(ps))) == Join(Texts(ps), " ") != ""
  {
    var texts := Texts(ps);
    SpansOfDocument(ps);
    assert forall k :: 0 <= k < |texts| ==> IsClean(texts[k]);
    TranscriptOfCleanSpans(texts);
    JoinEmptyIff(texts, " ");
    assert texts[0] != "";
  }

  /** Such a document comes back as that transcript after the description. */
  lemma FallbackOfDocument(description: Json, ps: seq<Paragraph>, hi: FileState)
    requires ps != []
    requires forall k :: 0 <= k < |ps| ==> Extractable(ps[k])
    requires forall k :: 0 <= k < |ps| ==> IsClean(ps[k].text)
    ensures Fallback(description, Downloaded(Readable(Document(ps)), hi))
         == Head(description) + "\n" + Join(Texts(ps), " ")
  {
    TranscriptOfDocument(ps);
    FallbackShapes(description, Document(ps), hi);
  }
}
