/** The batch-link list of app.py: a text file of links, one per line, that
    `load_batch_links` reads, `add_batch_links` appends to, and
    `get_batch_links` reports on against the URLs already stored. */
module BatchLinks {
  import opened Outcomes
  import opened Text
  import opened Json

  /** The stripped pieces of `pieces` that are not blank, in order. */
  function Kept(pieces: seq<string>): (r: seq<string>)
    ensures |r| <= |pieces|
    ensures forall k :: 0 <= k < |r| ==> r[k] != ""
    decreases |pieces|
  {
    if pieces == [] then []
    else (if Strip(pieces[0]) == "" then [] else [Strip(pieces[0])]) + Kept(pieces[1..])
  }

  lemma {:induction false} KeptAppend(a: seq<string>, b: seq<string>)
    ensures Kept(a + b) == Kept(a) + Kept(b)
    decreases |a|
  {
    if a == [] {
      assert a + b == b;
    } else {
      assert (a + b)[1..] == a[1..] + b;
      KeptAppend(a[1..], b);
    }
  }

  /** A link already stripped and without line breaks. */
  predicate IsLink(l: string) {
    l != "" && NoBreak(l) && Strip(l) == l
  }

  /** Stripping a line keeps it free of line breaks, and a stripped line
      strips to itself. */
  lemma StripOfLine(p: string)
    requires NoBreak(p)
    ensures NoBreak(Strip(p)) && Strip(Strip(p)) == Strip(p)
  {
    StripByIsInfix(p, Whitespace);
    var i :| TrimmedAt(p, Strip(p), i, Whitespace);
    var r := Strip(p);
    forall j | 0 <= j < |r|
      ensures !IsLineBreak(r[j])
    {
      assert r[j] == p[i + j];
    }
  }

  /** Every piece kept from break-free pieces is a link. */
  lemma {:induction false} KeptAreLinks(pieces: seq<string>)
    requires forall k :: 0 <= k < |pieces| ==> NoBreak(pieces[k])
    ensures forall k :: 0 <= k < |Kept(pieces)| ==> IsLink(Kept(pieces)[k])
    decreases |pieces|
  {
    if pieces != [] {
      StripOfLine(pieces[0]);
      KeptAreLinks(pieces[1..]);
    }
  }

  /** `load_batch_links()`: the stripped, non-blank lines of the file; no
      links when the file is missing or cannot be read. */
  function LoadBatchLinks(file: FileState): (r: seq<string>)
    ensures forall k :: 0 <= k < |r| ==> IsLink(r[k])
    ensures !file.Readable? ==> r == []
  {
    match file
    case Readable(content) =>
      LinesHaveNoBreak(content);
      KeptAreLinks(Lines(content));
      Kept(Lines(content))
    case _ => []
  }

  lemma {:induction false} KeptOfLinks(links: seq<string>)
    requires forall k :: 0 <= k < |links| ==> IsLink(links[k])
    ensures Kept(links) == links
    decreases |links|
  {
    if links != [] {
      KeptOfLinks(links[1..]);
    }
  }

  /** A file holding links one per line loads as exactly those links. */
  lemma LoadOfLinks(links: seq<string>)
    requires forall k :: 0 <= k < |links| ==> IsLink(links[k])
    ensures LoadBatchLinks(Readable(Join(links, "\n"))) == links
  {
    if links == [] {
      assert Lines("") == [""];
      assert Kept([""]) == [] + Kept([]);
    } else {
      LinesOfJoin(links);
      KeptOfLinks(links);
    }
  }

  /* ---------------------------------------------------------------------- */
  /* Appending links                                                         */
  /* ---------------------------------------------------------------------- */

  /** The file after `add_batch_links`, and the reply's status. */
  datatype Appended = Appended(content: string, status: Result<nat>)

  /** `POST /api/batch/add_links`: `content` is the file's text (empty when
      it does not exist yet) and `writable` whether opening it for append
      succeeds. A `links` value that is not a string makes `strip` raise
      after the separator is written; the handler answers 500 then too. */
  function AddBatchLinks(content: string, body: Json, writable: bool): (r: Appended)
    ensures r.status == Raised(AttributeError) <==> !body.Obj?
    ensures r.status == Ok(400) <==> body.Obj? && !Truthy(Get(body.fields, "links", Null))
    ensures r.status == Ok(200) <==> body.Obj? && Get(body.fields, "links", Null).Str? && Truthy(Get(body.fields, "links", Null)) && writable
    ensures r.status != Ok(200) ==> r.content == content || r.content == content + "\n"
    ensures r.status == Ok(200) ==> r.content == (if content == "" then "" else content + "\n") + Strip(Get(body.fields, "links", Null).s)
  {
    match body
    case Obj(fields) =>
      var links := Get(fields, "links", Null);
      if !Truthy(links) then Appended(content, Ok(400))
      else if !writable then Appended(content, Ok(500))
      else
        var separated := if content == "" then content else content + "\n";
        if links.Str? then Appended(separated + Strip(links.s), Ok(200))
        else Appended(separated, Ok(500))
    case _ => Appended(content, Raised(AttributeError))
  }

  lemma EmptyFileHasNoLinks()
    ensures LoadBatchLinks(Readable("")) == []
  {
    assert Lines("") == [""];
    assert Kept([""]) == [] + Kept([]);
  }

  /** Loading after a separator-joined append: the old links, then the new. */
  lemma LoadAppended(content: string, t: string)
    ensures LoadBatchLinks(Readable((if content == "" then "" else content + "\n") + t))
         == LoadBatchLinks(Readable(content)) + LoadBatchLinks(Readable(t))
  {
    if content == "" {
      EmptyFileHasNoLinks();
      assert "" + t == t;
    } else {
      assert content + "\n" + t == content + ['\n'] + t;
      LinesAround(content, '\n', t);
      KeptAppend(Lines(content), Lines(t));
    }
  }

  /** Appending text adds exactly its links to the list. */
  lemma AddThenLoad(content: string, text: string)
    ensures var r := AddBatchLinks(content, Obj([("links", Str(text))]), true);
      r.status == Ok(if text == "" then 400 else 200)
      && LoadBatchLinks(Readable(r.content))
         == LoadBatchLinks(Readable(content)) + LoadBatchLinks(Readable(Strip(text)))
  {
    var body := Obj([("links", Str(text))]);
    assert Get(body.fields, "links", Null) == Str(text);
    if text == "" {
      assert Strip(text) == "" by {
        assert |Strip(text)| <= |text|;
      }
      EmptyFileHasNoLinks();
    } else {
      LoadAppended(content, Strip(text));
    }
  }

  /** A rejected append leaves the list of links as it was. */
  lemma FailedAddKeepsLinks(content: string, body: Json, writable: bool)
    requires AddBatchLinks(content, body, writable).status != Ok(200)
    ensures LoadBatchLinks(Readable(AddBatchLinks(content, body, writable).content))
         == LoadBatchLinks(Readable(content))
  {
    var r := AddBatchLinks(content, body, writable);
    if r.content != content {
      assert r.content == content + ['\n'] + "";
      LinesAround(content, '\n', "");
      assert Lines("") == [""];
      assert Kept([""]) == [] + Kept([]);
      KeptAppend(Lines(content), [""]);
    }
  }

  /* ---------------------------------------------------------------------- */
  /* Processed status                                                        */
  /* ---------------------------------------------------------------------- */

  /** `url.split("&")[0]`: the part before the first '&'. */
  function AmpPrefix(url: string): (r: string)
    ensures '&' !in r
    ensures r == url || (|r| < |url| && url[|r|] == '&' && url[..|r|] == r)
  {
    url[..IndexOf(url, '&')]
  }

  /** `get_batch_links()`: each link with whether its '&'-prefix is the
      '&'-prefix of some stored video or playlist URL. */
  function LinkStatuses(links: seq<string>, stored: seq<string>): (r: seq<(string, bool)>)
    ensures |r| == |links|
    ensures forall k :: 0 <= k < |links| ==> r[k].0 == links[k]
    ensures forall k :: 0 <= k < |links| ==>
      (r[k].1 <==> exists j :: 0 <= j < |stored| && AmpPrefix(stored[j]) == AmpPrefix(links[k]))
  {
    var processed := set j | 0 <= j < |stored| :: AmpPrefix(stored[j]);
    seq(|links|, k requires 0 <= k < |links| => (links[k], AmpPrefix(links[k]) in processed))
  }

  /** Extra query parameters after the first '&' do not change a link's
      status. */
  lemma StatusIgnoresExtraParameters(url: string, extra: string, stored: seq<string>)
    requires '&' !in url
    ensures LinkStatuses([url + "&" + extra], stored)[0].1 == LinkStatuses([url], stored)[0].1
  {
    var u := url + "&" + extra;
    IndexOfIs(u, '&', |url|);
    assert AmpPrefix(u) == url;
    assert AmpPrefix(url) == url;
  }
}
