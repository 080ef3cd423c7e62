/** Report synthesis (agents/report.go): the transcript snippet, the
    title / comic / body pipeline with its failure policy, and the HTML page. */
module Report {
  import opened Model
  import opened Backend
  import opened Text

  /** "…" (U+2026) as the three bytes of its UTF-8 encoding. */
  const Ellipsis: string := "\U{E2}\U{80}\U{A6}"

  /** The byte budget of one message's content in a snippet line. */
  const LineCutoff: nat := 200

  /** truncateLocal: `s` if it fits in `n` bytes, otherwise its first `n`
      bytes followed by the ellipsis. A negative `n` makes the Go slice
      panic, so `n` is a nat. */
  function TruncateLocal(s: string, n: nat): (r: string)
    ensures |s| <= n ==> r == s
    ensures |s| > n ==> |r| == n + |Ellipsis| && r[..n] == s[..n] && r[n..] == Ellipsis
  {
    if |s| <= n then s else s[..n] + Ellipsis
  }

  /** The cases of TestTruncateLocal. */
  lemma TruncateExamples()
    ensures TruncateLocal("hello", 10) == "hello"
    ensures TruncateLocal("hello", 5) == "hello"
    ensures TruncateLocal("this is a " + "very long string that should be truncated", 10) == "this is a " + Ellipsis
    ensures TruncateLocal("", 5) == ""
    ensures TruncateLocal("hello", 0) == Ellipsis
    ensures TruncateLocal("hello", 1) == "h" + Ellipsis
  {
    var long := "this is a " + "very long string that should be truncated";
    assert long[..10] == "this is a ";
  }

  /** One snippet line, `Sender: content`, with the content cut at 200 bytes. */
  function SnippetLine(m: Message): string {
    m.sender + ": " + TruncateLocal(m.argument.content, LineCutoff)
  }

  function Lines(ms: seq<Message>): (r: seq<string>)
    ensures |r| == |ms|
    ensures forall i :: 0 <= i < |ms| ==> r[i] == SnippetLine(ms[i])
  {
    seq(|ms|, i requires 0 <= i < |ms| => SnippetLine(ms[i]))
  }

  /** The last min(n, |history|) messages (n > 0). */
  function LastMessages(history: seq<Message>, n: int): (r: seq<Message>)
    requires n > 0
    ensures |r| == if n < |history| then n else |history|
    ensures r == history[|history| - |r|..]
  {
    if n < |history| then history[|history| - n..] else history
  }

  /** buildTranscriptSnippet, as a value: the lines of the last n messages
      joined by newlines. */
  function TranscriptSnippet(history: seq<Message>, n: int): string {
    if n <= 0 then "" else Join(Lines(LastMessages(history, n)), "\n")
  }

  /** buildTranscriptSnippet. */
  method BuildTranscriptSnippet(history: seq<Message>, n: int) returns (r: string)
    ensures r == TranscriptSnippet(history, n)
  {
    if n <= 0 {
      return "";
    }
    var k := n;
    if |history| < k {
      k := |history|;
    }
    var parts: seq<string> := [];
    var i := |history| - k;
    while i < |history|
      invariant |history| - k <= i <= |history|
      invariant parts == Lines(history[|history| - k..i])
    {
      if i >= 0 {
        parts := parts + [SnippetLine(history[i])];
      }
      assert history[|history| - k..i + 1] == history[|history| - k..i] + [history[i]];
      i := i + 1;
    }
    assert history[|history| - k..i] == LastMessages(history, n);
    r := Join(parts, "\n");
  }

  /** A snippet line has no line break of its own when the sender and the
      content have none: the cut and the ellipsis add none. */
  lemma LineWithoutBreak(m: Message)
    requires '\n' !in m.sender && '\n' !in m.argument.content
    ensures '\n' !in SnippetLine(m)
  {
    var c := m.argument.content;
    if |c| > LineCutoff {
      assert forall i :: 0 <= i < LineCutoff ==> c[..LineCutoff][i] == c[i];
    }
  }

  /** The snippet holds exactly the last min(n, |history|) messages, in order,
      one line each, and nothing after the last line (when no sender or
      content holds a line break of its own). */
  lemma SnippetHoldsLastMessages(history: seq<Message>, n: int)
    requires n > 0 && history != []
    requires forall i :: 0 <= i < |history| ==>
               '\n' !in history[i].sender && '\n' !in history[i].argument.content
    ensures var k := if n < |history| then n else |history|;
      && Split(TranscriptSnippet(history, n), '\n') == Lines(history[|history| - k..])
      && |Split(TranscriptSnippet(history, n), '\n')| == k
  {
    var last := LastMessages(history, n);
    var lines := Lines(last);
    forall i | 0 <= i < |lines|
      ensures '\n' !in lines[i]
    {
      assert last[i] == history[|history| - |last| + i];
      LineWithoutBreak(last[i]);
    }
    assert TranscriptSnippet(history, n) == Join(lines, ['\n']);
    SplitJoin(lines, '\n');
  }

  /** The snippet is empty when no message is asked for or there is none. */
  lemma SnippetEmpty(history: seq<Message>, n: int)
    ensures n <= 0 || history == [] <==> TranscriptSnippet(history, n) == ""
  {
    if n > 0 && history != [] {
      var lines := Lines(LastMessages(history, n));
      JoinStartsWithFirst(lines, "\n");
      assert |lines[0]| >= 2;
    }
  }

  /** The snippet starts with the line of the oldest message it keeps and
      ends with the line of the newest, with no trailing newline. */
  lemma SnippetEnds(history: seq<Message>, n: int)
    requires n > 0 && history != []
    ensures var r := TranscriptSnippet(history, n);
            var k := if n < |history| then n else |history|;
            var first := SnippetLine(history[|history| - k]);
            var last := SnippetLine(history[|history| - 1]);
      && first <= r
      && |last| <= |r| && r[|r| - |last|..] == last
  {
    var lines := Lines(LastMessages(history, n));
    JoinStartsWithFirst(lines, "\n");
    JoinEndsWithLast(lines, "\n");
  }

  /** The 300-byte case of TestBuildTranscriptSnippetWithLongMessages: the
      line keeps the first 200 bytes and adds the ellipsis. */
  lemma LongMessageLine(m: Message)
    requires |m.argument.content| == 300
    ensures TranscriptSnippet([m], 1) == m.sender + ": " + m.argument.content[..200] + Ellipsis
    ensures |TranscriptSnippet([m], 1)| == |m.sender| + 2 + 200 + 3
  {
    assert LastMessages([m], 1) == [m];
    assert Lines([m]) == [SnippetLine(m)];
    assert Join([SnippetLine(m)], "\n") == SnippetLine(m);
  }

  /** The three-message history of TestBuildTranscriptSnippet. */
  function SampleHistory(): seq<Message> {
    [Message("Agent1", Argument("First message", "neutral"), 0),
     Message("Agent2", Argument("Second message", "confident"), 1),
     Message("Agent3", Argument("Third message", "analytical"), 2)]
  }

  lemma SampleLines()
    ensures Lines(SampleHistory()) ==
      ["Agent1: First message", "Agent2: Second message", "Agent3: Third message"]
  {
    FirstSampleLine();
    SecondSampleLine();
    ThirdSampleLine();
  }

  lemma FirstSampleLine()
    ensures SnippetLine(SampleHistory()[0]) == "Agent1: First message"
  {
    ShortLine(SampleHistory()[0]);
  }

  lemma SecondSampleLine()
    ensures SnippetLine(SampleHistory()[1]) == "Agent2: Second message"
  {
    ShortLine(SampleHistory()[1]);
  }

  lemma ThirdSampleLine()
    ensures SnippetLine(SampleHistory()[2]) == "Agent3: Third message"
  {
    ShortLine(SampleHistory()[2]);
  }

  /** A message whose content fits is shown whole. */
  lemma ShortLine(m: Message)
    requires |m.argument.content| <= LineCutoff
    ensures SnippetLine(m) == m.sender + ": " + m.argument.content
  {
  }

  /** The last two messages of TestBuildTranscriptSnippet. */
  lemma LastTwoExample()
    ensures TranscriptSnippet(SampleHistory(), 2) == "Agent2: Second message" + "\n" + "Agent3: Third message"
  {
    var h := SampleHistory();
    SampleLines();
    assert LastMessages(h, 2) == h[1..];
    assert Lines(h[1..]) == Lines(h)[1..];
    assert Lines(h)[1..] == ["Agent2: Second message", "Agent3: Third message"];
  }

  /** The last message alone, and all three when more are asked for. */
  lemma LastOneAndAllExample()
    ensures TranscriptSnippet(SampleHistory(), 1) == "Agent3: Third message"
    ensures TranscriptSnippet(SampleHistory(), 5)
         == "Agent1: First message" + "\n" + "Agent2: Second message" + "\n" + "Agent3: Third message"
  {
    var h := SampleHistory();
    SampleLines();
    assert LastMessages(h, 1) == h[2..];
    assert Lines(h[2..]) == Lines(h)[2..];
    assert Lines(h)[2..] == ["Agent3: Third message"];
    assert LastMessages(h, 5) == h;
    var ls := Lines(h);
    assert ls[..2] == ["Agent1: First message", "Agent2: Second message"];
    assert ls[..2][..1] == ["Agent1: First message"];
    assert Join(ls[..2], "\n") == "Agent1: First message" + "\n" + "Agent2: Second message";
    assert Join(ls, "\n") == Join(ls[..2], "\n") + "\n" + "Agent3: Third message";
  }

  /** The cases of TestBuildTranscriptSnippet that keep nothing. */
  lemma EmptySnippetExamples()
    ensures TranscriptSnippet(SampleHistory(), 0) == ""
    ensures TranscriptSnippet(SampleHistory(), -1) == ""
    ensures TranscriptSnippet([], 2) == ""
  {
  }

  // -----------------------------------------------------------------------
  // The HTML page

  /** The fixed markup of the report page, in the order it is written. The
      page functions and their lemmas hold for any choice of these pieces;
      BuildReportFromLLM writes `Html`. */
  datatype Template = Template(pageOpen: string, headingOpen: string, headingClose: string,
                               stampOpen: string, stampClose: string, galleryOpen: string,
                               divClose: string, bodyOpen: string, pageClose: string,
                               imgOpen: string, imgClose: string)

  /** The literal markup of agents/report.go (the image format's `%%` is a
      literal `%`). */
  const Html: Template := Template(
    "<html><body style='font-family:sans-serif'>",
    "<h1 style='text-align:center'>",
    "</h1>",
    "<p style='font-size:0.9em;color:gray;text-align:center'>Generated on ",
    "</p>",
    "<div style='display:flex;flex-wrap:wrap;justify-content:center;margin-top:1em'>",
    "</div>",
    "<div style='max-width:1000px;margin:2em auto;line-height:1.6;font-size:1em;text-align:justify;column-count:2;column-gap:2em'>",
    "</body></html>",
    "<img src='",
    "' style='width:45%;margin:1%;border:1px solid #ccc;border-radius:8px'/>")

  /** The element written for one image (the format's `%%` is a literal `%`). */
  function ImgTag(tpl: Template, src: string): string {
    tpl.imgOpen + src + tpl.imgClose
  }

  /** The image elements, one per image, in order. */
  function ImgTags(tpl: Template, images: seq<string>): (r: seq<string>)
    ensures |r| == |images|
    ensures forall i :: 0 <= i < |images| ==> r[i] == ImgTag(tpl, images[i])
  {
    seq(|images|, i requires 0 <= i < |images| => ImgTag(tpl, images[i]))
  }

  /** The pieces written one after the other. */
  function Concat(parts: seq<string>): string
    decreases |parts|
  {
    if parts == [] then "" else Concat(parts[..|parts| - 1]) + parts[|parts| - 1]
  }

  /** The markup of all the images. */
  function Gallery(tpl: Template, images: seq<string>): string {
    Concat(ImgTags(tpl, images))
  }

  /** The centred heading with the escaped title. */
  function Heading(tpl: Template, title: string): string {
    tpl.headingOpen + HtmlEscape(title) + tpl.headingClose
  }

  /** The grey line with the generation time. */
  function StampLine(tpl: Template, stamp: string): string {
    tpl.stampOpen + stamp + tpl.stampClose
  }

  /** Everything before the gallery's images. */
  function PageHead(tpl: Template, title: string, stamp: string): string {
    tpl.pageOpen + Heading(tpl, title) + StampLine(tpl, stamp) + tpl.galleryOpen
  }

  /** The page, piece by piece in the order it is written: escaped title,
      timestamp, one image element per image, and the body text embedded as
      it is. */
  function Page(tpl: Template, title: string, stamp: string, images: seq<string>, body: string): string {
    PageHead(tpl, title, stamp) + Gallery(tpl, images) + tpl.divClose + tpl.bodyOpen + body + tpl.divClose + tpl.pageClose
  }

  lemma OccursAfter(a: string, s: string, t: string, i: int)
    requires OccursAt(s, t, i)
    ensures OccursAt(a + s, t, |a| + i)
  {
    assert (a + s)[|a| + i..|a| + i + |t|] == s[i..i + |t|];
  }

  lemma OccursBefore(s: string, b: string, t: string, i: int)
    requires OccursAt(s, t, i)
    ensures OccursAt(s + b, t, i)
  {
    assert (s + b)[i..i + |t|] == s[i..i + |t|];
  }

  /** Writing two lists of pieces writes their concatenation. */
  lemma {:induction false} ConcatAppend(a: seq<string>, b: seq<string>)
    ensures Concat(a + b) == Concat(a) + Concat(b)
    decreases |b|
  {
    if b == [] {
      assert a + b == a;
    } else {
      var b', x := b[..|b| - 1], b[|b| - 1];
      var ab := a + b;
      assert ab[..|ab| - 1] == a + b' && ab[|ab| - 1] == x;
      assert Concat(ab) == Concat(a + b') + x;
      ConcatAppend(a, b');
      assert Concat(b) == Concat(b') + x;
      assert (Concat(a) + Concat(b')) + x == Concat(a) + (Concat(b') + x);
    }
  }

  /** One more image appends its element to the gallery. */
  lemma GalleryStep(tpl: Template, images: seq<string>, i: nat)
    requires i < |images|
    ensures Gallery(tpl, images[..i + 1]) == Gallery(tpl, images[..i]) + ImgTag(tpl, images[i])
  {
    var tags := ImgTags(tpl, images[..i + 1]);
    assert tags[..i] == ImgTags(tpl, images[..i]);
  }

  /** The gallery of a concatenation is the concatenation of galleries. */
  lemma GalleryAppend(tpl: Template, a: seq<string>, b: seq<string>)
    ensures Gallery(tpl, a + b) == Gallery(tpl, a) + Gallery(tpl, b)
  {
    assert ImgTags(tpl, a + b) == ImgTags(tpl, a) + ImgTags(tpl, b);
    ConcatAppend(ImgTags(tpl, a), ImgTags(tpl, b));
  }

  /** Image i's element follows the elements of the images before it. */
  lemma GalleryOrder(tpl: Template, images: seq<string>, i: nat)
    requires i < |images|
    ensures OccursAt(Gallery(tpl, images), ImgTag(tpl, images[i]), |Gallery(tpl, images[..i])|)
  {
    assert images == images[..i] + [images[i]] + images[i + 1..];
    GalleryAppend(tpl, images[..i] + [images[i]], images[i + 1..]);
    GalleryAppend(tpl, images[..i], [images[i]]);
    assert Gallery(tpl, [images[i]]) == ImgTag(tpl, images[i]) by {
      var t := ImgTag(tpl, images[i]);
      assert ImgTags(tpl, [images[i]]) == [t];
      assert [t][..0] == [];
      assert Concat([t]) == "" + t;
    }
  }

  /** What occurs in the head or the gallery occurs at the same place in
      the page. */
  lemma KeptInPage(tpl: Template, title: string, stamp: string, images: seq<string>, body: string, t: string, i: int)
    requires OccursAt(PageHead(tpl, title, stamp) + Gallery(tpl, images), t, i)
    ensures OccursAt(Page(tpl, title, stamp, images, body), t, i)
  {
    var p4 := PageHead(tpl, title, stamp) + Gallery(tpl, images);
    var p5 := p4 + tpl.divClose;
    var p6 := p5 + tpl.bodyOpen;
    var p7 := p6 + body;
    var p8 := p7 + tpl.divClose;
    OccursBefore(p4, tpl.divClose, t, i);
    OccursBefore(p5, tpl.bodyOpen, t, i);
    OccursBefore(p6, body, t, i);
    OccursBefore(p7, tpl.divClose, t, i);
    OccursBefore(p8, tpl.pageClose, t, i);
  }

  /** The page opens with its opening markup (`<html><body` in `Html`), and
      its heading follows, holding the title escaped: no markup byte, and,
      for a title without NUL, it unescapes back to the title. */
  lemma TitleHeading(tpl: Template, title: string, stamp: string, images: seq<string>, body: string)
    ensures var page := Page(tpl, title, stamp, images, body);
      && OccursAt(page, tpl.pageOpen, 0)
      && OccursAt(page, tpl.headingOpen + HtmlEscape(title) + tpl.headingClose, |tpl.pageOpen|)
      && (forall k :: 0 <= k < |HtmlEscape(title)| ==> !IsMarkup(HtmlEscape(title)[k]))
      && ('\0' !in title ==> HtmlUnescape(HtmlEscape(title)) == title)
  {
    if '\0' !in title {
      UnescapeEscape(title);
    }
    var p1 := tpl.pageOpen + Heading(tpl, title);
    var p2 := p1 + StampLine(tpl, stamp);
    var p3 := p2 + tpl.galleryOpen;
    assert OccursAt(p1, tpl.pageOpen, 0) by {
      assert p1[..|tpl.pageOpen|] == tpl.pageOpen;
    }
    OccursBefore(p1, StampLine(tpl, stamp), tpl.pageOpen, 0);
    OccursBefore(p2, tpl.galleryOpen, tpl.pageOpen, 0);
    OccursBefore(p3, Gallery(tpl, images), tpl.pageOpen, 0);
    KeptInPage(tpl, title, stamp, images, body, tpl.pageOpen, 0);
    assert OccursAt(p1, Heading(tpl, title), |tpl.pageOpen|) by {
      assert p1[|tpl.pageOpen|..] == Heading(tpl, title);
    }
    OccursBefore(p1, StampLine(tpl, stamp), Heading(tpl, title), |tpl.pageOpen|);
    OccursBefore(p2, tpl.galleryOpen, Heading(tpl, title), |tpl.pageOpen|);
    OccursBefore(p3, Gallery(tpl, images), Heading(tpl, title), |tpl.pageOpen|);
    KeptInPage(tpl, title, stamp, images, body, Heading(tpl, title), |tpl.pageOpen|);
  }

  /** Every image element appears in the page, in input order, right after
      the page head. */
  lemma ImagesInOrder(tpl: Template, title: string, stamp: string, images: seq<string>, body: string, i: nat)
    requires i < |images|
    ensures OccursAt(Page(tpl, title, stamp, images, body), ImgTag(tpl, images[i]),
                     |PageHead(tpl, title, stamp)| + |Gallery(tpl, images[..i])|)
  {
    GalleryOrder(tpl, images, i);
    OccursAfter(PageHead(tpl, title, stamp), Gallery(tpl, images), ImgTag(tpl, images[i]), |Gallery(tpl, images[..i])|);
    KeptInPage(tpl, title, stamp, images, body, ImgTag(tpl, images[i]), |PageHead(tpl, title, stamp)| + |Gallery(tpl, images[..i])|);
  }

  /** The page ends with the body text, embedded verbatim, and the closing
      tags. */
  lemma BodyAtEnd(tpl: Template, title: string, stamp: string, images: seq<string>, body: string)
    ensures var page := Page(tpl, title, stamp, images, body);
      OccursAt(page, body + tpl.divClose + tpl.pageClose, |page| - |body| - |tpl.divClose| - |tpl.pageClose|)
  {
    var p6 := PageHead(tpl, title, stamp) + Gallery(tpl, images) + tpl.divClose + tpl.bodyOpen;
    OccursLast(p6, body, tpl.divClose, tpl.pageClose);
  }

  lemma OccursLast(a: string, b: string, c: string, d: string)
    ensures OccursAt(a + b + c + d, b + c + d, |a + b + c + d| - |b| - |c| - |d|)
  {
    assert a + b + c + d == a + (b + c + d);
    assert (a + (b + c + d))[|a|..] == b + c + d;
  }

  // -----------------------------------------------------------------------
  // The pipeline

  /** The backend requests BuildReportFromLLM makes, in the order made. */
  datatype Step = ChooseSnippet | Title | Comic | Body

  /** What a build returns together with the requests it made. */
  datatype Outcome = Outcome(html: Result<string>, calls: seq<Step>)

  /** The optional first step: the backend's condensation of the whole
      transcript, trimmed, or "" when that request fails. */
  function ChosenSnippet(llm: Llm, history: seq<Message>): string {
    match llm.getArgument(SnippetPrompt(TranscriptSnippet(history, |history|)))
    case Ok(a) => TrimSpace(a.content)
    case Err(_) => ""
  }

  /** The body step: the reporter persona's argument when there is a
      reporter, otherwise a direct request built from the title, the
      document and the snippet; each failure has its own wrapped error. */
  function BodyText(llm: Llm, reporter: Option<Agent>, doc: string, history: seq<Message>,
                    title: Argument, snippet: string): Result<string>
  {
    match reporter
    case Some(a) =>
      (match llm.generate(ArgumentRequest(a, history, doc, ReportBody))
       case Ok(rb) => Ok(rb.content)
       case Err(e) => Err("reporter failed to generate report body: " + e))
    case None =>
      (match llm.getArgument(ReportPrompt(title, doc, snippet))
       case Ok(bt) => Ok(bt.content)
       case Err(e) => Err("failed to generate report body: " + e))
  }

  /** BuildReportFromLLM, as a value, with a missing reporter handled by the
      fallback body request: snippet (optional), then title, comic and body
      (each fatal, in that order), then the page. */
  function ReportPipeline(llm: Option<Llm>, reporter: Option<Agent>, doc: string,
                          history: seq<Message>, stamp: string): Outcome
  {
    if llm.None? then Outcome(Err("llm is required"), [])
    else AfterSnippet(llm.value, reporter, doc, history, stamp, ChosenSnippet(llm.value, history))
  }

  /** The build once the snippet is chosen: title, comic and body, each
      fatal, then the page. The request log starts with the snippet
      request. */
  function AfterSnippet(l: Llm, reporter: Option<Agent>, doc: string,
                        history: seq<Message>, stamp: string, snippet: string): Outcome
  {
    match l.getArgument(TitlePrompt(doc, snippet))
    case Err(e) => Outcome(Err("failed to generate title: " + e), [ChooseSnippet, Title])
    case Ok(title) =>
      match l.getComicStrip(ComicPrompt(doc, snippet))
      case Err(e) => Outcome(Err("failed to generate comic images: " + e), [ChooseSnippet, Title, Comic])
      case Ok(images) =>
        match BodyText(l, reporter, doc, history, title, snippet)
        case Err(e) => Outcome(Err(e), [ChooseSnippet, Title, Comic, Body])
        case Ok(body) =>
          Outcome(Ok(Page(Html, TrimSpace(title.content), stamp, images, body)), [ChooseSnippet, Title, Comic, Body])
  }

  /** A call of the function as written either panics or returns. */
  datatype Run = Panic | Returned(outcome: Outcome)

  /** BuildReportFromLLM as written: the progress line it prints first reads
      `reporter.Name`, so a nil reporter panics before the nil check on the
      backend and before the branch meant for a missing reporter. */
  function ReportAsWritten(llm: Option<Llm>, reporter: Option<Agent>, doc: string,
                           history: seq<Message>, stamp: string): (r: Run)
    ensures reporter.None? <==> r == Panic
  {
    if reporter.None? then Panic else Returned(ReportPipeline(llm, reporter, doc, history, stamp))
  }

  /** The branch for a missing reporter is dead as written: with no reporter
      every call panics, even with a working backend, while the corrected
      build returns the page with the fallback body or its error. Where a
      reporter is given the two agree. */
  lemma NilReporterPanics(llm: Llm, doc: string, history: seq<Message>, stamp: string)
    ensures ReportAsWritten(Some(llm), None, doc, history, stamp) == Panic
    ensures ReportPipeline(Some(llm), None, doc, history, stamp).html.Ok? <==>
      var snippet := ChosenSnippet(llm, history);
      var title := llm.getArgument(TitlePrompt(doc, snippet));
      && title.Ok?
      && llm.getComicStrip(ComicPrompt(doc, snippet)).Ok?
      && llm.getArgument(ReportPrompt(title.value, doc, snippet)).Ok?
    ensures forall a: Agent :: ReportAsWritten(Some(llm), Some(a), doc, history, stamp)
                                 == Returned(ReportPipeline(Some(llm), Some(a), doc, history, stamp))
  {
  }

  /** The loop that writes one image element per image after `html`. */
  method WriteImages(tpl: Template, html0: string, images: seq<string>) returns (html: string)
    ensures html == html0 + Gallery(tpl, images)
  {
    html := html0;
    assert html == html0 + Gallery(tpl, images[..0]) by {
      assert ImgTags(tpl, images[..0]) == [];
      assert html0 + "" == html0;
    }
    var i := 0;
    while i < |images|
      invariant i <= |images|
      invariant html == html0 + Gallery(tpl, images[..i])
    {
      GalleryStep(tpl, images, i);
      html := html + ImgTag(tpl, images[i]);
      i := i + 1;
    }
    assert images[..i] == images;
  }

  /** The page assembly at the end of BuildReportFromLLM. */
  method RenderPage(title: string, generatedOn: string, images: seq<string>, body: string)
    returns (html: string)
    ensures html == Page(Html, title, generatedOn, images, body)
  {
    html := Html.pageOpen;
    html := html + Heading(Html, title);
    html := html + StampLine(Html, generatedOn);
    html := html + Html.galleryOpen;
    html := WriteImages(Html, html, images);
    html := html + Html.divClose;
    html := html + Html.bodyOpen;
    html := html + body;
    html := html + Html.divClose;
    html := html + Html.pageClose;
  }

  // Each backend request of the build goes through one of the methods
  // below, which makes the request and appends it to the log as the step
  // it is. Each takes the log of the steps before it, so the log holds
  // exactly the requests made, in order.

  /** Step 0 of BuildReportFromLLM: the request to condense the transcript. */
  method AskSnippet(llm: Llm, transcript: string, ghost log0: seq<Step>)
    returns (out: Result<Argument>, ghost log: seq<Step>)
    requires log0 == []
    ensures out == llm.getArgument(SnippetPrompt(transcript))
    ensures log == log0 + [ChooseSnippet] == [ChooseSnippet]
  {
    out := llm.getArgument(SnippetPrompt(transcript));
    log := log0 + [ChooseSnippet];
  }

  /** Step 1 of BuildReportFromLLM: the title request. */
  method AskTitle(llm: Llm, doc: string, snippet: string, ghost log0: seq<Step>)
    returns (out: Result<Argument>, ghost log: seq<Step>)
    requires log0 == [ChooseSnippet]
    ensures out == llm.getArgument(TitlePrompt(doc, snippet))
    ensures log == log0 + [Title] == [ChooseSnippet, Title]
  {
    out := llm.getArgument(TitlePrompt(doc, snippet));
    log := log0 + [Title];
  }

  /** Step 2 of BuildReportFromLLM: the comic strip request. */
  method AskComic(llm: Llm, doc: string, snippet: string, ghost log0: seq<Step>)
    returns (out: Result<seq<string>>, ghost log: seq<Step>)
    requires log0 == [ChooseSnippet, Title]
    ensures out == llm.getComicStrip(ComicPrompt(doc, snippet))
    ensures log == log0 + [Comic] == [ChooseSnippet, Title, Comic]
  {
    out := llm.getComicStrip(ComicPrompt(doc, snippet));
    log := log0 + [Comic];
  }

  /** Step 3 of BuildReportFromLLM: the report body, from the reporter or
      from the fallback request; either way one request is made. */
  method GenerateBody(llm: Llm, reporter: Option<Agent>, doc: string, history: seq<Message>,
                      title: Argument, snippet: string, ghost log0: seq<Step>)
    returns (body: Result<string>, ghost log: seq<Step>)
    requires log0 == [ChooseSnippet, Title, Comic]
    ensures body == BodyText(llm, reporter, doc, history, title, snippet)
    ensures log == log0 + [Body] == [ChooseSnippet, Title, Comic, Body]
  {
    log := log0 + [Body];
    if reporter.Some? {
      var rb := llm.generate(ArgumentRequest(reporter.value, history, doc, ReportBody));
      if rb.Err? {
        return Err("reporter failed to generate report body: " + rb.msg), log;
      }
      body := Ok(rb.value.content);
    } else {
      var bt := llm.getArgument(ReportPrompt(title, doc, snippet));
      if bt.Err? {
        return Err("failed to generate report body: " + bt.msg), log;
      }
      body := Ok(bt.value.content);
    }
  }

  /** BuildReportFromLLM, with a missing reporter reaching the fallback body
      request instead of panicking. `generatedOn` is the formatted
      time.Now(); `calls` logs the backend requests made. */
  method BuildReportFromLLM(llm: Option<Llm>, reporter: Option<Agent>, doc: string,
                            history: seq<Message>, generatedOn: string)
    returns (r: Result<string>, ghost calls: seq<Step>)
    ensures r == ReportPipeline(llm, reporter, doc, history, generatedOn).html
    ensures Outcome(r, calls) == ReportPipeline(llm, reporter, doc, history, generatedOn)
  {
    calls := [];
    if llm.None? {
      return Err("llm is required"), calls;
    }
    var l := llm.value;
    var fullTranscript := BuildTranscriptSnippet(history, |history|);
    var transcriptSnippet := "";
    var out;
    out, calls := AskSnippet(l, fullTranscript, calls);
    if out.Ok? {
      transcriptSnippet := TrimSpace(out.value.content);
    }
    assert transcriptSnippet == ChosenSnippet(l, history);
    r, calls := BuildAfterSnippet(l, reporter, doc, history, generatedOn, transcriptSnippet, calls);
  }

  /** The rest of BuildReportFromLLM once the snippet is chosen. */
  method BuildAfterSnippet(l: Llm, reporter: Option<Agent>, doc: string, history: seq<Message>,
                           generatedOn: string, snippet: string, ghost log0: seq<Step>)
    returns (r: Result<string>, ghost calls: seq<Step>)
    requires log0 == [ChooseSnippet]
    ensures r == AfterSnippet(l, reporter, doc, history, generatedOn, snippet).html
    ensures Outcome(r, calls) == AfterSnippet(l, reporter, doc, history, generatedOn, snippet)
  {
    var title;
    title, calls := AskTitle(l, doc, snippet, log0);
    if title.Err? {
      return Err("failed to generate title: " + title.msg), calls;
    }
    var titleStr := TrimSpace(title.value.content);

    var images;
    images, calls := AskComic(l, doc, snippet, calls);
    if images.Err? {
      return Err("failed to generate comic images: " + images.msg), calls;
    }

    var body;
    body, calls := GenerateBody(l, reporter, doc, history, title.value, snippet, calls);
    if body.Err? {
      return Err(body.msg), calls;
    }

    var html := RenderPage(titleStr, generatedOn, images.value, body.value);
    return Ok(html), calls;
  }

  /** The failure policy: a failed snippet request only empties the snippet;
      title, comic and body failures each end the build with their own
      wrapped error, in that order, and nothing later is requested. */
  lemma FailurePolicy(llm: Llm, reporter: Option<Agent>, doc: string, history: seq<Message>, stamp: string)
    ensures var o := ReportPipeline(Some(llm), reporter, doc, history, stamp);
            var snippet := ChosenSnippet(llm, history);
            var title := llm.getArgument(TitlePrompt(doc, snippet));
            var comic := llm.getComicStrip(ComicPrompt(doc, snippet));
      && (llm.getArgument(SnippetPrompt(TranscriptSnippet(history, |history|))).Err? ==> snippet == "")
      && (title.Err? ==> o == Outcome(Err("failed to generate title: " + title.msg), [ChooseSnippet, Title]))
      && (title.Ok? && comic.Err? ==>
            o == Outcome(Err("failed to generate comic images: " + comic.msg), [ChooseSnippet, Title, Comic]))
      && (title.Ok? && comic.Ok? ==>
            var body := BodyText(llm, reporter, doc, history, title.value, snippet);
            && o.calls == [ChooseSnippet, Title, Comic, Body]
            && (body.Err? ==> o.html == Err(body.msg))
            && (body.Ok? ==> o.html == Ok(Page(Html, TrimSpace(title.value.content), stamp, comic.value, body.value))))
      && (o.html.Ok? <==> title.Ok? && comic.Ok? && BodyText(llm, reporter, doc, history, title.value, snippet).Ok?)
  {
  }

  /** A reporter's failure and a fallback failure are told apart by their
      messages. */
  lemma BodyErrors(llm: Llm, reporter: Option<Agent>, doc: string, history: seq<Message>,
                   title: Argument, snippet: string)
    ensures var b := BodyText(llm, reporter, doc, history, title, snippet);
      b.Err? ==>
        if reporter.Some?
        then "reporter failed to generate report body: " <= b.msg
        else "failed to generate report body: " <= b.msg
  {
  }

  /** A missing backend is reported before any request is made. */
  lemma NoBackend(reporter: Option<Agent>, doc: string, history: seq<Message>, stamp: string)
    ensures ReportPipeline(None, reporter, doc, history, stamp) == Outcome(Err("llm is required"), [])
  {
  }
}
