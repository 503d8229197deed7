/** The Markdown documents `export_news` and `export_ai_response` write, as
    text. Creating the temporary file is left to the caller: an export is the
    name prefix and suffix of that file and the text written into it. */
module Export {
  import opened Basics
  import opened NewsApi

  /** `f"{article.get(key, default)}"`. */
  function FieldText(v: Option<Value>, default: string): string {
    match v
    case None => default
    case Some(x) => Display(x)
  }

  function TitleText(a: Article): string {
    FieldText(a.title, "Untitled")
  }

  /** `(article.get('source') or {}).get('name', '')`. */
  function SourceText(a: Article): string {
    match a.source
    case None => ""
    case Some(src) => FieldText(src.name, "")
  }

  /** `if description:` — a missing key reads as the falsy `''`. */
  predicate HasDescription(a: Article) {
    a.description.Some? && Truthy(a.description.value)
  }

  const NewsHeading := "# Today's News\n\n"
  const SectionEnd := "\n---\n\n"

  /** The line `export_news` opens an article's section with. */
  function HeadingLine(a: Article): string {
    "## " + TitleText(a) + "\n"
  }

  /** The source, date and URL lines, written for every article. */
  function FieldLines(a: Article): string {
    "**Source:** " + SourceText(a) + "\n"
    + "**Date:** " + FieldText(a.publishedAt, "") + "\n"
    + "**URL:** " + FieldText(a.url, "") + "\n"
  }

  /** The description line, written only for a truthy description. */
  function DescriptionLine(a: Article): string {
    if HasDescription(a) then "**Description:** " + Display(a.description.value) + "\n" else ""
  }

  /** The lines `export_news` writes for one article. */
  function Section(a: Article): string {
    HeadingLine(a) + FieldLines(a) + DescriptionLine(a) + SectionEnd
  }

  /** The sections of `articles`, in order. */
  function Sections(articles: seq<Article>): string {
    if articles == [] then [] else Sections(articles[..|articles| - 1]) + Section(articles[|articles| - 1])
  }

  function NewsDocument(articles: seq<Article>): string {
    NewsHeading + Sections(articles)
  }

  /** A temporary file to create: `mkstemp(prefix=..., suffix=...)` and the
      text written to it. */
  datatype ExportFile = ExportFile(prefix: string, suffix: string, content: string)

  /** `export_news()` for the stored articles, with `today` the formatted date. */
  function NewsExport(articles: seq<Article>, today: string): Option<ExportFile> {
    if articles == [] then None
    else Some(ExportFile("News_" + today, ".md", NewsDocument(articles)))
  }

  /** What `export_ai_response` writes before the response. */
  function AiPreamble(exportedOn: string): string {
    "# AI Response Export\n\n" + "**Exported on:** " + exportedOn + "\n\n" + "---\n\n"
  }

  function AiDocument(resp: string, exportedOn: string): string {
    AiPreamble(exportedOn) + resp + "\n\n"
  }

  /** `export_ai_response()`: the date is read twice, once for the file name
      and once for the text, so the two may differ. */
  function AiExport(resp: string, fileDate: string, exportedOn: string): Option<ExportFile> {
    if resp == [] then None
    else Some(ExportFile("AI_Response_" + fileDate + "_", ".md", AiDocument(resp, exportedOn)))
  }

  // ---------------------------------------------------------------------
  // Properties
  // ---------------------------------------------------------------------

  /** A news export exists exactly when there are articles to export. */
  lemma NewsExportExists(articles: seq<Article>, today: string)
    ensures NewsExport(articles, today).Some? <==> articles != []
    ensures NewsExport(articles, today).Some? ==>
      NewsExport(articles, today).value.content[..|NewsHeading|] == NewsHeading
  {
  }

  /** Each section opens with the article's heading line and closes with the
      rule; a truthy description adds its line just before the rule, and any
      other description reads as a missing one. */
  lemma SectionShape(a: Article)
    ensures var s, h := Section(a), HeadingLine(a);
      && h == "## " + TitleText(a) + "\n"
      && |h| <= |s| && s[..|h|] == h
      && |SectionEnd| <= |s| && s[|s| - |SectionEnd|..] == SectionEnd
    ensures HasDescription(a) ==>
      var s, d := Section(a), "**Description:** " + Display(a.description.value) + "\n";
      |d| + |SectionEnd| <= |s| && s[|s| - |SectionEnd| - |d|..|s| - |SectionEnd|] == d
    ensures !HasDescription(a) <==> Section(a) == Section(a.(description := None))
  {
    var b := a.(description := None);
    Parts(HeadingLine(a), FieldLines(a), DescriptionLine(a), SectionEnd);
    Parts(HeadingLine(b), FieldLines(b), DescriptionLine(b), SectionEnd);
    assert HeadingLine(b) == HeadingLine(a) && FieldLines(b) == FieldLines(a) && DescriptionLine(b) == [];
  }

  /** Where the four pieces of a concatenation sit in it. */
  lemma Parts(w: string, x: string, y: string, z: string)
    ensures var s := w + x + y + z;
      && |s| == |w| + |x| + |y| + |z|
      && s[..|w|] == w
      && s[|s| - |z|..] == z
      && s[|s| - |z| - |y|..|s| - |z|] == y
  {
    var s := w + x + y + z;
    assert s == (w + x) + y + z;
    assert s[|s| - |z|..] == z;
    assert s[..|s| - |z|] == (w + x) + y;
  }

  /** Writing one more section extends the document by that section. */
  lemma SectionsSnoc(articles: seq<Article>, i: nat)
    requires i < |articles|
    ensures NewsHeading + Sections(articles[..i + 1])
         == (NewsHeading + Sections(articles[..i])) + Section(articles[i])
  {
    assert articles[..i + 1][..i] == articles[..i];
  }

  /** The sections of the first `i` articles are a prefix of the document. */
  lemma {:induction false} SectionsPrefix(articles: seq<Article>, i: nat)
    requires i <= |articles|
    ensures Sections(articles[..i]) <= Sections(articles)
    decreases |articles| - i
  {
    if i < |articles| {
      SectionsPrefix(articles, i + 1);
      assert articles[..i + 1][..i] == articles[..i];
    } else {
      assert articles[..i] == articles;
    }
  }

  /** Position of the section of article `i` in the document. */
  function SectionOffset(articles: seq<Article>, i: nat): nat
    requires i <= |articles|
  {
    |NewsHeading| + |Sections(articles[..i])|
  }

  /** The document is the heading followed by one section per article, in
      article order: article `i`'s section sits between offsets `i` and `i + 1`. */
  lemma SectionAt(articles: seq<Article>, i: nat)
    requires i < |articles|
    ensures SectionOffset(articles, i) + |Section(articles[i])| == SectionOffset(articles, i + 1)
    ensures SectionOffset(articles, i + 1) <= |NewsDocument(articles)|
    ensures NewsDocument(articles)[SectionOffset(articles, i)..SectionOffset(articles, i + 1)] == Section(articles[i])
  {
    var pre, sec := Sections(articles[..i]), Section(articles[i]);
    assert articles[..i + 1][..i] == articles[..i];
    assert Sections(articles[..i + 1]) == pre + sec;
    SectionsPrefix(articles, i + 1);
    SliceAfterHeading(NewsHeading, pre, sec, Sections(articles));
  }

  /** A piece of a prefix of `rest` sits, after `h`, where its position in the prefix says. */
  lemma SliceAfterHeading(h: string, pre: string, sec: string, rest: string)
    requires pre + sec <= rest
    ensures |h| + |pre| + |sec| <= |h + rest|
    ensures (h + rest)[|h| + |pre|..|h| + |pre| + |sec|] == sec
  {
    PrefixAfter(h, pre + sec, rest);
    assert h + (pre + sec) == (h + pre) + sec;
    InsidePrefix(h + pre, sec, h + rest);
  }

  lemma PrefixAfter(a: string, b: string, c: string)
    requires b <= c
    ensures a + b <= a + c
  {
    assert (a + c)[..|a + b|] == a + c[..|b|];
  }

  lemma InsidePrefix(p: string, q: string, y: string)
    requires p + q <= y
    ensures |p| + |q| <= |y| && y[|p|..|p| + |q|] == q
  {
    assert y[..|p| + |q|] == p + q;
    assert (p + q)[|p|..] == q;
  }

  /** The AI export exists exactly when there is a response, and the response
      can be read back from the document. */
  lemma AiExportRecovers(resp: string, fileDate: string, exportedOn: string)
    ensures AiExport(resp, fileDate, exportedOn).Some? <==> resp != []
    ensures var doc := AiDocument(resp, exportedOn);
      && |doc| == |AiPreamble(exportedOn)| + |resp| + 2
      && doc[..|AiPreamble(exportedOn)|] == AiPreamble(exportedOn)
      && doc[|AiPreamble(exportedOn)|..|doc| - 2] == resp
  {
    var pre := AiPreamble(exportedOn);
    var doc := AiDocument(resp, exportedOn);
    assert doc == pre + resp + "\n\n";
    assert doc[|pre|..|doc| - 2] == resp;
  }

  /** Two responses exported on the same date give the same document only if
      they are the same response. */
  lemma AiDocumentInjective(r1: string, r2: string, exportedOn: string)
    requires AiDocument(r1, exportedOn) == AiDocument(r2, exportedOn)
    ensures r1 == r2
  {
    AiExportRecovers(r1, "", exportedOn);
    AiExportRecovers(r2, "", exportedOn);
  }
}
