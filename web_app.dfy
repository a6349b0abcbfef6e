/** The pure parts of the local export in the web app: `sanitize_filename`
    and the markdown text `save_note_to_local` writes. Directory creation,
    file writes and image downloads are not modelled. */
module WebApp {
  import opened Strings
  import opened Models

  /** The characters of `[<>:"/\\|?*]`. */
  predicate IllegalChar(c: char) {
    c == '<' || c == '>' || c == ':' || c == '"' || c == '/' || c == '\\' || c == '|' || c == '?' || c == '*'
  }

  /** `re.sub(r'[<>:"/\\|?*]', '_', filename)`: one '_' per illegal character. */
  function ReplaceIllegal(s: string): (r: string)
    ensures |r| == |s|
    ensures forall i :: 0 <= i < |s| ==> r[i] == (if IllegalChar(s[i]) then '_' else s[i])
  {
    seq(|s|, i requires 0 <= i < |s| => if IllegalChar(s[i]) then '_' else s[i])
  }

  predicate EdgeChar(c: char) {
    c == '.' || c == ' '
  }

  const MaxFilenameLength: nat := 200

  /** `sanitize_filename(filename)`. */
  function SanitizeFilename(name: string): string {
    var t := StripBy(ReplaceIllegal(name), EdgeChar);
    var cut := Take(t, MaxFilenameLength);
    if cut == "" then UntitledTitle else cut
  }

  /** No character of `s` is illegal in a file name. */
  predicate Clean(s: string) {
    forall i :: 0 <= i < |s| ==> !IllegalChar(s[i])
  }

  /** The result is a usable name: non-empty, at most 200 characters, free of
      the nine illegal characters, and not starting with '.' or ' '. */
  lemma SanitizedIsSafe(name: string)
    ensures var r := SanitizeFilename(name);
      r != "" && |r| <= MaxFilenameLength && !EdgeChar(r[0])
      && forall i :: 0 <= i < |r| ==> !IllegalChar(r[i])
  {
    var rep := ReplaceIllegal(name);
    assert Clean(rep);
    var t := StripBy(rep, EdgeChar);
    StripKeepsClean(rep);
    var cut := Take(t, MaxFilenameLength);
    TakeKeepsClean(t, MaxFilenameLength);
    if cut == "" {
      assert UntitledTitle == "未命名笔记";
    } else {
      assert cut[0] == t[0];
    }
    assert Clean(SanitizeFilename(name));
  }

  /** Stripping '.' and ' ' keeps a clean name clean and leaves no leading '.' or ' '. */
  lemma StripKeepsClean(s: string)
    requires Clean(s)
    ensures Clean(StripBy(s, EdgeChar))
    ensures StripBy(s, EdgeChar) != "" ==> !EdgeChar(StripBy(s, EdgeChar)[0])
  {
    var l := LStripBy(s, EdgeChar);
    assert Clean(l) by {
      forall i | 0 <= i < |l| ensures !IllegalChar(l[i]) {
        assert l[i] == s[|s| - |l| + i];
      }
    }
    var t := RStripBy(l, EdgeChar);
    assert Clean(t) by {
      forall i | 0 <= i < |t| ensures !IllegalChar(t[i]) {
        assert t[i] == l[i];
      }
    }
    if t != "" {
      assert t[0] == l[0];
    }
  }

  lemma TakeKeepsClean(s: string, n: nat)
    requires Clean(s)
    ensures Clean(Take(s, n))
  {
    var r := Take(s, n);
    forall i | 0 <= i < |r| ensures !IllegalChar(r[i]) {
      assert r[i] == s[i];
    }
  }

  /** A name that is already clean is returned unchanged. */
  lemma CleanNameUnchanged(name: string)
    requires name != "" && |name| <= MaxFilenameLength
    requires forall i :: 0 <= i < |name| ==> !IllegalChar(name[i])
    requires !EdgeChar(name[0]) && !EdgeChar(name[|name| - 1])
    ensures SanitizeFilename(name) == name
  {
    assert ReplaceIllegal(name) == name;
    StripByNoop(name, EdgeChar);
  }

  /** Cutting to 200 characters can leave a trailing ' ' that a second call
      strips, so sanitising twice can differ from sanitising once. */
  lemma SanitizeNotIdempotent()
    ensures var name := seq(199, _ => 'a') + " b";
      SanitizeFilename(SanitizeFilename(name)) != SanitizeFilename(name)
  {
    var a := seq(199, _ => 'a');
    var name := a + " b";
    assert ReplaceIllegal(name) == name;
    StripByNoop(name, EdgeChar);
    var once := a + " ";
    assert name[..200] == once;
    assert SanitizeFilename(name) == once;
    assert ReplaceIllegal(once) == once;
    assert |StripBy(once, EdgeChar)| < 200 by {
      assert RStripBy(once, EdgeChar) == RStripBy(a, EdgeChar);
    }
  }

  /** `f"image_{i:03d}.jpg"`: the reference to the i-th (1-based) image. */
  function ImageFileName(i: nat): string {
    "image_" + Pad3(i) + ".jpg"
  }

  /** The name the download loop writes image `k` (0-based) under:
      `f"image_{i+1:03d}.jpg"`. */
  function DownloadedFileName(k: nat): string {
    "image_" + Pad3(k + 1) + ".jpg"
  }

  /** One image line: a link to the downloaded file, or to the remote URL. */
  function ImageLine(i: nat, url: string, downloadImages: bool): string {
    if downloadImages then "![图片 " + NatToString(i) + "](" + ImageFileName(i) + ")\n\n"
    else "- [图片 " + NatToString(i) + "](" + url + ")\n\n"
  }

  /** The pieces appended to `md_content`, in order. */
  function HeaderBlocks(note: Note): seq<string> {
    ["# " + note.title + "\n\n",
     "**链接**: " + note.url + "\n\n",
     "**笔记ID**: " + note.id + "\n\n",
     "---\n\n",
     "## 正文\n\n",
     note.text + "\n\n"]
  }

  function OcrBlocks(note: Note, useOcr: bool): seq<string> {
    if useOcr && note.ocrText != "" then ["---\n\n", "## 图片文字识别\n\n", note.ocrText + "\n\n"] else []
  }

  /** The lines of the first `n` images, numbered from 1. */
  function ImageLines(images: seq<string>, downloadImages: bool, n: nat): (r: seq<string>)
    requires n <= |images|
    ensures |r| == n
    ensures forall k :: 0 <= k < n ==> r[k] == ImageLine(k + 1, images[k], downloadImages)
  {
    if n == 0 then [] else ImageLines(images, downloadImages, n - 1) + [ImageLine(n, images[n - 1], downloadImages)]
  }

  function ImageBlocks(images: seq<string>, downloadImages: bool): seq<string> {
    if images == [] then []
    else ["---\n\n", "## 图片\n\n"] + ImageLines(images, downloadImages, |images|)
  }

  function MarkdownBlocks(note: Note, downloadImages: bool, useOcr: bool): seq<string> {
    HeaderBlocks(note) + OcrBlocks(note, useOcr) + ImageBlocks(note.images, downloadImages)
  }

  /** `a + b + c + ...` over a list of pieces. */
  function Concat(xs: seq<string>): string
    decreases |xs|
  {
    if xs == [] then "" else Concat(xs[..|xs| - 1]) + xs[|xs| - 1]
  }

  /** The markdown file's text. */
  function Markdown(note: Note, downloadImages: bool, useOcr: bool): string {
    Concat(MarkdownBlocks(note, downloadImages, useOcr))
  }

  lemma ConcatSnoc(xs: seq<string>, x: string)
    ensures Concat(xs + [x]) == Concat(xs) + x
  {
    assert (xs + [x])[..|xs|] == xs;
  }

  lemma {:induction false} ConcatAppend(xs: seq<string>, ys: seq<string>)
    ensures Concat(xs + ys) == Concat(xs) + Concat(ys)
    decreases |ys|
  {
    if ys == [] {
      assert xs + ys == xs;
    } else {
      var ys' := ys[..|ys| - 1];
      var last := ys[|ys| - 1];
      ConcatAppend(xs, ys');
      assert xs + ys == (xs + ys') + [last];
      ConcatSnoc(xs + ys', last);
      ConcatSnoc(ys', last);
      assert ys == ys' + [last];
    }
  }

  lemma ConcatTriple(a: string, b: string, c: string)
    ensures Concat([a, b, c]) == a + b + c
  {
    assert [a, b, c][..2] == [a, b];
    assert [a, b][..1] == [a];
    assert [a][..0] == [];
    assert Concat([a]) == a;
    assert Concat([a, b]) == a + b;
  }

  lemma HeaderText(note: Note)
    ensures Concat(HeaderBlocks(note)) ==
      "# " + note.title + "\n\n" + "**链接**: " + note.url + "\n\n" + "**笔记ID**: " + note.id + "\n\n"
      + "---\n\n" + "## 正文\n\n" + note.text + "\n\n"
  {
    var h := HeaderBlocks(note);
    assert h == [h[0], h[1], h[2]] + [h[3], h[4], h[5]];
    ConcatAppend([h[0], h[1], h[2]], [h[3], h[4], h[5]]);
    ConcatTriple(h[0], h[1], h[2]);
    ConcatTriple(h[3], h[4], h[5]);
  }

  /** The text built as the source does, one `+=` at a time. */
  method BuildMarkdown(note: Note, downloadImages: bool, useOcr: bool) returns (md: string)
    ensures md == Markdown(note, downloadImages, useOcr)
  {
    md := "# " + note.title + "\n\n";
    md := md + "**链接**: " + note.url + "\n\n";
    md := md + "**笔记ID**: " + note.id + "\n\n";
    md := md + "---\n\n";
    md := md + "## 正文\n\n";
    md := md + note.text + "\n\n";
    HeaderText(note);
    md := AppendOcrSection(md, note, useOcr);
    md := AppendImageSection(md, note.images, downloadImages);
    ConcatAppend(HeaderBlocks(note), OcrBlocks(note, useOcr));
    ConcatAppend(HeaderBlocks(note) + OcrBlocks(note, useOcr), ImageBlocks(note.images, downloadImages));
  }

  /** The `if use_ocr and note.ocr_text:` part of the export. */
  method AppendOcrSection(md0: string, note: Note, useOcr: bool) returns (md: string)
    ensures md == md0 + Concat(OcrBlocks(note, useOcr))
  {
    md := md0;
    if useOcr && note.ocrText != "" {
      md := md + "---\n\n";
      md := md + "## 图片文字识别\n\n";
      md := md + note.ocrText + "\n\n";
      ConcatTriple("---\n\n", "## 图片文字识别\n\n", note.ocrText + "\n\n");
    } else {
      assert md0 + Concat([]) == md0;
    }
  }

  /** The `if note.images:` part of the export: appends the image section. */
  method AppendImageSection(md0: string, images: seq<string>, downloadImages: bool) returns (md: string)
    ensures md == md0 + Concat(ImageBlocks(images, downloadImages))
  {
    md := md0;
    if images != [] {
      md := md + "---\n\n";
      md := md + "## 图片\n\n";
      md := AppendImageLines(md, images, downloadImages);
      ImageSectionText(images, downloadImages);
    } else {
      assert md0 + [] == md0;
    }
  }

  /** The `for i, img_url in enumerate(note.images, 1):` loop. */
  method AppendImageLines(sec: string, images: seq<string>, downloadImages: bool) returns (md: string)
    ensures md == sec + Concat(ImageLines(images, downloadImages, |images|))
  {
    md := sec;
    for k := 0 to |images|
      invariant md == sec + Concat(ImageLines(images, downloadImages, k))
    {
      var line := ImageLineOf(k + 1, images[k], downloadImages);
      NextImageLine(sec, images, downloadImages, k, line);
      md := md + line;
    }
  }

  /** One image line as the loop body writes it: the file name is
      `image_{i:03d}.jpg` when downloading. */
  method ImageLineOf(i: nat, url: string, downloadImages: bool) returns (line: string)
    ensures line == ImageLine(i, url, downloadImages)
  {
    if downloadImages {
      var imgFilename := "image_" + Pad3(i) + ".jpg";
      line := "![图片 " + NatToString(i) + "](" + imgFilename + ")\n\n";
    } else {
      line := "- [图片 " + NatToString(i) + "](" + url + ")\n\n";
    }
  }

  lemma NextImageLine(sec: string, images: seq<string>, downloadImages: bool, k: nat, line: string)
    requires k < |images| && line == ImageLine(k + 1, images[k], downloadImages)
    ensures sec + Concat(ImageLines(images, downloadImages, k)) + line
      == sec + Concat(ImageLines(images, downloadImages, k + 1))
  {
    ConcatSnoc(ImageLines(images, downloadImages, k), line);
  }

  lemma ImageSectionText(images: seq<string>, downloadImages: bool)
    requires images != []
    ensures Concat(ImageBlocks(images, downloadImages))
      == "---\n\n" + "## 图片\n\n" + Concat(ImageLines(images, downloadImages, |images|))
  {
    var two := ["---\n\n", "## 图片\n\n"];
    var lines := ImageLines(images, downloadImages, |images|);
    assert ImageBlocks(images, downloadImages) == two + lines;
    ConcatAppend(two, lines);
    assert Concat(two) == "---\n\n" + "## 图片\n\n" by {
      assert two[..1] == ["---\n\n"];
      assert Concat(two[..1]) == "---\n\n" by {
        assert two[..1][..0] == [];
        assert "" + "---\n\n" == "---\n\n";
      }
    }
  }

  lemma NextBlock(blocks: seq<string>, n: nat, line: string)
    requires n < |blocks| && blocks[n] == line
    ensures Concat(blocks[..n + 1]) == Concat(blocks[..n]) + line
  {
    assert blocks[..n + 1] == blocks[..n] + [line];
    ConcatSnoc(blocks[..n], line);
  }

  /** The layout: the title heading first; the OCR section exactly when OCR is
      on and there is OCR text; the image section exactly when there are
      images, one numbered line per image, linking the downloaded file when
      downloading and the URL otherwise. */
  lemma MarkdownLayout(note: Note, downloadImages: bool, useOcr: bool)
    ensures var b := MarkdownBlocks(note, downloadImages, useOcr);
      var ocr := useOcr && note.ocrText != "";
      var base := 6 + (if ocr then 3 else 0);
      b[0] == "# " + note.title + "\n\n"
      && |b| == base + (if note.images == [] then 0 else 2 + |note.images|)
      && (ocr ==> b[7] == "## 图片文字识别\n\n" && b[8] == note.ocrText + "\n\n")
      && (note.images != [] ==> b[base + 1] == "## 图片\n\n")
      && forall k :: 0 <= k < |note.images| ==>
           b[base + 2 + k] == (if downloadImages then "![图片 " + NatToString(k + 1) + "](" + DownloadedFileName(k) + ")\n\n"
                              else "- [图片 " + NatToString(k + 1) + "](" + note.images[k] + ")\n\n")
  {
  }

  /** The markdown text starts with the title heading. */
  lemma MarkdownStartsWithTitle(note: Note, downloadImages: bool, useOcr: bool)
    ensures StartsWith(Markdown(note, downloadImages, useOcr), "# " + note.title + "\n\n")
  {
    var b := MarkdownBlocks(note, downloadImages, useOcr);
    ConcatPrefix(b, |b|);
  }

  lemma {:induction false} ConcatPrefix(b: seq<string>, n: nat)
    requires 1 <= n <= |b|
    ensures StartsWith(Concat(b[..n]), b[0])
    ensures n == |b| ==> StartsWith(Concat(b), b[0])
    decreases n
  {
    if n == 1 {
      assert b[..1][..0] == [];
    } else {
      ConcatPrefix(b, n - 1);
      assert b[..n][..n - 1] == b[..n - 1];
    }
    if n == |b| {
      assert b[..n] == b;
    }
  }

  /** The value of a string of decimal digits. */
  function DigitsValue(s: string): nat
    requires forall i :: 0 <= i < |s| ==> '0' <= s[i] <= '9'
    decreases |s|
  {
    if s == [] then 0 else DigitsValue(s[..|s| - 1]) * 10 + (s[|s| - 1] as int - '0' as int)
  }

  lemma {:induction false} NatToStringValue(n: nat)
    ensures DigitsValue(NatToString(n)) == n
    decreases n
  {
    if n >= 10 {
      NatToStringValue(n / 10);
      var s := NatToString(n);
      assert s[..|s| - 1] == NatToString(n / 10);
    }
  }

  lemma {:induction false} LeadingZerosValue(z: string, d: string)
    requires forall i :: 0 <= i < |z| ==> z[i] == '0'
    requires forall i :: 0 <= i < |d| ==> '0' <= d[i] <= '9'
    ensures DigitsValue(z + d) == DigitsValue(d)
    decreases |z| + |d|
  {
    if d == [] {
      assert z + d == z;
      if z != [] {
        LeadingZerosValue(z[..|z| - 1], []);
        assert z[..|z| - 1] + [] == z[..|z| - 1];
      }
    } else {
      LeadingZerosValue(z, d[..|d| - 1]);
      assert (z + d)[..|z + d| - 1] == z + d[..|d| - 1];
    }
  }

  /** `f"{i:03d}"` reads back as `i`. */
  lemma Pad3Value(n: nat)
    ensures DigitsValue(Pad3(n)) == n
  {
    NatToStringValue(n);
    var d := NatToString(n);
    if |d| < 3 {
      LeadingZerosValue(seq(3 - |d|, _ => '0'), d);
    }
  }

  /** Different images get different file names, so no download overwrites
      another, and the markdown names the file the download loop writes. */
  lemma ImageFileNamesDistinct(i: nat, j: nat)
    ensures i != j ==> ImageFileName(i) != ImageFileName(j)
    ensures DownloadedFileName(i) == ImageFileName(i + 1)
  {
    if i != j && ImageFileName(i) == ImageFileName(j) {
      var a := Pad3(i);
      var b := Pad3(j);
      assert |a| == |b| by {
        assert |ImageFileName(i)| == 10 + |a|;
      }
      assert a == ImageFileName(i)[6..6 + |a|];
      assert b == ImageFileName(j)[6..6 + |b|];
      Pad3Value(i);
      Pad3Value(j);
    }
  }
}
