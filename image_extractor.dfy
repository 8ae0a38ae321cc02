/**
  The image extractor: which files it accepts, the tag its output files are named after, the
  names it gives the images of a PDF, DOCX or PPTX file, and which of them end up saved under the
  output directory. What the imaging libraries (PyMuPDF, python-docx with Pillow, python-pptx)
  find in a file is given as input; whether each save succeeds is part of that input.
 */
module ImageExtractor {
  import opened Wrappers
  import opened Strings
  import opened Paths
  import opened Seqs

  /** The extensions the extractor accepts (ImageExtractor.SUPPORTED). */
  const Supported: set<string> := {".pdf", ".docx", ".pptx", ".png", ".jpg", ".jpeg", ".gif", ".bmp", ".tiff"}

  /** prefix or path.stem: a non-empty prefix names the output files, otherwise the file's stem does. */
  function Tag(prefix: Option<string>, path: PurePath): (tag: string)
    ensures prefix.Some? && prefix.value != "" ==> tag == prefix.value
    ensures prefix.None? || prefix.value == "" ==> tag == Stem(path)
  {
    if prefix.Some? && prefix.value != "" then prefix.value else Stem(path)
  }

  /** f"{tag}_p{page}_{index}.png" */
  function PdfName(tag: string, page: nat, index: nat): string
  {
    tag + "_p" + NatToString(page) + "_" + NatToString(index) + ".png"
  }

  /** f"{tag}_img_{index}.png" */
  function DocxName(tag: string, index: nat): string
  {
    tag + "_img_" + NatToString(index) + ".png"
  }

  /** image.ext or 'png' */
  function PictureExt(ext: string): (e: string)
    ensures e != ""
    ensures ext != "" ==> e == ext
    ensures ext == "" ==> e == "png"
  {
    if ext == "" then "png" else ext
  }

  /** f"{tag}_s{slide}_{shape}.{image.ext or 'png'}" */
  function PptxName(tag: string, slide: nat, shape: nat, ext: string): string
  {
    tag + "_s" + NatToString(slide) + "_" + NatToString(shape) + "." + PictureExt(ext)
  }

  // ---------- what gets saved ----------

  /** One save the extractor tries: the file name under the output directory, and whether writing it succeeds. */
  datatype Attempt = Attempt(name: string, ok: bool)

  /**
    The paths a sequence of saves inside one try block returns: the saves up to the first one
    that raises, each as out_dir / name; the failing save and everything after it are lost.
   */
  function SavedPaths(outDir: PurePath, atts: seq<Attempt>): (saved: seq<PurePath>)
    ensures |saved| <= |atts|
    ensures forall k :: 0 <= k < |saved| ==> atts[k].ok && saved[k] == Div(outDir, atts[k].name)
    ensures |saved| < |atts| ==> !atts[|saved|].ok
  {
    if atts == [] || !atts[0].ok then []
    else [Div(outDir, atts[0].name)] + SavedPaths(outDir, atts[1..])
  }

  /** When every save succeeds, every attempted file is returned, in order. */
  lemma AllSaved(outDir: PurePath, atts: seq<Attempt>)
    requires forall k :: 0 <= k < |atts| ==> atts[k].ok
    ensures SavedPaths(outDir, atts) == seq(|atts|, k requires 0 <= k < |atts| => Div(outDir, atts[k].name))
  {
  }

  /** One more attempt in front: saved when it succeeds, and then the rest follows; otherwise nothing is. */
  lemma SavedPathsCons(outDir: PurePath, a: Attempt, rest: seq<Attempt>)
    ensures SavedPaths(outDir, [a] + rest) == if a.ok then [Div(outDir, a.name)] + SavedPaths(outDir, rest) else []
  {
    assert ([a] + rest)[0] == a && ([a] + rest)[1..] == rest;
  }

  // ---------- PDF (PyMuPDF pass) ----------

  /** The saves for page number `page`, from image index j + 1 on; imgs[j] says whether that image's save succeeds. */
  function PageAttempts(tag: string, page: nat, imgs: seq<bool>, j: nat): seq<Attempt>
    decreases |imgs| - j
  {
    if j >= |imgs| then [] else [Attempt(PdfName(tag, page, j + 1), imgs[j])] + PageAttempts(tag, page, imgs, j + 1)
  }

  /** The saves for pages i.. of the document, pages numbered from 1 and images within a page from 1. */
  function PdfAttempts(tag: string, pages: seq<seq<bool>>, i: nat): seq<Attempt>
    decreases |pages| - i
  {
    if i >= |pages| then [] else PageAttempts(tag, i + 1, pages[i], 0) + PdfAttempts(tag, pages, i + 1)
  }

  /**
    _from_pdf: fitz.open failing (pages None) gives no image; otherwise the images page by page,
    until the first one whose pixmap or save raises, which ends the whole pass.
   */
  method FromPdf(outDir: PurePath, tag: string, pages: Option<seq<seq<bool>>>) returns (saved: seq<PurePath>)
    ensures pages.None? ==> saved == []
    ensures pages.Some? ==> saved == SavedPaths(outDir, PdfAttempts(tag, pages.value, 0))
  {
    saved := [];
    if pages.None? {
      return;
    }
    var doc := pages.value;
    ghost var all := SavedPaths(outDir, PdfAttempts(tag, doc, 0));
    for i := 0 to |doc|
      invariant saved + SavedPaths(outDir, PdfAttempts(tag, doc, i)) == all
    {
      var imgs := doc[i];
      ghost var later := PdfAttempts(tag, doc, i + 1);
      assert PdfAttempts(tag, doc, i) == PageAttempts(tag, i + 1, imgs, 0) + later;
      for j := 0 to |imgs|
        invariant saved + SavedPaths(outDir, PageAttempts(tag, i + 1, imgs, j) + later) == all
      {
        var base := PdfName(tag, i + 1, j + 1);
        var a := Attempt(base, imgs[j]);
        ghost var tail := PageAttempts(tag, i + 1, imgs, j + 1);
        ghost var rest := tail + later;
        assert PageAttempts(tag, i + 1, imgs, j) == [a] + tail;
        AppendAssoc([a], tail, later);
        SavedPathsCons(outDir, a, rest);
        if !imgs[j] {
          assert saved + [] == all;
          return;
        }
        ghost var before := saved;
        saved := saved + [Div(outDir, base)];
        AppendAssoc(before, [Div(outDir, base)], SavedPaths(outDir, rest));
      }
      assert PageAttempts(tag, i + 1, imgs, |imgs|) + later == later;
    }
  }

  // ---------- DOCX ----------

  /** One relationship of the document part: its target reference, and whether saving its blob as an image succeeds. */
  datatype Rel = Rel(targetRef: string, saves: bool)

  /** The saves for relationships i.. : only those whose target reference contains "image", numbered by their position among all relationships. */
  function DocxAttempts(tag: string, rels: seq<Rel>, i: nat): seq<Attempt>
    decreases |rels| - i
  {
    if i >= |rels| then []
    else
      var here := if Contains(rels[i].targetRef, "image") then [Attempt(DocxName(tag, i + 1), rels[i].saves)] else [];
      here + DocxAttempts(tag, rels, i + 1)
  }

  /** _from_docx: the image relationships in order, until the first whose blob cannot be opened or saved. */
  method FromDocx(outDir: PurePath, tag: string, rels: seq<Rel>) returns (saved: seq<PurePath>)
    ensures saved == SavedPaths(outDir, DocxAttempts(tag, rels, 0))
  {
    saved := [];
    ghost var all := SavedPaths(outDir, DocxAttempts(tag, rels, 0));
    for i := 0 to |rels|
      invariant saved + SavedPaths(outDir, DocxAttempts(tag, rels, i)) == all
    {
      ghost var rest := DocxAttempts(tag, rels, i + 1);
      if Contains(rels[i].targetRef, "image") {
        var base := DocxName(tag, i + 1);
        var a := Attempt(base, rels[i].saves);
        assert DocxAttempts(tag, rels, i) == [a] + rest;
        SavedPathsCons(outDir, a, rest);
        if !rels[i].saves {
          assert saved + [] == all;
          return;
        }
        ghost var before := saved;
        saved := saved + [Div(outDir, base)];
        AppendAssoc(before, [Div(outDir, base)], SavedPaths(outDir, rest));
      } else {
        assert DocxAttempts(tag, rels, i) == rest;
      }
    }
  }

  // ---------- PPTX ----------

  /** A slide shape: a picture with its image's extension (possibly empty), or any other shape. */
  datatype SlideShape = Picture(ext: string) | NotPicture

  /** The files for the pictures among shapes j.. of slide number `slide`, shapes numbered from 1. */
  function SlidePictures(outDir: PurePath, tag: string, slide: nat, shapes: seq<SlideShape>, j: nat): seq<PurePath>
    decreases |shapes| - j
  {
    if j >= |shapes| then []
    else
      (match shapes[j]
       case Picture(ext) => [Div(outDir, PptxName(tag, slide, j + 1, ext))]
       case NotPicture => [])
      + SlidePictures(outDir, tag, slide, shapes, j + 1)
  }

  /** The files for the pictures of slides i.., slides numbered from 1. */
  function PptxPictures(outDir: PurePath, tag: string, slides: seq<seq<SlideShape>>, i: nat): seq<PurePath>
    decreases |slides| - i
  {
    if i >= |slides| then [] else SlidePictures(outDir, tag, i + 1, slides[i], 0) + PptxPictures(outDir, tag, slides, i + 1)
  }

  /** _from_pptx: every picture shape of every slide is written out, slide by slide and shape by shape. */
  method FromPptx(outDir: PurePath, tag: string, slides: seq<seq<SlideShape>>) returns (saved: seq<PurePath>)
    ensures saved == PptxPictures(outDir, tag, slides, 0)
  {
    saved := [];
    for i := 0 to |slides|
      invariant saved + PptxPictures(outDir, tag, slides, i) == PptxPictures(outDir, tag, slides, 0)
    {
      var shapes := slides[i];
      ghost var later := PptxPictures(outDir, tag, slides, i + 1);
      assert PptxPictures(outDir, tag, slides, i) == SlidePictures(outDir, tag, i + 1, shapes, 0) + later;
      for j := 0 to |shapes|
        invariant saved + (SlidePictures(outDir, tag, i + 1, shapes, j) + later) == PptxPictures(outDir, tag, slides, 0)
      {
        ghost var rest := SlidePictures(outDir, tag, i + 1, shapes, j + 1) + later;
        match shapes[j] {
          case Picture(ext) =>
            var outPath := Div(outDir, PptxName(tag, i + 1, j + 1, ext));
            assert SlidePictures(outDir, tag, i + 1, shapes, j) == [outPath] + SlidePictures(outDir, tag, i + 1, shapes, j + 1);
            AppendAssoc([outPath], SlidePictures(outDir, tag, i + 1, shapes, j + 1), later);
            ghost var before := saved;
            saved := saved + [outPath];
            AppendAssoc(before, [outPath], rest);
          case NotPicture =>
            assert SlidePictures(outDir, tag, i + 1, shapes, j) == SlidePictures(outDir, tag, i + 1, shapes, j + 1);
        }
      }
      assert SlidePictures(outDir, tag, i + 1, shapes, |shapes|) + later == later;
    }
  }

  /** The number of picture shapes from position j on. */
  function PictureCount(shapes: seq<SlideShape>, j: nat): nat
    decreases |shapes| - j
  {
    if j >= |shapes| then 0 else (if shapes[j].Picture? then 1 else 0) + PictureCount(shapes, j + 1)
  }

  /** A slide yields exactly one file per picture shape. */
  lemma {:induction false} SlidePictureCount(outDir: PurePath, tag: string, slide: nat, shapes: seq<SlideShape>, j: nat)
    ensures |SlidePictures(outDir, tag, slide, shapes, j)| == PictureCount(shapes, j)
    decreases |shapes| - j
  {
    if j < |shapes| {
      SlidePictureCount(outDir, tag, slide, shapes, j + 1);
    }
  }

  // ---------- plain images ----------

  /** _copy_image: the copy is out_dir / (tag + the file's suffix, lower-cased). */
  function CopyImage(outDir: PurePath, path: PurePath, tag: string): PurePath
  {
    Div(outDir, tag + Lower(Suffix(path)))
  }

  /** A copied image keeps the tag as its stem-like start and gets the lower-cased suffix. */
  lemma CopyImageName(outDir: PurePath, path: PurePath, tag: string)
    requires IsComponent(tag + Lower(Suffix(path)))
    ensures CopyImage(outDir, path, tag) == PurePath(outDir.absolute, outDir.parts + [tag + Lower(Suffix(path))])
    ensures Name(CopyImage(outDir, path, tag)) == tag + Lower(Suffix(path))
  {
    NameOfDiv(outDir, tag + Lower(Suffix(path)));
  }

  // ---------- dispatch ----------

  /** What the libraries find in the file: PyMuPDF's pages (None when it cannot open the file), the DOCX relationships, the PPTX slides. */
  datatype ImageSources = ImageSources(fitzPages: Option<seq<seq<bool>>>, rels: seq<Rel>, slides: seq<seq<SlideShape>>)

  /**
    extract(file_path, prefix): unsupported extensions give no image; PDF, DOCX and PPTX files go to
    their readers; any other supported file is an image and is copied once.
   */
  method Extract(outDir: PurePath, filePath: string, prefix: Option<string>, src: ImageSources) returns (saved: seq<PurePath>)
    ensures var path := Parse(filePath); var ext := Lower(Suffix(path)); var tag := Tag(prefix, path);
      && (ext !in Supported ==> saved == [])
      && (ext == ".pdf" ==> saved == (if src.fitzPages.None? then [] else SavedPaths(outDir, PdfAttempts(tag, src.fitzPages.value, 0))))
      && (ext == ".docx" ==> saved == SavedPaths(outDir, DocxAttempts(tag, src.rels, 0)))
      && (ext == ".pptx" ==> saved == PptxPictures(outDir, tag, src.slides, 0))
      && (ext in Supported && ext !in {".pdf", ".docx", ".pptx"} ==> saved == [CopyImage(outDir, path, tag)])
  {
    var path := Parse(filePath);
    var ext := Lower(Suffix(path));
    var tag := Tag(prefix, path);
    if ext !in Supported {
      return [];
    }
    if ext == ".pdf" {
      saved := FromPdf(outDir, tag, src.fitzPages);
      return;
    }
    if ext == ".docx" {
      saved := FromDocx(outDir, tag, src.rels);
      return;
    }
    if ext == ".pptx" {
      saved := FromPptx(outDir, tag, src.slides);
      return;
    }
    return [CopyImage(outDir, path, tag)];
  }

  // ---------- file names never collide ----------

  /** The decimal form of a number consists of digits only, so it never holds the character c when c is not a digit. */
  lemma DigitsHaveNo(n: nat, c: char)
    requires !('0' <= c <= '9')
    ensures c !in NatToString(n)
  {
    var s := NatToString(n);
    assert forall k :: 0 <= k < |s| ==> s[k] != c;
  }

  /** The PDF file name read as the fixed start, the page number, '_', and the rest. */
  lemma PdfNameParts(tag: string, p: nat, i: nat)
    ensures PdfName(tag, p, i) == (tag + "_p") + (NatToString(p) + ['_'] + NatToString(i)) + ".png"
  {
  }

  /** The PPTX file name read as the fixed start, the slide number, '_', the shape number, '.', and the extension. */
  lemma PptxNameParts(tag: string, s: nat, sh: nat, ext: string)
    ensures PptxName(tag, s, sh, ext) == (tag + "_s") + (NatToString(s) + ['_'] + (NatToString(sh) + ['.'] + PictureExt(ext)))
  {
  }

  /** Two images of one PDF get the same file name only when they are the same image of the same page. */
  lemma PdfNameInjective(tag: string, p: nat, i: nat, p': nat, i': nat)
    requires PdfName(tag, p, i) == PdfName(tag, p', i')
    ensures p == p' && i == i'
  {
    var a, b, a', b' := NatToString(p), NatToString(i), NatToString(p'), NatToString(i');
    PdfNameParts(tag, p, i);
    PdfNameParts(tag, p', i');
    CancelSuffix((tag + "_p") + (a + ['_'] + b), (tag + "_p") + (a' + ['_'] + b'), ".png");
    CancelPrefix(tag + "_p", a + ['_'] + b, a' + ['_'] + b');
    DigitsHaveNo(p, '_');
    DigitsHaveNo(p', '_');
    CancelAtFirst(a, b, a', b', '_');
    NatToStringInjective(p, p');
    NatToStringInjective(i, i');
  }

  /** Two relationships of one DOCX get the same file name only when they are the same relationship. */
  lemma DocxNameInjective(tag: string, i: nat, i': nat)
    requires DocxName(tag, i) == DocxName(tag, i')
    ensures i == i'
  {
    CancelSuffix(tag + "_img_" + NatToString(i), tag + "_img_" + NatToString(i'), ".png");
    CancelPrefix(tag + "_img_", NatToString(i), NatToString(i'));
    NatToStringInjective(i, i');
  }

  /** Two pictures of one PPTX get the same file name only when they are the same shape of the same slide with the same file extension. */
  lemma PptxNameInjective(tag: string, s: nat, sh: nat, ext: string, s': nat, sh': nat, ext': string)
    requires PptxName(tag, s, sh, ext) == PptxName(tag, s', sh', ext')
    ensures s == s' && sh == sh' && PictureExt(ext) == PictureExt(ext')
  {
    var a, b, e, a', b', e' := NatToString(s), NatToString(sh), PictureExt(ext), NatToString(s'), NatToString(sh'), PictureExt(ext');
    PptxNameParts(tag, s, sh, ext);
    PptxNameParts(tag, s', sh', ext');
    CancelPrefix(tag + "_s", a + ['_'] + (b + ['.'] + e), a' + ['_'] + (b' + ['.'] + e'));
    DigitsHaveNo(s, '_');
    DigitsHaveNo(s', '_');
    CancelAtFirst(a, b + ['.'] + e, a', b' + ['.'] + e', '_');
    DigitsHaveNo(sh, '.');
    DigitsHaveNo(sh', '.');
    CancelAtFirst(b, e, b', e', '.');
    NatToStringInjective(s, s');
    NatToStringInjective(sh, sh');
  }

  /** With a tag free of '/', an extracted PDF image lands directly in out_dir under its own name. */
  lemma PdfImageInOutDir(outDir: PurePath, tag: string, p: nat, i: nat)
    requires '/' !in tag
    ensures Div(outDir, PdfName(tag, p, i)) == PurePath(outDir.absolute, outDir.parts + [PdfName(tag, p, i)])
    ensures Name(Div(outDir, PdfName(tag, p, i))) == PdfName(tag, p, i)
  {
    var n := PdfName(tag, p, i);
    DigitsHaveNo(p, '/');
    DigitsHaveNo(i, '/');
    assert n == tag + "_p" + NatToString(p) + "_" + NatToString(i) + ".png";
    assert n[|n| - 1] == 'g';
    assert '/' !in n;
    NameOfDiv(outDir, n);
  }

  /** The stem of a parsed path never holds '/', so without a prefix the tag is always free of it. */
  lemma StemHasNoSlash(path: string)
    ensures '/' !in Stem(Parse(path))
  {
    var p := Parse(path);
    if p.parts != [] {
      assert IsComponent(p.parts[|p.parts| - 1]);
    }
  }
}
