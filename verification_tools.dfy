/** The parts of the document-analysis tool that do not call the vision model:
    choosing the MIME type of an image from its path, and prefixing the model's
    analysis with the file name. */
module VerificationTools {
  import opened Wrappers
  import PyStr
  import PyPath

  /** The extension table of `get_image_mime_type`. */
  const MimeTypes: map<string, string> := map[
    ".jpg" := "image/jpeg",
    ".jpeg" := "image/jpeg",
    ".png" := "image/png",
    ".gif" := "image/gif",
    ".webp" := "image/webp"
  ]

  const DefaultMimeType: string := "image/jpeg"

  /** `mime_types.get(ext, 'image/jpeg')`: PNG, GIF and WebP for exactly their three
      extensions, JPEG for every other string, `.jpg` and `.jpeg` included. */
  function LookupMimeType(ext: string): (r: string)
    ensures r == "image/png" <==> ext == ".png"
    ensures r == "image/gif" <==> ext == ".gif"
    ensures r == "image/webp" <==> ext == ".webp"
    ensures r == "image/jpeg" <==> ext != ".png" && ext != ".gif" && ext != ".webp"
  {
    if ext in MimeTypes then MimeTypes[ext] else DefaultMimeType
  }

  /** `get_image_mime_type`: the suffix of the path's final component, lower-cased,
      looked up in the table, with JPEG as the default. Total; always one of four
      image types. */
  function GetImageMimeType(filePath: string): (r: string)
    ensures r in {"image/jpeg", "image/png", "image/gif", "image/webp"}
  {
    LookupMimeType(PyStr.Lower(PyPath.Suffix(PyPath.Name(filePath))))
  }

  /** `name`, case-folded, ends with the dotted extension `e` and has something
      before it. */
  predicate HasExtension(name: string, e: string) {
    PyPath.EndsAfterStem(PyStr.Lower(name), e)
  }

  /** Lower-casing keeps every '.' where it is, so it commutes with taking the suffix. */
  lemma {:induction false} LowerSuffix(name: string)
    ensures PyStr.Lower(PyPath.Suffix(name)) == PyPath.Suffix(PyStr.Lower(name))
  {
    var m := PyStr.Lower(name);
    PyStr.LowerKeepsDots(name);
    PyPath.RFindSamePositions(name, m, '.');
    var i := PyPath.RFind(name, '.');
    if 0 < i < |name| - 1 {
      PyStr.LowerTail(name, i);
    }
  }

  /** A dotted extension is the lower-cased suffix of `name` exactly when `name` ends
      with it, ignoring case, after at least one other character. */
  lemma {:induction false} LowerSuffixIs(name: string, e: string)
    requires PyPath.IsExtension(e)
    ensures PyStr.Lower(PyPath.Suffix(name)) == e <==> HasExtension(name, e)
  {
    var m := PyStr.Lower(name);
    LowerSuffix(name);
    PyPath.SuffixIs(m, e);
  }

  /** Which image type a path gets, stated on its final component alone: PNG, GIF
      and WebP for their extensions in any case, JPEG for everything else, including
      `.jpg`, `.jpeg`, `.pdf`, no suffix and a name that is only a dotted extension. */
  lemma {:induction false} MimeTypeByExtension(filePath: string)
    ensures var n := PyPath.Name(filePath);
            && (GetImageMimeType(filePath) == "image/png" <==> HasExtension(n, ".png"))
            && (GetImageMimeType(filePath) == "image/gif" <==> HasExtension(n, ".gif"))
            && (GetImageMimeType(filePath) == "image/webp" <==> HasExtension(n, ".webp"))
            && (GetImageMimeType(filePath) == "image/jpeg" <==>
                  !HasExtension(n, ".png") && !HasExtension(n, ".gif") && !HasExtension(n, ".webp"))
  {
    var n := PyPath.Name(filePath);
    LowerSuffixIs(n, ".png");
    LowerSuffixIs(n, ".gif");
    LowerSuffixIs(n, ".webp");
  }

  /** Only the final component matters: a directory prefix never changes the type. */
  lemma {:induction false} MimeTypeOfFinalComponent(dir: string, n: string)
    requires PyPath.IsComponent(n)
    ensures GetImageMimeType(dir + "/" + n) == GetImageMimeType(n)
  {
    PyPath.NameOfLastComponent(dir, n);
  }

  /** A path whose final component has no suffix is JPEG. */
  lemma NoSuffixIsJpeg(filePath: string)
    requires PyPath.Suffix(PyPath.Name(filePath)) == ""
    ensures GetImageMimeType(filePath) == DefaultMimeType
  {
    assert PyStr.Lower("") == "";
  }

  /** A name made of a non-empty stem and a dotted extension gets the type of that
      extension, case-folded, whatever dots the stem holds: `SCAN.PNG` and
      `a.pdf.png` are PNG images, `a.png.pdf` is JPEG. */
  lemma {:induction false} MimeTypeOfStemAndExtension(stem: string, e: string)
    requires stem != "" && '/' !in stem + e
    requires PyPath.IsExtension(e)
    ensures GetImageMimeType(stem + e) == LookupMimeType(PyStr.Lower(e))
  {
    var n := stem + e;
    PyPath.NameOfComponent(n);
    PyPath.SuffixIs(n, e);
    assert n[|n| - |e|..] == e;
  }

  /** A trailing separator does not change the type: `a.png/` is still PNG. */
  lemma MimeTypeIgnoresTrailingSeparator(filePath: string)
    ensures GetImageMimeType(filePath + "/") == GetImageMimeType(filePath)
  {
    PyPath.NameIgnoresTrailingSeparator(filePath);
  }

  /** A name that is only a dotted extension, such as `.png`, has no suffix and so is
      JPEG. */
  lemma {:induction false} MimeTypeOfDotFile(e: string)
    requires '/' !in e
    requires PyPath.IsExtension(e)
    ensures GetImageMimeType(e) == DefaultMimeType
  {
    PyPath.NameOfComponent(e);
    PyPath.SuffixOfDotFile(e);
    NoSuffixIsJpeg(e);
  }

  /** A name without a dot has no suffix and so is JPEG. */
  lemma {:induction false} MimeTypeWithoutDot(n: string)
    requires PyPath.IsComponent(n) && '.' !in n
    ensures GetImageMimeType(n) == DefaultMimeType
  {
    PyPath.NameOfComponent(n);
    PyPath.RFindAbsent(n, '.');
    NoSuffixIsJpeg(n);
  }

  /** Upper-case extensions are case-folded: `SCAN.PNG` is a PNG image. */
  lemma MimeTypeExampleUpperCase()
    ensures GetImageMimeType("SCAN.PNG") == "image/png"
  {
    var ext := PyStr.Lower(".PNG");
    assert ext == ".png" by {
      assert ext[0] == '.' && ext[1] == 'p' && ext[2] == 'n' && ext[3] == 'g';
    }
    assert "SCAN" + ".PNG" == "SCAN.PNG";
    MimeTypeOfStemAndExtension("SCAN", ".PNG");
  }

  /** Only the last suffix counts: `a.pdf.png` is a PNG image. */
  lemma MimeTypeExampleLastSuffix()
    ensures GetImageMimeType("a.pdf.png") == "image/png"
  {
    assert PyStr.Lower(".png") == ".png";
    assert "a.pdf" + ".png" == "a.pdf.png";
    MimeTypeOfStemAndExtension("a.pdf", ".png");
  }

  /** ...and `a.png.pdf` is JPEG. */
  lemma MimeTypeExampleInnerSuffix()
    ensures GetImageMimeType("a.png.pdf") == "image/jpeg"
  {
    assert PyStr.Lower(".pdf") == ".pdf";
    assert ".pdf"[2] != ".png"[2] && ".pdf"[1] != ".gif"[1] && |".pdf"| != |".webp"|;
    assert "a.png" + ".pdf" == "a.png.pdf";
    MimeTypeOfStemAndExtension("a.png", ".pdf");
  }

  /** The dot-file `.png` is JPEG. */
  lemma MimeTypeExampleDotFile()
    ensures GetImageMimeType(".png") == "image/jpeg"
  {
    MimeTypeOfDotFile(".png");
  }

  /** The tool's output once the model has answered with `result`: prefixed with a
      heading naming the file when a non-empty file name was given, verbatim
      otherwise. */
  function AnalysisOutput(filename: Option<string>, result: string): (r: string)
    ensures |r| >= |result| && r[|r| - |result|..] == result
    ensures (filename.None? || filename.value == "") ==> r == result
    ensures filename.Some? && filename.value != "" ==>
      r[..|r| - |result|] == "Analysis of " + filename.value + ":\n\n"
  {
    if filename.Some? && filename.value != "" then
      "Analysis of " + filename.value + ":\n\n" + result
    else
      result
  }
}
