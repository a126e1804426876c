/** The upload filter, `allowed_file` (app.py lines 14-18): a file is
    accepted when its name has a dot and the part after the last dot,
    lower-cased, is one of the allowed extensions. */
module Upload {
  import opened Text

  /** `ALLOWED_EXTENSIONS`. */
  const AllowedExtensions: set<string> := {"pdf"}

  /** The position of the last `c` in `s`. */
  function LastIndexOf(s: string, c: char): (r: Option<nat>)
    ensures r.None? ==> c !in s
    ensures r.Some? ==> r.value < |s| && s[r.value] == c && c !in s[r.value + 1..]
  {
    if s == [] then None
    else if s[|s| - 1] == c then Some(|s| - 1)
    else match LastIndexOf(s[..|s| - 1], c)
      case None => None
      case Some(k) =>
        assert s[k + 1..] == s[..|s| - 1][k + 1..] + [s[|s| - 1]];
        Some(k)
  }

  /** `filename.rsplit('.', 1)[1]`: what follows the last dot. */
  function Extension(filename: string): string
    requires '.' in filename
  {
    var k := LastIndexOf(filename, '.').value;
    filename[k + 1..]
  }

  /** `'.' in filename and filename.rsplit('.', 1)[1].lower() in ALLOWED_EXTENSIONS`. */
  function AllowedFile(filename: string): bool {
    '.' in filename && Lower(Extension(filename)) in AllowedExtensions
  }

  lemma AllowedEndsInPdf(filename: string)
    requires AllowedFile(filename)
    ensures |filename| >= 4 && Lower(filename[|filename| - 4..]) == ".pdf"
  {
    var n := |filename|;
    var k := LastIndexOf(filename, '.').value;
    var ext := filename[k + 1..];
    assert |Lower(ext)| == 3 && k == n - 4;
    var tail := filename[n - 4..];
    assert tail == ['.'] + ext;
    forall j | 1 <= j < 4 ensures Lower(tail)[j] == ".pdf"[j] {
      assert tail[j] == ext[j - 1];
      assert Lower(ext)[j - 1] == "pdf"[j - 1];
    }
  }

  lemma PdfSuffixAllowed(filename: string)
    requires |filename| >= 4 && Lower(filename[|filename| - 4..]) == ".pdf"
    ensures AllowedFile(filename)
  {
    var n := |filename|;
    var tail := filename[n - 4..];
    assert filename[n - 4] == tail[0];
    assert LowerChar(tail[0]) == '.';
    assert forall j :: 1 <= j < 4 ==> LowerChar(tail[j]) == ".pdf"[j];
    forall j | n - 3 <= j < n ensures filename[j] != '.' {
      assert filename[j] == tail[j - (n - 4)];
    }
    assert filename[n - 4] in filename;
    var k := LastIndexOf(filename, '.').value;
    assert k == n - 4;
    var ext := filename[k + 1..];
    forall j | 0 <= j < 3 ensures Lower(ext)[j] == "pdf"[j] {
      assert ext[j] == tail[j + 1];
    }
    assert Lower(ext) == "pdf";
  }

  /** A file is accepted exactly when its name ends in ".pdf" in any mix of
      upper and lower case. */
  lemma AllowedIffPdfSuffix(filename: string)
    ensures AllowedFile(filename) <==> |filename| >= 4 && Lower(filename[|filename| - 4..]) == ".pdf"
  {
    if AllowedFile(filename) {
      AllowedEndsInPdf(filename);
    }
    if |filename| >= 4 && Lower(filename[|filename| - 4..]) == ".pdf" {
      PdfSuffixAllowed(filename);
    }
  }

  /** Names the filter accepts: the check ignores case, and a name that is
      only an extension passes. */
  lemma AcceptedExamples()
    ensures AllowedFile("CV.PDF") && AllowedFile(".pdf")
  {
    PdfSuffixAllowed("CV.PDF");
    PdfSuffixAllowed(".pdf");
  }

  /** Names the filter rejects: no dot, nothing after the last dot, or a
      last extension other than pdf. */
  lemma RejectedExamples()
    ensures !AllowedFile("resume") && !AllowedFile("resume.") && !AllowedFile("resume.pdf.exe")
  {
    AllowedIffPdfSuffix("resume");
    AllowedIffPdfSuffix("resume.");
    AllowedIffPdfSuffix("resume.pdf.exe");
  }
}
