/**
 * The name given to the downloaded result: `name.replace(/\.pdf$/i, "") + "_noheaders.pdf"`.
 * The pattern is anchored at the end of the input and case-insensitive. A
 * non-Unicode JavaScript regular expression compares characters by their
 * upper-case forms, but never lets a character at or above U+0080 stand for
 * an ASCII one, so only `p`/`P`, `d`/`D` and `f`/`F` match the pattern's
 * letters and the match is a check of the last four characters.
 */
module DownloadName {

  const Suffix: string := "_noheaders.pdf"

  /** ASCII lower-casing; every other character is left alone. */
  function AsciiLower(c: char): (l: char)
    ensures 'A' <= c <= 'Z' ==> 'a' <= l <= 'z'
    ensures !('A' <= c <= 'Z') ==> l == c
  {
    if 'A' <= c <= 'Z' then (c as int + 32) as char else c
  }

  /** `x` is `.pdf` in any mixture of letter case. */
  predicate IsPdfExtension(x: string) {
    |x| == 4 && x[0] == '.' && AsciiLower(x[1]) == 'p' && AsciiLower(x[2]) == 'd' && AsciiLower(x[3]) == 'f'
  }

  /** `/\.pdf$/i.test(name)` */
  predicate HasPdfExtension(name: string) {
    |name| >= 4 && IsPdfExtension(name[|name| - 4..])
  }

  /** The name with one trailing `.pdf` (any case) removed. */
  function Stem(name: string): (stem: string)
    ensures HasPdfExtension(name) ==> name == stem + name[|name| - 4..]
    ensures !HasPdfExtension(name) ==> stem == name
  {
    if HasPdfExtension(name) then name[..|name| - 4] else name
  }

  /** The download name derived from the selected file's name. */
  function OutputName(name: string): (out: string)
    ensures |out| >= |Suffix| && out[|out| - |Suffix|..] == Suffix
    ensures IsPdfExtension(out[|out| - 4..])
    ensures |out| == |name| + |Suffix| - (if HasPdfExtension(name) then 4 else 0)
  {
    Stem(name) + Suffix
  }

  /** Exactly one `.pdf` extension, of any case, is replaced, whatever the stem ends with. */
  lemma StripsOneExtension(stem: string, ext: string)
    requires IsPdfExtension(ext)
    ensures OutputName(stem + ext) == stem + Suffix
  {
    assert (stem + ext)[|stem + ext| - 4..] == ext;
    assert (stem + ext)[..|stem + ext| - 4] == stem;
  }

  /** A name that does not end in `.pdf` keeps all of its characters. */
  lemma KeepsOtherNames(name: string)
    requires !HasPdfExtension(name)
    ensures OutputName(name) == name + Suffix
  {
  }

  /**
   * The stem can be read back from the output name, and it determines the
   * input up to the letter case of a removed extension.
   */
  lemma {:induction false} OutputNameInverse(name: string, stem: string)
    ensures OutputName(name) == stem + Suffix <==>
      (name == stem && !HasPdfExtension(name)) || (HasPdfExtension(name) && name == stem + name[|name| - 4..])
  {
    var out := OutputName(name);
    if out == stem + Suffix {
      assert out[..|out| - |Suffix|] == stem;
      assert out[..|out| - |Suffix|] == Stem(name);
    }
    if HasPdfExtension(name) && name == stem + name[|name| - 4..] {
      assert name[..|name| - 4] == stem;
    }
  }

  /** `report.PDF` loses its upper-case extension. */
  lemma ExampleUpperCase()
    ensures OutputName("report.PDF") == "report_noheaders.pdf"
  {
    assert "report.PDF" == "report" + ".PDF";
    StripsOneExtension("report", ".PDF");
  }

  /** Of `a.pdf.pdf`, only the last extension goes. */
  lemma ExampleDoubleExtension()
    ensures OutputName("a.pdf.pdf") == "a.pdf_noheaders.pdf"
  {
    assert "a.pdf.pdf" == "a.pdf" + ".pdf";
    StripsOneExtension("a.pdf", ".pdf");
  }

  /** `x.txt` is kept whole. */
  lemma ExampleOtherExtension()
    ensures OutputName("x.txt") == "x.txt_noheaders.pdf"
  {
    assert "x.txt"[1..] == ".txt";
    KeepsOtherNames("x.txt");
  }
}
