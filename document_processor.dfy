/** The filename and preview helpers of `DocumentProcessor`
    (backend/document_processor.py): file type from a filename, the supported
    type test, and the content preview shown after an upload. */
module DocumentProcessor {
  import opened PyStrings

  /** The types the upload endpoint accepts, as `is_supported_file_type` lists them. */
  const SupportedTypes: seq<string> := ["txt", "pdf", "docx", "doc"]

  /** The preview length callers get when they pass none. */
  const DefaultPreviewLength: int := 200

  /** `get_file_type`: the lower-cased text after the last `'.'` of the
      filename, or `"unknown"` when the filename has no `'.'`. */
  function FileType(filename: string): (r: string)
    ensures '.' !in filename ==> r == "unknown"
    ensures '.' in filename ==> |r| < |filename|
    ensures '.' in filename ==>
      var ext := filename[|filename| - |r|..];
      && '.' !in ext && filename[|filename| - |r| - 1] == '.'
      && r == Lower(ext)
  {
    if '.' in filename then Lower(LastField(filename, '.')) else "unknown"
  }

  /** Whatever precedes it, a name `stem.ext` whose `ext` has no dot has the
      lower case of `ext` as its type; the extension may be empty. */
  lemma FileTypeOfExtension(stem: string, ext: string)
    requires '.' !in ext
    ensures FileType(stem + "." + ext) == Lower(ext)
  {
    LastFieldAfterSeparator(stem, '.', ext);
    assert (stem + "." + ext)[|stem|] == '.';
  }

  /** The type is lower case and holds no dot. */
  lemma FileTypeIsLowerWithoutDot(filename: string)
    ensures '.' !in FileType(filename)
    ensures Lower(FileType(filename)) == FileType(filename)
  {
    var r := FileType(filename);
    if '.' in filename {
      LowerIdempotent(filename[|filename| - |r|..]);
      assert forall k :: 0 <= k < |r| ==> r[k] != '.';
    }
  }

  /** `"a.b.PDF"` has type `"pdf"`: only the text after the last dot counts. */
  lemma FileTypeExample()
    ensures FileType("a.b.PDF") == "pdf"
  {
    FileTypeOfExtension("a.b", "PDF");
    assert Lower("PDF") == "pdf";
  }

  /** A trailing dot gives the empty type, not `"unknown"`. */
  lemma FileTypeTrailingDot(stem: string)
    ensures FileType(stem + ".") == ""
  {
    FileTypeOfExtension(stem, "");
    assert stem + "." + "" == stem + ".";
  }

  /** `is_supported_file_type`: a membership test on the lower-cased type. */
  predicate IsSupportedFileType(fileType: string)
  {
    Lower(fileType) in SupportedTypes
  }

  /** The test ignores case: a type and its lower case get the same answer,
      and a supported type is one of the four listed ones up to case. */
  lemma SupportedIgnoresCase(fileType: string)
    ensures IsSupportedFileType(fileType) == IsSupportedFileType(Lower(fileType))
    ensures IsSupportedFileType(fileType) <==>
      Lower(fileType) == "txt" || Lower(fileType) == "pdf" || Lower(fileType) == "docx" || Lower(fileType) == "doc"
  {
    LowerIdempotent(fileType);
  }

  /** A filename without a dot has type `"unknown"`, which is not supported, so
      the upload endpoint turns it away. */
  lemma NoExtensionNotSupported(filename: string)
    requires '.' !in filename
    ensures !IsSupportedFileType(FileType(filename))
  {
    var u := Lower("unknown");
    assert u == "unknown";
  }

  /** Python's `s[:k]` for an integer `k`: a negative `k` counts from the end,
      and either way the slice is clamped to the string. */
  function PrefixTo(s: string, k: int): (r: string)
    ensures |r| <= |s| && r == s[..|r|]
    ensures 0 <= k ==> |r| == if k <= |s| then k else |s|
    ensures k < 0 ==> |r| == if -k <= |s| then |s| + k else 0
  {
    if k >= 0 then
      (if k <= |s| then s[..k] else s)
    else
      (if -k <= |s| then s[..|s| + k] else [])
  }

  /** `get_content_preview(content, max_length)`: nothing for empty content,
      the stripped content when it fits in `maxLength`, and otherwise the first
      `maxLength` characters of the stripped content followed by an ellipsis. */
  function ContentPreview(content: string, maxLength: int): (r: string)
    ensures content == [] ==> r == []
    ensures content != [] && |Strip(content)| <= maxLength ==> r == Strip(content)
    ensures content != [] && 0 <= maxLength < |Strip(content)| ==>
      && |r| == maxLength + 3
      && r[maxLength..] == "..."
      && r[..maxLength] == Strip(content)[..maxLength]
    ensures content != [] && maxLength < 0 ==>
      var keep := if |Strip(content)| + maxLength >= 0 then |Strip(content)| + maxLength else 0;
      && |r| == keep + 3
      && r[keep..] == "..."
      && r[..keep] == Strip(content)[..keep]
  {
    if content == [] then []
    else
      var stripped := Strip(content);
      if |stripped| <= maxLength then stripped
      else PrefixTo(stripped, maxLength) + "..."
  }

  /** For a non-negative `maxLength` the preview is never longer than
      `maxLength + 3`, and, ellipsis aside, it is a prefix of the stripped
      content. */
  lemma ContentPreviewIsBoundedPrefix(content: string, maxLength: int)
    requires 0 <= maxLength
    ensures var r := ContentPreview(content, maxLength);
      && |r| <= maxLength + 3
      && (r == Strip(content) || (r == Strip(content)[..maxLength] + "..." && content != []))
      && (content != [] || r == [])
  {
  }

  /** With the default length of 200 a preview never exceeds 203 characters. */
  lemma DefaultPreviewIsShort(content: string)
    ensures |ContentPreview(content, DefaultPreviewLength)| <= 203
  {
    ContentPreviewIsBoundedPrefix(content, DefaultPreviewLength);
  }

  /** A negative `maxLength` keeps Python's slice semantics: whitespace-only
      content gives `"..."`, and `-1` drops the last character. */
  lemma ContentPreviewNegativeLength()
    ensures ContentPreview("  ", -1) == "..."
    ensures ContentPreview(" abc ", -1) == "ab..."
  {
    assert LeadingSpaces("  ") == 2;
    assert Strip("  ") == [];
    assert LeadingSpaces(" abc ") == 1;
    assert TrailingSpaces("abc ") == 1;
    assert Strip(" abc ") == "abc";
    assert PrefixTo("abc", -1) == "ab";
  }
}
