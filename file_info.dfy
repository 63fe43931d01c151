// File-name helpers: the MIME type of an extension, and a file-system-safe
// form of a name.
module FileInfo {
  import opened Text

  // ---------------------------------------------------------------------------
  // GetMimeType
  // ---------------------------------------------------------------------------

  const DefaultMimeType: string := "application/octet-stream"

  /** Extension.OrEmpty().TrimStart("."): the extension without its leading dot. */
  function StripDot(extension: string): (r: string)
    ensures |extension| > 0 && extension[0] == '.' ==> r == extension[1..]
    ensures (|extension| == 0 || extension[0] != '.') ==> r == extension
  {
    if |extension| > 0 && extension[0] == '.' then extension[1..] else extension
  }

  /** GetMimeType: the switch over the extension, case-sensitively. */
  function GetMimeType(extension: string): string
  {
    match StripDot(extension)
    case "doc" => "application/msword"
    case "docx" => "application/msword"
    case "pdf" => "application/pdf"
    case "ppt" => "application/powerpoint"
    case "rtf" => "application/rtf"
    case "gz" => "application/x-gzip"
    case "zip" => "application/zip"
    case "mpga" => "audio/mpeg"
    case "mp2" => "audio/mpeg"
    case "ram" => "audio/x-pn-realaudio"
    case "ra" => "audio/x-realaudio"
    case "wav" => "audio/x-wav"
    case "gif" => "image/gif"
    case "jpeg" => "image/jpeg"
    case "jpg" => "image/jpeg"
    case "jpe" => "image/jpeg"
    case "png" => "image/png"
    case "tiff" => "image/tiff"
    case "tif" => "image/tiff"
    case "html" => "text/html"
    case "htm" => "text/html"
    case "txt" => "text/plain"
    case "mpeg" => "video/mpeg"
    case "mpg" => "video/mpeg"
    case "mpe" => "video/mpeg"
    case "mov" => "video/quicktime"
    case "qt" => "video/quicktime"
    case "avi" => "video/x-msvideo"
    case _ => DefaultMimeType
  }

  /** The table of known extensions. */
  const KnownTypes: map<string, string> := map[
    "doc" := "application/msword",
    "docx" := "application/msword",
    "pdf" := "application/pdf",
    "ppt" := "application/powerpoint",
    "rtf" := "application/rtf",
    "gz" := "application/x-gzip",
    "zip" := "application/zip",
    "mpga" := "audio/mpeg",
    "mp2" := "audio/mpeg",
    "ram" := "audio/x-pn-realaudio",
    "ra" := "audio/x-realaudio",
    "wav" := "audio/x-wav",
    "gif" := "image/gif",
    "jpeg" := "image/jpeg",
    "jpg" := "image/jpeg",
    "jpe" := "image/jpeg",
    "png" := "image/png",
    "tiff" := "image/tiff",
    "tif" := "image/tiff",
    "html" := "text/html",
    "htm" := "text/html",
    "txt" := "text/plain",
    "mpeg" := "video/mpeg",
    "mpg" := "video/mpeg",
    "mpe" := "video/mpeg",
    "mov" := "video/quicktime",
    "qt" := "video/quicktime",
    "avi" := "video/x-msvideo"]

  /** A listed extension, with or without its dot, gets the MIME type the table gives it. */
  lemma MimeTypeOfListed(extension: string)
    requires StripDot(extension) in KnownTypes
    ensures GetMimeType(extension) == KnownTypes[StripDot(extension)]
  {
  }

  /** Anything unlisted, another letter case included, gets application/octet-stream. */
  lemma MimeTypeOfUnlisted(extension: string)
    requires StripDot(extension) !in KnownTypes
    ensures GetMimeType(extension) == DefaultMimeType
  {
  }

  /** Listed examples: the dot is optional, and the match is case-sensitive. */
  lemma MimeTypeExamples()
    ensures GetMimeType(".docx") == GetMimeType("doc") == "application/msword"
    ensures GetMimeType(".jpe") == GetMimeType("jpg") == "image/jpeg"
    ensures GetMimeType(".DOC") == DefaultMimeType
    ensures GetMimeType("") == DefaultMimeType
  {
    assert StripDot(".docx") == "docx";
    assert StripDot(".jpe") == "jpe";
    assert StripDot(".DOC") == "DOC";
  }

  // ---------------------------------------------------------------------------
  // ToSafeFileName
  // ---------------------------------------------------------------------------

  const MaxFileNameLength: nat := 255
  const Ellipsis: string := "..."

  /** The fixed invalid characters, in the order they are replaced. */
  const FixedInvalid: seq<char> := ['<', '>', ':', '"', '/', '\\', '|', '?', '*']

  /** char.IsControl: the C0 and C1 control ranges. */
  predicate IsControl(c: char)
  {
    c <= '\U{1F}' || ('\U{7F}' <= c <= '\U{9F}')
  }

  /** name.Where(char.IsControl), in order. */
  function ControlCharacters(name: string): (r: seq<char>)
    ensures forall c :: c in r <==> c in name && IsControl(c)
  {
    if name == [] then []
    else (if IsControl(name[0]) then [name[0]] else []) + ControlCharacters(name[1..])
  }

  /** The characters a safe name may not keep. */
  predicate Invalid(c: char, original: string)
  {
    c in FixedInvalid || (c in original && IsControl(c))
  }

  /** Every invalid character of the original replaced, every other kept. */
  function Sanitized(name: string, replacement: char): (r: string)
    ensures |r| == |name|
    ensures forall k :: 0 <= k < |name| ==> r[k] == if Invalid(name[k], name) then replacement else name[k]
  {
    seq(|name|, k requires 0 <= k < |name| => if Invalid(name[k], name) then replacement else name[k])
  }

  /** ReplaceAll(rr, r): replace the doubled replacement until none is left, leaving one per run. */
  function Collapse(s: string, r: char): (t: string)
    ensures |t| <= |s|
    ensures |s| > 0 ==> |t| > 0 && t[0] == s[0]
    decreases |s|
  {
    if |s| < 2 then s
    else if s[0] == r && s[1] == r then Collapse(s[1..], r)
    else [s[0]] + Collapse(s[1..], r)
  }

  predicate NoDoubled(s: string, r: char)
  {
    forall k :: 0 <= k < |s| - 1 ==> !(s[k] == r && s[k + 1] == r)
  }

  /** After collapsing, the replacement never appears twice in a row, and no other character is added. */
  lemma {:induction false} CollapseMeaning(s: string, r: char)
    ensures NoDoubled(Collapse(s, r), r)
    ensures forall c :: c in Collapse(s, r) ==> c in s
    decreases |s|
  {
    if |s| >= 2 {
      CollapseMeaning(s[1..], r);
      if !(s[0] == r && s[1] == r) {
        var rest := Collapse(s[1..], r);
        assert rest[0] == s[1];
        var t := [s[0]] + rest;
        forall k | 0 <= k < |t| - 1
          ensures !(t[k] == r && t[k + 1] == r)
        {
          if k > 0 { assert t[k] == rest[k - 1] && t[k + 1] == rest[k]; }
        }
      }
    }
  }

  /** Summarize(255).TrimEnd("..."): cut to 255 characters, and drop a trailing ellipsis. */
  function Summarized(s: string): (r: string)
    ensures |r| <= MaxFileNameLength && |r| <= |s|
    ensures r == s[..|r|]
  {
    var summary := if |s| > MaxFileNameLength then s[..MaxFileNameLength] + Ellipsis else s;
    TrimSuffix(summary, Ellipsis)
  }

  /** The safe file name the method computes. */
  function SafeFileName(name: string, replacement: char): string
  {
    if name == "" then "" else Summarized(Collapse(Sanitized(name, replacement), replacement))
  }

  /**
   * A safe name keeps no invalid character other than the replacement,
   * never has the replacement twice in a row, and has at most 255 characters;
   * an empty name gives the empty string.
   */
  lemma SafeFileNameMeaning(name: string, replacement: char)
    ensures var r := SafeFileName(name, replacement);
            (name == "" ==> r == "") &&
            |r| <= MaxFileNameLength &&
            NoDoubled(r, replacement) &&
            (forall c :: c in r && Invalid(c, name) ==> c == replacement)
  {
    if name != "" {
      var sanitized := Sanitized(name, replacement);
      var collapsed := Collapse(sanitized, replacement);
      CollapseMeaning(sanitized, replacement);
      var r := Summarized(collapsed);
      assert forall k :: 0 <= k < |r| ==> r[k] == collapsed[k];
      forall c | c in r && Invalid(c, name)
        ensures c == replacement
      {
        var k :| 0 <= k < |r| && r[k] == c;
        assert c in collapsed;
        var j :| 0 <= j < |sanitized| && sanitized[j] == c;
      }
    }
  }

  /** A name that is already safe and short is kept unchanged. */
  lemma SafeNameKept(name: string, replacement: char)
    requires forall k :: 0 <= k < |name| ==> !Invalid(name[k], name)
    requires NoDoubled(name, replacement) && |name| <= MaxFileNameLength
    requires !EndsWith(name, Ellipsis)
    ensures SafeFileName(name, replacement) == name
  {
    if name != "" {
      assert Sanitized(name, replacement) == name;
      CollapseKeeps(name, replacement);
    }
  }

  lemma {:induction false} CollapseKeeps(s: string, r: char)
    requires NoDoubled(s, r)
    ensures Collapse(s, r) == s
    decreases |s|
  {
    if |s| >= 2 {
      CollapseKeeps(s[1..], r);
      assert s == [s[0]] + s[1..];
    }
  }

  /** ToSafeFileName(name, replacement): the replacement loop, then collapsing and summarising. */
  method ToSafeFileName(name: string, replacement: char) returns (r: string)
    ensures r == SafeFileName(name, replacement)
  {
    if name == "" {
      return "";
    }
    var invalidChars := FixedInvalid + ControlCharacters(name);
    var current := name;
    var i := 0;
    while i < |invalidChars|
      invariant 0 <= i <= |invalidChars|
      invariant |current| == |name|
      invariant forall k :: 0 <= k < |name| ==> current[k] == if name[k] in invalidChars[..i] then replacement else name[k]
    {
      assert invalidChars[..i + 1] == invalidChars[..i] + [invalidChars[i]];
      ghost var before := current;
      current := ReplaceChar(current, invalidChars[i], replacement);
      forall k | 0 <= k < |name|
        ensures current[k] == if name[k] in invalidChars[..i + 1] then replacement else name[k]
      {
        assert current[k] == if before[k] == invalidChars[i] then replacement else before[k];
      }
      i := i + 1;
    }
    assert invalidChars[..|invalidChars|] == invalidChars;
    assert forall c :: c in invalidChars <==> c in FixedInvalid || (c in name && IsControl(c));
    assert current == Sanitized(name, replacement);
    r := Summarized(Collapse(current, replacement));
  }
}
