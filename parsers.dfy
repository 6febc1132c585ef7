/**
 * File-format dispatch for ingestion: which extensions are accepted, how a
 * buffer of each kind becomes text, and the JSON flattener that collects
 * every non-blank string of a document.
 */
module Parsers {
  import opened Wrappers
  import opened Text
  import opened Json

  type Bytes = seq<bv8>

  /**
   * The decoders the dispatcher hands buffers to: UTF-8 decoding, the PDF,
   * DOCX and HTML converters and JSON.parse.  A converter that throws gives
   * `Failure` with its message.
   */
  datatype Decoders = Decoders(
    utf8: Bytes -> string,
    pdf: Bytes -> Result<string, string>,
    docx: Bytes -> Result<string, string>,
    html: string -> string,
    jsonParse: string -> Result<Json, string>)

  const SupportedExtensions: seq<string> := [".txt", ".md", ".pdf", ".docx", ".html", ".htm", ".json"]

  const Separator := "\n\n"

  const UnsupportedPrefix := "Unsupported file type: "

  /** The rejection message: the fixed prefix followed by the extension as given. */
  function UnsupportedMessage(ext: string): (m: string)
    ensures |m| == |UnsupportedPrefix| + |ext|
    ensures m[..|UnsupportedPrefix|] == UnsupportedPrefix && m[|UnsupportedPrefix|..] == ext
  {
    UnsupportedPrefix + ext
  }

  /** Membership of the lower-cased extension in the supported list. */
  function IsSupportedExtension(ext: string): (b: bool)
    ensures b <==> exists i :: 0 <= i < |SupportedExtensions| && ToLower(ext) == SupportedExtensions[i]
  {
    ToLower(ext) in SupportedExtensions
  }

  /** The check ignores ASCII case: an extension and its upper- or lower-cased forms agree. */
  lemma SupportedIgnoresCase(ext: string)
    ensures IsSupportedExtension(ToUpper(ext)) == IsSupportedExtension(ext)
    ensures IsSupportedExtension(ToLower(ext)) == IsSupportedExtension(ext)
  {
    LowerOfUpper(ext);
    LowerIdempotent(ext);
  }

  /** Every listed extension, written in either case, is accepted. */
  lemma ListedSupported(i: nat)
    requires i < |SupportedExtensions|
    ensures IsSupportedExtension(SupportedExtensions[i])
    ensures IsSupportedExtension(ToUpper(SupportedExtensions[i]))
  {
    var e := SupportedExtensions[i];
    assert ToLower(e) == e;
    SupportedIgnoresCase(e);
  }

  /** A fresh copy of the list, so a caller cannot alter the module's own. */
  method GetSupportedExtensions() returns (a: array<string>)
    ensures fresh(a)
    ensures a[..] == SupportedExtensions
  {
    a := new string[|SupportedExtensions|](i requires 0 <= i < |SupportedExtensions| => SupportedExtensions[i]);
  }

  /** Concatenation of a list of string lists, in order. */
  function Flatten(parts: seq<seq<string>>): (r: seq<string>)
    ensures (forall i :: 0 <= i < |parts| ==> Clean(parts[i])) ==> Clean(r)
  {
    if parts == [] then [] else Flatten(parts[..|parts| - 1]) + parts[|parts| - 1]
  }

  /** Every string is non-empty and already trimmed. */
  predicate Clean(ss: seq<string>) {
    forall i :: 0 <= i < |ss| ==> ss[i] != "" && Trim(ss[i]) == ss[i]
  }

  /** A string trimmed, as a one-element list, or nothing when it is blank. */
  function TrimmedOrNothing(s: string): (r: seq<string>)
    ensures Clean(r)
    ensures r == if AllSpace(s) then [] else [Trim(s)]
  {
    var t := Trim(s);
    if t == "" then []
    else
      TrimmedClean(s);
      [t]
  }

  lemma TrimmedClean(s: string)
    requires Trim(s) != ""
    ensures Clean([Trim(s)])
  {
    TrimIdempotent(s);
  }

  /**
   * The strings of a JSON value: a string gives itself trimmed (or nothing
   * when blank), arrays and objects the strings of their members in order,
   * everything else nothing.
   */
  function ExtractStrings(v: Json): (r: seq<string>)
    decreases v
    ensures Clean(r)
    ensures v.JString? ==> r == if AllSpace(v.s) then [] else [Trim(v.s)]
    ensures v.JNull? || v.JBool? || v.JNumber? ==> r == []
  {
    match v
    case JString(s) => TrimmedOrNothing(s)
    case JArray(items) =>
      var parts := seq(|items|, i requires 0 <= i < |items| => ExtractStrings(items[i]));
      assert forall i :: 0 <= i < |parts| ==> Clean(parts[i]);
      Flatten(parts)
    case JObject(members) =>
      var parts := seq(|members|, i requires 0 <= i < |members| => ExtractStrings(members[i].1));
      assert forall i :: 0 <= i < |parts| ==> Clean(parts[i]);
      Flatten(parts)
    case _ => []
  }

  /** Appending one element to an array appends that element's strings. */
  lemma ExtractArraySnoc(items: seq<Json>, x: Json)
    ensures ExtractStrings(JArray(items + [x])) == ExtractStrings(JArray(items)) + ExtractStrings(x)
  {
    var all := items + [x];
    var parts := seq(|all|, i requires 0 <= i < |all| => ExtractStrings(all[i]));
    var init := seq(|items|, i requires 0 <= i < |items| => ExtractStrings(items[i]));
    assert parts[..|parts| - 1] == init;
  }

  /** An object flattens like the array of its property values. */
  lemma ExtractObjectAsArray(members: seq<(string, Json)>)
    ensures ExtractStrings(JObject(members)) ==
      ExtractStrings(JArray(seq(|members|, i requires 0 <= i < |members| => members[i].1)))
  {
    var values := seq(|members|, i requires 0 <= i < |members| => members[i].1);
    assert seq(|values|, i requires 0 <= i < |values| => ExtractStrings(values[i]))
        == seq(|members|, i requires 0 <= i < |members| => ExtractStrings(members[i].1));
  }

  /** .json: parse, flatten, join with blank lines. */
  function ParseJson(buffer: Bytes, dec: Decoders): (r: Result<string, string>)
    ensures dec.jsonParse(dec.utf8(buffer)).Failure? ==> r == Failure(dec.jsonParse(dec.utf8(buffer)).error)
    ensures dec.jsonParse(dec.utf8(buffer)).Success? ==>
      var parts := ExtractStrings(dec.jsonParse(dec.utf8(buffer)).value);
      && r == Success(Join(parts, Separator))
      && (r.value == "" <==> parts == [])
  {
    match dec.jsonParse(dec.utf8(buffer))
    case Failure(e) => Failure(e)
    case Success(j) =>
      var parts := ExtractStrings(j);
      JoinEmpty(parts, Separator);
      Success(Join(parts, Separator))
  }

  /** Dispatch on the lower-cased extension. */
  function ParseFile(buffer: Bytes, extension: string, dec: Decoders): (r: Result<string, string>)
    ensures !IsSupportedExtension(extension) ==> r == Failure(UnsupportedMessage(ToLower(extension)))
    ensures ToLower(extension) in {".txt", ".md"} ==> r == Success(dec.utf8(buffer))
    ensures ToLower(extension) == ".pdf" ==> r == dec.pdf(buffer)
    ensures ToLower(extension) == ".docx" ==> r == dec.docx(buffer)
    ensures ToLower(extension) in {".html", ".htm"} ==> r == Success(dec.html(dec.utf8(buffer)))
    ensures ToLower(extension) == ".json" ==> r == ParseJson(buffer, dec)
  {
    var ext := ToLower(extension);
    if ext == ".txt" || ext == ".md" then Success(dec.utf8(buffer))
    else if ext == ".pdf" then dec.pdf(buffer)
    else if ext == ".docx" then dec.docx(buffer)
    else if ext == ".html" || ext == ".htm" then Success(dec.html(dec.utf8(buffer)))
    else if ext == ".json" then ParseJson(buffer, dec)
    else Failure(UnsupportedMessage(ext))
  }
}
