/**
 * The CSV-import form of the tools page: the `csv` field's two refinements
 * (size limit and accepted MIME type), their messages, the file picker's
 * write to the field, and the submission that only a valid form reaches.
 */
module CsvImport {
  import opened Wrappers

  const MB_RATIO: nat := 1024 * 1024
  const MAX_FILE_SIZE: nat := 5 * MB_RATIO
  const ACCEPTED_MIME_TYPES: seq<string> := ["text/csv"]

  /** The parts of a browser `File` the form looks at. */
  datatype FileInfo = FileInfo(name: string, size: nat, mimeType: string)

  /**
   * What the `csv` field can hold: nothing (`undefined`), the form's default
   * `""`, or a picked file.
   */
  datatype CsvField = Undefined | EmptyString | Picked(file: FileInfo)

  /** `file?.size`: only a file has a size. */
  function SizeOf(v: CsvField): Option<nat> {
    if v.Picked? then Some(v.file.size) else None
  }

  /** `file?.type`: only a file has a type. */
  function TypeOf(v: CsvField): Option<string> {
    if v.Picked? then Some(v.file.mimeType) else None
  }

  /** `file?.size <= MAX_FILE_SIZE`; an undefined size compares false. */
  predicate SizeOk(v: CsvField): (ok: bool)
    ensures ok <==> v.Picked? && v.file.size <= 5242880
  {
    match SizeOf(v)
    case Some(n) => n <= MAX_FILE_SIZE
    case None => false
  }

  /** `ACCEPTED_MIME_TYPES.includes(file?.type)`; undefined is not in the list. */
  predicate TypeOk(v: CsvField): (ok: bool)
    ensures ok <==> v.Picked? && v.file.mimeType == "text/csv"
  {
    match TypeOf(v)
    case Some(t) => t in ACCEPTED_MIME_TYPES
    case None => false
  }

  /** Decimal digits of a natural number, as a template literal prints it. */
  function NatToString(n: nat): (s: string)
    ensures |s| > 0
    ensures forall i :: 0 <= i < |s| ==> '0' <= s[i] <= '9'
  {
    if n < 10 then [(48 + n) as char] else NatToString(n / 10) + [(48 + n % 10) as char]
  }

  /** `list.join(sep)`. */
  function Join(list: seq<string>, sep: string): string {
    if list == [] then ""
    else if |list| == 1 then list[0]
    else list[0] + sep + Join(list[1..], sep)
  }

  const SIZE_MESSAGE: string := "O arquivo deve ter até " + NatToString(MAX_FILE_SIZE / MB_RATIO) + "MB."
  const TYPE_MESSAGE: string := "Apenas arquivos no formato " + Join(ACCEPTED_MIME_TYPES, ",") + " são suportados."

  /**
   * The issues the schema reports for the field, in refinement order; both
   * refinements are checked, so a value can fail both.
   */
  function Validate(v: CsvField): (issues: seq<string>)
    ensures issues == [] <==> SizeOk(v) && TypeOk(v)
    ensures SIZE_MESSAGE in issues <==> !SizeOk(v)
    ensures TYPE_MESSAGE in issues <==> !TypeOk(v)
    ensures |issues| <= 2 && (|issues| == 2 ==> issues == [SIZE_MESSAGE, TYPE_MESSAGE])
  {
    MessagesDiffer();
    (if SizeOk(v) then [] else [SIZE_MESSAGE]) + (if TypeOk(v) then [] else [TYPE_MESSAGE])
  }

  /** The form is accepted exactly when the schema reports nothing. */
  predicate Accepts(v: CsvField): (ok: bool)
    ensures ok <==> SizeOk(v) && TypeOk(v)
  {
    Validate(v) == []
  }

  /** The two messages in full; the size message names the limit as 5 (MB). */
  lemma MessagesSpelledOut()
    ensures MAX_FILE_SIZE == 5242880 && MAX_FILE_SIZE / MB_RATIO == 5
    ensures SIZE_MESSAGE == "O arquivo deve ter até 5MB."
    ensures TYPE_MESSAGE == "Apenas arquivos no formato text/csv são suportados."
  {
    assert NatToString(5) == "5";
    assert Join(ACCEPTED_MIME_TYPES, ",") == "text/csv";
  }

  lemma MessagesDiffer()
    ensures SIZE_MESSAGE != TYPE_MESSAGE
  {
    MessagesSpelledOut();
    assert SIZE_MESSAGE[0] != TYPE_MESSAGE[0];
  }

  /** A file over 5242880 bytes fails the size check and is rejected. */
  lemma OversizedRejected(f: FileInfo)
    requires f.size > 5242880
    ensures !SizeOk(Picked(f)) && SIZE_MESSAGE in Validate(Picked(f)) && !Accepts(Picked(f))
  {
  }

  /** A file of exactly 5242880 bytes passes the size check (the test is `<=`). */
  lemma SizeLimitInclusive(f: FileInfo)
    requires f.size == 5242880
    ensures SizeOk(Picked(f))
  {
  }

  /** Only the type string "text/csv" passes the type check. */
  lemma OnlyCsvType(f: FileInfo)
    ensures TypeOk(Picked(f)) <==> f.mimeType == "text/csv"
  {
  }

  /** A file is accepted exactly when it is at most 5 MiB and of type text/csv. */
  lemma AcceptsPicked(f: FileInfo)
    ensures Accepts(Picked(f)) <==> f.size <= 5242880 && f.mimeType == "text/csv"
  {
  }

  /** With no file, neither refinement holds and both messages are reported. */
  lemma MissingFileFailsBoth(v: CsvField)
    requires v == Undefined || v == EmptyString
    ensures Validate(v) == [SIZE_MESSAGE, TYPE_MESSAGE]
  {
  }

  /**
   * The picker's `onChange`: the first chosen file is written to the field;
   * a null file list or an empty choice leaves the field as it was.
   */
  function PickFile(current: CsvField, files: Option<seq<FileInfo>>): (r: CsvField)
    ensures (files.None? || files.value == []) ==> r == current
    ensures files.Some? && files.value != [] ==> r == Picked(files.value[0])
  {
    match files
    case Some(list) => if |list| > 0 then Picked(list[0]) else current
    case None => current
  }

  /** The file that submitting the form posts to the import endpoint, if any. */
  function Submission(v: CsvField): (r: Option<FileInfo>)
    ensures r.Some? <==> Accepts(v)
    ensures r.Some? ==> v == Picked(r.value) && r.value.size <= MAX_FILE_SIZE
                        && r.value.mimeType == "text/csv"
  {
    if Accepts(v) then Some(v.file) else None
  }

  /** The form starts at `""`; until a file is picked, submitting posts nothing. */
  lemma DefaultFormPostsNothing(files: Option<seq<FileInfo>>)
    requires files.None? || files.value == []
    ensures Submission(PickFile(EmptyString, files)) == None
  {
  }
}
