/** The assignment submission form: the files a learner picks are filtered
    by extension, by size and by count; a file can be taken off the list;
    submitting builds one record from the list and the trimmed text fields. */
module SubmissionForm {
  import opened Wrappers
  import opened Seqs
  import opened Text
  import opened Backend

  /** A picked file as the browser describes it, and as a submission keeps it. */
  datatype FileInfo = FileInfo(name: string, size: int, mimeType: string, lastModified: int)

  /** A lesson's `submissionRequirements`: `maxSize` is text such as "10MB",
      `maxFiles` a number that may be missing. */
  datatype Requirements = Requirements(allowedTypes: seq<string>, maxSize: string, maxFiles: Option<int>)

  const BytesPerMegabyte := 1024 * 1024
  const DefaultMaxFiles := 5

  /** `name.split(".").pop().toLowerCase()`: the lower-cased text after the
      last dot, or the whole name when it has none. */
  function Extension(name: string): (r: string)
    ensures |r| <= |name| && '.' !in r
    ensures '.' !in name ==> r == ToLower(name)
  {
    ToLower(LastPiece(name, '.'))
  }

  function TypeAllowed(req: Requirements): FileInfo -> bool {
    (f: FileInfo) => Extension(f.name) in req.allowedTypes
  }

  /** `parseInt(maxSize) * 1024 * 1024`; not a number (None) when `maxSize`
      does not start with a numeral, and then no file passes the size test. */
  function MaxSizeBytes(req: Requirements): (r: Option<int>)
    ensures r.Some? <==> ParseInt(req.maxSize).Some?
    ensures r.Some? ==> r.value == ParseInt(req.maxSize).value * BytesPerMegabyte
  {
    if ParseInt(req.maxSize).None? then None else Some(ParseInt(req.maxSize).value * BytesPerMegabyte)
  }

  function SizeAllowed(req: Requirements): FileInfo -> bool {
    (f: FileInfo) => MaxSizeBytes(req).Some? && f.size <= MaxSizeBytes(req).value
  }

  /** Both tests at once. */
  function Acceptable(req: Requirements): FileInfo -> bool {
    (f: FileInfo) => TypeAllowed(req)(f) && SizeAllowed(req)(f)
  }

  /** `maxFiles || 5`. */
  function FileLimit(req: Requirements): int {
    OrNumber(req.maxFiles, DefaultMaxFiles)
  }

  /** Where `slice(0, end)` stops on a list of `len` elements: a negative
      end counts back from the end of the list. */
  function SliceEnd(len: nat, end: int): (r: nat)
    ensures r <= len
    ensures end >= 0 ==> r == if end < len then end else len
    ensures end < 0 ==> r == if len + end > 0 then len + end else 0
  {
    if end >= 0 then (if end < len then end else len)
    else if len + end > 0 then len + end else 0
  }

  /** `handleFileChange`: type filter, size filter, then the first
      `maxFiles || 5` survivors. The result is the earliest acceptable files,
      in the order they were picked. */
  function SelectFiles(selected: seq<FileInfo>, req: Requirements): (r: seq<FileInfo>)
    ensures r == Filter(selected, Acceptable(req))[..SliceEnd(|Filter(selected, Acceptable(req))|, FileLimit(req))]
    ensures FileLimit(req) >= 0 ==> |r| <= FileLimit(req)
  {
    var typed := Filter(selected, TypeAllowed(req));
    var sized := Filter(typed, SizeAllowed(req));
    FilterFilter(selected, TypeAllowed(req), SizeAllowed(req), Acceptable(req));
    sized[..SliceEnd(|sized|, FileLimit(req))]
  }

  /** Every kept file has an allowed extension and fits the size limit, and
      the kept files are a subsequence of the picked ones. */
  lemma SelectedFilesAreValid(selected: seq<FileInfo>, req: Requirements)
    ensures forall i :: 0 <= i < |SelectFiles(selected, req)| ==>
      Extension(SelectFiles(selected, req)[i].name) in req.allowedTypes
    ensures forall i :: 0 <= i < |SelectFiles(selected, req)| ==>
      MaxSizeBytes(req).Some? && SelectFiles(selected, req)[i].size <= MaxSizeBytes(req).value
    ensures IsSubsequence(SelectFiles(selected, req), selected)
  {
    var ok := Filter(selected, Acceptable(req));
    var r := SelectFiles(selected, req);
    FilterMembers(selected, Acceptable(req));
    assert forall i :: 0 <= i < |r| ==> r[i] == ok[i] && Acceptable(req)(ok[i]);
    FilterIsSubsequence(selected, Acceptable(req));
    PrefixIsSubsequence(ok, selected, |r|);
  }

  /** With a non-negative limit, every acceptable file is kept when there
      are no more of them than the limit, and picking again from the kept
      files keeps them all. */
  lemma SelectFilesIdempotent(selected: seq<FileInfo>, req: Requirements)
    requires FileLimit(req) >= 0
    ensures |Filter(selected, Acceptable(req))| <= FileLimit(req) ==>
      SelectFiles(selected, req) == Filter(selected, Acceptable(req))
    ensures SelectFiles(SelectFiles(selected, req), req) == SelectFiles(selected, req)
  {
    var r := SelectFiles(selected, req);
    SelectedFilesAreValid(selected, req);
    FilterAllOrNone(r, Acceptable(req));
  }

  /** A negative `maxFiles` makes `slice` drop files from the end. */
  lemma NegativeLimitDropsLast(f: FileInfo, g: FileInfo, req: Requirements)
    requires FileLimit(req) == -1
    requires Acceptable(req)(f) && Acceptable(req)(g)
    ensures SelectFiles([f, g], req) == [f]
  {
    assert Filter([f, g], Acceptable(req)) == [f, g] by {
      assert [f, g][1..] == [g];
      assert Filter([g], Acceptable(req)) == [g] + Filter([], Acceptable(req));
    }
  }

  /** `files.filter((_, i) => i !== index)`. */
  function WithoutIndex<T>(s: seq<T>, index: int): (r: seq<T>)
    ensures 0 <= index < |s| ==> r == s[..index] + s[index + 1..]
    ensures !(0 <= index < |s|) ==> r == s
    decreases |s|
  {
    if s == [] then []
    else (if index == 0 then [] else [s[0]]) + WithoutIndex(s[1..], index - 1)
  }

  /** Removing a file shortens the list by exactly one when the index is in
      range, keeping every other file in its place relative to the rest. */
  lemma WithoutIndexPositions<T>(s: seq<T>, index: int)
    requires 0 <= index < |s|
    ensures |WithoutIndex(s, index)| == |s| - 1
    ensures forall i :: 0 <= i < index ==> WithoutIndex(s, index)[i] == s[i]
    ensures forall i :: index <= i < |s| - 1 ==> WithoutIndex(s, index)[i] == s[i + 1]
  {
  }

  /** The record `handleSubmit` hands over; the lesson may have no
      requirements. */
  datatype AssignmentPayload = AssignmentPayload(
    files: seq<FileInfo>,
    url: Option<string>,
    githubUrl: Option<string>,
    notes: Option<string>,
    requirements: Option<Requirements>)

  class Form {
    var files: seq<FileInfo>
    var url: string
    var githubUrl: string
    var notes: string
    var isSubmitting: bool

    constructor()
      ensures files == [] && url == "" && githubUrl == "" && notes == "" && !isSubmitting
    {
      files := [];
      url := "";
      githubUrl := "";
      notes := "";
      isSubmitting := false;
    }

    /** A new pick replaces the list with the files that pass. */
    method HandleFileChange(selected: seq<FileInfo>, req: Requirements)
      modifies this`files
      ensures files == SelectFiles(selected, req)
    {
      files := SelectFiles(selected, req);
    }

    method RemoveFile(index: int)
      modifies this`files
      ensures files == WithoutIndex(old(files), index)
    {
      files := WithoutIndex(files, index);
    }

    /** The record carries the listed files and each text field trimmed, or
        null when it is blank; the form is not left submitting. */
    method HandleSubmit(req: Option<Requirements>) returns (s: AssignmentPayload)
      modifies this`isSubmitting
      ensures !isSubmitting
      ensures s.files == files && s.requirements == req
      ensures s.url == TrimmedOrNull(url)
      ensures s.githubUrl == TrimmedOrNull(githubUrl)
      ensures s.notes == TrimmedOrNull(notes)
    {
      isSubmitting := true;
      s := AssignmentPayload(files, TrimmedOrNull(url), TrimmedOrNull(githubUrl), TrimmedOrNull(notes), req);
      isSubmitting := false;
    }
  }
}
