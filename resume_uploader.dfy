/** The resume upload form (src/components/seeker/ResumeUploader.tsx): the checks on a chosen
    file, the title taken from the file name, and the mock resume handed to
    `onUploadSuccess`. */
module ResumeUploader {
  import opened Wrappers
  import opened Types

  /** What the form reads of a `File`: its name, MIME type and size in bytes. */
  datatype FileInfo = FileInfo(name: string, mimeType: string, size: nat)

  const AllowedTypes: seq<string> := [
    "application/pdf",
    "application/msword",
    "application/vnd.openxmlformats-officedocument.wordprocessingml.document"
  ]

  /** 5 MiB, `5 * 1024 * 1024` bytes. */
  const MaxSize: nat := 5 * 1024 * 1024

  const TypeError := "Please upload a PDF or Word document (.pdf, .doc, .docx)"
  const SizeError := "File size must be less than 5MB"
  const NoFileError := "Please select a file to upload"

  /** The checks of `handleFileChange` in their order: the type, then the size. */
  function FileCheck(file: FileInfo): (r: Option<string>)
    ensures file.mimeType !in AllowedTypes ==> r == Some(TypeError)
    ensures file.mimeType in AllowedTypes && file.size > MaxSize ==> r == Some(SizeError)
    ensures r.None? <==> file.mimeType in AllowedTypes && file.size <= MaxSize
  {
    if file.mimeType !in AllowedTypes then Some(TypeError)
    else if file.size > MaxSize then Some(SizeError)
    else None
  }

  /** The size limit is inclusive, and a file of the wrong type is refused for its type
      whatever its size. */
  lemma SizeBoundary(name: string, size: nat)
    ensures FileCheck(FileInfo(name, "application/pdf", MaxSize)).None?
    ensures FileCheck(FileInfo(name, "application/pdf", MaxSize + 1)) == Some(SizeError)
    ensures FileCheck(FileInfo(name, "image/png", size)) == Some(TypeError)
    ensures MaxSize == 5242880
  {
    assert "image/png" != AllowedTypes[0] && "image/png" != AllowedTypes[1];
    assert "image/png" != AllowedTypes[2];
  }

  /** `name.split('.')[0]`: the name up to its first '.', or all of it. */
  function NameStem(name: string): (r: string)
    ensures |r| <= |name| && r == name[..|r|]
    ensures '.' !in r
    ensures |r| < |name| ==> name[|r|] == '.'
  {
    if name == [] || name[0] == '.' then []
    else [name[0]] + NameStem(name[1..])
  }

  /** The stem of "cv.final.pdf" is "cv", that of a name starting with '.' is "". */
  lemma NameStems()
    ensures NameStem("cv.final.pdf") == "cv"
    ensures NameStem(".pdf") == ""
    ensures NameStem("resume") == "resume"
  {
  }

  class ResumeUploader {
    const userId: string
    var title: string
    var file: Option<FileInfo>
    var fileError: string

    constructor (userId: string)
      ensures this.userId == userId && title == "" && file.None? && fileError == ""
    {
      this.userId := userId;
      title, file, fileError := "", None, "";
    }

    /** Typing in the title box. */
    method SetTitle(value: string)
      modifies this
      ensures title == value && file == old(file) && fileError == old(fileError)
    {
      title := value;
    }

    /** `handleFileChange`: the error is cleared first. No file changes nothing else. A file
        that fails a check sets that check's message and is not stored. A valid file is
        stored, and an empty title becomes the file name's stem. */
    method FileChange(selected: Option<FileInfo>)
      modifies this
      ensures selected.None? ==> fileError == "" && file == old(file) && title == old(title)
      ensures selected.Some? && FileCheck(selected.value).Some? ==>
        fileError == FileCheck(selected.value).value && file == old(file) && title == old(title)
      ensures selected.Some? && FileCheck(selected.value).None? ==>
        fileError == "" && file == selected
        && title == (if old(title) == "" then NameStem(selected.value.name) else old(title))
    {
      fileError := "";
      if selected.None? {
        return;
      }
      var f := selected.value;
      if f.mimeType !in AllowedTypes {
        fileError := TypeError;
        return;
      }
      if f.size > MaxSize {
        fileError := SizeError;
        return;
      }
      file := Some(f);
      if title == "" {
        title := NameStem(f.name);
      }
    }

    /** The "Replace file" button. */
    method ReplaceFile()
      modifies this
      ensures file.None? && title == old(title) && fileError == old(fileError)
    {
      file := None;
    }

    /** `handleSubmit`: without a file the error is set and nothing is emitted; otherwise the
        mock resume is emitted. `newId` and `now` stand for the clock's id and date. */
    method Submit(newId: string, now: string) returns (emitted: Option<Resume>)
      modifies this
      ensures old(file).None? ==> emitted.None? && fileError == NoFileError
      ensures old(file).Some? ==>
        emitted == Some(Resume(newId, userId, title, old(file).value.name, now, false))
        && fileError == old(fileError)
      ensures title == old(title) && file == old(file)
    {
      if file.None? {
        fileError := NoFileError;
        return None;
      }
      emitted := Some(Resume(newId, userId, title, file.value.name, now, false));
    }
  }
}
