/**
 * The job application modal (src/components/Modals/ApplicationModal.tsx):
 * the applicant attaches either one of their profile resumes or an uploaded
 * Word file, writes a cover letter and submits. The payload handed to
 * `onSubmit` and the call of `onClose` are returned by `HandleSubmit`; the browser's `alert` is
 * reported as a flag.
 */
module Application {
  import opened Optional

  const MsWordType := "application/msword"
  const DocxType := "application/vnd.openxmlformats-officedocument.wordprocessingml.document"

  /** The part of a browser `File` the modal looks at. */
  datatype File = File(name: string, mimeType: string)

  /** What `onSubmit` receives; `resumeFile` is present only when a file was
      uploaded. */
  datatype Payload = Payload(resumeId: string, coverLetter: string, resumeFile: Option<File>)

  /** The upload filter: a `.doc` or `.docx` MIME type. */
  predicate IsWordDocument(f: File) {
    f.mimeType == MsWordType || f.mimeType == DocxType
  }

  class ApplicationModal {
    var selectedResume: string
    var coverLetter: string
    var resumeFile: Option<File>

    /** A profile resume and an uploaded file are never chosen together. */
    ghost predicate Valid()
      reads this
    {
      !(selectedResume != "" && resumeFile.Some?)
    }

    constructor ()
      ensures Valid() && selectedResume == "" && coverLetter == "" && resumeFile == None
    {
      selectedResume := "";
      coverLetter := "";
      resumeFile := None;
    }

    /** A click on a profile resume: selects it and drops any uploaded file. */
    method SelectResume(id: string)
      requires Valid()
      modifies this
      ensures Valid()
      ensures selectedResume == id && resumeFile == None && coverLetter == old(coverLetter)
    {
      selectedResume := id;
      resumeFile := None;
    }

    /** `handleFileChange` with the first chosen file, if any. A Word file
        replaces the selection; anything else (or no file) raises the alert
        and changes nothing. */
    method HandleFileChange(file: Option<File>) returns (alerted: bool)
      requires Valid()
      modifies this
      ensures Valid() && coverLetter == old(coverLetter)
      ensures alerted <==> !(file.Some? && IsWordDocument(file.value))
      ensures !alerted ==> resumeFile == file && selectedResume == ""
      ensures alerted ==> resumeFile == old(resumeFile) && selectedResume == old(selectedResume)
    {
      if file.Some? && IsWordDocument(file.value) {
        resumeFile := file;
        selectedResume := "";
        alerted := false;
      } else {
        alerted := true;
      }
    }

    /** The cover letter textarea. */
    method SetCoverLetter(text: string)
      requires Valid()
      modifies this
      ensures Valid() && coverLetter == text
      ensures selectedResume == old(selectedResume) && resumeFile == old(resumeFile)
    {
      coverLetter := text;
    }

    /** The submit button's `disabled={!((selectedResume || resumeFile) && coverLetter)}`, negated. */
    predicate SubmitEnabled()
      reads this
    {
      (selectedResume != "" || resumeFile.Some?) && coverLetter != ""
    }

    /** `handleSubmit`, reached only through the enabled submit button:
        hands the payload to `onSubmit`, then calls `onClose`. */
    method HandleSubmit() returns (sent: Option<Payload>, closed: bool)
      requires Valid()
      ensures sent.Some? <==> SubmitEnabled()
      ensures closed <==> sent.Some?
      ensures sent.Some? ==> sent.value == Payload(selectedResume, coverLetter, resumeFile)
      ensures sent.Some? ==> (sent.value.resumeFile.Some? <==> sent.value.resumeId == "")
    {
      if SubmitEnabled() {
        sent := Some(Payload(selectedResume, coverLetter, resumeFile));
        closed := true;
      } else {
        sent := None;
        closed := false;
      }
    }
  }
}
