/**
 * The post editor `CreatePostModal` (components/CreatePostModal.tsx): the
 * draft's fields, the attachments picked from files, and the submit step
 * that hands the draft to the page and resets the form when that succeeds.
 */
module CreatePost {
  import opened Types
  import opened Seqs

  /** A file chosen in the file input: its name and its MIME type (`file.type`). */
  datatype FileInfo = FileInfo(name: string, mimeType: string)

  /**
   * The attachment kind of a file: IMAGE for an "image/" MIME type, VIDEO for
   * "video/", PDF for anything else (the default the classification starts from).
   */
  function AttachmentKind(mimeType: string): (kind: AttachmentType)
    ensures kind == IMAGE <==> "image/" <= mimeType
    ensures kind == VIDEO <==> "video/" <= mimeType
    ensures kind == PDF <==> !("image/" <= mimeType) && !("video/" <= mimeType)
  {
    var kind := if "image/" <= mimeType then IMAGE else PDF;
    assert "image/" <= mimeType ==> mimeType[0] == 'i';
    assert "video/" <= mimeType ==> mimeType[0] == 'v';
    if "video/" <= mimeType then VIDEO else kind
  }

  /**
   * One attachment per file, in file order. The random id of the k-th file
   * and the object URL of a file are inputs.
   */
  function NewAttachments(files: seq<FileInfo>, newId: nat -> string, objectUrl: FileInfo -> string)
    : seq<Attachment>
  {
    seq(|files|, k requires 0 <= k < |files| =>
      Attachment(newId(k), AttachmentKind(files[k].mimeType), objectUrl(files[k]), files[k].name))
  }

  function AttachmentIdIsNot(id: string): Attachment -> bool
  {
    (a: Attachment) => a.id != id
  }

  class CreatePostModal {
    /** The page's `isOpen` property; the page's `onClose` clears it. */
    var isOpen: bool
    var isLoading: bool
    var title: string
    var description: string
    /** The text of the date-time input; empty when no date is chosen. */
    var eventDate: string
    var visibility: Visibility
    var attachments: seq<Attachment>

    constructor (isOpen: bool)
      ensures this.isOpen == isOpen && !isLoading
      ensures title == [] && description == [] && eventDate == []
      ensures visibility == PUBLIC && attachments == []
    {
      this.isOpen := isOpen;
      isLoading := false;
      title, description, eventDate := [], [], [];
      visibility := PUBLIC;
      attachments := [];
    }

    /** The submit button is disabled exactly when the title or the description is empty. */
    function SubmitDisabled(): bool
      reads this
    {
      title == [] || description == []
    }

    /** Appends one attachment per chosen file after the present ones; no file list, no change. */
    method HandleFileChange(files: Option<seq<FileInfo>>, newId: nat -> string, objectUrl: FileInfo -> string)
      modifies this`attachments
      ensures files.None? ==> attachments == old(attachments)
      ensures files.Some? ==> attachments == old(attachments) + NewAttachments(files.value, newId, objectUrl)
      ensures files.Some? ==>
                && |attachments| == |old(attachments)| + |files.value|
                && attachments[..|old(attachments)|] == old(attachments)
                && forall k :: 0 <= k < |files.value| ==>
                     var a := attachments[|old(attachments)| + k];
                     a.filename == files.value[k].name && a.kind == AttachmentKind(files.value[k].mimeType)
    {
      if files.Some? {
        var added := NewAttachments(files.value, newId, objectUrl);
        attachments := attachments + added;
      }
    }

    /** Drops every attachment with that id and keeps the others in order. */
    method RemoveAttachment(id: string)
      modifies this`attachments
      ensures attachments == Filter(old(attachments), AttachmentIdIsNot(id))
      ensures forall k :: 0 <= k < |attachments| ==> attachments[k].id != id
      ensures forall a :: a in old(attachments) && a.id != id ==> a in attachments
    {
      var kept := Filter(attachments, AttachmentIdIsNot(id));
      FilterSelects(attachments, AttachmentIdIsNot(id));
      forall k | 0 <= k < |kept|
        ensures kept[k].id != id
      {
        assert kept[k] in kept;
        assert AttachmentIdIsNot(id)(kept[k]);
      }
      forall a | a in attachments && a.id != id
        ensures a in kept
      {
        var i :| 0 <= i < |attachments| && attachments[i] == a;
        var idx := KeptIndices(attachments, AttachmentIdIsNot(id));
        assert i in idx;
        var k :| 0 <= k < |idx| && idx[k] == i;
        assert kept[k] == a;
      }
      attachments := kept;
    }

    /**
     * Submits the draft unless the title or the description is empty. The
     * page's `onSubmit` outcome and the date parsing are inputs. On success
     * the form is emptied, except for the visibility, and the modal closes;
     * on failure nothing is reset. Loading is off afterwards either way.
     */
    method HandleSubmit(submitSucceeds: bool, parseDate: string -> Timestamp) returns (sent: Option<PostDraft>)
      modifies this
      ensures old(SubmitDisabled()) ==> sent == None && unchanged(this)
      ensures !old(SubmitDisabled()) ==>
                sent == Some(PostDraft(
                  Some(old(title)), Some(old(description)),
                  if old(eventDate) == [] then None else Some(parseDate(old(eventDate))),
                  Some(old(attachments)), Some(old(visibility))))
      ensures !old(SubmitDisabled()) ==> !isLoading && visibility == old(visibility)
      ensures !old(SubmitDisabled()) && submitSucceeds ==>
                && title == [] && description == [] && eventDate == [] && attachments == []
                && !isOpen
      ensures !old(SubmitDisabled()) && !submitSucceeds ==>
                && title == old(title) && description == old(description) && eventDate == old(eventDate)
                && attachments == old(attachments) && isOpen == old(isOpen)
    {
      if title == [] || description == [] {
        return None;
      }
      isLoading := true;
      var date := if eventDate == [] then None else Some(parseDate(eventDate));
      sent := Some(PostDraft(Some(title), Some(description), date, Some(attachments), Some(visibility)));
      if submitSucceeds {
        title := [];
        description := [];
        eventDate := [];
        attachments := [];
        isOpen := false;
      }
      isLoading := false;
    }
  }
}
