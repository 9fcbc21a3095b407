/**
 * The client: the upload form's state and handlers, the list of notes shown
 * on the page, and the small string helpers they use.
 *
 * The HTTP call the form makes is a parameter of `HandleSubmit`: the reply
 * the server gives, either the created note or a failure that may carry the
 * server's `error` field.
 */
module App {
  import opened Wrappers
  import opened JsStrings
  import opened NoteModel

  /** The base URL of the server. */
  const ApiUrl: string := "http://localhost:3880"

  const NoFileSelected: string := "No file selected"
  const SelectFileMessage: string := "Please select an audio file to upload."
  const TitleMissingMessage: string := "Please provide a title for your note."
  const UploadFailedMessage: string := "Upload failed. Please try again."

  // ---------------------------------------------------------------------------
  // Title from a file name
  // ---------------------------------------------------------------------------

  /** `name.split('.').slice(0, -1).join('.')`: every piece but the last, rejoined. */
  function NameWithoutExtension(name: string): string
  {
    var parts := Split(name, '.');
    Join(parts[..|parts| - 1], '.')
  }

  /**
   * Dropping the last piece of the split leaves exactly the text before the
   * last `.`, and nothing when the name has no `.`.
   */
  lemma NameWithoutExtensionIsTextBeforeLastDot(name: string)
    ensures var k := LastIndexOf(name, '.');
      NameWithoutExtension(name) == if k < 0 then "" else name[..k]
  {
    var parts := Split(name, '.');
    var n := |parts|;
    JoinSplit(name, '.');
    if n == 1 {
      assert parts[..0] == [];
      assert name == parts[0] && '.' !in parts[0];
    } else {
      var front, last := parts[..n - 1], parts[n - 1];
      assert parts == front + [last];
      assert '.' !in last;
      JoinSnoc(front, last, '.');
      var stem := Join(front, '.');
      assert name == stem + ['.'] + last;
      LastIndexOfBeforeTail(stem, '.', last);
      assert name[..|stem|] == stem;
    }
  }

  /**
   * The title the form fills in when a file is chosen:
   * `nameWithoutExtension || name`. It is the text before the last `.` when
   * that text is non-empty, and the whole name otherwise (no `.` at all, or
   * a name starting with its only `.`).
   */
  function TitleFromFileName(name: string): (title: string)
    ensures var k := LastIndexOf(name, '.');
      title == if k <= 0 then name else name[..k]
    ensures |title| <= |name| && title == name[..|title|]
    ensures name != "" ==> title != ""
  {
    NameWithoutExtensionIsTextBeforeLastDot(name);
    var stem := NameWithoutExtension(name);
    if stem == "" then name else stem
  }

  // ---------------------------------------------------------------------------
  // Audio URL of a listed note
  // ---------------------------------------------------------------------------

  /**
   * `${API_URL}${note.audioUrl.replace(/\\/g, '/')}`: the server's base URL
   * followed by the note's `audioUrl` with every backslash turned into a
   * forward slash.
   */
  function FullAudioUrl(audioUrl: string): (url: string)
    ensures |url| == |ApiUrl| + |audioUrl| && url[..|ApiUrl|] == ApiUrl
    ensures '\\' !in url
    ensures forall i | 0 <= i < |audioUrl| ::
      url[|ApiUrl| + i] == if audioUrl[i] == '\\' then '/' else audioUrl[i]
  {
    var path := ReplaceAll(audioUrl, '\\', '/');
    assert forall i | 0 <= i < |path| :: path[i] != '\\';
    ApiUrl + path
  }

  // ---------------------------------------------------------------------------
  // Form state
  // ---------------------------------------------------------------------------

  /** A file the user picked: only its name matters to the form. */
  datatype AudioFile = AudioFile(name: string)

  /** The multipart body the form posts: the `audio` file and the `title`. */
  datatype UploadRequest = UploadRequest(audio: AudioFile, title: string)

  /**
   * The server's answer to the upload: the created note, or a failure that
   * may carry the body's `error` field (absent when there was no response).
   */
  datatype UploadReply = Created(note: Note) | Failed(error: Option<string>)

  /**
   * The title has nothing but white space, read one character at a time.
   * `BlankIffTrimmedEmpty` shows this is exactly `!title.trim()`.
   */
  predicate IsBlank(title: string): (blank: bool)
    ensures blank <==> forall i | 0 <= i < |title| :: IsWhiteSpace(title[i])
  {
    title == [] || (IsWhiteSpace(title[0]) && IsBlank(title[1..]))
  }

  /** `!title.trim()` holds exactly for a blank title. */
  lemma BlankIffTrimmedEmpty(title: string)
    ensures IsBlank(title) <==> Trim(title) == ""
  {
    TrimEmptyIffAllWhiteSpace(title);
  }

  /**
   * `err.response?.data?.error || 'Upload failed. Please try again.'`: the
   * server's message when it sent a non-empty one, the generic one otherwise.
   */
  function UploadErrorMessage(error: Option<string>): (message: string)
    ensures message != ""
    ensures error.Some? && error.value != "" ==> message == error.value
    ensures error.None? || error.value == "" ==> message == UploadFailedMessage
  {
    if error.Some? && error.value != "" then error.value else UploadFailedMessage
  }

  /**
   * The two checks at the head of `handleSubmit`, in their order: the
   * message to show when the form cannot be sent, or nothing when it can.
   * A missing file is reported even when the title is blank too.
   */
  function SubmitProblem(file: Option<AudioFile>, title: string): (problem: Option<string>)
    ensures problem.None? <==> file.Some? && !IsBlank(title)
    ensures file.None? ==> problem == Some(SelectFileMessage)
    ensures file.Some? && IsBlank(title) ==> problem == Some(TitleMissingMessage)
  {
    if file.None? then Some(SelectFileMessage)
    else if IsBlank(title) then Some(TitleMissingMessage)
    else None
  }

  /** The notes shown on the page, as the parent component keeps them. */
  class NoteList {
    var notes: seq<Note>

    constructor(fetched: seq<Note>)
      ensures notes == fetched
    {
      notes := fetched;
    }

    /** `onNoteAdded`: the new note goes first, the others follow in order. */
    method OnNoteAdded(newNote: Note)
      modifies this
      ensures |notes| == |old(notes)| + 1
      ensures notes[0] == newNote && notes[1..] == old(notes)
    {
      notes := [newNote] + notes;
    }
  }

  /** The state of the upload form component. */
  class UploadForm {
    var file: Option<AudioFile>
    var title: string
    var isUploading: bool
    var uploadError: Option<string>
    var fileName: string

    /** The form as first rendered: nothing chosen, no title, no error. */
    predicate IsReset()
      reads this
    {
      file.None? && title == "" && fileName == NoFileSelected
    }

    constructor()
      ensures IsReset() && !isUploading && uploadError.None?
    {
      file := None;
      title := "";
      isUploading := false;
      uploadError := None;
      fileName := NoFileSelected;
    }

    /**
     * `handleFileChange`: choosing a file records it, shows its name and
     * fills the title from the name; cancelling the dialog changes nothing.
     */
    method HandleFileChange(selected: Option<AudioFile>)
      modifies this
      ensures selected.None? ==>
        file == old(file) && title == old(title) && fileName == old(fileName)
      ensures selected.Some? ==>
        file == selected && fileName == selected.value.name && title == TitleFromFileName(selected.value.name)
      ensures isUploading == old(isUploading) && uploadError == old(uploadError)
    {
      if selected.Some? {
        file := selected;
        fileName := selected.value.name;
        title := TitleFromFileName(selected.value.name);
      }
    }

    /** `handleTitleChange`: the title is what the user typed. */
    method HandleTitleChange(value: string)
      modifies this
      ensures title == value
      ensures file == old(file) && fileName == old(fileName)
      ensures isUploading == old(isUploading) && uploadError == old(uploadError)
    {
      title := value;
    }

    /**
     * `handleSubmit`: when `SubmitProblem` finds the file missing or the
     * title blank, shows its message and sends nothing. Otherwise it sends
     * the file and the title and lets `FinishUpload` handle the server's
     * reply.
     */
    method HandleSubmit(reply: UploadReply, list: NoteList) returns (sent: Option<UploadRequest>)
      modifies this, list
      ensures SubmitProblem(old(file), old(title)).Some? ==>
        && sent.None? && uploadError == SubmitProblem(old(file), old(title))
        && file == old(file) && title == old(title) && fileName == old(fileName)
        && isUploading == old(isUploading) && list.notes == old(list.notes)
      ensures SubmitProblem(old(file), old(title)).None? ==>
        sent == Some(UploadRequest(old(file).value, old(title))) && !isUploading
      ensures sent.Some? && reply.Created? ==>
        && list.notes == [reply.note] + old(list.notes)
        && IsReset() && uploadError.None?
      ensures sent.Some? && reply.Failed? ==>
        && uploadError == Some(UploadErrorMessage(reply.error))
        && file == old(file) && title == old(title) && fileName == old(fileName)
        && list.notes == old(list.notes)
    {
      var problem := SubmitProblem(file, title);
      if problem.Some? {
        Refuse(problem.value);
        return None;
      }
      isUploading := true;
      uploadError := None;
      sent := Some(UploadRequest(file.value, title));
      FinishUpload(reply, list);
    }

    /** A failed check of `handleSubmit`: shows `message` and changes nothing else. */
    method Refuse(message: string)
      modifies this
      ensures uploadError == Some(message)
      ensures file == old(file) && title == old(title) && fileName == old(fileName)
      ensures isUploading == old(isUploading)
    {
      uploadError := Some(message);
    }

    /**
     * The `try`/`catch`/`finally` of `handleSubmit`, once the request has
     * been sent: on success the note is added to `list` and the form is
     * reset; on failure the message is shown and the form keeps its
     * contents. Either way it ends not uploading.
     */
    method FinishUpload(reply: UploadReply, list: NoteList)
      requires uploadError.None?
      modifies this, list
      ensures !isUploading
      ensures reply.Created? ==>
        && list.notes == [reply.note] + old(list.notes)
        && IsReset() && uploadError.None?
      ensures reply.Failed? ==>
        && uploadError == Some(UploadErrorMessage(reply.error))
        && file == old(file) && title == old(title) && fileName == old(fileName)
        && list.notes == old(list.notes)
    {
      match reply {
        case Created(note) =>
          list.OnNoteAdded(note);
          file := None;
          title := "";
          fileName := NoFileSelected;
        case Failed(error) =>
          uploadError := Some(UploadErrorMessage(error));
      }
      isUploading := false;
    }
  }
}
