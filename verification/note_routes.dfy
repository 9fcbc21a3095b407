/**
 * The notes router mounted under `/api/notes`.
 *
 * `POST /transcribe` first runs the disk-storage upload step, which writes
 * the `audio` part into the upload directory under a generated name, and
 * then the handler: it answers 400 when no file came, asks the
 * speech-to-text service for a transcript, and saves a new note. A failed
 * transcription keeps the stored file; a failed save removes it.
 * `GET /` lists every note, newest first.
 *
 * The clock, the speech-to-text reply and the reachability of the database
 * are parameters of each call. The upload directory is a set of paths and
 * the database is a `NoteCollection`.
 */
module NoteRoutes {
  import opened Wrappers
  import opened JsStrings
  import opened NoteModel

  /** The upload directory `./uploads`, as `path.join` writes it in a file's path. */
  const UploadDir: string := "uploads"

  const NoFileMessage: string := "No audio file was uploaded."
  const TranscribeFailedMessage: string := "Failed to transcribe audio."
  const SaveFailedMessage: string := "Server error during transcription process."
  const FetchFailedMessage: string := "Server error while fetching notes."

  /** The `audio` part of a multipart request, as the client named it. */
  datatype UploadPart = UploadPart(originalname: string)

  /** `req.file` after the storage step: the client's name and where the bytes went. */
  datatype UploadedFile = UploadedFile(originalname: string, path: string)

  /**
   * The outcome of the call to the speech-to-text service: an error (the
   * request failed or was refused), or a reply whose `text` may be absent.
   */
  datatype WhisperOutcome = WhisperError | WhisperReply(text: Field)

  /** The JSON body of a response. */
  datatype Body = NoteJson(note: Note) | NotesJson(notes: seq<Note>) | ErrorJson(error: string)

  datatype Response = Response(status: nat, body: Body)

  // ---------------------------------------------------------------------------
  // Pure pieces of the request flow
  // ---------------------------------------------------------------------------

  /**
   * The name the storage step gives a file: `Date.now() + '-' + originalname`,
   * the millisecond clock in decimal, a dash, then the client's name.
   */
  function StoredFilename(now: nat, originalname: string): (name: string)
    ensures |name| == |Decimal(now)| + 1 + |originalname|
    ensures name[|name| - |originalname|..] == originalname
    ensures name[..|Decimal(now)|] == Decimal(now) && name[|Decimal(now)|] == '-'
  {
    Decimal(now) + "-" + originalname
  }

  /**
   * The stored name determines both the clock reading and the client's name:
   * the clock's digits contain no dash, so the first dash separates them.
   */
  lemma StoredFilenameInjective(t1: nat, n1: string, t2: nat, n2: string)
    ensures StoredFilename(t1, n1) == StoredFilename(t2, n2) ==> t1 == t2 && n1 == n2
  {
    var s1, s2 := StoredFilename(t1, n1), StoredFilename(t2, n2);
    if s1 == s2 {
      var d1, d2 := Decimal(t1), Decimal(t2);
      assert forall k | 0 <= k < |d1| :: s1[k] == d1[k];
      assert forall k | 0 <= k < |d2| :: s2[k] == d2[k];
      assert s1[|d1|] == '-' && s2[|d2|] == '-';
      assert |d1| == |d2|;
      assert d1 == s1[..|d1|] && d2 == s2[..|d2|];
      DecimalInjective(t1, t2);
      assert n1 == s1[|d1| + 1..] && n2 == s2[|d2| + 1..];
    }
  }

  /** `req.file.path`: `path.join('./uploads', filename)` with the platform separator. */
  function StoredPath(sep: char, filename: string): (path: string)
    ensures |path| == |UploadDir| + 1 + |filename|
    ensures path[..|UploadDir|] == UploadDir && path[|UploadDir|] == sep
    ensures path[|UploadDir| + 1..] == filename
  {
    UploadDir + [sep] + filename
  }

  /** The `audioUrl` of a new note: `/` followed by the stored path. */
  function AudioUrlOf(path: string): (url: string)
    ensures |url| == |path| + 1 && url[0] == '/' && url[1..] == path
  {
    "/" + path
  }

  /**
   * Two uploads get the same `audioUrl` only when they were stored at the
   * same millisecond under the same client name.
   */
  lemma AudioUrlDeterminesUpload(sep: char, t1: nat, n1: string, t2: nat, n2: string)
    ensures AudioUrlOf(StoredPath(sep, StoredFilename(t1, n1))) == AudioUrlOf(StoredPath(sep, StoredFilename(t2, n2)))
      ==> t1 == t2 && n1 == n2
  {
    var u1 := AudioUrlOf(StoredPath(sep, StoredFilename(t1, n1)));
    var u2 := AudioUrlOf(StoredPath(sep, StoredFilename(t2, n2)));
    var prefix := "/" + UploadDir + [sep];
    assert u1 == prefix + StoredFilename(t1, n1) && u2 == prefix + StoredFilename(t2, n2);
    if u1 == u2 {
      assert StoredFilename(t1, n1) == u1[|prefix|..] == StoredFilename(t2, n2);
      StoredFilenameInjective(t1, n1, t2, n2);
    }
  }

  /**
   * `req.body.title || 'Note: ' + originalname`: the requested title when it
   * is a non-empty string (a truthy value, which is what `Required` tests),
   * otherwise a title made from the client's file name.
   */
  function NoteTitle(requested: Field, originalname: string): (t: string)
    ensures t != ""
    ensures Required(requested) ==> t == requested.value
    ensures !Required(requested) ==> t == "Note: " + originalname
  {
    if Required(requested) then requested.value else "Note: " + originalname
  }

  /**
   * The document the handler builds with `new Note({...})`. Its title and
   * `audioUrl` are never empty, so it fails validation exactly when the
   * transcript is missing or empty, or the client's file name is empty.
   */
  function NewNote(file: UploadedFile, title: Field, transcript: Field): (d: Draft)
    ensures d.transcript == transcript
    ensures IsValid(d) <==> Required(transcript) && file.originalname != ""
  {
    var d := Draft(
      Some(NoteTitle(title, file.originalname)),
      transcript,
      Some(AudioUrlOf(file.path)),
      Some(file.originalname));
    InvalidWhenAnyPathMissing(d);
    d
  }

  // ---------------------------------------------------------------------------
  // The router and its state
  // ---------------------------------------------------------------------------

  class Router {
    /** The paths of the files present in the upload directory. */
    var uploads: set<string>
    /** The `notes` collection. */
    const db: NoteCollection
    /** The path separator of the platform the server runs on. */
    const sep: char

    ghost predicate Valid()
      reads this, db
    {
      db.Valid()
    }

    constructor(sep: char)
      ensures Valid() && fresh(db)
      ensures uploads == {} && db.notes == [] && this.sep == sep
    {
      this.sep := sep;
      db := new NoteCollection();
      uploads := {};
    }

    /**
     * The disk-storage step `upload.single('audio')`: when the request
     * carries an `audio` part with a file name, writes it to the upload
     * directory under `StoredFilename(now, originalname)` and describes it as
     * `req.file`. A part without a file name is skipped, as multer skips it,
     * and `req.file` stays unset.
     */
    method StoreUpload(part: Option<UploadPart>, now: nat) returns (file: Option<UploadedFile>)
      modifies this`uploads
      ensures file.Some? <==> part.Some? && part.value.originalname != ""
      ensures file.None? ==> uploads == old(uploads)
      ensures file.Some? ==> file.value.originalname == part.value.originalname
      ensures file.Some? ==> file.value.path == StoredPath(sep, StoredFilename(now, part.value.originalname))
      ensures file.Some? ==> uploads == old(uploads) + {file.value.path}
    {
      if part.None? || part.value.originalname == "" {
        return None;
      }
      var name := StoredFilename(now, part.value.originalname);
      var path := StoredPath(sep, name);
      uploads := uploads + {path};
      file := Some(UploadedFile(part.value.originalname, path));
    }

    /**
     * The `POST /transcribe` handler proper, given `req.file` (absent when
     * no file was uploaded), `req.body.title`, the speech-to-text outcome,
     * whether the database is reachable, and the clock at saving time.
     */
    method Transcribe(file: Option<UploadedFile>, title: Field, whisper: WhisperOutcome, reachable: bool, now: nat)
      returns (resp: Response)
      requires Valid()
      modifies this`uploads, db
      ensures Valid()
      // exactly one of four answers
      ensures resp.status in {201, 400, 500}
      ensures file.None? ==> resp == Response(400, ErrorJson(NoFileMessage))
      ensures file.Some? && whisper.WhisperError? ==> resp == Response(500, ErrorJson(TranscribeFailedMessage))
      ensures file.Some? && whisper.WhisperReply? && !(IsValid(NewNote(file.value, title, whisper.text)) && reachable)
        ==> resp == Response(500, ErrorJson(SaveFailedMessage))
      ensures resp.status == 201 <==>
        file.Some? && whisper.WhisperReply? && Required(whisper.text) && file.value.originalname != "" && reachable
      // the note sent back on 201
      ensures resp.status == 201 ==>
        && resp.body.NoteJson?
        && resp.body.note == Persisted(NewNote(file.value, title, whisper.text), |old(db.notes)|, now)
        && resp.body.note.title == NoteTitle(title, file.value.originalname)
        && resp.body.note.transcript == whisper.text.value
        && resp.body.note.audioUrl == AudioUrlOf(file.value.path)
        && resp.body.note.originalFilename == file.value.originalname
      // a note is stored on 201 and only then
      ensures resp.status == 201 ==> db.notes == old(db.notes) + [resp.body.note]
      ensures resp.status != 201 ==> db.notes == old(db.notes)
      // the stored file is removed after a failed save and only then
      ensures file.Some? && resp == Response(500, ErrorJson(SaveFailedMessage)) ==> uploads == old(uploads) - {file.value.path}
      ensures resp != Response(500, ErrorJson(SaveFailedMessage)) ==> uploads == old(uploads)
    {
      if file.None? {
        return Response(400, ErrorJson(NoFileMessage));
      }
      var filePath := file.value.path;
      var transcriptText: Field := Some("");
      match whisper {
        case WhisperError =>
          return Response(500, ErrorJson(TranscribeFailedMessage));
        case WhisperReply(text) =>
          transcriptText := text;
      }
      var draft := NewNote(file.value, title, transcriptText);
      var saved := db.Save(draft, reachable, now);
      if saved.Some? {
        resp := Response(201, NoteJson(saved.value));
      } else {
        if filePath in uploads {
          uploads := uploads - {filePath};
        }
        resp := Response(500, ErrorJson(SaveFailedMessage));
      }
    }

    /**
     * `GET /`: every stored note, newest first, or 500 when the database
     * cannot be read.
     */
    function ListNotes(reachable: bool): (resp: Response)
      reads this, db
      ensures !reachable ==> resp == Response(500, ErrorJson(FetchFailedMessage))
      ensures reachable ==> resp.status == 200 && resp.body.NotesJson?
      ensures reachable ==> NewestFirst(resp.body.notes) && multiset(resp.body.notes) == multiset(db.notes)
    {
      match db.FindNewestFirst(reachable)
      case Some(notes) => Response(200, NotesJson(notes))
      case None => Response(500, ErrorJson(FetchFailedMessage))
    }

    /**
     * A whole `POST /transcribe` request: the storage step at `uploadedAt`,
     * then the handler with the note saved at `savedAt`. `file` is the
     * `req.file` the storage step produced.
     */
    method PostTranscribe(part: Option<UploadPart>, uploadedAt: nat, title: Field,
                          whisper: WhisperOutcome, reachable: bool, savedAt: nat)
      returns (resp: Response, file: Option<UploadedFile>)
      requires Valid()
      modifies this`uploads, db
      ensures Valid()
      ensures file.Some? <==> part.Some? && part.value.originalname != ""
      ensures file.Some? ==> file.value.path == StoredPath(sep, StoredFilename(uploadedAt, part.value.originalname))
      // no file, or a part without a file name: 400, nothing stored, nothing written
      ensures file.None? ==>
        resp == Response(400, ErrorJson(NoFileMessage)) && uploads == old(uploads) && db.notes == old(db.notes)
      // created exactly when a named file came, the transcript is non-empty and the database is reachable
      ensures resp.status == 201 <==>
        part.Some? && part.value.originalname != "" && whisper.WhisperReply? && Required(whisper.text) && reachable
      // transcription failed: 500, nothing stored, the file stays
      ensures file.Some? && whisper.WhisperError? ==>
        && resp == Response(500, ErrorJson(TranscribeFailedMessage))
        && uploads == old(uploads) + {file.value.path}
        && db.notes == old(db.notes)
      // save failed: 500, nothing stored, the file is gone
      ensures file.Some? && whisper.WhisperReply? && resp.status != 201 ==>
        && resp == Response(500, ErrorJson(SaveFailedMessage))
        && uploads == old(uploads) - {file.value.path}
        && db.notes == old(db.notes)
      // created: the note points at a file that exists and is listed afterwards
      ensures resp.status == 201 ==>
        && file.Some? && resp.body.NoteJson?
        && uploads == old(uploads) + {file.value.path}
        && resp.body.note.audioUrl == AudioUrlOf(file.value.path)
        && db.notes == old(db.notes) + [resp.body.note]
        && resp.body.note in ListNotes(true).body.notes
    {
      file := StoreUpload(part, uploadedAt);
      resp := Transcribe(file, title, whisper, reachable, savedAt);
      if resp.status == 201 {
        StoredNoteIsFound(db.notes, resp.body.note);
      }
    }
  }
}
