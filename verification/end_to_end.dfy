/**
 * Facts that connect the client and the server: how the client turns a
 * stored file's `audioUrl` into a URL, how a created note joins the list on
 * the page, and what happens to the title the form sends.
 */
module EndToEnd {
  import opened Wrappers
  import opened JsStrings
  import opened NoteModel
  import opened NoteRoutes
  import opened App

  /**
   * Whether the server ran with `/` or `\` as its path separator, the
   * `src` the client gives a new note's audio is the same string: the base
   * URL, `/uploads/`, then the stored name, not percent-encoded (the
   * client's file name must not itself hold a backslash, which the client
   * would rewrite too).
   */
  lemma AudioUrlSameOnEveryPlatform(now: nat, originalname: string)
    requires '\\' !in originalname
    ensures var filename := StoredFilename(now, originalname);
      && FullAudioUrl(AudioUrlOf(StoredPath('\\', filename))) == ApiUrl + ("/" + UploadDir) + ['/'] + filename
      && FullAudioUrl(AudioUrlOf(StoredPath('/', filename))) == ApiUrl + ("/" + UploadDir) + ['/'] + filename
  {
    var filename := StoredFilename(now, originalname);
    StoredFilenameWithoutBackslash(now, originalname);
    StoredUrlRewritten('/', filename);
    StoredUrlRewritten('\\', filename);
  }

  /** The clock's digits bring no backslash into a stored name. */
  lemma StoredFilenameWithoutBackslash(now: nat, originalname: string)
    requires '\\' !in originalname
    ensures '\\' !in StoredFilename(now, originalname)
  {
    var digits, filename := Decimal(now), StoredFilename(now, originalname);
    forall i | 0 <= i < |filename|
      ensures filename[i] != '\\'
    {
      if i < |digits| {
        assert filename[i] == digits[i] && IsDigit(digits[i]);
      } else if i > |digits| {
        assert filename[i] == originalname[i - |digits| - 1];
      }
    }
  }

  /** The `audioUrl` of a stored file is `/`, the directory, the separator and the name. */
  lemma StoredUrlShape(sep: char, filename: string)
    ensures AudioUrlOf(StoredPath(sep, filename)) == ("/" + UploadDir) + [sep] + filename
  {
  }

  /** The client's rewrite of a stored file's `audioUrl`, for either separator. */
  lemma StoredUrlRewritten(sep: char, filename: string)
    requires sep == '/' || sep == '\\'
    requires '\\' !in filename
    ensures FullAudioUrl(AudioUrlOf(StoredPath(sep, filename))) == ApiUrl + ("/" + UploadDir) + ['/'] + filename
  {
    StoredUrlShape(sep, filename);
    ReplaceAllAround("/" + UploadDir, sep, filename, '\\', '/');
  }

  /**
   * Two uploads of the same name in the same millisecond share one stored
   * path. When the first is saved and the second fails to save (here: the
   * speech-to-text reply has no text), the cleanup of the second deletes the
   * file that the first, still stored, note points to.
   */
  method SameMillisecondUploads(r: Router, part: UploadPart, uploadedAt: nat, title: Field,
                                text: string, firstSavedAt: nat, secondSavedAt: nat)
    returns (first: Response, second: Response)
    requires r.Valid()
    requires part.originalname != "" && text != ""
    modifies r`uploads, r.db
    ensures first.status == 201 && first.body.NoteJson?
    ensures second == Response(500, ErrorJson(SaveFailedMessage))
    ensures first.body.note in r.db.notes
    ensures first.body.note.audioUrl == AudioUrlOf(StoredPath(r.sep, StoredFilename(uploadedAt, part.originalname)))
    ensures StoredPath(r.sep, StoredFilename(uploadedAt, part.originalname)) !in r.uploads
  {
    var file1, file2;
    first, file1 := r.PostTranscribe(Some(part), uploadedAt, title, WhisperReply(Some(text)), true, firstSavedAt);
    second, file2 := r.PostTranscribe(Some(part), uploadedAt, title, WhisperReply(None), true, secondSavedAt);
  }

  /**
   * The client puts a created note at the top of a newest-first list; the
   * list stays newest first when the note is at least as new as every note
   * already shown.
   */
  lemma PrependKeepsNewestFirst(notes: seq<Note>, newNote: Note)
    requires NewestFirst(notes)
    requires forall i | 0 <= i < |notes| :: notes[i].createdAt <= newNote.createdAt
    ensures NewestFirst([newNote] + notes)
  {
    if notes != [] {
      assert notes[0].createdAt <= newNote.createdAt;
    }
    ConsNewestFirst(newNote, notes);
  }

  /**
   * The form only sends a title that is not blank, and the server keeps any
   * such title instead of making one from the file name.
   */
  lemma SentTitleIsKept(title: string, originalname: string)
    requires !IsBlank(title)
    ensures NoteTitle(Some(title), originalname) == title
  {
  }
}
