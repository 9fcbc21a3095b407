# EchoScribe voice notes, modelled in Dafny

EchoScribe lets a user upload an audio file. The server has the file
transcribed by a speech-to-text service and stores the result as a note
(title, transcript, audio URL, original file name). The client shows every
note, newest first. This project models the decision logic of that flow:

- the server's note router: the upload-storage naming rule, the
  `POST /api/notes/transcribe` handler with its four answers, and the
  `GET /api/notes` listing;
- the `Note` schema, as a validity predicate that decides when saving fails;
- the client's upload form: the title taken from a file name, the submit
  checks, the form reset and the error message, the list of notes on the
  page, and the normalisation of audio URLs.

Modules, one per file:

- `Wrappers` (`wrappers.dfy`): `Option`, standing for JavaScript's absent
  value.
- `JsStrings` (`js_strings.dfy`): the JavaScript built-ins the code relies
  on, with the facts the rest needs. These are `String(n)` for the
  millisecond clock, `split`/`join`, `replace(/\\/g, '/')` and `trim`. It
  also defines `LastIndexOf`, which the application does not call: it is
  the reference for "the last `.`" against which the client's title
  derivation is proved.
- `NoteModel` (`note_model.dfy`): the schema (`Draft`, `IsValid`), the saved
  `Note`, the newest-first order, and the `NoteCollection` class. The class
  owns the stored notes, has a `Save` method and a sorted search.
- `NoteRoutes` (`note_routes.dfy`): the pure pieces of the request flow and
  the `Router` class. `Router` holds the upload directory as a set of paths
  and the collection. Its methods are the storage step, the handler, the
  whole request, and the listing.
- `App` (`app.dfy`): the client helpers and the `UploadForm` and `NoteList`
  classes.
- `EndToEnd` (`end_to_end.dfy`): facts that join the client and the server.

The following are parameters of each call rather than modelled behaviour:

- the clock (`Date.now()` when the file is stored, and the time of the
  save);
- the speech-to-text outcome (an error, or a reply whose `text` may be
  absent);
- whether the database can be reached;
- the server's reply to the client's upload.

A save fails when the draft fails validation or the database cannot be
reached. Mongoose's `required` check on a String path rejects a missing
value and the empty string; `NoteModel.Required` states this. So a reply
without `text`, or with empty `text`, takes the save-failure branch, and
that branch deletes the stored file. A request with a non-empty title keeps
it; a missing or empty title becomes `Note: ` + the original file name.
Stored paths are `uploads` + separator + `<millis>-<original name>`. This is
what `path.join('./uploads', name)` yields. The separator is a `Router`
constant, `/` on POSIX and `\` on Windows. The second case is why the client
rewrites backslashes.

The default title is `Note: ` + the original name
(server/routes/note.routes.js:92).

Stored names are unique only up to the millisecond clock plus the client's
name. `NoteRoutes.StoredFilenameInjective` proves exactly that: the stored
name determines both. Two same-name uploads in the same millisecond get the
same path.

An `audio` part without a file name is not stored by the upload step, so
`req.file` stays unset and the handler answers 400.

## Model

| member | source | states |
|---|---|---|
| JsStrings.Decimal | server/routes/note.routes.js:26 | the clock's text is one or more decimal digits, with no leading zero |
| JsStrings.DecimalValueOfDecimal | server/routes/note.routes.js:26 | reading the decimal text of `n` back gives `n` |
| JsStrings.DecimalInjective | server/routes/note.routes.js:26 | different clock readings have different texts |
| JsStrings.Join | client/src/App.jsx:141 | `join('.')`: joining the pieces of a split restores the string (its partner `JoinSplit`) |
| JsStrings.Split | client/src/App.jsx:141 | `split('.')` gives at least one piece, and no piece contains the separator |
| JsStrings.JoinSplit | client/src/App.jsx:141 | joining the pieces of a split with the same separator restores the string |
| JsStrings.JoinSnoc | client/src/App.jsx:141 | joining one more piece at the end adds a separator and that piece |
| JsStrings.LastIndexOf | client/src/App.jsx:141 | the result is -1 exactly when the character is absent; otherwise it is an occurrence with none after it |
| JsStrings.LastIndexOfBeforeTail | client/src/App.jsx:141 | in `a + '.' + b` with no `.` in `b`, the last `.` is at position `|a|` |
| JsStrings.ReplaceAll | client/src/App.jsx:266 | the length is kept, and every `from` becomes `to` with all other characters unchanged |
| JsStrings.ReplaceAllAround | client/src/App.jsx:266 | in `a + [c] + b` where only `c` can be a backslash, the rewrite changes at most that one character |
| JsStrings.TrimStart | client/src/App.jsx:156 | removes exactly the leading white space and leaves a suffix |
| JsStrings.TrimEnd | client/src/App.jsx:156 | removes exactly the trailing white space and leaves a prefix |
| JsStrings.Trim | client/src/App.jsx:156 | `trim()` is the piece of the string that starts after its leading white space; everything before and after the piece is white space, and the piece neither starts nor ends with white space |
| JsStrings.TrimEmptyIffAllWhiteSpace | client/src/App.jsx:156 | `trim()` gives the empty string if and only if every character is white space |
| NoteModel.Required | server/models/note.model.js:8-27 | the `required: true` check of one String path: present and not empty (its consequences are stated by `MissingPaths`) |
| NoteModel.IsValid | server/models/note.model.js:6-27 | the schema's validation: no required path missing; `InvalidWhenAnyPathMissing` proves it holds exactly when all four paths are present and non-empty |
| NoteModel.MissingPaths | server/models/note.model.js:6-27 | a schema path is reported missing if and only if its value is absent or empty |
| NoteModel.InvalidWhenAnyPathMissing | server/models/note.model.js:8-27 | a draft is valid if and only if title, transcript, audioUrl and originalFilename are all present and non-empty |
| NoteModel.Persisted | server/models/note.model.js:28-31 | a saved note keeps the draft's four paths, passes validation, gets the assigned id, and has createdAt = updatedAt = the time of saving |
| NoteModel.ConsNewestFirst | server/routes/note.routes.js:45 | a note at least as new as the head of a newest-first list can go in front of it |
| NoteModel.InsertByCreatedAt | server/routes/note.routes.js:45 | inserting into a newest-first list keeps it newest first and adds exactly that note |
| NoteModel.SortNewestFirst | server/routes/note.routes.js:45 | the result is ordered by createdAt descending and is a permutation of the input |
| NoteModel.NoteCollection.Save | server/models/note.model.js:6-31 | saving succeeds if and only if the draft is valid and the database is reachable; on success the stored note is appended with the next id; on failure nothing changes; ids stay positions and every stored note is valid |
| NoteModel.NoteCollection.FindNewestFirst | server/routes/note.routes.js:45 | when reachable, returns every stored note, newest first; otherwise fails |
| NoteModel.StoredNoteIsFound | server/routes/note.routes.js:45-46 | a stored note is among the sorted results |
| NoteRoutes.StoredFilename | server/routes/note.routes.js:25-27 | the stored name is the clock's digits, a dash, then the original name; it ends with the original name |
| NoteRoutes.StoredFilenameInjective | server/routes/note.routes.js:25-27 | equal stored names imply equal clock readings and equal original names, so different timestamps give different names |
| NoteRoutes.StoredPath | server/routes/note.routes.js:21-27 | `path.join('./uploads', name)`: `uploads`, the platform separator, then the stored name, which can be read back from the path |
| NoteRoutes.AudioUrlOf | server/routes/note.routes.js:94 | the note's `audioUrl` is `/` followed by exactly the stored path |
| NoteRoutes.AudioUrlDeterminesUpload | server/routes/note.routes.js:94 | two uploads get the same audioUrl only when they have the same millisecond and the same original name |
| NoteRoutes.NoteTitle | server/routes/note.routes.js:92 | the title is never empty; it is the request title when that is non-empty, otherwise "Note: " + original name |
| NoteRoutes.NewNote | server/routes/note.routes.js:91-96 | the built note carries the transcript it was given, and it fails validation if and only if the transcript is missing or empty, or the original name is empty |
| NoteRoutes.Router.StoreUpload | server/routes/note.routes.js:20-30 | with an `audio` part that has a file name, the directory gains exactly `uploads/<millis>-<name>` and `req.file` describes it; with no part or an unnamed one, `req.file` is unset and nothing is written |
| NoteRoutes.Router.Transcribe | server/routes/note.routes.js:57-112 | exactly one of 400 / 500 transcription / 500 save / 201 is returned. 400 iff no file. 201 iff the transcript is non-empty, the name is non-empty and the database is reachable. The 201 note has the API text, the upload's name, "/" + path and the default title. A note is appended only on 201. The file is deleted only on the save-failure path |
| NoteRoutes.Router.ListNotes | server/routes/note.routes.js:42-51 | 200 with every stored note ordered newest first (a permutation of the store), or 500 "Server error while fetching notes." on a storage fault |
| NoteRoutes.Router.PostTranscribe | server/routes/note.routes.js:57-112 | 201 exactly when a named file came, the transcript is non-empty and the database is reachable. No file or an unnamed one: 400, directory and notes unchanged. Transcription failure: 500, no note, the stored file stays. Save failure: 500, no note, the stored file is gone. 201: the file exists, the note is appended and then appears in the listing |
| App.NameWithoutExtensionIsTextBeforeLastDot | client/src/App.jsx:141 | `split('.').slice(0, -1).join('.')` is the text before the last `.`, or empty when there is no `.` |
| App.NameWithoutExtension | client/src/App.jsx:141 | `name.split('.').slice(0, -1).join('.')`; `NameWithoutExtensionIsTextBeforeLastDot` proves it is the text before the last `.` |
| App.TitleFromFileName | client/src/App.jsx:141-142 | the title is the text before the last `.` when that is non-empty, else the whole name; it is a prefix of the name, non-empty for a non-empty name |
| App.FullAudioUrl | client/src/App.jsx:266 | the base URL followed by audioUrl with every `\` turned into `/`; the result holds no backslash and keeps every other character |
| App.IsBlank | client/src/App.jsx:156 | a title is blank exactly when every character of it is white space |
| App.BlankIffTrimmedEmpty | client/src/App.jsx:156 | `!title.trim()` holds exactly for a blank title |
| App.SubmitProblem | client/src/App.jsx:152-160 | the form cannot be sent exactly when no file is chosen or the title is blank; the missing file is reported first, with "Please select an audio file to upload.", and a blank title with "Please provide a title for your note." |
| App.UploadErrorMessage | client/src/App.jsx:189 | the server's non-empty `error` if there is one, otherwise "Upload failed. Please try again." |
| App.UploadForm.FinishUpload | client/src/App.jsx:168-192 | after the request, success prepends the note and resets the form with no error; failure shows the server's error or the generic one and keeps the form; uploading is over in both cases |
| App.NoteList.OnNoteAdded | client/src/App.jsx:94-96 | the new note is at index 0, the previous notes follow in order, and the length grows by one |
| App.UploadForm.constructor | client/src/App.jsx:127-131 | the form starts with no file, an empty title, "No file selected", no error, and not uploading |
| App.UploadForm.HandleFileChange | client/src/App.jsx:134-144 | choosing a file stores it, shows its name and sets the derived title; cancelling changes nothing |
| App.UploadForm.HandleTitleChange | client/src/App.jsx:146-148 | the title becomes the typed value and nothing else changes |
| App.UploadForm.HandleSubmit | client/src/App.jsx:150-193 | when `SubmitProblem` reports a problem, its message is shown, nothing is sent and nothing else changes. Otherwise the file and the untrimmed title are sent. Success: the note is prepended and the form resets. Failure: the error is shown and the form is kept. Either way uploading ends |
| App.UploadForm.Refuse | client/src/App.jsx:152-160 | a failed check shows its message and leaves file, title, label and upload flag unchanged |
| EndToEnd.AudioUrlSameOnEveryPlatform | client/src/App.jsx:266 | with either path separator, the `src` of a new note's audio is base URL + "/uploads/" + stored name, not percent-encoded |
| EndToEnd.StoredFilenameWithoutBackslash | server/routes/note.routes.js:26 | a stored name has a backslash only when the client's name has one |
| EndToEnd.StoredUrlRewritten | client/src/App.jsx:266 | for a stored file with `/` or `\` as separator, the client's URL is base URL + "/uploads/" + stored name |
| EndToEnd.SameMillisecondUploads | server/routes/note.routes.js:25-27 | after a saved upload and a failed one with the same name in the same millisecond, the saved note is still stored but the file its `audioUrl` names is gone |
| EndToEnd.PrependKeepsNewestFirst | client/src/App.jsx:94-96 | (by `ConsNewestFirst`) prepending a note at least as new as every shown note keeps the list newest first |
| EndToEnd.SentTitleIsKept | server/routes/note.routes.js:92 | a non-blank title, which is the only kind the form sends, is kept by the server as the note's title |

## Left out

- NoteRoutes.Router.StoreUpload: the multipart parser's reduction of a
  client file name to its last path component (dropping everything up to a
  `/` or `\`) is not modelled; the client's name is taken as given. Only
  the single `audio` file part is modelled: a file under another field
  name, or a second `audio` file, makes the upload step fail the request
  before the handler runs, and the server-wide error handler then answers
  500 "Something broke!".
- EndToEnd.AudioUrlSameOnEveryPlatform: the client puts the `audioUrl`
  into the URL without percent-encoding it. A client file name holding `#`,
  `?` or `%` therefore gives a `src` that the static `/uploads` route does
  not map back to the stored file. The model states the string only, not
  what the static route serves for it.
- App.UploadForm.HandleSubmit: the title input carries `required`, so in a
  browser an empty title blocks submission before `handleSubmit` runs. The
  page's markup is not modelled; the handler's own checks are, including
  its message for a blank title, which the page shows only for a title of
  white space.

- Server startup: the environment-variable checks and exit, CORS and JSON
  middleware, static serving of `/uploads`, the database connection, the
  catch-all error handler and `listen`. These are configuration and wiring.
- The HTTP call to the speech-to-text service: multipart streaming of the
  file, the model name and the bearer credential. The call is an input that
  is either an error or a reply.
- File contents. The upload directory is a set of paths; no bytes are
  modelled, so "the stored file is a byte-identical copy" is not stated.
- MongoDB itself: ids are positions in the collection. Mongoose's casting of
  non-string values into String paths is not modelled; the request title is
  absent or a string.
- NoteRoutes.Router.Transcribe: deleting an existing file always succeeds.
  If `unlinkSync` threw inside the catch block, no response would be sent;
  that case is not modelled.
- Concurrency: each request runs alone; interleaved requests are not
  modelled. Requests in sequence are: two same-name uploads in the same
  millisecond share a path, and when the later one fails to save, its
  cleanup deletes the file an earlier, still stored note refers to
  (`EndToEnd.SameMillisecondUploads`).
- App.NoteList.OnNoteAdded: the model prepends to the current list. In the
  page, `onNoteAdded` prepends to the list captured when the form was
  rendered, so an initial fetch that finishes during an upload is
  overwritten by the new note followed by the older list.
- NoteRoutes.Router.ListNotes and NoteModel.NoteCollection.FindNewestFirst:
  the order of notes with equal createdAt is left open, because the database
  does not fix it.
- The client's initial fetch and its loading and error states, rendering,
  audio playback controls and date formatting. The page's list starts from
  whatever the fetch returned (`NoteList` constructor).
- App.UploadForm.HandleSubmit: the state while the request is in flight is
  not exposed (`isUploading` is true and the error cleared). The button
  being disabled during an upload is not modelled. Clearing the file
  input's DOM value is not modelled.
- Logging to the console.
- JavaScript strings are UTF-16 code units and Dafny strings are code
  points. For the `.` and `\` characters and the white-space set used here,
  the difference does not show.
- JsStrings.Decimal: JavaScript writes integers of 10^21 and above in
  exponent form. Millisecond clocks are far below that, so this is not
  modelled.
