/** The recording store: each answer's audio goes to its own `.wav` file in
    the recordings directory, and each user has one JSON file listing the
    metadata of all their recordings, read whole, extended by one record and
    written back whole on every save. `json.loads` and `json.dump` are the
    parameters `decode` and `encode`; `datetime.now()` is the formatted
    timestamp the caller passes in. */
module AudioManager {
  import opened Wrappers
  import opened Text
  import opened Json
  import opened Files

  const RecordingsDir := "recordings"

  const UserIdKey := "user_id"
  const QuestionIdKey := "question_id"
  const ResponseIdKey := "response_id"
  const QuestionTextKey := "question_text"
  const TimestampKey := "timestamp"
  const FilenameKey := "filename"
  const FilePathKey := "file_path"

  /** The record kept for one saved answer. */
  datatype Metadata = Metadata(
    userId: string,
    questionId: int,
    responseId: int,
    questionText: string,
    timestamp: string,
    filename: string,
    filePath: string)

  /** The JSON object a record is stored as. */
  function ToJson(m: Metadata): Value {
    Object(map[
      UserIdKey := Str(m.userId),
      QuestionIdKey := Int(m.questionId),
      ResponseIdKey := Int(m.responseId),
      QuestionTextKey := Str(m.questionText),
      TimestampKey := Str(m.timestamp),
      FilenameKey := Str(m.filename),
      FilePathKey := Str(m.filePath)])
  }

  /** A stored record loses nothing: different records are stored as
      different JSON objects. */
  lemma ToJsonInjective(a: Metadata, b: Metadata)
    requires ToJson(a) == ToJson(b)
    ensures a == b
  {
    var fa := ToJson(a).fields;
    var fb := ToJson(b).fields;
    assert fa[UserIdKey] == fb[UserIdKey] && fa[QuestionIdKey] == fb[QuestionIdKey];
    assert fa[ResponseIdKey] == fb[ResponseIdKey] && fa[QuestionTextKey] == fb[QuestionTextKey];
    assert fa[TimestampKey] == fb[TimestampKey] && fa[FilenameKey] == fb[FilenameKey];
    assert fa[FilePathKey] == fb[FilePathKey];
  }

  /** `user_{user_id}_q{question_id}_r{response_id}_{timestamp}.wav`. */
  function FileName(userId: string, questionId: int, responseId: int, timestamp: string): (name: string)
    ensures |name| > 4 && name[0] == 'u' && name[|name| - 1] == 'v'
    ensures name[|name| - 4..] == ".wav"
  {
    "user_" + userId + "_q" + Decimal(questionId) + "_r" + Decimal(responseId) + "_" + timestamp + ".wav"
  }

  /** `metadata_{user_id}.json`. */
  function MetadataName(userId: string): (name: string)
    ensures |name| > 5 && name[0] == 'm' && name[|name| - 1] == 'n'
    ensures name[|name| - 5..] == ".json"
  {
    "metadata_" + userId + ".json"
  }

  function MetadataPath(dir: string, userId: string): string {
    PathJoin(dir, MetadataName(userId))
  }

  function AudioPath(dir: string, userId: string, questionId: int, responseId: int,
                     timestamp: string): string {
    PathJoin(dir, FileName(userId, questionId, responseId, timestamp))
  }

  /** Each user has a metadata file of their own. */
  lemma MetadataPathInjective(dir: string, u: string, v: string)
    requires MetadataPath(dir, u) == MetadataPath(dir, v)
    ensures u == v
  {
    var a := MetadataName(u);
    var b := MetadataName(v);
    PathJoinInjective(dir, a, b);
    assert u == a[9..|a| - 5] && v == b[9..|b| - 5];
  }

  /** No audio file is ever anyone's metadata file: one ends in ".wav", the other in ".json". */
  lemma AudioIsNotMetadata(dir: string, u: string, q: int, r: int, ts: string, v: string)
    ensures AudioPath(dir, u, q, r, ts) != MetadataPath(dir, v)
  {
    var a := AudioPath(dir, u, q, r, ts);
    var m := MetadataPath(dir, v);
    var an := FileName(u, q, r, ts);
    var mn := MetadataName(v);
    assert a[|a| - 1] == an[|an| - 1];
    assert m[|m| - 1] == mn[|mn| - 1];
  }

  /** What a user's metadata file holds, as `save_audio_with_metadata` and
      `list_user_recordings` read it: the decoded file when the path exists,
      and an empty list when it does not. */
  function StoredList(files: map<string, Content>, dirs: set<string>, path: string,
                      decode: string -> Option<Value>): (r: Result<Value, Fault>)
    ensures path !in files && path !in dirs ==> r == Success(Array([]))
    ensures path in files || path in dirs ==> r == LoadJson(files, dirs, path, decode)
  {
    if path in files || path in dirs then LoadJson(files, dirs, path, decode) else Success(Array([]))
  }

  /** The file steps of one save, given the audio path and the user's
      metadata path: write the audio, load the user's list, append the record,
      write the list back. A step that raises stops the save with what was
      written so far left in place. */
  function SaveFiles(files: map<string, Content>, dirs: set<string>, path: string, mpath: string,
                     audio: seq<byte>, m: Metadata,
                     decode: string -> Option<Value>, encode: Value -> string)
    : (Result<(string, Metadata), Fault>, map<string, Content>)
  {
    if !Writable(dirs, path) then (Failure(WriteFault(dirs, path)), files)
    else
      var written := files[path := Bytes(audio)];
      match StoredList(written, dirs, mpath, decode)
      case Failure(e) => (Failure(e), written)
      case Success(all) =>
        if !all.Array? then (Failure(NoAppend(all)), written)
        else if !Writable(dirs, mpath) then (Failure(WriteFault(dirs, mpath)), written)
        else (Success((path, m)), written[mpath := Chars(encode(Array(all.items + [ToJson(m)])))])
  }

  /** The outcome of one save and the files afterwards. */
  function Save(files: map<string, Content>, dirs: set<string>, dir: string, audio: seq<byte>,
                userId: string, questionId: int, responseId: int, questionText: string,
                timestamp: string, decode: string -> Option<Value>, encode: Value -> string)
    : (Result<(string, Metadata), Fault>, map<string, Content>)
  {
    var m := Record(dir, userId, questionId, responseId, questionText, timestamp);
    SaveFiles(files, dirs, m.filePath, MetadataPath(dir, userId), audio, m, decode, encode)
  }

  /** The record a save appends: the ids, the question text, the timestamp, and
      the audio file's name and path. */
  function Record(dir: string, userId: string, questionId: int, responseId: int,
                  questionText: string, timestamp: string): Metadata {
    var name := FileName(userId, questionId, responseId, timestamp);
    Metadata(userId, questionId, responseId, questionText, timestamp, name, PathJoin(dir, name))
  }

  /** The file steps change no path but the two they are given. */
  lemma SaveFilesTouchesOnly(files: map<string, Content>, dirs: set<string>, path: string,
                             mpath: string, audio: seq<byte>, m: Metadata,
                             decode: string -> Option<Value>, encode: Value -> string, p: string)
    requires p != path && p != mpath
    ensures var after := SaveFiles(files, dirs, path, mpath, audio, m, decode, encode).1;
      (p in after <==> p in files) && (p in files ==> after[p] == files[p])
  {
  }

  /** Writing the audio file does not change what the metadata file holds. */
  lemma StoredListAfterAudio(files: map<string, Content>, dirs: set<string>, dir: string,
                             audio: seq<byte>, u: string, q: int, r: int, ts: string, v: string,
                             decode: string -> Option<Value>)
    ensures StoredList(files[AudioPath(dir, u, q, r, ts) := Bytes(audio)], dirs, MetadataPath(dir, v), decode)
         == StoredList(files, dirs, MetadataPath(dir, v), decode)
  {
    AudioIsNotMetadata(dir, u, q, r, ts, v);
  }

  /** A save succeeds exactly when both files can be written and the user's
      metadata file is missing or holds a JSON list; the returned record carries
      the ids, the question text, the timestamp, the file name and its path. */
  lemma SaveSucceedsIff(files: map<string, Content>, dirs: set<string>, dir: string,
                        audio: seq<byte>, u: string, q: int, r: int, text: string, ts: string,
                        decode: string -> Option<Value>, encode: Value -> string)
    ensures var out := Save(files, dirs, dir, audio, u, q, r, text, ts, decode, encode).0;
      var stored := StoredList(files, dirs, MetadataPath(dir, u), decode);
      out.Success? <==>
        && Writable(dirs, AudioPath(dir, u, q, r, ts))
        && Writable(dirs, MetadataPath(dir, u))
        && stored.Success? && stored.value.Array?
    ensures var out := Save(files, dirs, dir, audio, u, q, r, text, ts, decode, encode).0;
      var name := FileName(u, q, r, ts);
      out.Success? ==> out.value == (PathJoin(dir, name), Metadata(u, q, r, text, ts, name, PathJoin(dir, name)))
  {
    StoredListAfterAudio(files, dirs, dir, audio, u, q, r, ts, u, decode);
  }

  /** Once the audio can be written it stays written, whether or not the
      metadata step after it succeeds; when it cannot, nothing changes. */
  lemma SaveWritesAudio(files: map<string, Content>, dirs: set<string>, dir: string,
                        audio: seq<byte>, u: string, q: int, r: int, text: string, ts: string,
                        decode: string -> Option<Value>, encode: Value -> string)
    ensures var out := Save(files, dirs, dir, audio, u, q, r, text, ts, decode, encode);
      var path := AudioPath(dir, u, q, r, ts);
      Writable(dirs, path) ==> path in out.1 && out.1[path] == Bytes(audio)
    ensures var out := Save(files, dirs, dir, audio, u, q, r, text, ts, decode, encode);
      !Writable(dirs, AudioPath(dir, u, q, r, ts)) ==> out.1 == files && out.0.Failure?
  {
    var name := FileName(u, q, r, ts);
    var path := PathJoin(dir, name);
    AudioIsNotMetadata(dir, u, q, r, ts, u);
    SaveFilesWritesAudio(files, dirs, path, MetadataPath(dir, u), audio,
                         Metadata(u, q, r, text, ts, name, path), decode, encode);
  }

  /** The file steps leave the audio written whatever happens after it. */
  lemma SaveFilesWritesAudio(files: map<string, Content>, dirs: set<string>, path: string,
                             mpath: string, audio: seq<byte>, m: Metadata,
                             decode: string -> Option<Value>, encode: Value -> string)
    requires path != mpath
    ensures var out := SaveFiles(files, dirs, path, mpath, audio, m, decode, encode);
      Writable(dirs, path) ==> path in out.1 && out.1[path] == Bytes(audio)
    ensures var out := SaveFiles(files, dirs, path, mpath, audio, m, decode, encode);
      !Writable(dirs, path) ==> out.1 == files && out.0.Failure?
  {
  }

  /** A save changes no path but its audio file and its user's metadata file. */
  lemma SaveTouchesOnly(files: map<string, Content>, dirs: set<string>, dir: string,
                        audio: seq<byte>, u: string, q: int, r: int, text: string, ts: string,
                        decode: string -> Option<Value>, encode: Value -> string, p: string)
    requires p != AudioPath(dir, u, q, r, ts) && p != MetadataPath(dir, u)
    ensures var after := Save(files, dirs, dir, audio, u, q, r, text, ts, decode, encode).1;
      (p in after <==> p in files) && (p in files ==> after[p] == files[p])
  {
    var name := FileName(u, q, r, ts);
    var path := PathJoin(dir, name);
    SaveFilesTouchesOnly(files, dirs, path, MetadataPath(dir, u), audio,
                         Metadata(u, q, r, text, ts, name, path), decode, encode, p);
  }

  /** Another user's recordings list reads the same before and after a save. */
  lemma SaveLeavesOtherUsers(files: map<string, Content>, dirs: set<string>, dir: string,
                             audio: seq<byte>, u: string, q: int, r: int, text: string, ts: string,
                             decode: string -> Option<Value>, encode: Value -> string, v: string)
    requires v != u
    ensures var after := Save(files, dirs, dir, audio, u, q, r, text, ts, decode, encode).1;
      StoredList(after, dirs, MetadataPath(dir, v), decode) == StoredList(files, dirs, MetadataPath(dir, v), decode)
  {
    var mv := MetadataPath(dir, v);
    AudioIsNotMetadata(dir, u, q, r, ts, v);
    if mv == MetadataPath(dir, u) {
      MetadataPathInjective(dir, u, v);
    }
    SaveTouchesOnly(files, dirs, dir, audio, u, q, r, text, ts, decode, encode, mv);
    StoredListUnchanged(files, Save(files, dirs, dir, audio, u, q, r, text, ts, decode, encode).1, dirs, mv, decode);
  }

  /** What a path holds decides what its list reads as. */
  lemma StoredListUnchanged(files: map<string, Content>, after: map<string, Content>, dirs: set<string>,
                            path: string, decode: string -> Option<Value>)
    requires (path in after <==> path in files) && (path in files ==> after[path] == files[path])
    ensures StoredList(after, dirs, path, decode) == StoredList(files, dirs, path, decode)
  {
  }

  /** `json.load` reads back exactly the value `json.dump` wrote. This holds of
      every value made of strings, integers, lists and objects, and of every
      value a JSON text decoded to; it is required only of the lists a save
      writes. */
  ghost predicate ReadsBack(decode: string -> Option<Value>, encode: Value -> string, v: Value) {
    decode(encode(v)) == Some(v)
  }

  /** When a save succeeds, by `SaveSucceedsIff`: both files can be written
      and the user's metadata file is missing or holds a JSON list. */
  predicate SaveCanSucceed(files: map<string, Content>, dirs: set<string>, dir: string,
                           u: string, q: int, r: int, ts: string, decode: string -> Option<Value>)
  {
    var stored := StoredList(files, dirs, MetadataPath(dir, u), decode);
    && Writable(dirs, AudioPath(dir, u, q, r, ts))
    && Writable(dirs, MetadataPath(dir, u))
    && stored.Success? && stored.value.Array?
  }

  /** After a successful save the user's list is the previous one (empty when
      there was no file) with the new record appended last. */
  lemma SaveAppends(files: map<string, Content>, dirs: set<string>, dir: string,
                    audio: seq<byte>, u: string, q: int, r: int, text: string, ts: string,
                    decode: string -> Option<Value>, encode: Value -> string)
    requires SaveCanSucceed(files, dirs, dir, u, q, r, ts, decode)
    requires var before := StoredList(files, dirs, MetadataPath(dir, u), decode);
      ReadsBack(decode, encode, Array(before.value.items + [ToJson(Record(dir, u, q, r, text, ts))]))
    ensures var out := Save(files, dirs, dir, audio, u, q, r, text, ts, decode, encode);
      var before := StoredList(files, dirs, MetadataPath(dir, u), decode);
      && out.0.Success?
      && out.0.value.1 == Record(dir, u, q, r, text, ts)
      && StoredList(out.1, dirs, MetadataPath(dir, u), decode)
         == Success(Array(before.value.items + [ToJson(out.0.value.1)]))
  {
    SaveSucceedsIff(files, dirs, dir, audio, u, q, r, text, ts, decode, encode);
    StoredListAfterAudio(files, dirs, dir, audio, u, q, r, ts, u, decode);
  }

  /** Two saves of the same answer within the same second use the same audio
      path, so the second recording replaces the first, while the user's list
      gains two identical records. */
  lemma SameSecondSavesCollide(files: map<string, Content>, dirs: set<string>, dir: string,
                               first: seq<byte>, second: seq<byte>, u: string, q: int, r: int,
                               text: string, ts: string,
                               decode: string -> Option<Value>, encode: Value -> string)
    requires SaveCanSucceed(files, dirs, dir, u, q, r, ts, decode)
    requires var before := StoredList(files, dirs, MetadataPath(dir, u), decode);
      var m := ToJson(Record(dir, u, q, r, text, ts));
      && ReadsBack(decode, encode, Array(before.value.items + [m]))
      && ReadsBack(decode, encode, Array(before.value.items + [m, m]))
    ensures var once := Save(files, dirs, dir, first, u, q, r, text, ts, decode, encode);
      var twice := Save(once.1, dirs, dir, second, u, q, r, text, ts, decode, encode);
      var before := StoredList(files, dirs, MetadataPath(dir, u), decode);
      var m := ToJson(once.0.value.1);
      && once.0.Success? && twice.0 == once.0
      && AudioPath(dir, u, q, r, ts) in twice.1
      && twice.1[AudioPath(dir, u, q, r, ts)] == Bytes(second)
      && StoredList(twice.1, dirs, MetadataPath(dir, u), decode)
         == Success(Array(before.value.items + [m, m]))
  {
    var once := Save(files, dirs, dir, first, u, q, r, text, ts, decode, encode);
    SaveSucceedsIff(files, dirs, dir, first, u, q, r, text, ts, decode, encode);
    assert Writable(dirs, AudioPath(dir, u, q, r, ts));
    SaveWritesAudio(once.1, dirs, dir, second, u, q, r, text, ts, decode, encode);
    SaveAppends(files, dirs, dir, first, u, q, r, text, ts, decode, encode);
    var before := StoredList(files, dirs, MetadataPath(dir, u), decode);
    var m := ToJson(once.0.value.1);
    assert before.value.items + [m] + [m] == before.value.items + [m, m];
    SaveSucceedsIff(once.1, dirs, dir, second, u, q, r, text, ts, decode, encode);
    SaveAppends(once.1, dirs, dir, second, u, q, r, text, ts, decode, encode);
  }

  /** `AudioManager`: the recordings directory and the file system it writes to. */
  class AudioManager {
    const recordingsDir: string
    const fs: FileSystem
    const decode: string -> Option<Value>
    const encode: Value -> string

    /** Creates the recordings directory only when nothing exists at its path. */
    constructor (fs: FileSystem, decode: string -> Option<Value>, encode: Value -> string)
      requires fs.Valid()
      modifies fs
      ensures this.fs == fs && this.decode == decode && this.encode == encode
      ensures recordingsDir == RecordingsDir
      ensures fs.Valid() && fs.files == old(fs.files)
      ensures fs.dirs == if old(fs.Exists(RecordingsDir)) then old(fs.dirs) else old(fs.dirs) + {RecordingsDir}
    {
      recordingsDir := RecordingsDir;
      this.fs := fs;
      this.decode := decode;
      this.encode := encode;
      new;
      if !fs.Exists(recordingsDir) {
        fs.MakeDirs(recordingsDir);
      }
    }

    /** `save_audio_with_metadata`, step by step. */
    method SaveAudioWithMetadata(audio: seq<byte>, userId: string, questionId: int, responseId: int,
                                 questionText: string, timestamp: string)
      returns (result: Result<(string, Metadata), Fault>)
      requires fs.Valid()
      modifies fs
      ensures fs.Valid() && fs.dirs == old(fs.dirs)
      ensures (result, fs.files) == Save(old(fs.files), old(fs.dirs), recordingsDir, audio, userId,
                                         questionId, responseId, questionText, timestamp, decode, encode)
    {
      var filename := FileName(userId, questionId, responseId, timestamp);
      var filePath := PathJoin(recordingsDir, filename);
      var wrote := fs.WriteFile(filePath, Bytes(audio));
      if wrote.Failure? {
        return Failure(wrote.error);
      }

      var metadata := Metadata(userId, questionId, responseId, questionText, timestamp, filename, filePath);
      var metadataFile := PathJoin(recordingsDir, MetadataName(userId));

      var allMetadata := Array([]);
      if fs.Exists(metadataFile) {
        var loaded := fs.ReadJson(metadataFile, decode);
        if loaded.Failure? {
          return Failure(loaded.error);
        }
        allMetadata := loaded.value;
      }
      if !allMetadata.Array? {
        return Failure(NoAppend(allMetadata));
      }
      allMetadata := Array(allMetadata.items + [ToJson(metadata)]);

      wrote := fs.WriteFile(metadataFile, Chars(encode(allMetadata)));
      if wrote.Failure? {
        return Failure(wrote.error);
      }
      return Success((filePath, metadata));
    }

    /** `get_file_info`: the size of whatever exists at the path, else None. */
    method GetFileInfo(filePath: string) returns (size: Option<nat>)
      requires fs.Valid()
      ensures size.Some? <==> fs.Exists(filePath)
      ensures filePath in fs.files ==> size == Some(FileSize(fs.files[filePath]))
      ensures filePath in fs.dirs ==> size == Some(fs.dirSize)
    {
      if !fs.Exists(filePath) {
        return None;
      }
      if filePath in fs.files {
        return Some(FileSize(fs.files[filePath]));
      }
      return Some(fs.dirSize);
    }

    /** `list_user_recordings`: the user's stored list, or [] without a file. */
    method ListUserRecordings(userId: string) returns (r: Result<Value, Fault>)
      ensures r == StoredList(fs.files, fs.dirs, MetadataPath(recordingsDir, userId), decode)
    {
      var metadataFile := PathJoin(recordingsDir, MetadataName(userId));
      if fs.Exists(metadataFile) {
        r := fs.ReadJson(metadataFile, decode);
        return;
      }
      return Success(Array([]));
    }
  }
}
