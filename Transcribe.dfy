/** Transcription of a recorded answer: check the audio file exists, ask the
    speech recogniser for its segments, join their texts into one transcript
    and optionally save it next to the audio as a `.txt` file. */
module Transcribe {
  import opened Wrappers
  import opened Text
  import opened Files

  /** The transcript of a recording: the segment texts joined with single
      spaces, in order, then stripped (so, by `Strip`'s contract, it has no
      whitespace at either end). */
  function Transcript(texts: seq<string>): string
  {
    Strip(Join(texts, " "))
  }

  /** Text that is neither empty nor padded with whitespace. */
  predicate Trimmed(s: string) {
    |s| > 0 && !IsSpace(s[0]) && !IsSpace(s[|s| - 1])
  }

  /** The joined text starts as its first part starts and ends as its last
      part ends, when those parts are not empty. */
  lemma {:induction false} JoinEnds(parts: seq<string>, sep: string)
    requires |parts| > 0
    ensures var j := Join(parts, sep);
      |parts[0]| > 0 ==> |j| > 0 && j[0] == parts[0][0]
    ensures var j := Join(parts, sep); var last := parts[|parts| - 1];
      |last| > 0 ==> |j| > 0 && j[|j| - 1] == last[|last| - 1]
  {
    if |parts| > 1 {
      JoinEnds(parts[1..], sep);
    }
  }

  /** Segments that are already trimmed come out joined by exactly one space:
      stripping only removes the blanks a segment itself carries at the ends. */
  lemma TranscriptOfTrimmedSegments(texts: seq<string>)
    requires |texts| > 0 && forall k :: 0 <= k < |texts| ==> Trimmed(texts[k])
    ensures Transcript(texts) == Join(texts, " ")
  {
    JoinEnds(texts, " ");
    StripTrimmed(Join(texts, " "));
  }

  /** Another segment extends the joined segments by a space and its own
      text: when the first and the new segment carry no padding, nothing is
      stripped from the result. */
  lemma TranscriptAppends(texts: seq<string>, last: string)
    requires |texts| > 0 && Trimmed(texts[0]) && Trimmed(last)
    ensures Transcript(texts + [last]) == Join(texts, " ") + " " + last
  {
    JoinSnoc(texts, last, " ");
    var j := Join(texts, " ") + " " + last;
    JoinEnds(texts, " ");
    assert j[0] == texts[0][0];
    assert j[|j| - 1] == last[|last| - 1];
    StripTrimmed(j);
  }

  /** The saved transcript of unpadded segments holds their characters plus
      one space between neighbours, and its file takes their UTF-8 bytes plus
      one byte per space. */
  lemma SavedTranscriptSize(texts: seq<string>)
    requires |texts| > 0 && forall k :: 0 <= k < |texts| ==> Trimmed(texts[k])
    ensures |Transcript(texts)| == TotalLength(texts) + |texts| - 1
    ensures FileSize(Chars(Transcript(texts))) == Utf8Total(texts) + |texts| - 1
  {
    TranscriptOfTrimmedSegments(texts);
    JoinLength(texts, " ");
    JoinUtf8Length(texts);
  }

  /** A transcript has no whitespace at either end. */
  lemma TranscriptHasNoPadding(texts: seq<string>)
    ensures var t := Transcript(texts); t == [] || (!IsSpace(t[0]) && !IsSpace(t[|t| - 1]))
  {
    StripEnds(Join(texts, " "));
  }

  /** The start of the file name within a path: just after its last '/'. */
  function NameStart(p: string): (i: nat)
    ensures i <= |p|
    ensures forall k :: i <= k < |p| ==> p[k] != '/'
    ensures i > 0 ==> p[i - 1] == '/'
  {
    match LastIndexOf(p, '/')
    case None => 0
    case Some(j) => j + 1
  }

  /** The file name starts right after the directory part and its '/', and at
      the start of a path that has no directory part. */
  lemma NameFollowsParent(p: string)
    ensures (exists k :: 0 <= k < |p| && p[k] == '/') ==> NameStart(p) == |Parent(p)| + 1
    ensures (forall k :: 0 <= k < |p| ==> p[k] != '/') ==> NameStart(p) == 0 && Parent(p) == ""
  {
  }

  /** Some character in p[lo..hi] is not a dot. */
  predicate HasNonDot(p: string, lo: nat, hi: nat)
    requires lo <= hi <= |p|
  {
    exists k :: lo <= k < hi && p[k] != '.'
  }

  /** `os.path.splitext` on POSIX: the extension runs from the last '.' of the
      file name to the end, unless everything before that dot in the file name
      is dots (a hidden file like ".wav" has no extension). */
  function SplitExt(p: string): (r: (string, string))
    ensures r.0 + r.1 == p
    ensures r.1 == [] || r.1[0] == '.'
    ensures forall k :: 0 < k < |r.1| ==> r.1[k] != '.' && r.1[k] != '/'
    ensures r.1 != [] <==> exists i, j :: NameStart(p) <= i < j < |p| && p[i] != '.' && p[j] == '.'
  {
    var start := NameStart(p);
    match LastIndexOf(p, '.')
    case None => (p, "")
    case Some(dot) =>
      if start <= dot && HasNonDot(p, start, dot) then
        assert p[..dot] + p[dot..] == p;
        (p[..dot], p[dot..])
      else
        assert forall i, j :: start <= i < j < |p| && p[i] != '.' && p[j] == '.' ==>
          j <= dot && HasNonDot(p, start, dot);
        (p, "")
  }

  /** The `.txt` file that goes with an audio file: its extension replaced. */
  function TxtPath(audioPath: string): string {
    SplitExt(audioPath).0 + ".txt"
  }

  /** `splitext` takes apart what was put together: a stem whose file name
      is not only dots, then one '.' and characters that are neither '.' nor
      '/', splits into that stem and that extension. */
  lemma SplitExtRecovers(stem: string, ext: string)
    requires |ext| > 0 && ext[0] == '.'
    requires forall k :: 0 < k < |ext| ==> ext[k] != '.' && ext[k] != '/'
    requires HasNonDot(stem, NameStart(stem), |stem|)
    ensures SplitExt(stem + ext) == (stem, ext)
  {
    var p := stem + ext;
    var n := |stem|;
    assert forall k :: 0 <= k < n ==> p[k] == stem[k];
    assert forall k :: n < k < |p| ==> p[k] == ext[k - n];
    assert p[n] == '.' && forall k :: n < k < |p| ==> p[k] != '.' && p[k] != '/';
    assert LastIndexOf(p, '.') == Some(n);
    assert NameStart(p) == NameStart(stem);
    var k :| NameStart(stem) <= k < n && stem[k] != '.';
    assert p[k] != '.';
    assert p[..n] == stem;
  }

  /** The derived path replaces the audio file's extension with ".txt", as in
      "recordings/answer.wav" becoming "recordings/answer.txt". */
  lemma TxtPathReplacesExtension(stem: string, ext: string)
    requires |ext| > 0 && ext[0] == '.'
    requires forall k :: 0 < k < |ext| ==> ext[k] != '.' && ext[k] != '/'
    requires HasNonDot(stem, NameStart(stem), |stem|)
    ensures TxtPath(stem + ext) == stem + ".txt"
  {
    SplitExtRecovers(stem, ext);
  }

  /** Splitting the derived path gives back the audio file's stem and ".txt",
      provided the stem's file name is not only dots. */
  lemma TxtPathSplits(audioPath: string)
    requires var base := SplitExt(audioPath).0;
      HasNonDot(base, NameStart(base), |base|)
    ensures SplitExt(TxtPath(audioPath)) == (SplitExt(audioPath).0, ".txt")
  {
    SplitExtRecovers(SplitExt(audioPath).0, ".txt");
  }

  /** Where the transcript is written: nowhere when saving is off, else the
      given path, else the audio path with a ".txt" extension. */
  function OutPath(audioPath: string, saveTxt: bool, txtPath: Option<string>): (out: Option<string>)
    ensures out.Some? <==> saveTxt
    ensures saveTxt && txtPath.Some? ==> out == txtPath
    ensures saveTxt && txtPath.None? ==> out == Some(TxtPath(audioPath))
  {
    if !saveTxt then None
    else if txtPath.None? then Some(TxtPath(audioPath))
    else txtPath
  }

  /** The speech recogniser: the segment texts it yields for an audio path,
      and the log of the paths it was asked to transcribe. */
  class SpeechModel {
    const segmentsFor: string -> seq<string>
    var requests: seq<string>

    constructor (segmentsFor: string -> seq<string>)
      ensures this.segmentsFor == segmentsFor && requests == []
    {
      this.segmentsFor := segmentsFor;
      requests := [];
    }

    /** `model.transcribe(audio_path)`, reduced to the texts of its segments. */
    method Transcribe(audioPath: string) returns (texts: seq<string>)
      modifies this
      ensures requests == old(requests) + [audioPath]
      ensures texts == segmentsFor(audioPath)
    {
      requests := requests + [audioPath];
      texts := segmentsFor(audioPath);
    }
  }

  class Transcriber {
    const model: SpeechModel

    constructor (model: SpeechModel)
      ensures this.model == model
    {
      this.model := model;
    }

    /** `transcribe_file`: the transcript and the path it was saved to, if any. */
    method TranscribeFile(fs: FileSystem, audioPath: string, saveTxt: bool, txtPath: Option<string>)
      returns (r: Result<(string, Option<string>), Fault>)
      requires fs.Valid()
      modifies fs, model
      ensures fs.Valid() && fs.dirs == old(fs.dirs)
      ensures !old(fs.Exists(audioPath)) ==>
        && r == Failure(NoSuchFile(audioPath))
        && model.requests == old(model.requests)
        && fs.files == old(fs.files)
      ensures old(fs.Exists(audioPath)) ==> model.requests == old(model.requests) + [audioPath]
      ensures old(fs.Exists(audioPath)) ==>
        var text := Transcript(model.segmentsFor(audioPath));
        match OutPath(audioPath, saveTxt, txtPath)
        case None => r == Success((text, None)) && fs.files == old(fs.files)
        case Some(out) =>
          if Writable(old(fs.dirs), out) then
            r == Success((text, Some(out))) && fs.files == old(fs.files)[out := Chars(text)]
          else
            r == Failure(WriteFault(old(fs.dirs), out)) && fs.files == old(fs.files)
    {
      if !fs.Exists(audioPath) {
        return Failure(NoSuchFile(audioPath));
      }

      var texts := model.Transcribe(audioPath);
      var transcriptText := Transcript(texts);

      var outPath: Option<string> := None;
      if saveTxt {
        var path := txtPath;
        if path.None? {
          var (base, _) := SplitExt(audioPath);
          path := Some(base + ".txt");
        }
        var wrote := fs.WriteFile(path.value, Chars(transcriptText));
        if wrote.Failure? {
          return Failure(wrote.error);
        }
        outPath := path;
      }
      return Success((transcriptText, outPath));
    }
  }
}
