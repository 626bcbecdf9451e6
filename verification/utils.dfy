/** Backend upload and response rules (backend/modules/utils.py): the
    extension whitelists, the ordered validation of an uploaded file, the
    shape of an error reply, translation of emotion labels and the
    shape of a stored file name. */
module Utils {
  import opened Common

  const AudioExtensions: set<string> := {"wav", "mp3", "flac"}
  const VideoExtensions: set<string> := {"mp4", "avi", "mov", "mkv"}

  const AudioMimes: set<string> :=
    {"audio/wav", "audio/x-wav", "audio/mpeg", "audio/mp3", "audio/flac", "audio/x-flac"}
  const VideoMimes: set<string> :=
    {"video/mp4", "video/avi", "video/quicktime", "video/x-msvideo", "video/x-matroska"}

  const MiB: nat := 1024 * 1024
  const MaxAudioSize: nat := 16 * MiB
  const MaxVideoSize: nat := 32 * MiB

  // ---------------------------------------------------------------------
  // Replies

  /** What a request handler hands back to Flask: a 200 JSON body carrying
      the payload, or a JSON body `{success: false, error}` with a status. */
  datatype Reply<+T> = Success(payload: T) | Failure(status: int, error: string)

  const InternalError := "服务器内部错误"

  /** `error_response(message, status_code=400)`: never a success; a server
      error (status 500 and up) hides the message behind a generic one. */
  function ErrorResponse<T>(message: string, status: int := 400): (r: Reply<T>)
    ensures r.Failure? && r.status == status
    ensures status >= 500 ==> r.error == InternalError
    ensures status < 500 ==> r.error == message
  {
    if status >= 500 then Failure(status, InternalError) else Failure(status, message)
  }

  // ---------------------------------------------------------------------
  // Extensions

  /** `k` is the position of the last '.' in `name`. */
  predicate IsLastDot(name: string, k: int)
  {
    0 <= k < |name| && name[k] == '.' && forall j :: k < j < |name| ==> name[j] != '.'
  }

  /** `name.rsplit(".", 1)[1].lower()` when `name` has a '.'. */
  function Extension(name: string): (r: Option<string>)
    ensures r.None? <==> '.' !in name
    ensures r.Some? ==> exists k :: IsLastDot(name, k) && r.value == ToLower(name[k + 1..])
  {
    match LastIndexOf(name, '.')
    case None => None
    case Some(k) =>
      assert IsLastDot(name, k);
      Some(ToLower(name[k + 1..]))
  }

  /** The extension check shared by both whitelists. */
  predicate HasExtensionIn(name: string, allowed: set<string>)
  {
    Extension(name).Some? && Extension(name).value in allowed
  }

  /** `allowed_file`: the name has a '.', and the text after its last '.',
      lower-cased, is wav, mp3 or flac. */
  function AllowedFile(name: string): (b: bool)
    ensures b <==> exists k :: IsLastDot(name, k) && ToLower(name[k + 1..]) in AudioExtensions
  {
    LastDotUnique(name);
    HasExtensionIn(name, AudioExtensions)
  }

  /** `allowed_video_file`: the same rule with mp4, avi, mov and mkv. */
  function AllowedVideoFile(name: string): (b: bool)
    ensures b <==> exists k :: IsLastDot(name, k) && ToLower(name[k + 1..]) in VideoExtensions
  {
    LastDotUnique(name);
    HasExtensionIn(name, VideoExtensions)
  }

  lemma LastDotUnique(name: string)
    ensures forall k, k' :: IsLastDot(name, k) && IsLastDot(name, k') ==> k == k'
    ensures forall k :: IsLastDot(name, k) ==> Extension(name) == Some(ToLower(name[k + 1..]))
  {
  }

  /** No file name passes both the audio and the video whitelist. */
  lemma AudioAndVideoExclusive(name: string)
    ensures !(AllowedFile(name) && AllowedVideoFile(name))
  {
  }

  /** Reading a name's extension off a known last '.'. */
  lemma ExtensionAt(name: string, k: nat)
    requires IsLastDot(name, k)
    ensures AllowedFile(name) <==> ToLower(name[k + 1..]) in AudioExtensions
    ensures AllowedVideoFile(name) <==> ToLower(name[k + 1..]) in VideoExtensions
  {
    LastDotUnique(name);
  }

  /** The extension of a name whose last '.' is at `k`, when the text after
      it lower-cases to `ext`. */
  lemma ExtensionIs(name: string, k: nat, ext: string)
    requires k < |name| && name[k] == '.' && '.' !in name[k + 1..]
    requires ToLower(name[k + 1..]) == ext
    ensures AllowedFile(name) <==> ext in AudioExtensions
    ensures AllowedVideoFile(name) <==> ext in VideoExtensions
  {
    assert forall j :: k < j < |name| ==> name[j] == name[k + 1..][j - k - 1];
    ExtensionAt(name, k);
  }

  /** The extension test ignores case ... */
  lemma AllowedFileIgnoresCase()
    ensures AllowedFile("test.mp3") && AllowedFile("a.MP3")
  {
    LowerMp3();
    assert "test.mp3"[5..] == "mp3";
    ExtensionIs("test.mp3", 4, "mp3");
    assert "a.MP3"[2..] == "MP3";
    ExtensionIs("a.MP3", 1, "mp3");
  }

  lemma LowerMp3()
    ensures ToLower("mp3") == "mp3" && ToLower("MP3") == "mp3"
  {
    assert LowerChar('M') == 'm' && LowerChar('P') == 'p';
  }

  /** ... looks only at the final extension, and finds none without a '.'. */
  lemma AllowedFileNeedsFinalExtension()
    ensures !AllowedFile("a.mp3.txt") && !AllowedFile("test")
  {
    assert ToLower("txt") == "txt";
    assert "a.mp3.txt"[6..] == "txt";
    ExtensionIs("a.mp3.txt", 5, "txt");
    assert '.' !in "test";
  }

  /** The video whitelist ignores case too ... */
  lemma AllowedVideoFileIgnoresCase()
    ensures AllowedVideoFile("clip.MOV")
  {
    assert LowerChar('M') == 'm' && LowerChar('O') == 'o' && LowerChar('V') == 'v';
    assert ToLower("MOV") == "mov";
    assert "clip.MOV"[5..] == "MOV";
    ExtensionIs("clip.MOV", 4, "mov");
  }

  /** ... and refuses an audio extension. */
  lemma AllowedVideoFileRefusesAudio()
    ensures !AllowedVideoFile("test.mp3")
  {
    LowerMp3();
    assert "test.mp3"[5..] == "mp3";
    ExtensionIs("test.mp3", 4, "mp3");
  }

  // ---------------------------------------------------------------------
  // Validation of an uploaded file

  /** What libmagic reports for the first 2048 bytes, or that it failed. */
  datatype MimeProbe = Sniffed(mime: string) | SniffFailed

  /** An uploaded file as the validators see it: its client-supplied name,
      its size in bytes and the outcome of content sniffing. */
  datatype Upload = Upload(filename: string, size: nat, probe: MimeProbe)

  /** A validator's answer: `(True, "")`, `(False, message)`, or an
      exception that escapes the validator. */
  datatype Verdict = Accepted | Rejected(message: string) | Raised

  /** `check_file_size`: the limit itself is allowed. */
  function CheckFileSize(size: nat, maxSize: nat): (ok: bool)
    ensures ok <==> size <= maxSize
  {
    size <= maxSize
  }

  const AudioTypeMessage := "不支持的文件类型"
  const AudioSizeMessage := "文件大小超过限制"
  const AudioMimeMessage := "文件内容类型不匹配"

  /** `validate_audio_file`: extension, then size, then sniffed type; the
      first failing check's message is returned. A sniffing failure is not
      caught here and escapes to the caller. */
  function ValidateAudioFile(f: Upload): (v: Verdict)
    ensures v == Accepted <==>
      AllowedFile(f.filename) && f.size <= MaxAudioSize && f.probe.Sniffed? && f.probe.mime in AudioMimes
    ensures !AllowedFile(f.filename) ==> v == Rejected(AudioTypeMessage)
    ensures AllowedFile(f.filename) && f.size > MaxAudioSize ==> v == Rejected(AudioSizeMessage)
    ensures v == Raised <==> AllowedFile(f.filename) && f.size <= MaxAudioSize && f.probe.SniffFailed?
    ensures AllowedFile(f.filename) && f.size <= MaxAudioSize && f.probe.Sniffed? && f.probe.mime !in AudioMimes ==>
      v == Rejected(AudioMimeMessage)
  {
    if !AllowedFile(f.filename) then Rejected(AudioTypeMessage)
    else if !CheckFileSize(f.size, MaxAudioSize) then Rejected(AudioSizeMessage)
    else match f.probe
      case SniffFailed => Raised
      case Sniffed(m) => if m !in AudioMimes then Rejected(AudioMimeMessage) else Accepted
  }

  const VideoTypeMessage := "不支持的文件类型，请上传MP4、AVI、MOV或MKV格式的视频"
  /** The limit is printed from `MAX_VIDEO_SIZE/(1024*1024)`, a float: "32.0". */
  const VideoSizeMessage := "文件大小超过限制，最大允许32.0MB"
  const VideoMimeMessage := "文件内容类型不匹配，请确保上传的是有效的视频文件"
  const VideoProbeMessage := "无法验证文件类型，请确保上传的是有效的视频文件"

  /** `validate_video_file`: the same order as the audio validator with the
      video lists and a 32 MiB limit; a sniffing failure is caught and
      reported, so nothing escapes. */
  function ValidateVideoFile(f: Upload): (v: Verdict)
    ensures v != Raised
    ensures v == Accepted <==>
      AllowedVideoFile(f.filename) && f.size <= MaxVideoSize && f.probe.Sniffed? && f.probe.mime in VideoMimes
    ensures !AllowedVideoFile(f.filename) ==> v == Rejected(VideoTypeMessage)
    ensures AllowedVideoFile(f.filename) && f.size > MaxVideoSize ==> v == Rejected(VideoSizeMessage)
    ensures AllowedVideoFile(f.filename) && f.size <= MaxVideoSize && f.probe.SniffFailed? ==>
      v == Rejected(VideoProbeMessage)
    ensures AllowedVideoFile(f.filename) && f.size <= MaxVideoSize && f.probe.Sniffed? && f.probe.mime !in VideoMimes ==>
      v == Rejected(VideoMimeMessage)
  {
    if !AllowedVideoFile(f.filename) then Rejected(VideoTypeMessage)
    else if f.size > MaxVideoSize then Rejected(VideoSizeMessage)
    else match f.probe
      case SniffFailed => Rejected(VideoProbeMessage)
      case Sniffed(m) => if m !in VideoMimes then Rejected(VideoMimeMessage) else Accepted
  }

  /** A video of exactly 32 MiB with a good name and type passes; one byte
      more is refused for its size. */
  lemma VideoSizeBoundary(name: string, mime: string)
    requires AllowedVideoFile(name) && mime in VideoMimes
    ensures ValidateVideoFile(Upload(name, MaxVideoSize, Sniffed(mime))) == Accepted
    ensures ValidateVideoFile(Upload(name, MaxVideoSize + 1, Sniffed(mime))) == Rejected(VideoSizeMessage)
  {
  }

  // ---------------------------------------------------------------------
  // Labels

  const EmotionNames: map<string, string> := map[
    "angry" := "愤怒", "disgust" := "厌恶", "fear" := "恐惧", "happy" := "快乐",
    "sad" := "悲伤", "surprise" := "惊讶", "neutral" := "中性"]

  /** `emotion_to_chinese`: the lower-cased label is looked up among the
      seven; an unknown label comes back exactly as given, case included. */
  function EmotionToChinese(emotion: string): (r: string)
    ensures ToLower(emotion) in EmotionNames ==> r == EmotionNames[ToLower(emotion)]
    ensures ToLower(emotion) !in EmotionNames ==> r == emotion
  {
    var key := ToLower(emotion);
    if key in EmotionNames then EmotionNames[key] else emotion
  }

  /** The translations the backend's unit tests expect, and case folding
      applying to the lookup only. */
  lemma EmotionToChineseExamples()
    ensures EmotionToChinese("happy") == "快乐" && EmotionToChinese("sad") == "悲伤"
    ensures EmotionToChinese("angry") == "愤怒" && EmotionToChinese("neutral") == "中性"
    ensures EmotionToChinese("unknown") == "unknown"
    ensures EmotionToChinese("HAPPY") == "快乐" && EmotionToChinese("Unknown") == "Unknown"
  {
    assert ToLower("happy") == "happy";
    assert ToLower("sad") == "sad";
    assert ToLower("angry") == "angry";
    assert ToLower("neutral") == "neutral";
    assert ToLower("unknown") == "unknown";
    assert ToLower("HAPPY") == "happy";
    assert ToLower("Unknown") == "unknown";
  }

  // ---------------------------------------------------------------------
  // Stored file names

  /** `os.path.splitext` on a POSIX path: the extension starts at the last
      '.' after the last '/', provided some non-'.' character precedes it in
      that last component; otherwise the extension is empty. */
  function SplitExt(p: string): (r: (string, string))
    ensures r.0 + r.1 == p
    ensures r.1 == [] || (r.1[0] == '.' && '.' !in r.1[1..] && '/' !in r.1)
  {
    var sep: int := match LastIndexOf(p, '/') case Some(k) => k case None => -1;
    match LastIndexOf(p, '.')
    case None => (p, [])
    case Some(dot) =>
      if dot > sep && exists i :: sep + 1 <= i < dot && p[i] != '.' then
        assert p[..dot] + p[dot..] == p;
        assert forall j :: 0 <= j < |p[dot..]| - 1 ==> p[dot..][1..][j] == p[dot + 1 + j];
        (p[..dot], p[dot..])
      else (p, [])
  }

  lemma SplitExtExamples()
    ensures SplitExt("test.mp3") == ("test", ".mp3")
    ensures SplitExt(".bashrc") == (".bashrc", "")
    ensures SplitExt("archive") == ("archive", "")
  {
    SplitTestMp3();
    SplitBashrc();
    assert '.' !in "archive";
  }

  lemma SplitTestMp3()
    ensures SplitExt("test.mp3") == ("test", ".mp3")
  {
    SplitsAt("test.mp3", 4);
    assert "test.mp3"[..4] == "test" && "test.mp3"[4..] == ".mp3";
  }

  lemma SplitBashrc()
    ensures SplitExt(".bashrc") == (".bashrc", "")
  {
    assert ".bashrc"[0] == '.' && '.' !in ".bashrc"[1..] && '/' !in ".bashrc";
    LeadingDotOnly(".bashrc");
  }

  /** A name without '/' splits at its last '.' when some other character
      precedes that dot. */
  lemma SplitsAt(p: string, dot: nat)
    requires '/' !in p && dot < |p| && p[dot] == '.' && '.' !in p[dot + 1..]
    requires 0 < dot && p[0] != '.'
    ensures SplitExt(p) == (p[..dot], p[dot..])
  {
    assert forall j :: dot < j < |p| ==> p[j] == p[dot + 1..][j - dot - 1];
    assert LastIndexOf(p, '.') == Some(dot);
  }

  /** A name whose only '.' leads it has no extension. */
  lemma LeadingDotOnly(p: string)
    requires '/' !in p && |p| > 0 && p[0] == '.' && '.' !in p[1..]
    ensures SplitExt(p) == (p, [])
  {
    assert forall j :: 0 < j < |p| ==> p[j] == p[1..][j - 1];
    assert LastIndexOf(p, '.') == Some(0);
  }

  /** `safe_filename(filename)`, given what werkzeug's `secure_filename`
      made of the name and the first eight characters of a fresh uuid4:
      the prefix alone when nothing survived sanitising, otherwise
      prefix, '_' and the sanitised name, which stem plus extension
      reassemble exactly. */
  function SafeFilename(secured: string, prefix: string): (r: string)
    requires |prefix| == 8
    ensures secured == [] ==> r == prefix
    ensures secured != [] ==> r == prefix + "_" + secured
    ensures |r| >= 8 && r[..8] == prefix
  {
    if secured == [] then prefix
    else
      var (name, ext) := SplitExt(secured);
      prefix + "_" + name + ext
  }

  /** The shapes the backend's unit tests check: "test.mp3" ends in
      "_test.mp3" behind an eight-character prefix, and an empty name
      yields just the prefix. */
  lemma SafeFilenameExamples(prefix: string)
    requires |prefix| == 8 && '_' !in prefix
    ensures var r := SafeFilename("test.mp3", prefix);
            r[|r| - 9..] == "_test.mp3" && FirstIndexOf(r, '_') == Some(8)
    ensures |SafeFilename("", prefix)| == 8
  {
    SplitTestMp3();
    var r := SafeFilename("test.mp3", prefix);
    assert r == prefix + "_test.mp3";
    assert r[8] == '_';
    assert forall j :: 0 <= j < 8 ==> r[j] == prefix[j];
  }

  // ---------------------------------------------------------------------
  // Script conversion

  /** `traditional_to_simplified`: empty text is returned as is; otherwise
      OpenCC's conversion when the library is available, else the text. */
  function TraditionalToSimplified(text: string, openccAvailable: bool, convert: string -> string): (r: string)
    ensures text == [] ==> r == text
    ensures !openccAvailable ==> r == text
    ensures text != [] && openccAvailable ==> r == convert(text)
  {
    if text == [] then text
    else if openccAvailable then convert(text)
    else text
  }
}
