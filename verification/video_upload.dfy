/** The video form of the client (frontend-mui/src/components/VideoInput.new.js):
    choosing a file, with its type and size checks, and uploading it, with
    every way the request can end. The request's progress events and the
    browser objects are left out; a reply is reduced to its status and what
    `JSON.parse` makes of its text. */
module VideoUpload {
  import opened Common
  import Utils

  /** The chosen file as the browser describes it. */
  datatype VideoFile = VideoFile(name: string, mime: string, size: nat)

  /** A parsed JSON body: `success` and the `error` field when it is a
      non-empty string (`None` stands for any falsy value). */
  datatype Body = Body(success: bool, error: Option<string>)

  /** The component's own state (`videoFile`, `uploading`) together with the
      parent's error and result that it sets. */
  datatype Form = Form(file: Option<VideoFile>, uploading: bool, error: Option<string>, result: Option<Body>)

  /** The types the file picker lets through. */
  const ClientMimes: set<string> := {"video/mp4", "video/quicktime", "video/x-msvideo", "video/x-matroska"}

  /** `maxSize`: 32 MB. */
  const MaxSize: nat := 32 * 1024 * 1024

  /** Both checks match the backend's: every type accepted here is one the
      backend sniffs as a video, and the size limit is the same. */
  lemma ClientChecksMatchBackend()
    ensures ClientMimes <= Utils.VideoMimes
    ensures "video/avi" in Utils.VideoMimes - ClientMimes
    ensures MaxSize == Utils.MaxVideoSize
  {
  }

  // ---------------------------------------------------------------------
  // Choosing a file

  /** The file size in MB with two decimals, as `toFixed(2)` shows it:
      whole megabytes without a leading zero, a dot and two digits, reading
      back as the hundredths nearest to size / 2^20, a tie going up. */
  function SizeText(size: nat): (r: string)
    ensures |r| >= 4 && r[|r| - 3] == '.'
    ensures forall i :: 0 <= i < |r| && i != |r| - 3 ==> IsDigit(r[i])
    ensures DigitsValue(r[..|r| - 3]) * 100 + DigitsValue(r[|r| - 2..]) == Hundredths(size)
    ensures r[0] == '0' ==> |r| == 4
  {
    var c := Hundredths(size);
    var whole := NatToString(c / 100);
    var cents := TwoDigits(c % 100);
    var r := whole + "." + cents;
    assert r[..|r| - 3] == whole;
    assert r[|r| - 2..] == cents;
    TwoDigitsValue(c % 100);
    r
  }

  /** A whole number of MiB is shown as that number and ".00". */
  lemma SizeTextOfWholeMiB(n: nat)
    ensures SizeText(n * MiBytes) == NatToString(n) + ".00"
  {
    var c := Hundredths(n * MiBytes);
    HundredthsOfWholeMiB(n);
    assert c / 100 == n && c % 100 == 0;
    assert TwoDigits(0) == "00";
  }

  lemma HundredthsOfWholeMiB(n: nat)
    ensures Hundredths(n * MiBytes) == 100 * n
  {
    var c := Hundredths(n * MiBytes);
    var a := 100 * n;
    assert n * MiBytes * 100 == a * MiBytes;
    assert c * MiBytes < (a + 1) * MiBytes;
    assert a * MiBytes < (c + 1) * MiBytes;
  }

  lemma TwoDigitsValue(n: nat)
    requires n < 100
    ensures DigitsValue(TwoDigits(n)) == n
  {
    var t := TwoDigits(n);
    var a := t[0] as int - '0' as int;
    var b := t[1] as int - '0' as int;
    assert t[..1][..0] == [];
    assert DigitsValue(t[..1]) == a;
    assert t[..|t| - 1] == t[..1];
    assert DigitsValue(t) == DigitsValue(t[..1]) * 10 + b;
  }

  /** The number of hundredths of a MB nearest to `size` bytes. */
  function Hundredths(size: nat): (c: nat)
    ensures c * MiBytes <= size * 100 + MiBytes / 2 < (c + 1) * MiBytes
  {
    (size * 100 + MiBytes / 2) / MiBytes
  }

  const MiBytes: nat := 1024 * 1024

  function TwoDigits(n: nat): (r: string)
    requires n < 100
    ensures |r| == 2 && '0' <= r[0] <= '9' && '0' <= r[1] <= '9'
    ensures (r[0] as int - '0' as int) * 10 + (r[1] as int - '0' as int) == n
  {
    [(('0' as int) + n / 10) as char, (('0' as int) + n % 10) as char]
  }

  function TypeMessage(mime: string): string
  {
    "不支持的文件类型: " + mime + "。请上传MP4、MOV、AVI或MKV格式的视频。"
  }

  function SizeMessage(size: nat): string
  {
    "文件过大，最大允许32MB。当前文件大小: " + SizeText(size) + "MB"
  }

  /** `handleFileChange`: nothing happens when no file was picked; a wrong
      type or an oversized file sets the error and keeps the previous
      choice; otherwise the file is chosen and the error cleared. */
  function ChooseFile(f: Form, picked: Option<VideoFile>): (r: Form)
    ensures picked.None? ==> r == f
    ensures r.uploading == f.uploading && r.result == f.result
    ensures r.file != f.file ==> picked.Some? && r.file == picked
    ensures picked.Some? ==>
      (r.file == picked <==> picked.value.mime in ClientMimes && picked.value.size <= MaxSize)
      || (f.file == picked)
    ensures picked.Some? && picked.value.mime !in ClientMimes ==>
      r == f.(error := Some(TypeMessage(picked.value.mime)))
    ensures picked.Some? && picked.value.mime in ClientMimes && picked.value.size > MaxSize ==>
      r == f.(error := Some(SizeMessage(picked.value.size)))
    ensures picked.Some? && picked.value.mime in ClientMimes && picked.value.size <= MaxSize ==>
      r == f.(file := picked, error := None)
  {
    match picked
    case None => f
    case Some(v) =>
      if v.mime !in ClientMimes then f.(error := Some(TypeMessage(v.mime)))
      else if v.size > MaxSize then f.(error := Some(SizeMessage(v.size)))
      else f.(file := picked, error := None)
  }

  /** A file one byte over the limit is refused, yet the message shows its
      size rounded to "32.00" MB. */
  lemma JustOverLimitReadsAsLimit(f: Form, name: string)
    ensures ChooseFile(f, Some(VideoFile(name, "video/mp4", MaxSize + 1))).error
      == Some("文件过大，最大允许32MB。当前文件大小: 32.00MB")
  {
    assert Hundredths(MaxSize + 1) == 3200;
    assert NatToString(3) == "3";
    assert NatToString(32) == "32";
    assert TwoDigits(0) == "00";
    assert SizeText(MaxSize + 1) == "32.00";
    assert SizeMessage(MaxSize + 1) == "文件过大，最大允许32MB。当前文件大小: " + "32.00" + "MB";
    assert "文件过大，最大允许32MB。当前文件大小: " + "32.00" + "MB" == "文件过大，最大允许32MB。当前文件大小: 32.00MB";
    assert "video/mp4" in ClientMimes;
  }

  /** A file the form accepts passes the backend's checks too, when its
      name has a video extension and sniffing agrees with the browser. */
  lemma ChosenFilePassesBackend(f: Form, v: VideoFile)
    requires ChooseFile(f, Some(v)).file == Some(v) && f.file != Some(v)
    requires Utils.AllowedVideoFile(v.name)
    ensures Utils.ValidateVideoFile(Utils.Upload(v.name, v.size, Utils.Sniffed(v.mime))) == Utils.Accepted
  {
    ClientChecksMatchBackend();
  }

  // ---------------------------------------------------------------------
  // Uploading

  /** How the request ends: the error handler fires, or a reply arrives
      with a status and a text that `JSON.parse` reads as a body or not. */
  datatype Xhr = XhrError | Loaded(status: nat, parsed: Option<Body>)

  const NoFileMessage := "请先选择视频文件"
  const NotLoadedMessage := "模型尚未加载完成，请稍后再试"
  const UploadErrorMessage := "上传视频时出错，请重试"
  const UnreadableMessage := "处理服务器响应时出错，请稍后再试"
  const FailedMessage := "视频分析失败"
  /** A non-200 reply's message starts with the status; without a JSON
      body it also suggests checking the connection. */
  const ServerErrorPrefix := "服务器错误: "
  const NetworkHint := "，请检查网络连接或稍后再试"

  /** The upload button is enabled with a file chosen, no upload under way
      and the model loaded. */
  function UploadEnabled(f: Form, modelLoaded: bool): (b: bool)
    ensures b ==> f.file.Some? && modelLoaded
    ensures b <==> f.file.Some? && !f.uploading && modelLoaded
  {
    f.file.Some? && !f.uploading && modelLoaded
  }

  /** `handleUpload` through to the end of the request. */
  function Upload(f: Form, modelLoaded: bool, xhr: Xhr): (r: Form)
    ensures r.file == f.file
    ensures f.file.None? ==> r == f.(error := Some(NoFileMessage))
    ensures f.file.Some? && !modelLoaded ==> r == f.(error := Some(NotLoadedMessage))
    ensures f.file.Some? && modelLoaded ==> !r.uploading
    ensures r.result != f.result ==>
      (f.file.Some? && modelLoaded && xhr.Loaded? && xhr.status == 200
       && xhr.parsed.Some? && xhr.parsed.value.success && r.result == xhr.parsed)
    ensures f.file.Some? && modelLoaded && xhr.Loaded? && xhr.status == 200
            && xhr.parsed.Some? && xhr.parsed.value.success ==>
      r == f.(uploading := false, result := xhr.parsed)
    ensures f.file.Some? && modelLoaded
            && !(xhr.Loaded? && xhr.status == 200 && xhr.parsed.Some? && xhr.parsed.value.success) ==>
      r.error.Some? && r.result == f.result
    ensures f.file.Some? && modelLoaded && xhr.XhrError? ==> r.error == Some(UploadErrorMessage)
    ensures f.file.Some? && modelLoaded && xhr == Loaded(200, None) ==> r.error == Some(UnreadableMessage)
    ensures f.file.Some? && modelLoaded && xhr.Loaded? && xhr.status == 200
            && xhr.parsed.Some? && !xhr.parsed.value.success ==>
      r.error == Some(xhr.parsed.value.error.GetOr(FailedMessage))
    ensures f.file.Some? && modelLoaded && xhr.Loaded? && xhr.status != 200
            && xhr.parsed.Some? && xhr.parsed.value.error.Some? ==>
      r.error == xhr.parsed.value.error
    ensures f.file.Some? && modelLoaded && xhr.Loaded? && xhr.status != 200
            && xhr.parsed.Some? && xhr.parsed.value.error.None? ==>
      r.error == Some(ServerErrorPrefix + NatToString(xhr.status))
    ensures f.file.Some? && modelLoaded && xhr.Loaded? && xhr.status != 200 && xhr.parsed.None? ==>
      r.error == Some(ServerErrorPrefix + NatToString(xhr.status) + NetworkHint)
  {
    if f.file.None? then f.(error := Some(NoFileMessage))
    else if !modelLoaded then f.(error := Some(NotLoadedMessage))
    else
      var done := f.(uploading := false);
      match xhr
      case XhrError => done.(error := Some(UploadErrorMessage))
      case Loaded(status, parsed) =>
        if status == 200 then
          match parsed
          case None => done.(error := Some(UnreadableMessage))
          case Some(body) =>
            if body.success then done.(result := parsed)
            else done.(error := Some(body.error.GetOr(FailedMessage)))
        else
          match parsed
          case Some(body) => done.(error := Some(body.error.GetOr(ServerErrorPrefix + NatToString(status))))
          case None => done.(error := Some(ServerErrorPrefix + NatToString(status) + NetworkHint))
  }

  /** The JSON body a backend reply carries: `{success: true, ...}` or
      `{success: false, error}`. */
  function ReplyBody<T>(reply: Utils.Reply<T>): (b: Body)
    ensures b.success <==> reply.Success?
    ensures reply.Failure? && reply.error != [] ==> b.error == Some(reply.error)
  {
    match reply
    case Success(_) => Body(true, None)
    case Failure(_, error) => Body(false, if error == [] then None else Some(error))
  }

  /** The status a backend reply is sent with. */
  function ReplyStatus<T>(reply: Utils.Reply<T>): (s: nat)
    ensures reply.Success? ==> s == 200
    ensures reply.Failure? && reply.status >= 0 ==> s == reply.status
  {
    match reply
    case Success(_) => 200
    case Failure(status, _) => if status < 0 then 0 else status
  }

  /** Whatever the backend replies, an upload that starts shows its
      outcome: a success becomes the result, and a refusal with a message
      shows that message, whatever its status. */
  lemma BackendReplyIsShown<T>(f: Form, reply: Utils.Reply<T>)
    requires f.file.Some?
    requires reply.Failure? ==> reply.error != [] && reply.status >= 0
    ensures var r := Upload(f, true, Loaded(ReplyStatus(reply), Some(ReplyBody(reply))));
            !r.uploading
            && (reply.Success? ==> r.result == Some(Body(true, None)))
            && (reply.Failure? ==> r.error == Some(reply.error))
  {
  }
}
