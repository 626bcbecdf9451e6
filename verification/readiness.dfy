/** How the client learns whether the backend's models are ready
    (frontend-mui/src/App.js): `checkModelStatus` polling `/status`, the
    60-second loading timeout, the error banner's retry button and the status
    chip. Each step takes the client state and what a request produced and
    gives the new state and, for a poll, when the next one is scheduled. The
    30-second interval timer is left out. */
module Readiness {
  import opened Common
  import ModelLoader

  /** The truthiness of the three flag fields the client looks at in a JSON
      object: `model_loaded`, `loaded` and `loading`. */
  datatype Flags = Flags(modelLoaded: bool, loaded: bool, loading: bool)

  const NoFlags := Flags(false, false, false)

  /** A parsed `/status` body: the flags of its `status` member when that is
      an object, and the flags at the top level. */
  datatype StatusJson = StatusJson(nested: Option<Flags>, top: Flags)

  /** The body the backend sends: `{success: true, status: get_model_status()}`.
      Its top level has no flag fields. */
  function BackendBody(ms: ModelLoader.ModelStatus): (j: StatusJson)
    ensures j.top == NoFlags
    ensures j.nested == Some(Flags(false, ms.loaded, ms.loading))
  {
    StatusJson(Some(Flags(false, ms.loaded, ms.loading)), NoFlags)
  }

  /** The client's state: `modelLoaded`, `modelLoading`, the error banner and
      whether the loading timeout is armed. */
  datatype Ui = Ui(modelLoaded: bool, modelLoading: bool, error: Option<string>, timeoutArmed: bool)

  const Start := Ui(false, false, None, false)

  /** What `/ping` does when the status request has failed. */
  datatype Ping = PingOk | PingNotOk | PingRejected

  /** A status request either yields a JSON body or throws (fetch rejected
      or the body is not JSON), after which `/ping` is tried. */
  datatype Poll = Parsed(json: StatusJson) | Threw(ping: Ping)

  const ReachableMessage := "服务器可访问，但模型状态请求失败，将重试"
  const UnreachableMessage := "无法连接到服务器，请检查后端服务是否运行"
  const SlowLoadMessage := "模型加载时间过长，可能是第一次加载或服务器资源不足"
  const StillUnreachableMessage := "服务器仍然无法访问，请检查后端服务"

  /** Milliseconds before the next poll after a normal and a failed one. */
  const PollDelay: nat := 2000
  const FailureDelay: nat := 5000

  /** A poll's result: the new state and the delay of the poll it schedules,
      if any. */
  datatype Checked = Checked(ui: Ui, next: Option<nat>)

  /** `checkModelStatus`. A parsed body first disarms the timeout; then a
      loaded model clears the error and stops polling, a loading one arms
      the timeout and polls again in 2 s, and anything else polls again in
      2 s. A failed request sets an error according to `/ping` and polls
      again in 5 s. */
  function CheckStatus(u: Ui, poll: Poll): (c: Checked)
    ensures poll.Parsed? && poll.json.nested.Some? && poll.json.nested.value.loaded ==>
      c == Checked(Ui(true, false, None, false), None)
    ensures poll.Parsed? && !(poll.json.nested.Some? && poll.json.nested.value.loaded) ==>
      c.next == Some(PollDelay) && !c.ui.modelLoaded && c.ui.error == u.error
      && (c.ui.modelLoading <==> poll.json.nested.Some? && poll.json.nested.value.loading)
      && (c.ui.timeoutArmed <==> c.ui.modelLoading)
    ensures poll.Threw? ==>
      c.next == Some(FailureDelay)
      && c.ui.modelLoaded == u.modelLoaded && c.ui.modelLoading == u.modelLoading
      && c.ui.timeoutArmed == u.timeoutArmed
      && (poll.ping.PingNotOk? ==> c.ui.error == u.error)
      && (poll.ping.PingOk? ==> c.ui.error == Some(ReachableMessage))
      && (poll.ping.PingRejected? ==> c.ui.error == Some(UnreachableMessage))
  {
    match poll
    case Parsed(json) =>
      var v := u.(timeoutArmed := false);
      if json.nested.Some? && json.nested.value.loaded then
        Checked(v.(modelLoaded := true, modelLoading := false, error := None), None)
      else if json.nested.Some? && json.nested.value.loading then
        Checked(v.(modelLoaded := false, modelLoading := true, timeoutArmed := true), Some(PollDelay))
      else
        Checked(v.(modelLoaded := false, modelLoading := false), Some(PollDelay))
    case Threw(ping) =>
      var e := match ping
        case PingOk => Some(ReachableMessage)
        case PingNotOk => u.error
        case PingRejected => Some(UnreachableMessage);
      Checked(u.(error := e), Some(FailureDelay))
  }

  /** The loading timeout going off: the error is shown and the loading
      flag dropped. A disarmed timer does nothing. */
  function TimeoutFires(u: Ui): (v: Ui)
    ensures u.timeoutArmed ==> v == u.(error := Some(SlowLoadMessage), modelLoading := false, timeoutArmed := false)
    ensures !u.timeoutArmed ==> v == u
  {
    if u.timeoutArmed then u.(error := Some(SlowLoadMessage), modelLoading := false, timeoutArmed := false)
    else u
  }

  /** What the retry button's request yields: a JSON body, or a failure
      after which `/ping` either answers or is rejected too. */
  datatype RetryFetch = RetryParsed(json: StatusJson) | RetryFailed(pingRejected: bool)

  /** The flags the retry button reads, as written: the top level of the
      body. */
  function RetryFlags(j: StatusJson): (f: Flags)
    ensures f == j.top
  {
    j.top
  }

  /** The flags the retry button evidently means to read: the `status`
      member, as `checkModelStatus` does. */
  function RetryFlagsIntended(j: StatusJson): (f: Flags)
    ensures j.nested.Some? ==> f == j.nested.value
    ensures j.nested.None? ==> f == NoFlags
  {
    j.nested.GetOr(NoFlags)
  }

  /** The retry button given the flags it reads from a body: the error is
      cleared, then `model_loaded` or `loaded` marks the model loaded,
      `loading` marks it loading, and otherwise the flags stay. A failed
      request leaves the error cleared unless `/ping` fails too. */
  function RetryWith(u: Ui, fetch: RetryFetch, read: Flags): (v: Ui)
    ensures v.timeoutArmed == u.timeoutArmed
    ensures fetch.RetryParsed? ==> v.error == None
    ensures fetch.RetryParsed? && (read.modelLoaded || read.loaded) ==> v.modelLoaded && !v.modelLoading
    ensures fetch.RetryParsed? && !(read.modelLoaded || read.loaded) && read.loading ==>
      !v.modelLoaded && v.modelLoading
    ensures fetch.RetryParsed? && !(read.modelLoaded || read.loaded || read.loading) ==> v == u.(error := None)
    ensures fetch.RetryFailed? ==>
      v == u.(error := if fetch.pingRejected then Some(StillUnreachableMessage) else None)
  {
    var cleared := u.(error := None);
    match fetch
    case RetryParsed(_) =>
      if read.modelLoaded || read.loaded then cleared.(modelLoaded := true, modelLoading := false)
      else if read.loading then cleared.(modelLoaded := false, modelLoading := true)
      else cleared
    case RetryFailed(pingRejected) =>
      if pingRejected then cleared.(error := Some(StillUnreachableMessage)) else cleared
  }

  /** The retry button as written. */
  function Retry(u: Ui, fetch: RetryFetch): (v: Ui)
    ensures fetch.RetryParsed? ==> v == RetryWith(u, fetch, fetch.json.top)
    ensures fetch.RetryFailed? ==> v == RetryWith(u, fetch, NoFlags)
  {
    RetryWith(u, fetch, if fetch.RetryParsed? then RetryFlags(fetch.json) else NoFlags)
  }

  /** The retry button reading the `status` member. */
  function RetryIntended(u: Ui, fetch: RetryFetch): (v: Ui)
    ensures fetch.RetryParsed? ==> v == RetryWith(u, fetch, fetch.json.nested.GetOr(NoFlags))
    ensures fetch.RetryFailed? ==> v == RetryWith(u, fetch, NoFlags)
  {
    RetryWith(u, fetch, if fetch.RetryParsed? then RetryFlagsIntended(fetch.json) else NoFlags)
  }

  /** As written, what a body's `status` member says never matters to the
      retry: only its top level is read. */
  lemma RetryReadsOnlyTopLevel(u: Ui, j: StatusJson, nested: Option<Flags>)
    ensures Retry(u, RetryParsed(j)) == Retry(u, RetryParsed(StatusJson(nested, j.top)))
  {
  }

  /** Corrected, the retry reads only the `status` member, and when that
      reports the model loaded the retry agrees with a poll of the same
      body. */
  lemma RetryIntendedReadsOnlyStatus(u: Ui, j: StatusJson, top: Flags)
    ensures RetryIntended(u, RetryParsed(j)) == RetryIntended(u, RetryParsed(StatusJson(j.nested, top)))
    ensures j.nested.Some? && j.nested.value.loaded ==>
      RetryIntended(u, RetryParsed(j)).modelLoaded == CheckStatus(u, Parsed(j)).ui.modelLoaded
      && RetryIntended(u, RetryParsed(j)).modelLoading == CheckStatus(u, Parsed(j)).ui.modelLoading
  {
  }

  /** As written, a retry answered by the backend only clears the error:
      the flags it looks for are never at the top level of the backend's
      body, so a model that has since loaded is not noticed. */
  lemma RetryIgnoresBackendStatus(u: Ui, ms: ModelLoader.ModelStatus)
    ensures Retry(u, RetryParsed(BackendBody(ms))) == u.(error := None)
  {
  }

  /** The model loading that the as-written retry misses. */
  lemma RetryMissesLoadedModel(s: ModelLoader.State, cuda: bool, name: string)
    requires s.loaded
    ensures var u := Retry(Start, RetryParsed(BackendBody(ModelLoader.GetModelStatus(s, cuda, name))));
            !u.modelLoaded
  {
  }

  /** Reading the `status` member, a retry shows what the backend reports. */
  lemma RetryIntendedReflectsBackend(u: Ui, s: ModelLoader.State, cuda: bool, name: string)
    ensures var v := RetryIntended(u, RetryParsed(BackendBody(ModelLoader.GetModelStatus(s, cuda, name))));
            v.error == None
            && (s.loaded ==> v.modelLoaded && !v.modelLoading)
            && (!s.loaded && s.loading ==> !v.modelLoaded && v.modelLoading)
            && (!s.loaded && !s.loading ==> v == u.(error := None))
  {
  }

  /** A poll answered by the backend makes the client's flags those of the
      backend (with loading only while not loaded), and polling stops
      exactly when the model is loaded. */
  lemma PollReflectsBackend(u: Ui, s: ModelLoader.State, cuda: bool, name: string)
    ensures var c := CheckStatus(u, Parsed(BackendBody(ModelLoader.GetModelStatus(s, cuda, name))));
            c.ui.modelLoaded == s.loaded
            && c.ui.modelLoading == (s.loading && !s.loaded)
            && (c.next.None? <==> s.loaded)
            && (s.loaded ==> c.ui.error == None)
  {
  }

  // ---------------------------------------------------------------------
  // The client's invariant

  /** The two flags are never both set, and the timeout is armed only while
      the model is loading. */
  predicate Consistent(u: Ui)
  {
    !(u.modelLoaded && u.modelLoading) && (u.timeoutArmed ==> u.modelLoading && !u.modelLoaded)
  }

  /** Polls, the timeout and the as-written retry against the backend keep
      the client consistent. The corrected retry keeps the two flags apart,
      but it can mark the model loaded while the timeout is still armed. */
  lemma StepsKeepConsistent(u: Ui, poll: Poll, ms: ModelLoader.ModelStatus, pingRejected: bool,
                            fetch: RetryFetch)
    requires Consistent(u)
    ensures Consistent(CheckStatus(u, poll).ui)
    ensures Consistent(TimeoutFires(u))
    ensures Consistent(Retry(u, RetryParsed(BackendBody(ms))))
    ensures Consistent(Retry(u, RetryFailed(pingRejected)))
    ensures var v := RetryIntended(u, fetch); !(v.modelLoaded && v.modelLoading)
  {
  }

  /** A corrected retry that finds the model loaded while the timeout is
      armed leaves the timer to report a slow load for a loaded model. */
  lemma IntendedRetryLeavesTimeoutArmed(s: ModelLoader.State, cuda: bool, name: string)
    requires s.loaded
    ensures var u := CheckStatus(Start, Parsed(StatusJson(Some(Flags(false, false, true)), NoFlags))).ui;
            var v := RetryIntended(u, RetryParsed(BackendBody(ModelLoader.GetModelStatus(s, cuda, name))));
            v.modelLoaded && TimeoutFires(v).error == Some(SlowLoadMessage)
  {
  }

  // ---------------------------------------------------------------------
  // The status chip

  datatype Chip = Chip(text: string, success: bool)

  /** The chip in the top corner: "模型加载中..." when neither flag is set,
      "模型正在加载..." while loading, "模型已加载" otherwise. */
  function StatusChip(u: Ui): (c: Chip)
    ensures c.success <==> u.modelLoaded && !u.modelLoading
    ensures !c.success && !u.modelLoading ==> c.text == "模型加载中..."
    ensures u.modelLoading ==> c.text == "模型正在加载..."
    ensures c.success ==> c.text == "模型已加载"
  {
    if !u.modelLoaded && !u.modelLoading then Chip("模型加载中...", false)
    else if u.modelLoading then Chip("模型正在加载...", false)
    else Chip("模型已加载", true)
  }

  /** After a poll answered by the backend, the chip shows the model as
      loaded exactly when the backend has it loaded. */
  lemma ChipFollowsBackend(u: Ui, s: ModelLoader.State, cuda: bool, name: string)
    ensures StatusChip(CheckStatus(u, Parsed(BackendBody(ModelLoader.GetModelStatus(s, cuda, name)))).ui).success
      <==> s.loaded
  {
    PollReflectsBackend(u, s, cuda, name);
  }
}
