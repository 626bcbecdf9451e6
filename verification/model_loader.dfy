/** The backend's model lifecycle (backend/modules/models.py): the process-wide
    flags `model_loaded`, `model_loading` and `last_model_load_time`, the
    three model handles, `load_model` with its staleness rule and its
    `force_success` shortcut, and `get_model_status`. Loading a model is
    reduced to which of the three loads, in order, fails first; times are
    seconds as reals; the interval is `MODEL_RELOAD_INTERVAL`. */
module ModelLoader {

  /** The module's globals. The three handle flags say whether `model`/
      `tokenizer`, `whisper_model` and `emotion_detector` are set. */
  datatype State = State(
    loaded: bool,
    loading: bool,
    lastLoadTime: real,
    textModel: bool,
    whisper: bool,
    detector: bool)

  /** The globals at import time. */
  const Initial := State(false, false, 0.0, false, false, false)

  /** `MODEL_RELOAD_INTERVAL` when the environment does not set it: a day. */
  const DefaultReloadInterval: int := 24 * 60 * 60

  /** How the three loads go, in order: all succeed, or the first to raise. */
  datatype Attempt = AllLoad | TextFails | WhisperFails | DetectorFails

  /** One call of `load_model`: the flag, the clock when it starts, how the
      loads go and the clock when they have finished. */
  datatype LoadCall = LoadCall(forceSuccess: bool, now: real, attempt: Attempt, finish: real)

  /** The globals afterwards, and whether the call raised. */
  datatype Outcome = Outcome(state: State, raised: bool)

  /** Loaded, and loaded longer ago than the reload interval. */
  predicate Stale(s: State, now: real, interval: int)
  {
    s.loaded && now - s.lastLoadTime > interval as real
  }

  /** Loaded recently enough that no reload is due. */
  predicate Fresh(s: State, now: real, interval: int)
  {
    s.loaded && !Stale(s, now, interval)
  }

  /** A load is attempted: no `force_success`, no fresh model and no load
      already under way. */
  predicate Attempts(s: State, c: LoadCall, interval: int)
  {
    !c.forceSuccess && !Fresh(s, c.now, interval) && !s.loading
  }

  /** The globals while an attempted load is in progress, as a concurrent
      `get_model_status` sees them. */
  function InProgress(s: State, c: LoadCall, interval: int): (m: State)
    requires Attempts(s, c, interval)
    ensures m.loading && !m.loaded
    ensures m.lastLoadTime == s.lastLoadTime
  {
    s.(loaded := false, loading := true)
  }

  /** `load_model(force_success)`. */
  function LoadModel(s: State, c: LoadCall, interval: int): (o: Outcome)
    ensures c.forceSuccess ==>
      o == Outcome(s.(loaded := true, loading := false, lastLoadTime := c.now), false)
    ensures !c.forceSuccess && !Attempts(s, c, interval) ==>
      !o.raised && o.state == s.(loaded := Fresh(s, c.now, interval))
    ensures Attempts(s, c, interval) ==>
      !o.state.loading && (o.raised <==> !c.attempt.AllLoad?) && (o.state.loaded <==> !o.raised)
    ensures Attempts(s, c, interval) && c.attempt.AllLoad? ==>
      o.state.textModel && o.state.whisper && o.state.detector && o.state.lastLoadTime == c.finish
    ensures Attempts(s, c, interval) && !c.attempt.AllLoad? ==>
      o.state.lastLoadTime == s.lastLoadTime && o.state.detector == s.detector
  {
    if c.forceSuccess then
      Outcome(s.(loaded := true, loading := false, lastLoadTime := c.now), false)
    else
      var s1 := if Stale(s, c.now, interval) then s.(loaded := false) else s;
      if s1.loaded || s1.loading then Outcome(s1, false)
      else
        // `model_loading` is set for the attempt and cleared by `finally`
        match c.attempt
        case AllLoad =>
          Outcome(s1.(loaded := true, lastLoadTime := c.finish, textModel := true,
                      whisper := true, detector := true), false)
        case TextFails => Outcome(s1, true)
        case WhisperFails => Outcome(s1.(textModel := true), true)
        case DetectorFails => Outcome(s1.(textModel := true, whisper := true), true)
  }

  /** Handles are present whenever the model is reported loaded. */
  predicate HandlesBackLoaded(s: State)
  {
    s.loaded ==> s.textModel && s.whisper && s.detector
  }

  /** Without `force_success`, `load_model` keeps that promise. */
  lemma LoadKeepsHandlesBehindLoaded(s: State, c: LoadCall, interval: int)
    requires HandlesBackLoaded(s) && !c.forceSuccess
    ensures HandlesBackLoaded(LoadModel(s, c, interval).state)
  {
  }

  /** `force_success` reports a model as loaded that was never loaded. */
  lemma ForceSuccessSkipsLoading(now: real)
    ensures var s := LoadModel(Initial, LoadCall(true, now, AllLoad, now), DefaultReloadInterval).state;
            s.loaded && !s.textModel && !s.whisper && !s.detector && !HandlesBackLoaded(s)
  {
  }

  /** A model past its interval whose reload fails ends unloaded, and the
      call raises. */
  lemma StaleReloadFailureUnloads(s: State, c: LoadCall, interval: int)
    requires Stale(s, c.now, interval) && !s.loading && !c.forceSuccess && !c.attempt.AllLoad?
    ensures LoadModel(s, c, interval).raised && !LoadModel(s, c, interval).state.loaded
  {
  }

  /** After a successful load, a second call within the interval changes
      nothing. */
  lemma LoadIsIdempotentWithinInterval(s: State, c: LoadCall, c2: LoadCall, interval: int)
    requires !LoadModel(s, c, interval).raised && !c2.forceSuccess
    requires LoadModel(s, c, interval).state.loaded
    requires c2.now - LoadModel(s, c, interval).state.lastLoadTime <= interval as real
    ensures var t := LoadModel(s, c, interval).state; LoadModel(t, c2, interval) == Outcome(t, false)
  {
  }

  /** Run sequentially, `load_model` always leaves `model_loading` false. */
  lemma LoadEndsNotLoading(s: State, c: LoadCall, interval: int)
    requires !s.loading
    ensures !LoadModel(s, c, interval).state.loading
  {
  }

  const DefaultModelName := "nlptown/bert-base-multilingual-uncased-sentiment"

  /** The body of `get_model_status()`. */
  datatype ModelStatus = ModelStatus(
    loaded: bool,
    loading: bool,
    lastLoadTime: real,
    device: string,
    cudaAvailable: bool,
    modelName: string)

  /** `get_model_status()`: the flags as they stand, the device the text
      model runs on ("cuda:0" when CUDA is available, else "cpu"), and
      the configured model name. */
  function GetModelStatus(s: State, cudaAvailable: bool, modelName: string): (r: ModelStatus)
    ensures r.loaded == s.loaded && r.loading == s.loading && r.lastLoadTime == s.lastLoadTime
    ensures r.device == "cuda:0" <==> cudaAvailable
    ensures r.device in {"cuda:0", "cpu"}
  {
    ModelStatus(s.loaded, s.loading, s.lastLoadTime, if cudaAvailable then "cuda:0" else "cpu",
                cudaAvailable, modelName)
  }
}
