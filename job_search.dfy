/**
 * The search form of the web front end (frontend/src/components/JobSearch.js):
 * a query field that can also be filled by dictation, a microphone toggle,
 * and a submit that asks the search service and hands the results to the
 * page. The component's state cells become the fields of `JobSearch`; each
 * event handler becomes a method.
 */
module JobSearchForm {
  import opened Optional
  import opened Text
  import JobList

  const Unsupported: string := "Browser tidak mendukung fitur pengenalan suara."
  const AlreadyRecording: string := "Perekaman suara sudah berjalan"
  const DictationErrorPrefix: string := "Error pada pengenalan suara: "
  const EmptyQuery: string := "Masukkan kata kunci pencarian"
  const SearchFailed: string := "Terjadi kesalahan saat pencarian"
  const Unreachable: string := "Gagal menghubungi server"

  /** The settings the component gives the speech recogniser. */
  datatype RecognizerConfig = RecognizerConfig(lang: string, interimResults: bool, continuous: bool)

  const Dictation: RecognizerConfig := RecognizerConfig("id-ID", true, false)

  /** A call the component makes on the speech recogniser. */
  datatype EngineCall = Start | Stop

  /**
   * A dictation result event: the index of the first changed result and
   * all results so far, each a list of alternative transcripts, best first.
   */
  datatype SpeechEvent = SpeechEvent(resultIndex: nat, results: seq<seq<string>>)

  /** How a submitted request ends. */
  datatype Outcome =
    | Ok(results: Option<seq<JobList.Job>>)   // an ok response; `data.results` may be absent
    | NotOk(error: Option<string>)            // an error response, with or without `data.error`
    | Thrown                                  // the request or the body decoding failed

  /** The snapshot of the component's state. */
  datatype Form = Form(
    query: string, loading: bool, error: Option<string>, isListening: bool,
    recognizer: Option<RecognizerConfig>, engineCalls: seq<EngineCall>,
    requests: seq<string>, completed: nat, delivered: seq<Option<seq<JobList.Job>>>, mounted: bool)

  /** The best transcripts of `rs`, one after the other. */
  function Firsts(rs: seq<seq<string>>): string
    requires forall i :: 0 <= i < |rs| ==> rs[i] != []
  {
    if rs == [] then "" else Firsts(rs[..|rs| - 1]) + rs[|rs| - 1][0]
  }

  /** Transcripts of consecutive result lists concatenate. */
  lemma {:induction false} FirstsAppend(a: seq<seq<string>>, b: seq<seq<string>>)
    requires forall i :: 0 <= i < |a| ==> a[i] != []
    requires forall i :: 0 <= i < |b| ==> b[i] != []
    ensures Firsts(a + b) == Firsts(a) + Firsts(b)
    decreases |b|
  {
    if b != [] {
      var b' := b[..|b| - 1];
      assert (a + b)[..|a + b| - 1] == a + b';
      FirstsAppend(a, b');
    } else {
      assert a + b == a;
    }
  }

  /** The transcript of a result event: the best alternatives from `resultIndex` on, joined. */
  method Transcript(ev: SpeechEvent) returns (t: string)
    requires forall i :: ev.resultIndex <= i < |ev.results| ==> ev.results[i] != []
    ensures ev.resultIndex >= |ev.results| ==> t == ""
    ensures ev.resultIndex < |ev.results| ==> t == Firsts(ev.results[ev.resultIndex..])
  {
    t := "";
    var i := ev.resultIndex;
    while i < |ev.results|
      invariant ev.resultIndex <= i
      invariant i <= |ev.results| || i == ev.resultIndex
      invariant t == if i <= |ev.results| then Firsts(ev.results[ev.resultIndex..i]) else ""
      decreases |ev.results| - i
    {
      assert ev.results[ev.resultIndex..i + 1][..i - ev.resultIndex] == ev.results[ev.resultIndex..i];
      t := t + ev.results[i][0];
      i := i + 1;
    }
    assert ev.resultIndex < |ev.results| ==> ev.results[ev.resultIndex..i] == ev.results[ev.resultIndex..];
  }

  /** `data.error || fallback`: the text shown after an error response. */
  function ServerErrorText(e: Option<string>): (r: string)
    ensures r != ""
    ensures e.Some? && e.value != "" ==> r == e.value
    ensures e.None? || e.value == "" ==> r == SearchFailed
  {
    if e.Some? && e.value != "" then e.value else SearchFailed
  }

  /** `!query.trim()`: the query holds nothing but whitespace. */
  predicate Blank(q: string) {
    Trim(q) == []
  }

  /** A query is blank exactly when each of its characters is JavaScript whitespace. */
  lemma BlankIsAllSpace(q: string)
    ensures Blank(q) <==> forall i :: 0 <= i < |q| ==> IsJsSpace(q[i])
  {
    TrimBlank(q);
  }

  class JobSearch {
    var query: string
    var loading: bool
    var error: Option<string>
    var isListening: bool
    /** The recogniser, absent when the browser has no speech recognition. */
    var recognizer: Option<RecognizerConfig>
    /** The calls made on the recogniser, oldest first. */
    var engineCalls: seq<EngineCall>
    /** The queries sent to the search service, oldest first, before URL encoding. */
    var requests: seq<string>
    /** How many of the requests have ended. */
    var completed: nat
    /** Each `onResults` call, oldest first. */
    var delivered: seq<Option<seq<JobList.Job>>>
    var mounted: bool

    function State(): Form
      reads this
    {
      Form(query, loading, error, isListening, recognizer, engineCalls, requests, completed, delivered, mounted)
    }

    /**
     * The recogniser is the dictation one when present; without it nothing
     * is ever started. While mounted and listening, the last call made on
     * the recogniser was a start. Only requests that were sent can end, and
     * only ended requests deliver results.
     */
    predicate Valid()
      reads this
    {
      && (recognizer.Some? ==> recognizer.value == Dictation)
      && (recognizer.None? ==> !isListening && engineCalls == [])
      && (mounted && isListening ==> engineCalls != [] && engineCalls[|engineCalls| - 1] == Start)
      && completed <= |requests|
      && |delivered| <= completed
    }

    /** Mounting: the empty form, then the capability check of the effect. */
    constructor (speechSupported: bool)
      ensures Valid()
      ensures query == "" && !loading && !isListening && mounted
      ensures engineCalls == [] && requests == [] && completed == 0 && delivered == []
      ensures speechSupported ==> recognizer == Some(Dictation) && error == None
      ensures !speechSupported ==> recognizer == None && error == Some(Unsupported)
    {
      query := "";
      loading := false;
      isListening := false;
      engineCalls := [];
      requests := [];
      completed := 0;
      delivered := [];
      mounted := true;
      if speechSupported {
        recognizer := Some(Dictation);
        error := None;
      } else {
        recognizer := None;
        error := Some(Unsupported);
      }
    }

    /** Typing in the query field. */
    method Edit(value: string)
      requires Valid() && mounted
      modifies this
      ensures Valid()
      ensures State() == old(State()).(query := value)
    {
      query := value;
    }

    /** A dictation result replaces the query with the event's transcript. */
    method OnResult(ev: SpeechEvent)
      requires Valid() && mounted && recognizer.Some?
      requires forall i :: ev.resultIndex <= i < |ev.results| ==> ev.results[i] != []
      modifies this
      ensures Valid()
      ensures ev.resultIndex < |ev.results| ==> query == Firsts(ev.results[ev.resultIndex..])
      ensures ev.resultIndex >= |ev.results| ==> query == ""
      ensures State() == old(State()).(query := query)
    {
      var t := Transcript(ev);
      query := t;
    }

    /** A dictation error: shown with its reason; listening ends and the recogniser is stopped. */
    method OnError(reason: string)
      requires Valid() && mounted && recognizer.Some?
      modifies this
      ensures Valid()
      ensures State() == old(State()).(
                error := Some(DictationErrorPrefix + reason), isListening := false,
                engineCalls := old(engineCalls) + [Stop])
    {
      error := Some(DictationErrorPrefix + reason);
      isListening := false;
      engineCalls := engineCalls + [Stop];
    }

    /** The recogniser ended on its own: listening ends, the error stays. */
    method OnEnd()
      requires Valid() && mounted && recognizer.Some?
      modifies this
      ensures Valid()
      ensures State() == old(State()).(isListening := false)
    {
      isListening := false;
    }

    /**
     * The microphone button. `startThrows` says whether the recogniser
     * refuses to start, as it does when it is already recording.
     */
    method ToggleListening(startThrows: bool)
      requires Valid() && mounted
      modifies this
      ensures Valid()
      ensures old(recognizer).None? ==> State() == old(State())
      ensures old(recognizer).Some? && old(isListening) ==>
                State() == old(State()).(isListening := false, engineCalls := old(engineCalls) + [Stop])
      ensures old(recognizer).Some? && !old(isListening) && !startThrows ==>
                State() == old(State()).(isListening := true, error := None, engineCalls := old(engineCalls) + [Start])
      ensures old(recognizer).Some? && !old(isListening) && startThrows ==>
                State() == old(State()).(error := Some(AlreadyRecording), engineCalls := old(engineCalls) + [Start])
    {
      if recognizer.None? {
        return;
      }
      if isListening {
        engineCalls := engineCalls + [Stop];
        isListening := false;
      } else {
        engineCalls := engineCalls + [Start];
        if startThrows {
          error := Some(AlreadyRecording);
        } else {
          isListening := true;
          error := None;
        }
      }
    }

    /**
     * The first half of a submit. A blank query only shows a message;
     * otherwise the error is cleared, the form is loading and the query,
     * untrimmed, is sent.
     */
    method BeginSearch() returns (sent: bool)
      requires Valid() && mounted
      modifies this
      ensures Valid()
      ensures sent <==> !Blank(query)
      ensures !sent ==> State() == old(State()).(error := Some(EmptyQuery))
      ensures sent ==> State() == old(State()).(error := None, loading := true, requests := old(requests) + [query])
    {
      var blank := Blank(query);
      if blank {
        error := Some(EmptyQuery);
        sent := false;
      } else {
        error := None;
        loading := true;
        requests := requests + [query];
        sent := true;
      }
    }

    /**
     * The second half of a submit: an ok response hands its results to the
     * page, an error response or a failure shows a message and keeps the
     * page's results. Loading ends on every path.
     */
    method CompleteSearch(outcome: Outcome)
      requires Valid() && mounted && completed < |requests|
      modifies this
      ensures Valid()
      ensures !loading && completed == old(completed) + 1
      ensures outcome.Ok? ==> delivered == old(delivered) + [outcome.results] && error == old(error)
      ensures outcome.NotOk? ==> delivered == old(delivered) && error == Some(ServerErrorText(outcome.error))
      ensures outcome.Thrown? ==> delivered == old(delivered) && error == Some(Unreachable)
      ensures State() == old(State()).(loading := false, completed := completed, delivered := delivered, error := error)
    {
      match outcome {
        case Ok(results) =>
          delivered := delivered + [results];
        case NotOk(e) =>
          error := Some(ServerErrorText(e));
        case Thrown =>
          error := Some(Unreachable);
      }
      loading := false;
      completed := completed + 1;
    }

    /** A whole submit with no other event in between. */
    method HandleSearch(outcome: Outcome)
      requires Valid() && mounted
      modifies this
      ensures Valid()
      ensures Blank(old(query)) ==> State() == old(State()).(error := Some(EmptyQuery))
      ensures !Blank(old(query)) ==>
                && requests == old(requests) + [old(query)]
                && !loading && completed == old(completed) + 1
                && (outcome.Ok? ==> delivered == old(delivered) + [outcome.results] && error == None)
                && (outcome.NotOk? ==> delivered == old(delivered) && error == Some(ServerErrorText(outcome.error)))
                && (outcome.Thrown? ==> delivered == old(delivered) && error == Some(Unreachable))
                && State() == old(State()).(
                     loading := false, error := error, requests := requests,
                     completed := completed, delivered := delivered)
    {
      var sent := BeginSearch();
      if sent {
        CompleteSearch(outcome);
      }
    }

    /** Unmounting stops the recogniser when there is one. */
    method Unmount()
      requires Valid() && mounted
      modifies this
      ensures Valid()
      ensures old(recognizer).Some? ==> State() == old(State()).(mounted := false, engineCalls := old(engineCalls) + [Stop])
      ensures old(recognizer).None? ==> State() == old(State()).(mounted := false)
    {
      if recognizer.Some? {
        engineCalls := engineCalls + [Stop];
      }
      mounted := false;
    }
  }
}
