/** The dashboard's control of the bot thread: the start, stop and emergency
    stop transitions over the running flag, the stop signal and the start
    time, and the bot thread's loop, one cycle of which is a pure step from
    what the trend source, the generator and the publisher did to what is
    saved and how long the thread then waits. */
module Control {
  import opened Text
  import Config

  // One cycle of the bot thread

  /** What `generate_reply` did in a cycle: returned `None`, returned a
      string (possibly empty), or raised. */
  datatype Generation = Declined | Generated(text: string) | Raised

  /** What one cycle sees: whether it is a trending hour, the topic, the
      generator's outcome, the publisher's status, and whether a stop is
      signalled during the wait that ends the cycle. `topic` is the text
      `str(trending_tweets())` that the prompt embeds: the printed form
      `['…']` of the one-element list `random.choices` returns, or `""` when
      the trend source gave `None`. */
  datatype Cycle = Cycle(trendingTime: bool, topic: string, generation: Generation, posted: bool, stopDuringWait: bool)

  /** A row handed to `save_tweets`. */
  datatype Record = Record(tweet: string, tweetType: string, status: bool)

  /** Which prompt a cycle sends: the one built from the trending topic, or
      the general one used in sleep hours. */
  datatype Prompt = TrendingPrompt(topic: string) | General

  /** The prompt sent to the generator (if any), the row saved (if any), and
      the wait in seconds. */
  datatype StepResult = StepResult(prompt: Option<Prompt>, saved: Option<Record>, wait: int)

  const GeneralPrompt: string := "En ilgi çekici ve güncel konuda bir tweet oluştur."
  const TopicContext: string := "Kullanıcı tarafından ek bağlam eklenmedi. Konu detaylarını kullanarak bağlamı ve amacı anlamalısın. Tweet referansı için detayları kullan."

  /** The text of a prompt. */
  function PromptText(p: Prompt): string {
    match p
    case TrendingPrompt(topic) =>
      "Bunlar tweet detayları. [format- konu, tweet sayısı, tweet URL] " + topic
        + ". Tüm bu detayları tweet bilgin için kullan, referans için değil." + TopicContext + " " + topic
    case General => GeneralPrompt
  }

  /** One pass of the loop body of `run_bot_thread`. */
  function Step(c: Cycle, cycleMinutes: int): (r: StepResult)
    ensures r.saved.Some? ==> r.prompt.Some? && r.wait == cycleMinutes * 60
  {
    if c.trendingTime && c.topic == "" then StepResult(None, None, 60)
    else
      var prompt := if c.trendingTime then TrendingPrompt(c.topic) else General;
      match c.generation
      case Declined => StepResult(Some(prompt), None, 10)
      case Raised => StepResult(Some(prompt), None, 60)
      case Generated(t) =>
        StepResult(Some(prompt), if t != "" then Some(Record(t, "tweet", c.posted)) else None, cycleMinutes * 60)
  }

  /** The wait after a cycle: a minute when there is no trend or the cycle
      raised, ten seconds when the generator declined, the full cycle
      otherwise; a row is saved exactly for a non-empty tweet, typed
      `tweet`, with the publisher's status. */
  lemma StepOutcomes(c: Cycle, cycleMinutes: int)
    ensures c.trendingTime && c.topic == "" ==> Step(c, cycleMinutes) == StepResult(None, None, 60)
    ensures c.generation.Declined? ==> Step(c, cycleMinutes).wait in {10, 60}
    ensures c.generation.Raised? ==> Step(c, cycleMinutes).wait == 60
    ensures c.generation.Generated? && !(c.trendingTime && c.topic == "") ==>
      Step(c, cycleMinutes).wait == cycleMinutes * 60
    ensures Step(c, cycleMinutes).saved.Some? <==>
      !(c.trendingTime && c.topic == "") && c.generation.Generated? && c.generation.text != ""
    ensures Step(c, cycleMinutes).saved.Some? ==>
      Step(c, cycleMinutes).saved.value == Record(c.generation.text, "tweet", c.posted)
  {
  }

  /** The trending prompt carries its topic. */
  lemma TrendingPromptHasTopic(topic: string)
    ensures Contains(PromptText(TrendingPrompt(topic)), topic)
  {
    var head := "Bunlar tweet detayları. [format- konu, tweet sayısı, tweet URL] ";
    var p := PromptText(TrendingPrompt(topic));
    assert p == head + topic + (p[|head| + |topic|..]);
    assert p[|head|..|head| + |topic|] == topic;
    ContainsAt(p, topic, |head|);
  }

  /** In a trending hour the prompt carries the topic; outside it the general
      prompt is used and the topic is ignored. */
  lemma PromptCarriesTopic(c: Cycle, cycleMinutes: int)
    requires !(c.trendingTime && c.topic == "")
    ensures var p := Step(c, cycleMinutes).prompt;
      p.Some? && (c.trendingTime ==> Contains(PromptText(p.value), c.topic))
      && (!c.trendingTime ==> PromptText(p.value) == GeneralPrompt)
  {
    if c.trendingTime {
      assert Step(c, cycleMinutes).prompt == Some(TrendingPrompt(c.topic));
      TrendingPromptHasTopic(c.topic);
    } else {
      assert Step(c, cycleMinutes).prompt == Some(General);
    }
  }

  /** The rows a run of cycles saves, in order. */
  function SavedRows(cycles: seq<Cycle>, cycleMinutes: int): (r: seq<Record>)
    ensures |r| <= |cycles|
  {
    if cycles == [] then []
    else
      var prior := SavedRows(cycles[..|cycles| - 1], cycleMinutes);
      match Step(cycles[|cycles| - 1], cycleMinutes).saved
      case Some(row) => prior + [row]
      case None => prior
  }

  /** Running one more cycle adds that cycle's row, if any. */
  lemma SavedRowsExtend(cycles: seq<Cycle>, i: nat, cycleMinutes: int)
    requires i < |cycles|
    ensures SavedRows(cycles[..i + 1], cycleMinutes) ==
      SavedRows(cycles[..i], cycleMinutes)
      + (if Step(cycles[i], cycleMinutes).saved.Some? then [Step(cycles[i], cycleMinutes).saved.value] else [])
  {
    assert cycles[..i + 1][..i] == cycles[..i];
  }

  /** Every saved row is a non-empty tweet. */
  lemma {:induction false} SavedRowsAreTweets(cycles: seq<Cycle>, cycleMinutes: int)
    ensures forall k :: 0 <= k < |SavedRows(cycles, cycleMinutes)| ==>
      SavedRows(cycles, cycleMinutes)[k].tweet != "" && SavedRows(cycles, cycleMinutes)[k].tweetType == "tweet"
  {
    if cycles != [] {
      SavedRowsAreTweets(cycles[..|cycles| - 1], cycleMinutes);
      StepOutcomes(cycles[|cycles| - 1], cycleMinutes);
    }
  }

  // The control state

  class BotControl {
    /** `bot_running` */
    var running: bool
    /** `bot_stop_event` */
    var stopSignal: bool
    /** `bot_stats["bot_start_time"]` */
    var startTime: Option<string>

    /** The stop signal is raised only for the length of a stop request, so
        between requests it is always clear. */
    predicate Valid()
      reads this
    {
      !stopSignal
    }

    constructor ()
      ensures !running && !stopSignal && startTime.None? && Valid()
    {
      running := false;
      stopSignal := false;
      startTime := None;
    }

    /** `api_control`: `start` succeeds only when the bot is not running and
        `stop` only when it is; anything else fails and changes nothing.
        `action` is `None` when the request has no action; `modulesLoaded`
        is whether the bot modules imported. */
    method ControlAction(modulesLoaded: bool, action: Option<string>, now: string) returns (success: bool)
      requires Valid()
      modifies this
      ensures Valid()
      ensures success <==>
        (modulesLoaded && action.Some?
         && ((action.value == "start" && !old(running)) || (action.value == "stop" && old(running))))
      ensures success && action.value == "start" ==> running && startTime == Some(now)
      ensures success && action.value == "stop" ==> !running && startTime.None?
      ensures !success ==> running == old(running) && startTime == old(startTime)
    {
      if !modulesLoaded || action.None? {
        return false;
      }
      var a := action.value;
      if a != "start" && a != "stop" {
        return false;
      }
      if a == "start" && !running {
        stopSignal := false;
        running := true;
        startTime := Some(now);
        return true;
      } else if a == "stop" && running {
        running := false;
        // The event is set to wake the thread for `join`, then cleared for
        // the next start; the join itself is not modelled.
        stopSignal := true;
        stopSignal := false;
        startTime := None;
        return true;
      }
      return false;
    }

    /** `api_emergency_stop`: the running flag drops but the stop signal is
        not raised, so a thread already in its loop goes on with its next
        cycle; the start time is left as it was. */
    method EmergencyStop() returns (success: bool)
      requires Valid()
      modifies this
      ensures Valid() && success
      ensures !running && stopSignal == old(stopSignal) && startTime == old(startTime)
    {
      running := false;
      return true;
    }

    /** `run_bot_thread` over a finite run of cycles: the thread ends when the
        modules are missing or fail to initialise, when a stop is signalled
        during a wait, or when the run is exhausted; the cycle length is read
        with default 30 and is not checked. `waits` holds the wait of every
        cycle run, `saved` the rows saved, and `cycleMinutes` the cycle
        length read. */
    method RunBotThread(modulesLoaded: bool, initOk: bool, cycleRaw: Option<string>, cycles: seq<Cycle>)
      returns (saved: seq<Record>, waits: seq<int>, ghost cycleMinutes: int)
      requires Valid()
      modifies this
      ensures Valid() && !running
      ensures stopSignal == old(stopSignal) && startTime == old(startTime)
      ensures cycleMinutes == Config.GetInt(cycleRaw, 30)
      ensures !(modulesLoaded && initOk) ==> waits == [] && saved == []
      ensures |waits| <= |cycles|
      ensures forall k :: 0 <= k < |waits| ==> waits[k] == Step(cycles[k], cycleMinutes).wait
      ensures forall k :: 0 <= k < |waits| - 1 ==> !cycles[k].stopDuringWait
      ensures modulesLoaded && initOk && |waits| < |cycles| ==> |waits| > 0 && cycles[|waits| - 1].stopDuringWait
      ensures saved == SavedRows(cycles[..|waits|], cycleMinutes)
    {
      saved, waits := [], [];
      var minutes := Config.GetInt(cycleRaw, 30);
      cycleMinutes := minutes;
      if !modulesLoaded || !initOk {
        running := false;
        return;
      }
      var i := 0;
      var stopped := false;
      while i < |cycles| && !stopSignal && !stopped
        invariant 0 <= i <= |cycles| && |waits| == i
        invariant !stopSignal && startTime == old(startTime)
        invariant forall k :: 0 <= k < i ==> waits[k] == Step(cycles[k], minutes).wait
        invariant forall k :: 0 <= k < i - 1 ==> !cycles[k].stopDuringWait
        invariant stopped <==> i > 0 && cycles[i - 1].stopDuringWait
        invariant saved == SavedRows(cycles[..i], minutes)
        decreases |cycles| - i
      {
        assert forall k :: 0 <= k < i ==> !cycles[k].stopDuringWait;
        var r := Step(cycles[i], minutes);
        SavedRowsExtend(cycles, i, minutes);
        if r.saved.Some? {
          saved := saved + [r.saved.value];
        }
        waits := waits + [r.wait];
        stopped := cycles[i].stopDuringWait;
        i := i + 1;
      }
      running := false;
    }
  }
}
