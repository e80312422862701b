/**
  The plugin's quest runner: the two module-level flags isProcessing and
  currentQuestId, the queue of cleanup functions, checkAndStartQuest with its
  guard, selection and dispatch, the video handler's flag handling, and the
  state part of the plugin's stop hook.
 */
module Engine {
  import opened Options
  import opened Quests
  import opened VideoProgress

  /** The settings and host facts checkAndStartQuest reads. */
  datatype Host = Host(
    autoStart: bool,
    storesReady: bool,       // initializeStores found the quest store
    skipVideos: bool,
    isDesktopApp: bool,      // window.DiscordNative is defined
    completionSpeed: nat
  )

  /** Why a claimed quest is let go again without running a handler. */
  datatype ReleaseReason =
    | MissingTaskConfig   // neither taskConfig nor taskConfigV2: the TypeError is caught
    | NoKnownTask         // none of the five task kinds is present
    | VideosNotSkipped    // a video task while skipVideos is off
    | DesktopRequired     // a desktop-only task outside the desktop app

  /** What one checkAndStartQuest call decides to do. */
  datatype StartPlan =
    | Skip                                    // returns before claiming anything
    | Release(quest: Quest, why: ReleaseReason) // claims the quest, then clears both flags
    | RunVideo(quest: Quest, task: TaskName)  // claims the quest and runs the video handler
    | HandOff(quest: Quest, task: TaskName)   // claims the quest and runs the play, stream or activity handler

  /** The decision checkAndStartQuest makes from the flags, the settings and the quest snapshot. */
  function PlanStart(isProcessing: bool, currentQuestId: Option<QuestId>, host: Host,
                     quests: seq<Quest>, now: Millis): (p: StartPlan)
    ensures var found := FindActive(quests, now);
      p.Skip? <==> (isProcessing || !host.autoStart || !host.storesReady || found.None? ||
                    currentQuestId == Some(quests[found.value].id))
    ensures !p.Skip? ==> FindActive(quests, now).Some? && p.quest == quests[FindActive(quests, now).value]
    ensures !p.Skip? ==> currentQuestId != Some(p.quest.id)
    ensures p.Release? ==> (p.why == MissingTaskConfig <==> ConfigOf(p.quest).None?)
    ensures p.Release? ==> (p.why == NoKnownTask <==> ConfigOf(p.quest).Some? && ChooseTask(ConfigOf(p.quest).value).None?)
    ensures p.RunVideo? || p.HandOff? ==> ConfigOf(p.quest).Some? && ChooseTask(ConfigOf(p.quest).value) == Some(p.task)
    ensures p.RunVideo? ==> IsVideoTask(p.task) && host.skipVideos
    ensures p.HandOff? ==> p.task == PlayActivity || (host.isDesktopApp && (p.task == PlayOnDesktop || p.task == StreamOnDesktop))
    ensures !p.Skip? && ConfigOf(p.quest).Some? && ChooseTask(ConfigOf(p.quest).value).Some? ==>
      var t := ChooseTask(ConfigOf(p.quest).value).value;
      && (p.RunVideo? <==> IsVideoTask(t) && host.skipVideos)
      && (p == Release(p.quest, VideosNotSkipped) <==> IsVideoTask(t) && !host.skipVideos)
      && (p == Release(p.quest, DesktopRequired) <==> (t == PlayOnDesktop || t == StreamOnDesktop) && !host.isDesktopApp)
      && (p.HandOff? <==> t == PlayActivity || ((t == PlayOnDesktop || t == StreamOnDesktop) && host.isDesktopApp))
  {
    if isProcessing || !host.autoStart then Skip
    else if !host.storesReady then Skip
    else match FindActive(quests, now)
      case None => Skip
      case Some(k) =>
        var q := quests[k];
        if currentQuestId == Some(q.id) then Skip
        else match ConfigOf(q)
          case None => Release(q, MissingTaskConfig)
          case Some(tasks) =>
            match ChooseTask(tasks)
            case None => Release(q, NoKnownTask)
            case Some(t) =>
              if IsVideoTask(t) then
                if host.skipVideos then RunVideo(q, t) else Release(q, VideosNotSkipped)
              else if t == PlayOnDesktop || t == StreamOnDesktop then
                if host.isDesktopApp then HandOff(q, t) else Release(q, DesktopRequired)
              else HandOff(q, t)
  }

  /**
    The quest a start attempt claims is never claimed again by the next
    attempt on the same snapshot, even when only isProcessing was cleared
    meanwhile (as the play and activity handlers do on error).
   */
  lemma ClaimedQuestNotRestarted(isProcessing: bool, currentQuestId: Option<QuestId>, host: Host,
                                 quests: seq<Quest>, now: Millis, busy: bool)
    requires !PlanStart(isProcessing, currentQuestId, host, quests, now).Skip?
    ensures var p := PlanStart(isProcessing, currentQuestId, host, quests, now);
      PlanStart(busy, Some(p.quest.id), host, quests, now) == Skip
  {
  }

  /** A start attempt that finds the quest it would pick already current does nothing, whatever else holds. */
  lemma SameQuestSkips(currentQuestId: Option<QuestId>, host: Host, quests: seq<Quest>, now: Millis, k: nat)
    requires k < |quests| && IsActive(quests[k], now)
    requires forall j :: 0 <= j < k ==> !IsActive(quests[j], now)
    requires currentQuestId == Some(quests[k].id)
    ensures PlanStart(false, currentQuestId, host, quests, now) == Skip
  {
  }

  /** `userStatus.progress[task].value ?? 0`: the progress the video handler starts from. */
  function SecondsDoneAtStart(q: Quest, task: TaskName): (n: nat)
    ensures task in q.progress ==> n == q.progress[task]
    ensures task !in q.progress ==> n == 0
  {
    if task in q.progress then q.progress[task] else 0
  }

  /**
    One run of the video handler on `quest`: a loop trace that starts from the
    quest's recorded progress, aims at the task's target and paces against the
    enrolment time, and an outcome that follows from the trace and the replies.
   */
  ghost predicate VideoRun(quest: Quest, task: TaskName, host: Host, clock: nat -> int, replies: nat -> Reply,
                           outcome: VideoOutcome, ticks: seq<Tick>)
  {
    && quest.enrolledAt.Some? && ConfigOf(quest).Some? && task in ConfigOf(quest).value
    && var needed := ConfigOf(quest).value[task];
       var speed := Speed(host.completionSpeed);
       && LoopTrace(ticks, SecondsDoneAtStart(quest, task), needed, speed, quest.enrolledAt.value, clock)
       && (forall i :: 0 <= i < |ticks| - 1 && ticks[i].post.Some? ==> replies(i).Ack?)
       && (outcome == ProgressFailed <==> ticks[|ticks| - 1].post.Some? && replies(|ticks| - 1).Failure?)
       && (outcome != ProgressFailed ==> ticks[|ticks| - 1].done + speed >= needed)
       && (outcome.Finished? ==> outcome.finalReport == if CompletedFlag(ticks, replies) then None else Some(needed))
       && (outcome == FinalReportFailed <==>
             outcome != ProgressFailed && !CompletedFlag(ticks, replies) && replies(|ticks|).Failure?)
  }

  /**
    How a play, stream or activity handler ends. The stream handler has no
    `try` of its own, so every failure of it leaves it as an exception:
    for it, Caught ends the same way as Threw.
   */
  datatype HandlerEnd =
    | Completed   // the handler returned true
    | Caught      // its own catch, or its early return for a missing voice channel, returned false
    | Threw       // an exception left it from outside its `try` and reached checkAndStartQuest's catch

  /** After a hand-off ending so, currentQuestId still names the quest. */
  predicate KeepsQuestCurrent(task: TaskName, end: HandlerEnd)
  {
    || (task == PlayOnDesktop && end != Threw)
    || (task == StreamOnDesktop && end == Completed)
    || (task == PlayActivity && end == Caught)
  }

  /** A cleanup function queued by a handler: puts a patched host accessor back and unsubscribes. */
  datatype Cleanup =
    | RestoreRunningGames(questId: QuestId)
    | RestoreStreamMetadata(questId: QuestId)

  class QuestEngine {
    var isProcessing: bool
    var currentQuestId: Option<QuestId>
    var cleanupFunctions: seq<Cleanup>
    /** The cleanups run so far, in the order they ran. */
    ghost var ran: seq<Cleanup>

    constructor ()
      ensures !isProcessing && currentQuestId == None
      ensures cleanupFunctions == [] && ran == []
    {
      isProcessing := false;
      currentQuestId := None;
      cleanupFunctions := [];
      ran := [];
    }

    /** `cleanupFunctions.push(...)`, as the play and stream handlers do. */
    method RegisterCleanup(c: Cleanup)
      modifies this
      ensures cleanupFunctions == old(cleanupFunctions) + [c]
      ensures isProcessing == old(isProcessing) && currentQuestId == old(currentQuestId)
      ensures ran == old(ran)
    {
      cleanupFunctions := cleanupFunctions + [c];
    }

    /** Calling one cleanup: its effect on the host is recorded as having run. */
    method RunCleanup(c: Cleanup)
      modifies this`ran
      ensures ran == old(ran) + [c]
    {
      ran := ran + [c];
    }

    /** The state part of stop: clear both flags, run every queued cleanup once in order, empty the queue. */
    method Stop()
      modifies this
      ensures !isProcessing && currentQuestId == None
      ensures cleanupFunctions == []
      ensures ran == old(ran) + old(cleanupFunctions)
    {
      isProcessing := false;
      currentQuestId := None;
      var queue := cleanupFunctions;
      for i := 0 to |queue|
        invariant ran == old(ran) + queue[..i]
        invariant !isProcessing && currentQuestId == None
        invariant cleanupFunctions == queue
      {
        RunCleanup(queue[i]);
        assert queue[..i + 1] == queue[..i] + [queue[i]];
      }
      assert queue[..|queue|] == queue;
      cleanupFunctions := [];
    }

    /**
      completeVideoQuest: the paced loop, then both flags cleared when it
      finished. After a failed report inside the loop the flags are left as
      they were; a failing final report leaves them too, for the caller's
      catch to clear. The task is the video kind checkAndStartQuest chose.
     */
    method CompleteVideoQuest(quest: Quest, task: TaskName, host: Host, clock: nat -> int, replies: nat -> Reply)
      returns (outcome: VideoOutcome, secondsDone: int, ghost ticks: seq<Tick>)
      requires quest.enrolledAt.Some?
      requires ConfigOf(quest).Some? && ChooseTask(ConfigOf(quest).value) == Some(task) && IsVideoTask(task)
      requires Ticking(clock)
      modifies this`isProcessing, this`currentQuestId
      ensures VideoRun(quest, task, host, clock, replies, outcome, ticks)
      ensures outcome != ProgressFailed ==> secondsDone == After(ticks[|ticks| - 1])
      ensures SecondsDoneAtStart(quest, task) <= ConfigOf(quest).value[task] ==> secondsDone <= ConfigOf(quest).value[task]
      ensures outcome.Finished? ==> !isProcessing && currentQuestId == None
      ensures !outcome.Finished? ==> isProcessing == old(isProcessing) && currentQuestId == old(currentQuestId)
    {
      var secondsNeeded := ConfigOf(quest).value[task];
      outcome, secondsDone, ticks := RunVideoProgress(SecondsDoneAtStart(quest, task), secondsNeeded,
        Speed(host.completionSpeed), quest.enrolledAt.value, clock, replies);
      if outcome.Finished? {
        isProcessing := false;
        currentQuestId := None;
      }
    }

    /**
      checkAndStartQuest. `now` is Date.now() for the expiry test; the video
      handler reads `clock` and is answered by `replies`. `handler` says how
      the play, stream or activity handler ends. A play or stream hand-off
      that completes leaves the quest held with its cleanup queued; the
      activity handler finishes the quest. A handler's own catch clears
      isProcessing only; an exception that escapes it clears both flags.
     */
    method CheckAndStartQuest(host: Host, quests: seq<Quest>, now: Millis, clock: nat -> int, replies: nat -> Reply,
                              handler: HandlerEnd)
      returns (plan: StartPlan, video: Option<VideoOutcome>, ghost ticks: seq<Tick>)
      requires Ticking(clock)
      modifies this
      ensures plan == PlanStart(old(isProcessing), old(currentQuestId), host, quests, now)
      ensures plan.Skip? ==> isProcessing == old(isProcessing) && currentQuestId == old(currentQuestId)
      ensures plan.Release? ==> !isProcessing && currentQuestId == None
      ensures plan.RunVideo? <==> video.Some?
      ensures plan.RunVideo? ==> VideoRun(plan.quest, plan.task, host, clock, replies, video.value, ticks)
      ensures video == Some(ProgressFailed) ==> isProcessing && currentQuestId == Some(plan.quest.id)
      ensures video.Some? && video.value != ProgressFailed ==> !isProcessing && currentQuestId == None
      ensures plan.HandOff? && handler == Threw ==> !isProcessing && currentQuestId == None
      ensures plan.HandOff? && plan.task == PlayOnDesktop && handler != Threw ==>
        && currentQuestId == Some(plan.quest.id)
        && (isProcessing <==> handler == Completed)
        && cleanupFunctions == old(cleanupFunctions) + if handler == Completed then [RestoreRunningGames(plan.quest.id)] else []
      ensures plan.HandOff? && plan.task == StreamOnDesktop ==>
        if handler == Completed then
          && isProcessing && currentQuestId == Some(plan.quest.id)
          && cleanupFunctions == old(cleanupFunctions) + [RestoreStreamMetadata(plan.quest.id)]
        else !isProcessing && currentQuestId == None
      ensures plan.HandOff? && plan.task == PlayActivity ==>
        !isProcessing && currentQuestId == if handler == Caught then Some(plan.quest.id) else None
      ensures !(plan.HandOff? && handler == Completed && (plan.task == PlayOnDesktop || plan.task == StreamOnDesktop)) ==>
        cleanupFunctions == old(cleanupFunctions)
      ensures ran == old(ran)
    {
      plan := PlanStart(isProcessing, currentQuestId, host, quests, now);
      video := None;
      ticks := [];
      if plan.Skip? {
        return;
      }
      currentQuestId := Some(plan.quest.id);
      isProcessing := true;
      match plan
      case Release(_, _) =>
        isProcessing := false;
        currentQuestId := None;
      case RunVideo(q, t) =>
        var outcome, done;
        outcome, done, ticks := CompleteVideoQuest(q, t, host, clock, replies);
        video := Some(outcome);
        if outcome == FinalReportFailed {
          // the exception from the final report reaches the outer catch
          isProcessing := false;
          currentQuestId := None;
        }
      case HandOff(q, t) =>
        if handler == Threw || (t == StreamOnDesktop && handler == Caught) {
          // a missing store or application read outside the handler's try: the outer catch
          isProcessing := false;
          currentQuestId := None;
        } else if t == PlayOnDesktop {
          if handler == Completed {
            RegisterCleanup(RestoreRunningGames(q.id));
          } else {
            // the play handler's catch clears isProcessing only
            isProcessing := false;
          }
        } else if t == StreamOnDesktop {
          RegisterCleanup(RestoreStreamMetadata(q.id));
        } else if handler == Completed {
          isProcessing := false;
          currentQuestId := None;
        } else {
          // no voice channel, or a heartbeat threw inside the try: isProcessing only
          isProcessing := false;
        }
    }
  }

  /**
    A second attempt does nothing while the quest is held, or still current
    after a handler's own catch cleared isProcessing only; otherwise it plans
    the same start again. After stop the runner takes the first active quest
    again, even the one it held.
   */
  method StopThenStart(host: Host, quests: seq<Quest>, now: Millis, clock: nat -> int, replies: nat -> Reply,
                       handler: HandlerEnd)
    returns (first: StartPlan, video: Option<VideoOutcome>, again: StartPlan, restarted: StartPlan)
    requires host.autoStart && host.storesReady
    requires Ticking(clock)
    requires FindActive(quests, now).Some?
    ensures !first.Skip? && first == PlanStart(false, None, host, quests, now)
    ensures again.Skip? <==>
      video == Some(ProgressFailed) || (first.HandOff? && KeepsQuestCurrent(first.task, handler))
    ensures !again.Skip? ==> again == first
    ensures restarted == first
  {
    var engine := new QuestEngine();
    var later;
    ghost var ticks;
    first, video, ticks := engine.CheckAndStartQuest(host, quests, now, clock, replies, handler);
    if engine.currentQuestId.Some? {
      ClaimedQuestNotRestarted(false, None, host, quests, now, engine.isProcessing);
    }
    again, later, ticks := engine.CheckAndStartQuest(host, quests, now, clock, replies, handler);
    engine.Stop();
    restarted, later, ticks := engine.CheckAndStartQuest(host, quests, now, clock, replies, handler);
  }
}
