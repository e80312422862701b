/**
  The quests the host's quest store holds, as far as the plugin reads them,
  and the two searches it makes over them: the first quest worth starting,
  and the first task kind of that quest it knows how to complete.
 */
module Quests {
  import opened Options

  type QuestId = string

  /** Times are milliseconds since the epoch, as Date.getTime() gives them. */
  type Millis = int

  /**
    The task names the plugin looks for, and any other name a quest may
    carry. A well-formed `Other` holds none of the five known names (see
    `WellNamed`).
   */
  datatype TaskName =
    | WatchVideo
    | WatchVideoOnMobile
    | PlayOnDesktop
    | StreamOnDesktop
    | PlayActivity
    | Other(name: string)

  /** The wire names of the five known kinds. */
  const KnownTaskNames: set<string> :=
    {"WATCH_VIDEO", "WATCH_VIDEO_ON_MOBILE", "PLAY_ON_DESKTOP", "STREAM_ON_DESKTOP", "PLAY_ACTIVITY"}

  /** An `Other` name is not one of the known names, which have kinds of their own. */
  predicate WellNamed(t: TaskName)
  {
    t.Other? ==> t.name !in KnownTaskNames
  }

  /**
    A task configuration: the tasks present, each with its target in seconds.
    A known name always appears as its own kind, never as an `Other`.
   */
  type TaskConfig = m: map<TaskName, nat> | forall t :: t in m ==> WellNamed(t) witness map[]

  datatype Quest = Quest(
    id: QuestId,
    expiresAt: Option<Millis>,         // None: a date that does not parse (getTime() is NaN)
    taskConfig: Option<TaskConfig>,
    taskConfigV2: Option<TaskConfig>,
    enrolledAt: Option<Millis>,        // None: absent or empty
    completedAt: Option<Millis>,       // None: absent or empty
    progress: map<TaskName, nat>       // userStatus.progress[task].value, where present
  )

  /** The one quest the plugin never starts. */
  const ExcludedQuestId: QuestId := "1248385850622869556"

  /** The task kinds in the order the plugin tries them. */
  const TaskPriority: seq<TaskName> :=
    [WatchVideo, WatchVideoOnMobile, PlayOnDesktop, StreamOnDesktop, PlayActivity]

  /** The four conditions of the quest filter. */
  predicate IsActive(q: Quest, now: Millis)
  {
    && q.id != ExcludedQuestId
    && q.enrolledAt.Some?
    && q.completedAt.None?
    && q.expiresAt.Some? && q.expiresAt.value > now
  }

  /** `quests.find(...)` from position k on: the index of the first active quest. */
  function FindActiveFrom(quests: seq<Quest>, now: Millis, k: nat): (r: Option<nat>)
    requires k <= |quests|
    ensures r.Some? ==> k <= r.value < |quests| && IsActive(quests[r.value], now)
    ensures r.Some? ==> forall j :: k <= j < r.value ==> !IsActive(quests[j], now)
    ensures r.None? ==> forall j :: k <= j < |quests| ==> !IsActive(quests[j], now)
    decreases |quests| - k
  {
    if k == |quests| then None
    else if IsActive(quests[k], now) then Some(k)
    else FindActiveFrom(quests, now, k + 1)
  }

  /**
    The first quest in iteration order that is active: not the excluded one,
    enrolled, not completed and not expired. None when no quest qualifies.
   */
  function FindActive(quests: seq<Quest>, now: Millis): (r: Option<nat>)
    ensures r.Some? ==> r.value < |quests| && IsActive(quests[r.value], now)
    ensures r.Some? ==> forall j :: 0 <= j < r.value ==> !IsActive(quests[j], now)
    ensures r.None? <==> forall j :: 0 <= j < |quests| ==> !IsActive(quests[j], now)
  {
    FindActiveFrom(quests, now, 0)
  }

  /** `taskConfig ?? taskConfigV2`. */
  function ConfigOf(q: Quest): (c: Option<TaskConfig>)
    ensures c.None? <==> q.taskConfig.None? && q.taskConfigV2.None?
    ensures q.taskConfig.Some? ==> c == q.taskConfig
    ensures q.taskConfig.None? ==> c == q.taskConfigV2
  {
    if q.taskConfig.Some? then q.taskConfig else q.taskConfigV2
  }

  /** The first name of `order` from position k on that is present in `tasks`. */
  function FirstPresentFrom(order: seq<TaskName>, tasks: TaskConfig, k: nat): (r: Option<TaskName>)
    requires k <= |order|
    ensures r.Some? ==> r.value in tasks
    ensures r.Some? ==> exists i :: (k <= i < |order| && order[i] == r.value &&
      forall j :: k <= j < i ==> order[j] !in tasks)
    ensures r.None? <==> forall j :: k <= j < |order| ==> order[j] !in tasks
    decreases |order| - k
  {
    if k == |order| then None
    else if order[k] in tasks then Some(order[k])
    else FirstPresentFrom(order, tasks, k + 1)
  }

  /** The task kind the plugin will complete: the first of TaskPriority the configuration holds. */
  function ChooseTask(tasks: TaskConfig): (r: Option<TaskName>)
    ensures r.Some? ==> r.value in tasks
    ensures r.Some? ==> exists i :: (0 <= i < |TaskPriority| && TaskPriority[i] == r.value &&
      forall j :: 0 <= j < i ==> TaskPriority[j] !in tasks)
    ensures r.None? <==> forall j :: 0 <= j < |TaskPriority| ==> TaskPriority[j] !in tasks
  {
    FirstPresentFrom(TaskPriority, tasks, 0)
  }

  predicate IsVideoTask(t: TaskName) { t == WatchVideo || t == WatchVideoOnMobile }

  /** A configuration holding only names the plugin does not know yields no task. */
  lemma UnknownTasksOnly(tasks: TaskConfig)
    requires forall t :: t in tasks ==> t.Other?
    ensures ChooseTask(tasks).None?
  {
  }

  /** A video task is chosen exactly when a video kind is present, the desktop video kind first. */
  lemma ChooseVideo(tasks: TaskConfig)
    ensures ChooseTask(tasks) == Some(WatchVideo) <==> WatchVideo in tasks
    ensures ChooseTask(tasks) == Some(WatchVideoOnMobile) <==> WatchVideo !in tasks && WatchVideoOnMobile in tasks
  {
  }
}
