/** `KubeMonitorJob`: the health check of one pod and the job that checks
    every pod of every watched namespace, publishing one failure message per
    failing pod, or one error message when collecting fails. Times are whole
    seconds. */
module KubeMonitorJob {
  import opened JavaLang

  /** `PodList.ContainerStateWaiting`. */
  datatype ContainerStateWaiting = ContainerStateWaiting(reason: Option<string>, message: Option<string>)

  /** `PodList.ContainerStatus`: `state.waiting`, `restartCount`, `ready`. */
  datatype ContainerStatus = ContainerStatus(waiting: Option<ContainerStateWaiting>, restartCount: int, ready: Option<bool>)

  /** `PodList.Pod`: the metadata and status fields the check reads. */
  datatype Pod = Pod(
    name: string,
    labels: map<string, string>,
    creationTimestamp: int,
    deletionTimestamp: Option<int>,
    phase: Option<string>,
    startTime: Option<int>,
    containerStatuses: seq<ContainerStatus>)

  /** Seconds a pod may stay in deletion or not ready: five minutes. */
  const Threshold: int := 300

  /** Java's `/` on `long`: the quotient truncated toward zero. */
  function TruncDiv(a: int, b: int): int
    requires b > 0
  {
    if a >= 0 then a / b else -((-a) / b)
  }

  /** `Duration.toString()` of a whole number of seconds, e.g. PT5M. */
  function DurationText(seconds: int): string
  {
    if seconds == 0 then "PT0S"
    else
      var hours := TruncDiv(seconds, 3600);
      var minutes := TruncDiv(seconds - hours * 3600, 60);
      var secs := seconds - hours * 3600 - minutes * 60;
      var text := "PT" + (if hours != 0 then DecimalText(hours) + "H" else "")
                       + (if minutes != 0 then DecimalText(minutes) + "M" else "");
      if secs == 0 && |text| > 2 then text else text + DecimalText(secs) + "S"
  }

  /** The five-minute threshold reads as PT5M. */
  lemma ThresholdText()
    ensures DurationText(Threshold) == "PT5M"
    ensures DurationText(Threshold + 1) == "PT5M1S"
  {
  }

  /** The text Java gives a possibly-null string in a concatenation. */
  function NullableText(s: Option<string>): string
  {
    match s
    case None => "null"
    case Some(v) => v
  }

  /** Why a pod is reported, with the text `check` returns for it. */
  datatype PodFailure =
    | StillInDeletion(elapsed: int)
    | UnexpectedPhase(phase: string)
    | ImagePullBackOff(message: Option<string>)
    | CrashLoopBackOff(message: Option<string>)
    | TooManyRestarts(restartCount: int)
    | StillNotReady(elapsed: int)
  {
    function Text(): string
    {
      match this
      case StillInDeletion(e) => "pod is still in deletion, elapsed=" + DurationText(e)
      case UnexpectedPhase(p) => "unexpected pod phase, phase=" + p
      case ImagePullBackOff(m) => "ImagePullBackOff: " + NullableText(m)
      case CrashLoopBackOff(m) => "CrashLoopBackOff: " + NullableText(m)
      case TooManyRestarts(n) => "pod restarted too many times, restart=" + DecimalText(n)
      case StillNotReady(e) => "pod is still not ready, elapsed=" + DurationText(e)
    }
  }

  predicate WaitingFor(c: ContainerStatus, reason: string)
  {
    c.waiting.Some? && c.waiting.value.reason == Some(reason)
  }

  function WaitingMessage(c: ContainerStatus): Option<string>
  {
    if c.waiting.Some? then c.waiting.value.message else None
  }

  /** A running container that `check` reports. */
  predicate Alarming(c: ContainerStatus)
  {
    WaitingFor(c, "CrashLoopBackOff") || c.restartCount >= 5
  }

  /** What an alarming container is reported for; CrashLoopBackOff wins over
      the restart count. */
  function AlarmOf(c: ContainerStatus): PodFailure
  {
    if WaitingFor(c, "CrashLoopBackOff") then CrashLoopBackOff(WaitingMessage(c))
    else TooManyRestarts(c.restartCount)
  }

  predicate Ready(c: ContainerStatus)
  {
    c.ready == Some(true)
  }

  /** The scan of a pending pod: the first container waiting on
      ImagePullBackOff. */
  function FirstImagePullBackOff(cs: seq<ContainerStatus>): Option<PodFailure>
    decreases |cs|
  {
    if cs == [] then None
    else if WaitingFor(cs[0], "ImagePullBackOff") then Some(ImagePullBackOff(WaitingMessage(cs[0])))
    else FirstImagePullBackOff(cs[1..])
  }

  datatype RunningScan = Alarm(failure: PodFailure) | AllReady | NotAllReady

  /** The scan of a running pod: the first alarming container, or else
      whether every container is ready. */
  function ScanRunning(cs: seq<ContainerStatus>): RunningScan
    decreases |cs|
  {
    if cs == [] then AllReady
    else if Alarming(cs[0]) then Alarm(AlarmOf(cs[0]))
    else
      match ScanRunning(cs[1..])
      case Alarm(f) => Alarm(f)
      case AllReady => if Ready(cs[0]) then AllReady else NotAllReady
      case NotAllReady => NotAllReady
  }

  /** The last test of `check`: not ready for five minutes since it started
      (or, before it started, since it was created). */
  function StartTimeCheck(pod: Pod, now: int): Option<PodFailure>
  {
    var start := if pod.startTime.Some? then pod.startTime.value else pod.creationTimestamp;
    if now - start >= Threshold then Some(StillNotReady(now - start)) else None
  }

  /** `check(pod, now)`: None for a healthy pod, else why it is failing. */
  function Check(pod: Pod, now: int): Option<PodFailure>
  {
    if pod.deletionTimestamp.Some? then
      var elapsed := now - pod.deletionTimestamp.value;
      if elapsed >= Threshold then Some(StillInDeletion(elapsed)) else None
    else if pod.phase == Some("Succeeded") then None
    else if pod.phase == Some("Failed") || pod.phase == Some("Unknown") then Some(UnexpectedPhase(pod.phase.value))
    else if pod.phase == Some("Pending") && FirstImagePullBackOff(pod.containerStatuses).Some? then
      FirstImagePullBackOff(pod.containerStatuses)
    else if pod.phase == Some("Running") && ScanRunning(pod.containerStatuses).Alarm? then
      Some(ScanRunning(pod.containerStatuses).failure)
    else if pod.phase == Some("Running") && ScanRunning(pod.containerStatuses) == AllReady then None
    else StartTimeCheck(pod, now)
  }

  // ---------------------------------------------------------------------
  // The scans, by position

  lemma {:induction false} FirstImagePullBackOffAt(cs: seq<ContainerStatus>, i: int)
    requires 0 <= i < |cs| && WaitingFor(cs[i], "ImagePullBackOff")
    requires forall j :: 0 <= j < i ==> !WaitingFor(cs[j], "ImagePullBackOff")
    ensures FirstImagePullBackOff(cs) == Some(ImagePullBackOff(WaitingMessage(cs[i])))
    decreases i
  {
    if i > 0 {
      FirstImagePullBackOffAt(cs[1..], i - 1);
    }
  }

  lemma {:induction false} NoImagePullBackOff(cs: seq<ContainerStatus>)
    requires forall j :: 0 <= j < |cs| ==> !WaitingFor(cs[j], "ImagePullBackOff")
    ensures FirstImagePullBackOff(cs) == None
    decreases |cs|
  {
    if cs != [] {
      NoImagePullBackOff(cs[1..]);
    }
  }

  lemma {:induction false} ScanRunningAt(cs: seq<ContainerStatus>, i: int)
    requires 0 <= i < |cs| && Alarming(cs[i])
    requires forall j :: 0 <= j < i ==> !Alarming(cs[j])
    ensures ScanRunning(cs) == Alarm(AlarmOf(cs[i]))
    decreases i
  {
    if i > 0 {
      ScanRunningAt(cs[1..], i - 1);
    }
  }

  lemma {:induction false} ScanRunningQuiet(cs: seq<ContainerStatus>)
    requires forall j :: 0 <= j < |cs| ==> !Alarming(cs[j])
    ensures ScanRunning(cs) == if forall j :: 0 <= j < |cs| ==> Ready(cs[j]) then AllReady else NotAllReady
    decreases |cs|
  {
    if cs != [] {
      ScanRunningQuiet(cs[1..]);
      assert forall j :: 1 <= j < |cs| ==> cs[1..][j - 1] == cs[j];
    }
  }

  // ---------------------------------------------------------------------
  // Properties of check

  /** A pod in deletion is judged by the time since deletion alone: its phase
      and containers do not matter, and it is reported from five minutes on. */
  lemma DeletionOnlyElapsed(pod: Pod, now: int, other: Pod, otherNow: int)
    requires pod.deletionTimestamp.Some? && other.deletionTimestamp.Some?
    requires now - pod.deletionTimestamp.value == otherNow - other.deletionTimestamp.value
    ensures Check(pod, now) == Check(other, otherNow)
    ensures Check(pod, now).Some? <==> now - pod.deletionTimestamp.value >= Threshold
  {
  }

  /** Without deletion, a succeeded pod is healthy and a failed or unknown
      one is reported with its phase. */
  lemma TerminalPhases(pod: Pod, now: int)
    requires pod.deletionTimestamp.None?
    ensures pod.phase == Some("Succeeded") ==> Check(pod, now) == None
    ensures pod.phase == Some("Failed") ==> Check(pod, now) == Some(UnexpectedPhase("Failed"))
    ensures pod.phase == Some("Unknown") ==> Check(pod, now) == Some(UnexpectedPhase("Unknown"))
  {
  }

  /** A pending pod is reported for the first container, in list order,
      waiting on ImagePullBackOff. */
  lemma PendingImagePullBackOff(pod: Pod, now: int, i: int)
    requires pod.deletionTimestamp.None? && pod.phase == Some("Pending")
    requires 0 <= i < |pod.containerStatuses| && WaitingFor(pod.containerStatuses[i], "ImagePullBackOff")
    requires forall j :: 0 <= j < i ==> !WaitingFor(pod.containerStatuses[j], "ImagePullBackOff")
    ensures Check(pod, now) == Some(ImagePullBackOff(WaitingMessage(pod.containerStatuses[i])))
  {
    FirstImagePullBackOffAt(pod.containerStatuses, i);
  }

  /** A running pod is reported for the first container, in list order, in
      CrashLoopBackOff or restarted five times or more; within one container
      CrashLoopBackOff is reported before the restart count. */
  lemma RunningFirstAlarm(pod: Pod, now: int, i: int)
    requires pod.deletionTimestamp.None? && pod.phase == Some("Running")
    requires 0 <= i < |pod.containerStatuses| && Alarming(pod.containerStatuses[i])
    requires forall j :: 0 <= j < i ==> !Alarming(pod.containerStatuses[j])
    ensures Check(pod, now) == Some(AlarmOf(pod.containerStatuses[i]))
    ensures WaitingFor(pod.containerStatuses[i], "CrashLoopBackOff") ==>
      Check(pod, now) == Some(CrashLoopBackOff(WaitingMessage(pod.containerStatuses[i])))
  {
    ScanRunningAt(pod.containerStatuses, i);
  }

  /** A running pod whose containers are all ready and none alarming is
      healthy; so is one without containers. */
  lemma RunningAllReady(pod: Pod, now: int)
    requires pod.deletionTimestamp.None? && pod.phase == Some("Running")
    requires forall j :: 0 <= j < |pod.containerStatuses| ==>
      !Alarming(pod.containerStatuses[j]) && Ready(pod.containerStatuses[j])
    ensures Check(pod, now) == None
  {
    ScanRunningQuiet(pod.containerStatuses);
  }

  /** Every other pod is reported exactly when it has not become ready for
      five minutes after its start time, or its creation when it has none. */
  lemma FallsThroughToStartTime(pod: Pod, now: int)
    requires pod.deletionTimestamp.None?
    requires pod.phase != Some("Succeeded") && pod.phase != Some("Failed") && pod.phase != Some("Unknown")
    requires pod.phase == Some("Pending") ==>
      forall j :: 0 <= j < |pod.containerStatuses| ==> !WaitingFor(pod.containerStatuses[j], "ImagePullBackOff")
    requires pod.phase == Some("Running") ==>
      && (forall j :: 0 <= j < |pod.containerStatuses| ==> !Alarming(pod.containerStatuses[j]))
      && (exists j :: 0 <= j < |pod.containerStatuses| && !Ready(pod.containerStatuses[j]))
    ensures var start := if pod.startTime.Some? then pod.startTime.value else pod.creationTimestamp;
      Check(pod, now) == if now - start >= Threshold then Some(StillNotReady(now - start)) else None
  {
    if pod.phase == Some("Pending") {
      NoImagePullBackOff(pod.containerStatuses);
    }
    if pod.phase == Some("Running") {
      ScanRunningQuiet(pod.containerStatuses);
    }
  }

  /** A ready running container that restarted five times is reported. */
  lemma ReadyButRestartedReported(now: int)
    ensures var c := ContainerStatus(None, 5, Some(true));
      Check(Pod("p", map[], now, None, Some("Running"), Some(now), [c]), now)
        == Some(TooManyRestarts(5))
  {
    var c := ContainerStatus(None, 5, Some(true));
    ScanRunningAt([c], 0);
  }

  /** `check` written as in the job: loops over the containers with early
      returns and a `ready` flag. */
  method CheckPod(pod: Pod, now: int) returns (r: Option<PodFailure>)
    ensures r == Check(pod, now)
  {
    if pod.deletionTimestamp.Some? {
      var elapsed := now - pod.deletionTimestamp.value;
      if elapsed >= Threshold {
        return Some(StillInDeletion(elapsed));
      }
      return None;
    }
    var phase := pod.phase;
    if phase == Some("Succeeded") {
      return None;
    }
    if phase == Some("Failed") || phase == Some("Unknown") {
      return Some(UnexpectedPhase(phase.value));
    }
    var cs := pod.containerStatuses;
    if phase == Some("Pending") {
      for i := 0 to |cs|
        invariant forall j :: 0 <= j < i ==> !WaitingFor(cs[j], "ImagePullBackOff")
      {
        if WaitingFor(cs[i], "ImagePullBackOff") {
          FirstImagePullBackOffAt(cs, i);
          return Some(ImagePullBackOff(cs[i].waiting.value.message));
        }
      }
      NoImagePullBackOff(cs);
    }
    if phase == Some("Running") {
      var ready := true;
      for i := 0 to |cs|
        invariant forall j :: 0 <= j < i ==> !Alarming(cs[j])
        invariant ready <==> forall j :: 0 <= j < i ==> Ready(cs[j])
      {
        if WaitingFor(cs[i], "CrashLoopBackOff") {
          ScanRunningAt(cs, i);
          return Some(CrashLoopBackOff(cs[i].waiting.value.message));
        }
        if cs[i].restartCount >= 5 {
          ScanRunningAt(cs, i);
          return Some(TooManyRestarts(cs[i].restartCount));
        }
        if cs[i].ready != Some(true) {
          ready := false;
        }
      }
      ScanRunningQuiet(cs);
      if ready {
        return None;
      }
    }
    var startTime := if pod.startTime.Some? then pod.startTime.value else pod.creationTimestamp;
    var elapsed := now - startTime;
    if elapsed >= Threshold {
      return Some(StillNotReady(elapsed));
    }
    return None;
  }

  // ---------------------------------------------------------------------
  // The job

  /** `StatMessage`, without its id and date. */
  datatype StatMessage = StatMessage(
    result: string, app: string, host: Option<string>, errorCode: string, errorMessage: Option<string>)

  /** What `kubeClient.listPods(namespace)` gives: the pods, or the
      throwable it raises, with its message. */
  datatype PodListing = Pods(items: seq<Pod>) | ListFailed(message: Option<string>)

  /** The `app` label, or the pod name when the label is missing. */
  function AppOf(pod: Pod): string
  {
    if "app" in pod.labels then pod.labels["app"] else pod.name
  }

  /** `publishPodFailure`. */
  function PodFailureMessage(pod: Pod, failure: PodFailure): StatMessage
  {
    StatMessage("ERROR", AppOf(pod), Some(pod.name), "POD_FAILURE", Some(failure.Text()))
  }

  /** `publishError`. */
  function ErrorMessage(message: Option<string>): StatMessage
  {
    StatMessage("ERROR", "kubernetes", None, "FAILED_TO_COLLECT", message)
  }

  /** The messages published for the pods of one namespace, in list order:
      `messages(pod)` for each pod. */
  function Failures(items: seq<Pod>, messages: Pod -> seq<StatMessage>): seq<StatMessage>
    decreases |items|
  {
    if items == [] then []
    else Failures(items[..|items| - 1], messages) + messages(items[|items| - 1])
  }

  /** The message published for one pod: one when the check fails, none
      otherwise. */
  function PodMessages(pod: Pod, now: int): seq<StatMessage>
  {
    match Check(pod, now)
    case Some(f) => [PodFailureMessage(pod, f)]
    case None => []
  }

  /** `PodMessages` at the time of one run. */
  function PodMessagesAt(now: int): Pod -> seq<StatMessage>
  {
    pod => PodMessages(pod, now)
  }

  /** The messages published for one namespace: the error message when
      listing its pods failed, otherwise its pods' failures. */
  function ListingMessages(listing: PodListing, messages: Pod -> seq<StatMessage>): seq<StatMessage>
  {
    match listing
    case ListFailed(m) => [ErrorMessage(m)]
    case Pods(items) => Failures(items, messages)
  }

  /** The messages one run publishes: those of each namespace in order,
      until a listing fails, which ends the run with one error message. */
  function Messages(listings: seq<PodListing>, messages: Pod -> seq<StatMessage>): seq<StatMessage>
    decreases |listings|
  {
    if listings == [] then []
    else if listings[0].ListFailed? then ListingMessages(listings[0], messages)
    else ListingMessages(listings[0], messages) + Messages(listings[1..], messages)
  }

  /** A pod yields one message exactly when its check fails: an ERROR with
      code POD_FAILURE, for the pod's app, with the pod as host and the
      failure's text. */
  lemma PodMessagesSpec(pod: Pod, now: int)
    ensures |PodMessages(pod, now)| <= 1
    ensures PodMessages(pod, now) == [] <==> Check(pod, now).None?
    ensures forall m :: m in PodMessages(pod, now) ==>
      && m.result == "ERROR" && m.errorCode == "POD_FAILURE"
      && m.app == AppOf(pod) && m.host == Some(pod.name)
      && m.errorMessage == Some(Check(pod, now).value.Text())
  {
  }

  /** Every pod's messages are among those published for its namespace. */
  lemma {:induction false} FailuresComplete(items: seq<Pod>, messages: Pod -> seq<StatMessage>)
    ensures forall k, m :: 0 <= k < |items| && m in messages(items[k]) ==> m in Failures(items, messages)
    decreases |items|
  {
    if items != [] {
      var n := |items| - 1;
      var init := items[..n];
      FailuresComplete(init, messages);
      assert forall k :: 0 <= k < n ==> init[k] == items[k];
    }
  }

  /** Every message published for a namespace is a message of one of its
      pods, and with at most one message per pod there are at most as many
      messages as pods. */
  lemma {:induction false} FailuresSound(items: seq<Pod>, messages: Pod -> seq<StatMessage>)
    ensures forall m :: m in Failures(items, messages) ==> exists k :: 0 <= k < |items| && m in messages(items[k])
    ensures (forall k :: 0 <= k < |items| ==> |messages(items[k])| <= 1) ==> |Failures(items, messages)| <= |items|
    decreases |items|
  {
    if items != [] {
      var n := |items| - 1;
      var init := items[..n];
      FailuresSound(init, messages);
      assert forall k :: 0 <= k < n ==> init[k] == items[k];
    }
  }

  /** Nothing is published for a namespace exactly when no pod has a
      message. */
  lemma {:induction false} FailuresNone(items: seq<Pod>, messages: Pod -> seq<StatMessage>)
    ensures Failures(items, messages) == [] <==> forall k :: 0 <= k < |items| ==> messages(items[k]) == []
    decreases |items|
  {
    if items != [] {
      var n := |items| - 1;
      var init := items[..n];
      FailuresNone(init, messages);
      assert forall k :: 0 <= k < n ==> init[k] == items[k];
    }
  }

  /** One namespace yields at most one message per pod, each an ERROR with
      code POD_FAILURE naming a pod of the namespace as host, and none
      exactly when no pod fails its check. */
  lemma FailuresMessages(items: seq<Pod>, now: int)
    ensures |Failures(items, PodMessagesAt(now))| <= |items|
    ensures forall m :: m in Failures(items, PodMessagesAt(now)) ==>
      m.result == "ERROR" && m.errorCode == "POD_FAILURE" && m.host.Some?
    ensures Failures(items, PodMessagesAt(now)) == [] <==> forall k :: 0 <= k < |items| ==> Check(items[k], now).None?
  {
    var f := PodMessagesAt(now);
    FailuresSound(items, f);
    FailuresNone(items, f);
    forall k | 0 <= k < |items|
      ensures |f(items[k])| <= 1
      ensures f(items[k]) == [] <==> Check(items[k], now).None?
      ensures forall m :: m in f(items[k]) ==> m.result == "ERROR" && m.errorCode == "POD_FAILURE" && m.host.Some?
    {
      PodMessagesSpec(items[k], now);
    }
  }

  /** When listing namespace i is the first to fail, the run publishes the
      failures of the namespaces before it and then exactly one error
      message, for the kubernetes app, with FAILED_TO_COLLECT. */
  lemma {:induction false} FailedListingEndsRun(listings: seq<PodListing>, now: int, i: int)
    requires 0 <= i < |listings| && listings[i].ListFailed?
    requires forall j :: 0 <= j < i ==> listings[j].Pods?
    ensures Messages(listings, PodMessagesAt(now)) == Messages(listings[..i], PodMessagesAt(now)) + [ErrorMessage(listings[i].message)]
    ensures forall m :: m in Messages(listings[..i], PodMessagesAt(now)) ==> m.errorCode == "POD_FAILURE"
    decreases i
  {
    if i == 0 {
      assert listings[..0] == [];
    } else {
      FailedListingEndsRun(listings[1..], now, i - 1);
      assert listings[1..][..i - 1] == listings[..i][1..];
      FailuresMessages(listings[0].items, now);
    }
  }

  lemma FailuresStep(items: seq<Pod>, k: int, messages: Pod -> seq<StatMessage>)
    requires 0 <= k < |items|
    ensures Failures(items[..k + 1], messages) == Failures(items[..k], messages) + messages(items[k])
  {
    assert items[..k + 1][..k] == items[..k];
  }

  /** One step of the outer loop: publishing the messages of namespace i
      after `before` either completes the run or leaves the messages of the
      remaining namespaces to publish. */
  lemma MessagesStep(listings: seq<PodListing>, i: int, messages: Pod -> seq<StatMessage>, before: seq<StatMessage>, after: seq<StatMessage>)
    requires 0 <= i < |listings|
    requires after == before + ListingMessages(listings[i], messages)
    ensures listings[i].ListFailed? ==> after == before + Messages(listings[i..], messages)
    ensures listings[i].Pods? ==> after + Messages(listings[i + 1..], messages) == before + Messages(listings[i..], messages)
  {
    assert listings[i..][1..] == listings[i + 1..];
  }

  /** The Kafka publisher: the messages published so far. */
  class MessagePublisher {
    var published: seq<StatMessage>

    constructor ()
      ensures published == []
    {
      published := [];
    }

    method Publish(message: StatMessage)
      modifies this
      ensures published == old(published) + [message]
    {
      published := published + [message];
    }
  }

  class KubeMonitorJob {
    const namespaces: seq<string>
    const publisher: MessagePublisher

    constructor (namespaces: seq<string>, publisher: MessagePublisher)
      ensures this.namespaces == namespaces && this.publisher == publisher
    {
      this.namespaces := namespaces;
      this.publisher := publisher;
    }

    /** `execute`. `listings[i]` is what listing the pods of `namespaces[i]`
        gives at this run; `now` is the time of the run. */
    method Execute(now: int, listings: seq<PodListing>)
      requires |listings| == |namespaces|
      modifies publisher
      ensures publisher.published == old(publisher.published) + Messages(listings, PodMessagesAt(now))
    {
      ghost var messages := PodMessagesAt(now);
      ghost var target := publisher.published + Messages(listings, messages);
      for i := 0 to |namespaces|
        invariant publisher.published + Messages(listings[i..], messages) == target
      {
        ghost var before := publisher.published;
        var failed := PublishListing(listings[i], now);
        MessagesStep(listings, i, messages, before, publisher.published);
        if failed {
          return;
        }
      }
      assert listings[|namespaces|..] == [];
    }

    /** One namespace of the outer loop: an error message when listing its
        pods failed, which ends the run, otherwise its pods' failures. */
    method PublishListing(listing: PodListing, now: int) returns (failed: bool)
      modifies publisher
      ensures failed <==> listing.ListFailed?
      ensures publisher.published == old(publisher.published) + ListingMessages(listing, PodMessagesAt(now))
    {
      if listing.ListFailed? {
        publisher.Publish(ErrorMessage(listing.message));
        return true;
      }
      PublishFailures(listing.items, now);
      return false;
    }

    /** One pod of the inner loop: check it and publish its failure, if
        any. */
    method PublishPod(pod: Pod, now: int)
      modifies publisher
      ensures publisher.published == old(publisher.published) + PodMessages(pod, now)
    {
      var failure := CheckPod(pod, now);
      if failure.Some? {
        publisher.Publish(PodFailureMessage(pod, failure.value));
      }
    }

    /** The inner loop of `execute`: check each pod of one namespace and
        publish a failure message for each failing one. */
    method PublishFailures(items: seq<Pod>, now: int)
      modifies publisher
      ensures publisher.published == old(publisher.published) + Failures(items, PodMessagesAt(now))
    {
      ghost var start := publisher.published;
      for k := 0 to |items|
        invariant publisher.published == start + Failures(items[..k], PodMessagesAt(now))
      {
        FailuresStep(items, k, PodMessagesAt(now));
        PublishPod(items[k], now);
      }
      assert items[..|items|] == items;
    }
  }
}
