/**
  * The application master: it registers with the resource manager, asks for one
  * container per worker, launches the crawler in every container it is given, counts
  * the completed containers and unregisters once the count of containers to wait for
  * reaches zero.
  *
  * The resource-manager client, the node-manager client and the file system are not
  * modelled; each call the master makes to them is recorded in the ghost call log
  * `calls`. The callbacks the resource-manager client delivers on its own threads are
  * modelled as sequential calls of `OnContainersAllocated` and `OnContainersCompleted`;
  * which callbacks arrive while the master issues its requests and while it polls for
  * completion is a parameter of `RunMainLoop` (a schedule of events).
  */
module AppMaster {
  import opened Wrappers
  import Text

  // ---------------------------------------------------------------------------
  // 32-bit counters

  newtype int32 = x: int | -0x8000_0000 <= x < 0x8000_0000

  const INT32_MIN: int32 := -0x8000_0000
  const INT32_MAX: int32 := 0x7fff_ffff

  /** `AtomicInteger.decrementAndGet`: two's complement, so the smallest value wraps to the largest. */
  function Decrement(x: int32): int32
  {
    if x == INT32_MIN then INT32_MAX else x - 1
  }

  /** The counter after `k` calls of `decrementAndGet`. */
  function DecrementTimes(x: int32, k: nat): int32
  {
    if k == 0 then x else Decrement(DecrementTimes(x, k - 1))
  }

  /** As long as the counter does not pass the bottom of the range, k decrements lower it by k. */
  lemma {:induction false} DecrementTimesExact(x: int32, k: nat)
    requires x as int - k >= INT32_MIN as int
    ensures DecrementTimes(x, k) as int == x as int - k
  {
    if k > 0 {
      DecrementTimesExact(x, k - 1);
    }
  }

  /** There is no floor: one decrement past the bottom of the range wraps to the top. */
  lemma CounterWrapsBelowMinimum(x: int32, k: nat)
    requires x as int - k == INT32_MIN as int - 1
    ensures DecrementTimes(x, k) == INT32_MAX
  {
    DecrementTimesExact(x, k - 1);
  }

  lemma {:induction false} DecrementTimesAdd(x: int32, j: nat, k: nat)
    ensures DecrementTimes(DecrementTimes(x, j), k) == DecrementTimes(x, j + k)
  {
    if k > 0 {
      DecrementTimesAdd(x, j, k - 1);
    }
  }

  /** Unless the counter wraps, it reaches zero exactly when as many decrements as its
      initial value have been made. */
  lemma DoneIffAllCompleted(containersNum: int32, completed: nat)
    requires containersNum as int - completed >= INT32_MIN as int
    ensures DecrementTimes(containersNum, completed) == 0 <==> completed == containersNum as int
  {
    DecrementTimesExact(containersNum, completed);
  }

  // ---------------------------------------------------------------------------
  // Records exchanged with the cluster

  datatype Resource = Resource(memory: int, virtualCores: int)

  /** `new ContainerRequest(capability, nodes, racks, priority)`; `racks == None` is null. */
  datatype ContainerRequest = ContainerRequest(capability: Resource, nodes: seq<string>,
                                               racks: Option<seq<string>>, priority: int)

  datatype LocalResourceType = FILE
  datatype LocalResourceVisibility = PUBLIC

  /** The jar to stage in the container; `resource` is the path the URL is made from. */
  datatype LocalResource = LocalResource(resource: string, kind: LocalResourceType, timestamp: int,
                                         size: int, visibility: LocalResourceVisibility)

  /** The parts of a `ContainerLaunchContext` the master sets, less the environment. */
  datatype LaunchContext = LaunchContext(commands: seq<string>, localResources: map<string, LocalResource>)

  datatype Container = Container(id: nat, nodeHost: string)

  /** What the file system reports for the jar: modification time and length. */
  datatype JarStatus = JarStatus(modificationTime: int, len: int)

  /** A container granted by the resource manager, together with what the outside world
      does when the master launches it: the status of the jar (None when `getFileStatus`
      throws) and whether `startContainer` throws. */
  datatype Allocation = Allocation(container: Container, jarStatus: Option<JarStatus>, startThrows: bool)

  datatype ContainerState = NEW | RUNNING | COMPLETE

  datatype ContainerStatus = ContainerStatus(containerId: nat, state: ContainerState, exitStatus: int,
                                             diagnostics: string)

  datatype FinalApplicationStatus = UNDEFINED | SUCCEEDED | FAILED | KILLED

  /** A call the master makes to the resource manager or to the node manager. */
  datatype Call =
    | RegisterApplicationMaster(appHostName: string, appHostPort: int, appTrackingUrl: string)
    | AddContainerRequest(request: ContainerRequest)
    | StartContainer(container: Container, context: LaunchContext, threw: bool)
    | UnregisterApplicationMaster(finalStatus: FinalApplicationStatus, message: string, trackingUrl: string)

  /** A callback of the resource-manager client. */
  datatype Event =
    | ContainersAllocated(allocations: seq<Allocation>)
    | ContainersCompleted(statuses: seq<ContainerStatus>)

  datatype BlockLocation = BlockLocation(hosts: seq<string>)

  datatype JobPaths = JobPaths(input: string, output: string, jar: string)

  /** How `runMainLoop` ends: the input file is missing (an error is logged); the file has
      no block location (indexing `blockLocations[0]` throws); the master unregistered; or
      the schedule of callbacks ran out while the master was still polling. */
  datatype RunOutcome = InputMissing | NoBlockLocations | Unregistered | StillPolling

  // ---------------------------------------------------------------------------
  // Requests and launch contexts

  /** Every request: priority 0, 128 MB and one virtual core, the given hosts, no racks. */
  function ContainerRequestFor(hosts: seq<string>): ContainerRequest
  {
    ContainerRequest(Resource(128, 1), hosts, None, 0)
  }

  const LOG_DIR_EXPANSION_VAR: string := "<LOG_DIR>"
  const JAR_RESOURCE_NAME: string := "simple2.jar"

  // The fixed words of the launch command.
  const JAVA_BIN: string := "$JAVA_HOME/bin/java"
  const HEAP_OPTION: string := "-Xmx128M"
  const CRAWLER_CLASS: string := "com.epam.hadoop.yarn.Crawler"
  const STDOUT_REDIRECT: string := "1>" + LOG_DIR_EXPANSION_VAR + "/stdout"
  const STDERR_REDIRECT: string := "2>" + LOG_DIR_EXPANSION_VAR + "/stderr"

  /** The one command of a launch context: the words above and the two paths, each preceded
      by one space, concatenated in the order the source concatenates them. */
  function LaunchCommand(input: string, output: string): string
  {
    JAVA_BIN + " " + HEAP_OPTION + " " + CRAWLER_CLASS + " " + input + " " + output
      + " " + STDOUT_REDIRECT + " " + STDERR_REDIRECT
  }

  /** The words of the command: the JVM, its heap option, the crawler class, then the
      crawler's two arguments, then the two redirections. */
  function CrawlerCommandWords(input: string, output: string): seq<string>
  {
    [JAVA_BIN, HEAP_OPTION, CRAWLER_CLASS, input, output, STDOUT_REDIRECT, STDERR_REDIRECT]
  }

  /** Split on spaces, the command runs the crawler with the input path, then the output path. */
  lemma CommandRunsCrawler(input: string, output: string)
    requires ' ' !in input && ' ' !in output
    ensures Text.Fields(LaunchCommand(input, output), ' ') == CrawlerCommandWords(input, output)
  {
    var words := CrawlerCommandWords(input, output);
    CommandIsJoin(input, output);
    FixedWordsHaveNoSpace();
    assert forall i :: 0 <= i < |words| ==> ' ' !in words[i];
    Text.FieldsOfJoin(words, ' ');
  }

  lemma FixedWordsHaveNoSpace()
    ensures ' ' !in JAVA_BIN && ' ' !in HEAP_OPTION && ' ' !in CRAWLER_CLASS
    ensures ' ' !in STDOUT_REDIRECT && ' ' !in STDERR_REDIRECT
  {
    assert forall j :: 0 <= j < |JAVA_BIN| ==> JAVA_BIN[j] != ' ';
    assert forall j :: 0 <= j < |HEAP_OPTION| ==> HEAP_OPTION[j] != ' ';
    assert forall j :: 0 <= j < |CRAWLER_CLASS| ==> CRAWLER_CLASS[j] != ' ';
    assert forall j :: 0 <= j < |STDOUT_REDIRECT| ==> STDOUT_REDIRECT[j] != ' ';
    assert forall j :: 0 <= j < |STDERR_REDIRECT| ==> STDERR_REDIRECT[j] != ' ';
  }

  lemma CommandIsJoin(input: string, output: string)
    ensures Text.Join(CrawlerCommandWords(input, output), ' ') == LaunchCommand(input, output)
  {
    var a, b, c, d, e := JAVA_BIN, HEAP_OPTION, CRAWLER_CLASS, STDOUT_REDIRECT, STDERR_REDIRECT;
    var words := CrawlerCommandWords(input, output);
    assert words == [a] + ([b] + ([c] + ([input] + ([output] + ([d] + [e])))));
    Text.JoinCons(d, [e], ' ');
    Text.JoinCons(output, [d] + [e], ' ');
    Text.JoinCons(input, [output] + ([d] + [e]), ' ');
    Text.JoinCons(c, [input] + ([output] + ([d] + [e])), ' ');
    Text.JoinCons(b, [c] + ([input] + ([output] + ([d] + [e]))), ' ');
    Text.JoinCons(a, [b] + ([c] + ([input] + ([output] + ([d] + [e])))), ' ');
    Reassociate(a, b, c, input, output, d, e, " ");
  }

  lemma Reassociate(a: string, b: string, c: string, input: string, output: string, d: string, e: string,
                    sp: string)
    ensures a + sp + b + sp + c + sp + input + sp + output + sp + d + sp + e
      == a + sp + (b + sp + (c + sp + (input + sp + (output + sp + (d + sp + e)))))
  {
  }

  /** `addJarAsLocalResource`: the context gains the jar as its one local resource, keyed
      "simple2.jar"; None when looking up the jar's status throws. */
  function AddJarAsLocalResource(context: LaunchContext, jar: string, status: Option<JarStatus>): (r: Option<LaunchContext>)
    ensures r.Some? <==> status.Some?
    ensures r.Some? ==> r.value.commands == context.commands
    ensures r.Some? ==> r.value.localResources.Keys == {JAR_RESOURCE_NAME}
    ensures r.Some? ==> var resource := r.value.localResources[JAR_RESOURCE_NAME];
      resource.resource == jar && resource.kind == FILE && resource.visibility == PUBLIC
      && resource.timestamp == status.value.modificationTime && resource.size == status.value.len
  {
    match status
    case None => None
    case Some(st) =>
      Some(context.(localResources := map[JAR_RESOURCE_NAME := LocalResource(jar, FILE, st.modificationTime, st.len, PUBLIC)]))
  }

  /** The launch context built for one allocated container. */
  function LaunchContextFor(paths: JobPaths, status: Option<JarStatus>): (r: Option<LaunchContext>)
    ensures r.Some? <==> status.Some?
    ensures r.Some? ==> r.value.commands == [LaunchCommand(paths.input, paths.output)]
    ensures r.Some? ==> r.value.localResources.Keys == {JAR_RESOURCE_NAME}
  {
    AddJarAsLocalResource(LaunchContext([LaunchCommand(paths.input, paths.output)], map[]), paths.jar, status)
  }

  /** The part of every launch context that the master's paths fix: the command and the
      path of the jar. `LaunchContextFor` is the definition of a launch context; the
      template form below builds the same context (`TemplateBuildsLaunchContext`) and exists
      so that the specification of the callbacks can carry the finished command string
      instead of rebuilding it from the paths in every proof. */
  datatype LaunchTemplate = LaunchTemplate(command: string, jar: string)

  function TemplateFor(paths: JobPaths): LaunchTemplate
  {
    LaunchTemplate(LaunchCommand(paths.input, paths.output), paths.jar)
  }

  /** The launch context for a template, once the jar's status is known. */
  function ContextFromTemplate(template: LaunchTemplate, status: Option<JarStatus>): (r: Option<LaunchContext>)
    ensures r.Some? <==> status.Some?
  {
    AddJarAsLocalResource(LaunchContext([template.command], map[]), template.jar, status)
  }

  /** The context built from a master's template is the one `LaunchContextFor` describes. */
  lemma TemplateBuildsLaunchContext(paths: JobPaths, status: Option<JarStatus>)
    ensures ContextFromTemplate(TemplateFor(paths), status) == LaunchContextFor(paths, status)
  {
  }

  // ---------------------------------------------------------------------------
  // The master's state as a value, and what each step does to it

  datatype MasterState = MasterState(containersNumToWait: int32, launchedContainers: int32, calls: seq<Call>)

  /** The calls made for one allocated container: none when the jar lookup throws (the
      exception is caught before `startContainer`), otherwise one `startContainer`, which
      is recorded whether or not it throws. */
  function AttemptCalls(a: Allocation, template: LaunchTemplate): (r: seq<Call>)
    ensures |r| <= 1
    ensures |r| == 1 <==> a.jarStatus.Some?
  {
    match ContextFromTemplate(template, a.jarStatus)
    case None => []
    case Some(context) => [StartContainer(a.container, context, a.startThrows)]
  }

  /** The calls made for a batch of allocated containers, in the order of the batch. */
  function LaunchCalls(allocations: seq<Allocation>, template: LaunchTemplate): (r: seq<Call>)
    ensures |r| <= |allocations|
  {
    if allocations == [] then []
    else
      var n := |allocations| - 1;
      LaunchCalls(allocations[..n], template) + AttemptCalls(allocations[n], template)
  }

  lemma LaunchCallsStep(allocations: seq<Allocation>, i: nat, template: LaunchTemplate)
    requires i < |allocations|
    ensures LaunchCalls(allocations[..i + 1], template) == LaunchCalls(allocations[..i], template) + AttemptCalls(allocations[i], template)
  {
    assert allocations[..i + 1][..i] == allocations[..i];
  }

  function AfterCompleted(s: MasterState, statuses: seq<ContainerStatus>): MasterState
  {
    s.(containersNumToWait := DecrementTimes(s.containersNumToWait, |statuses|))
  }

  function AfterAllocated(s: MasterState, allocations: seq<Allocation>, template: LaunchTemplate): MasterState
  {
    s.(calls := s.calls + LaunchCalls(allocations, template))
  }

  function AfterEvent(s: MasterState, e: Event, template: LaunchTemplate): MasterState
  {
    match e
    case ContainersAllocated(allocations) => AfterAllocated(s, allocations, template)
    case ContainersCompleted(statuses) => AfterCompleted(s, statuses)
  }

  /** The state after the callbacks `events`, delivered one after the other. */
  function AfterEvents(s: MasterState, events: seq<Event>, template: LaunchTemplate): MasterState
  {
    if events == [] then s
    else AfterEvent(AfterEvents(s, events[..|events| - 1], template), events[|events| - 1], template)
  }

  /** The number of container statuses reported by `events`. */
  function CompletedCount(events: seq<Event>): nat
  {
    if events == [] then 0
    else
      var e := events[|events| - 1];
      CompletedCount(events[..|events| - 1]) + (if e.ContainersCompleted? then |e.statuses| else 0)
  }

  /** The allocated containers reported by `events`, in order. */
  function AllocationsOf(events: seq<Event>): seq<Allocation>
  {
    if events == [] then []
    else
      var e := events[|events| - 1];
      AllocationsOf(events[..|events| - 1]) + (if e.ContainersAllocated? then e.allocations else [])
  }

  /** The callbacks delivered at step `i` of a schedule; none once the schedule runs out. */
  function EventsAt(schedule: seq<seq<Event>>, i: nat): seq<Event>
  {
    if i < |schedule| then schedule[i] else []
  }

  /** The request loop from iteration `i` on: the counter is read afresh at every test;
      `schedule[i + 1]` holds the callbacks that arrive after request `i`. */
  function IssueLoop(s: MasterState, i: nat, request: ContainerRequest, schedule: seq<seq<Event>>,
                     template: LaunchTemplate): MasterState
    requires i <= INT32_MAX as int
    decreases INT32_MAX as int - i
  {
    if i < s.containersNumToWait as int then
      var issued := s.(calls := s.calls + [AddContainerRequest(request)]);
      IssueLoop(AfterEvents(issued, EventsAt(schedule, i + 1), template), i + 1, request, schedule, template)
    else s
  }

  /** The polling loop from poll `j` on: done when the counter is zero; otherwise the
      callbacks `schedule[j]` arrive before the next poll. False when the schedule runs
      out first. */
  function AwaitDone(s: MasterState, schedule: seq<seq<Event>>, j: nat, template: LaunchTemplate): (MasterState, bool)
    requires j <= |schedule|
    decreases |schedule| - j
  {
    if s.containersNumToWait == 0 then (s, true)
    else if j < |schedule| then AwaitDone(AfterEvents(s, schedule[j], template), schedule, j + 1, template)
    else (s, false)
  }

  /** `runMainLoop`: register; when the input exists, ask for containers on the hosts of the
      first block while fewer requests than the counter have been made, poll until the
      counter is zero, then unregister with SUCCEEDED. */
  function RunMainLoopSpec(s: MasterState, template: LaunchTemplate, inputExists: bool, blockLocations: seq<BlockLocation>,
                           issueSchedule: seq<seq<Event>>, waitSchedule: seq<seq<Event>>): (MasterState, RunOutcome)
  {
    var registered := Register(s);
    if !inputExists then (registered, InputMissing)
    else if blockLocations == [] then (registered, NoBlockLocations)
    else WaitThenUnregister(RequestContainers(registered, blockLocations[0].hosts, issueSchedule, template),
                            waitSchedule, template)
  }

  function Register(s: MasterState): MasterState
  {
    s.(calls := s.calls + [RegisterApplicationMaster("", 0, "")])
  }

  /** The request loop, with the callbacks of `schedule[0]` delivered before its first test. */
  function RequestContainers(s: MasterState, hosts: seq<string>, schedule: seq<seq<Event>>,
                             template: LaunchTemplate): MasterState
  {
    IssueLoop(AfterEvents(s, EventsAt(schedule, 0), template), 0, ContainerRequestFor(hosts), schedule, template)
  }

  /** The polling loop, then the unregistration once it reports done. */
  function WaitThenUnregister(s: MasterState, schedule: seq<seq<Event>>, template: LaunchTemplate): (MasterState, RunOutcome)
  {
    var (waited, done) := AwaitDone(s, schedule, 0, template);
    if done then (waited.(calls := waited.calls + [UnregisterApplicationMaster(SUCCEEDED, "", "")]), Unregistered)
    else (waited, StillPolling)
  }

  // ---------------------------------------------------------------------------
  // The application master

  class ApplicationMaster {
    const inputFilePath: string
    const outputFilePath: string
    const jarPath: string
    var containersNumToWait: int32
    var launchedContainers: int32
    /** The calls made to the resource manager and the node manager, oldest first. */
    ghost var calls: seq<Call>

    function Paths(): JobPaths
    {
      JobPaths(inputFilePath, outputFilePath, jarPath)
    }

    /** The launch command and jar path built from the master's paths. */
    function Template(): LaunchTemplate
    {
      TemplateFor(Paths())
    }

    ghost function State(): MasterState
      reads this
    {
      MasterState(containersNumToWait, launchedContainers, calls)
    }

    constructor(inputFile: string, outputFile: string, containersNum: int32, jarFile: string)
      ensures Paths() == JobPaths(inputFile, outputFile, jarFile)
      ensures State() == MasterState(containersNum, 0, [])
    {
      inputFilePath := inputFile;
      outputFilePath := outputFile;
      jarPath := jarFile;
      containersNumToWait := containersNum;
      launchedContainers := 0;
      calls := [];
    }

    /** One `decrementAndGet` per status, whatever the status reports. */
    method OnContainersCompleted(statuses: seq<ContainerStatus>)
      modifies this`containersNumToWait
      ensures State() == AfterCompleted(old(State()), statuses)
    {
      for i := 0 to |statuses|
        invariant containersNumToWait == DecrementTimes(old(containersNumToWait), i)
      {
        containersNumToWait := Decrement(containersNumToWait);
      }
    }

    /** One launch attempt per container; a failure on one container is caught and the
        loop goes on with the next. */
    method OnContainersAllocated(allocations: seq<Allocation>)
      modifies this`calls
      ensures State() == AfterAllocated(old(State()), allocations, Template())
    {
      for i := 0 to |allocations|
        invariant calls == old(calls) + LaunchCalls(allocations[..i], Template())
      {
        var a := allocations[i];
        var context := LaunchContext([LaunchCommand(inputFilePath, outputFilePath)], map[]);
        var withJar := AddJarAsLocalResource(context, jarPath, a.jarStatus);
        assert withJar == ContextFromTemplate(Template(), a.jarStatus);
        ghost var before := calls;
        if withJar.Some? {
          calls := calls + [StartContainer(a.container, withJar.value, a.startThrows)];
        }
        assert calls == before + AttemptCalls(a, Template());
        assert LaunchCalls(allocations[..i + 1], Template()) == LaunchCalls(allocations[..i], Template()) + AttemptCalls(a, Template()) by {
          LaunchCallsStep(allocations, i, Template());
        }
      }
      assert allocations[..|allocations|] == allocations;
    }

    method DoneWithContainers() returns (done: bool)
      ensures done <==> containersNumToWait == 0
    {
      done := containersNumToWait == 0;
    }

    method Deliver(e: Event)
      modifies this`containersNumToWait, this`calls
      ensures State() == AfterEvent(old(State()), e, Template())
    {
      match e
      case ContainersAllocated(allocations) => OnContainersAllocated(allocations);
      case ContainersCompleted(statuses) => OnContainersCompleted(statuses);
    }

    method DeliverAll(events: seq<Event>)
      modifies this`containersNumToWait, this`calls
      ensures State() == AfterEvents(old(State()), events, Template())
    {
      for i := 0 to |events|
        invariant State() == AfterEvents(old(State()), events[..i], Template())
      {
        Deliver(events[i]);
        assert events[..i + 1][..i] == events[..i];
      }
      assert events[..|events|] == events;
    }

    /** `runMainLoop`, with the file system's answers and the callbacks that arrive during
        the request loop and during polling given as parameters. */
    method RunMainLoop(inputExists: bool, blockLocations: seq<BlockLocation>,
                       issueSchedule: seq<seq<Event>>, waitSchedule: seq<seq<Event>>) returns (outcome: RunOutcome)
      modifies this`containersNumToWait, this`calls
      ensures (State(), outcome) == RunMainLoopSpec(old(State()), Template(), inputExists, blockLocations,
                                                    issueSchedule, waitSchedule)
    {
      calls := calls + [RegisterApplicationMaster("", 0, "")];
      if !inputExists {
        return InputMissing;
      }
      if |blockLocations| == 0 {
        return NoBlockLocations;
      }
      ghost var registered := State();
      var request := ContainerRequestFor(blockLocations[0].hosts);
      DeliverAll(EventsAt(issueSchedule, 0));
      ghost var issued := IssueLoop(State(), 0, request, issueSchedule, Template());
      assert issued == RequestContainers(registered, blockLocations[0].hosts, issueSchedule, Template());
      var i: int32 := 0;
      while i < containersNumToWait
        invariant 0 <= i
        invariant IssueLoop(State(), i as nat, request, issueSchedule, Template()) == issued
        decreases INT32_MAX as int - i as int
      {
        calls := calls + [AddContainerRequest(request)];
        i := i + 1;
        DeliverAll(EventsAt(issueSchedule, i as nat));
      }
      assert State() == issued;
      ghost var waited := AwaitDone(State(), waitSchedule, 0, Template());
      var polls := 0;
      var done := DoneWithContainers();
      while !done && polls < |waitSchedule|
        invariant polls <= |waitSchedule|
        invariant done <==> containersNumToWait == 0
        invariant AwaitDone(State(), waitSchedule, polls, Template()) == waited
        decreases |waitSchedule| - polls
      {
        DeliverAll(waitSchedule[polls]);
        polls := polls + 1;
        done := DoneWithContainers();
      }
      if done {
        calls := calls + [UnregisterApplicationMaster(SUCCEEDED, "", "")];
        outcome := Unregistered;
      } else {
        outcome := StillPolling;
      }
    }
  }

  // ---------------------------------------------------------------------------
  // What the call log shows

  /** The container requests in a call log, in order. */
  function Requests(calls: seq<Call>): seq<ContainerRequest>
  {
    if calls == [] then []
    else
      var c := calls[|calls| - 1];
      Requests(calls[..|calls| - 1]) + (if c.AddContainerRequest? then [c.request] else [])
  }

  /** The number of unregister calls in a call log. */
  function UnregisterCount(calls: seq<Call>): nat
  {
    if calls == [] then 0
    else UnregisterCount(calls[..|calls| - 1]) + (if calls[|calls| - 1].UnregisterApplicationMaster? then 1 else 0)
  }

  /** `n` copies of `x`. */
  function Repeat<T>(x: T, n: nat): (r: seq<T>)
    ensures |r| == n
    ensures forall k :: 0 <= k < n ==> r[k] == x
  {
    if n == 0 then [] else [x] + Repeat(x, n - 1)
  }

  lemma {:induction false} RequestsAppend(calls: seq<Call>, extra: seq<Call>)
    ensures Requests(calls + extra) == Requests(calls) + Requests(extra)
    ensures UnregisterCount(calls + extra) == UnregisterCount(calls) + UnregisterCount(extra)
    decreases |extra|
  {
    if extra != [] {
      var n := |extra| - 1;
      assert (calls + extra)[..|calls + extra| - 1] == calls + extra[..n];
      assert (calls + extra)[|calls + extra| - 1] == extra[n];
      RequestsAppend(calls, extra[..n]);
      var c := extra[n];
      var tail := if c.AddContainerRequest? then [c.request] else [];
      assert Requests(calls + extra) == Requests(calls + extra[..n]) + tail;
      assert Requests(extra) == Requests(extra[..n]) + tail;
    } else {
      assert calls + extra == calls;
    }
  }

  /** Appending one call adds its request, or one unregistration, to what the log shows. */
  lemma ProtocolCallAppended(calls: seq<Call>, c: Call)
    ensures Requests(calls + [c]) == Requests(calls) + (if c.AddContainerRequest? then [c.request] else [])
    ensures UnregisterCount(calls + [c]) == UnregisterCount(calls) + (if c.UnregisterApplicationMaster? then 1 else 0)
  {
    assert (calls + [c])[..|calls|] == calls;
  }

  /** Launch attempts are neither requests nor unregistrations. */
  lemma {:induction false} LaunchesAreNotProtocolCalls(allocations: seq<Allocation>, template: LaunchTemplate)
    ensures Requests(LaunchCalls(allocations, template)) == [] && UnregisterCount(LaunchCalls(allocations, template)) == 0
    decreases |allocations|
  {
    if allocations != [] {
      var n := |allocations| - 1;
      LaunchesAreNotProtocolCalls(allocations[..n], template);
      var attempt := AttemptCalls(allocations[n], template);
      RequestsAppend(LaunchCalls(allocations[..n], template), attempt);
      if attempt != [] {
        assert attempt[..0] == [];
      }
    }
  }

  lemma {:induction false} LaunchCallsAppend(a: seq<Allocation>, b: seq<Allocation>, template: LaunchTemplate)
    ensures LaunchCalls(a + b, template) == LaunchCalls(a, template) + LaunchCalls(b, template)
    decreases |b|
  {
    if b != [] {
      var n := |b| - 1;
      assert (a + b)[..|a + b| - 1] == a + b[..n];
      assert (a + b)[|a + b| - 1] == b[n];
      LaunchCallsAppend(a, b[..n], template);
      assert LaunchCalls(a + b, template) == LaunchCalls(a + b[..n], template) + AttemptCalls(b[n], template);
    } else {
      assert a + b == a;
    }
  }

  /** Callbacks lower the counter once per reported status, append one launch attempt per
      allocated container whose jar is found, and leave `launchedContainers` alone. */
  lemma AfterEventsEffect(s: MasterState, events: seq<Event>, template: LaunchTemplate)
    ensures AfterEvents(s, events, template)
      == MasterState(DecrementTimes(s.containersNumToWait, CompletedCount(events)), s.launchedContainers,
                     s.calls + LaunchCalls(AllocationsOf(events), template))
  {
    CountersAfterEvents(s, events, template);
    CallsAfterEvents(s, events, template);
  }

  lemma {:induction false} CountersAfterEvents(s: MasterState, events: seq<Event>, template: LaunchTemplate)
    ensures AfterEvents(s, events, template).containersNumToWait
      == DecrementTimes(s.containersNumToWait, CompletedCount(events))
    ensures AfterEvents(s, events, template).launchedContainers == s.launchedContainers
    decreases |events|
  {
    if events != [] {
      var n := |events| - 1;
      var e := events[n];
      CountersAfterEvents(s, events[..n], template);
      if e.ContainersCompleted? {
        DecrementTimesAdd(s.containersNumToWait, CompletedCount(events[..n]), |e.statuses|);
      }
    }
  }

  lemma {:induction false} CallsAfterEvents(s: MasterState, events: seq<Event>, template: LaunchTemplate)
    ensures AfterEvents(s, events, template).calls == s.calls + LaunchCalls(AllocationsOf(events), template)
    decreases |events|
  {
    if events != [] {
      var n := |events| - 1;
      var e := events[n];
      var launched := AllocationsOf(events[..n]);
      var prev := AfterEvents(s, events[..n], template);
      assert prev.calls == s.calls + LaunchCalls(launched, template) by {
        CallsAfterEvents(s, events[..n], template);
      }
      if e.ContainersAllocated? {
        assert AfterEvents(s, events, template).calls == prev.calls + LaunchCalls(e.allocations, template);
        assert AllocationsOf(events) == launched + e.allocations;
        LaunchCallsExtend(prev.calls, s.calls, launched, e.allocations, template);
      } else {
        assert AfterEvents(s, events, template).calls == prev.calls;
        assert AllocationsOf(events) == launched + [];
        assert launched + [] == launched;
      }
    }
  }

  /** Launch attempts for more allocations go after those already in the log. */
  lemma LaunchCallsExtend(calls: seq<Call>, base: seq<Call>, launched: seq<Allocation>,
                          more: seq<Allocation>, template: LaunchTemplate)
    requires calls == base + LaunchCalls(launched, template)
    ensures calls + LaunchCalls(more, template) == base + LaunchCalls(launched + more, template)
  {
    LaunchCallsAppend(launched, more, template);
  }

  /** Callbacks add no request and no unregistration to the log. */
  lemma CallbacksAddNoProtocolCalls(s: MasterState, events: seq<Event>, template: LaunchTemplate)
    ensures var r := AfterEvents(s, events, template);
      r.launchedContainers == s.launchedContainers
      && Requests(r.calls) == Requests(s.calls) && UnregisterCount(r.calls) == UnregisterCount(s.calls)
  {
    AfterEventsEffect(s, events, template);
    var extra := LaunchCalls(AllocationsOf(events), template);
    LaunchesAreNotProtocolCalls(AllocationsOf(events), template);
    RequestsAppend(s.calls, extra);
  }

  /** No callback in the schedule reports a completed container. */
  predicate NoCompletions(schedule: seq<seq<Event>>)
  {
    forall k :: 0 <= k < |schedule| ==> CompletedCount(schedule[k]) == 0
  }

  /** The request loop makes only requests (and, through callbacks, launch attempts); it never
      unregisters and never changes `launchedContainers`. */
  lemma {:induction false} IssueLoopEffect(s: MasterState, i: nat, request: ContainerRequest,
                                           schedule: seq<seq<Event>>, template: LaunchTemplate)
    requires i <= INT32_MAX as int
    ensures var r := IssueLoop(s, i, request, schedule, template);
      r.launchedContainers == s.launchedContainers && UnregisterCount(r.calls) == UnregisterCount(s.calls)
      && |Requests(s.calls)| <= |Requests(r.calls)|
      && Requests(r.calls) == Requests(s.calls) + Repeat(request, |Requests(r.calls)| - |Requests(s.calls)|)
    decreases INT32_MAX as int - i
  {
    if i < s.containersNumToWait as int {
      var issued := s.(calls := s.calls + [AddContainerRequest(request)]);
      ProtocolCallAppended(s.calls, AddContainerRequest(request));
      var next := AfterEvents(issued, EventsAt(schedule, i + 1), template);
      CallbacksAddNoProtocolCalls(issued, EventsAt(schedule, i + 1), template);
      IssueLoopEffect(next, i + 1, request, schedule, template);
      var r := IssueLoop(next, i + 1, request, schedule, template);
      var m := |Requests(r.calls)| - |Requests(next.calls)|;
      assert Repeat(request, m + 1) == [request] + Repeat(request, m);
    }
  }

  /** With no completion arriving while requests are made, the loop makes exactly as many
      requests as the counter is above `i`, and the counter ends where it started. */
  lemma {:induction false} QuietIssueLoop(s: MasterState, i: nat, request: ContainerRequest,
                                          schedule: seq<seq<Event>>, template: LaunchTemplate)
    requires i <= INT32_MAX as int
    requires NoCompletions(schedule)
    ensures var r := IssueLoop(s, i, request, schedule, template);
      r.containersNumToWait == s.containersNumToWait
      && |Requests(r.calls)| == |Requests(s.calls)|
           + (if i < s.containersNumToWait as int then s.containersNumToWait as int - i else 0)
    decreases INT32_MAX as int - i
  {
    if i < s.containersNumToWait as int {
      var issued := s.(calls := s.calls + [AddContainerRequest(request)]);
      ProtocolCallAppended(s.calls, AddContainerRequest(request));
      var events := EventsAt(schedule, i + 1);
      assert CompletedCount(events) == 0;
      var next := AfterEvents(issued, events, template);
      AfterEventsEffect(issued, events, template);
      CallbacksAddNoProtocolCalls(issued, events, template);
      QuietIssueLoop(next, i + 1, request, schedule, template);
    }
  }

  /** Polling adds no request and no unregistration; it reports done exactly when the
      counter it ends on is zero. */
  lemma {:induction false} AwaitDoneEffect(s: MasterState, schedule: seq<seq<Event>>, j: nat, template: LaunchTemplate)
    requires j <= |schedule|
    ensures var (r, done) := AwaitDone(s, schedule, j, template);
      (done <==> r.containersNumToWait == 0)
      && r.launchedContainers == s.launchedContainers
      && Requests(r.calls) == Requests(s.calls) && UnregisterCount(r.calls) == UnregisterCount(s.calls)
    decreases |schedule| - j
  {
    if s.containersNumToWait != 0 && j < |schedule| {
      CallbacksAddNoProtocolCalls(s, schedule[j], template);
      AwaitDoneEffect(AfterEvents(s, schedule[j], template), schedule, j + 1, template);
    }
  }

  // ---------------------------------------------------------------------------
  // Phases of the main loop

  /** The request phase makes requests and, through callbacks, launch attempts; it never
      unregisters and never changes `launchedContainers`. */
  lemma RequestContainersEffect(s: MasterState, hosts: seq<string>, schedule: seq<seq<Event>>, template: LaunchTemplate)
    ensures var r := RequestContainers(s, hosts, schedule, template);
      r.launchedContainers == s.launchedContainers && UnregisterCount(r.calls) == UnregisterCount(s.calls)
  {
    var start := AfterEvents(s, EventsAt(schedule, 0), template);
    CallbacksAddNoProtocolCalls(s, EventsAt(schedule, 0), template);
    IssueLoopEffect(start, 0, ContainerRequestFor(hosts), schedule, template);
  }

  /** With no completion arriving during the request phase, it asks for one container per
      unit of the counter (none when the counter is not positive). */
  lemma QuietRequestContainers(s: MasterState, hosts: seq<string>, schedule: seq<seq<Event>>, template: LaunchTemplate)
    requires NoCompletions(schedule)
    ensures var r := RequestContainers(s, hosts, schedule, template);
      var n := s.containersNumToWait as int;
      Requests(r.calls) == Requests(s.calls) + Repeat(ContainerRequestFor(hosts), if n > 0 then n else 0)
  {
    var events := EventsAt(schedule, 0);
    assert CompletedCount(events) == 0;
    var start := AfterEvents(s, events, template);
    AfterEventsEffect(s, events, template);
    CallbacksAddNoProtocolCalls(s, events, template);
    QuietIssueLoop(start, 0, ContainerRequestFor(hosts), schedule, template);
    IssueLoopEffect(start, 0, ContainerRequestFor(hosts), schedule, template);
  }

  /** Waiting adds no request; it ends with one unregistration, with SUCCEEDED, exactly
      when the counter has reached zero, and otherwise with the counter not zero. */
  lemma WaitThenUnregisterEffect(s: MasterState, schedule: seq<seq<Event>>, template: LaunchTemplate)
    ensures var (r, outcome) := WaitThenUnregister(s, schedule, template);
      r.launchedContainers == s.launchedContainers && Requests(r.calls) == Requests(s.calls)
      && UnregisterCount(r.calls) == UnregisterCount(s.calls) + (if outcome == Unregistered then 1 else 0)
      && (outcome == Unregistered || outcome == StillPolling)
      && (outcome == Unregistered ==>
            r.containersNumToWait == 0 && r.calls[|r.calls| - 1] == UnregisterApplicationMaster(SUCCEEDED, "", ""))
      && (outcome == StillPolling ==> r.containersNumToWait != 0)
  {
    var (waited, done) := AwaitDone(s, schedule, 0, template);
    AwaitDoneEffect(s, schedule, 0, template);
    if done {
      ProtocolCallAppended(waited.calls, UnregisterApplicationMaster(SUCCEEDED, "", ""));
    }
  }

  // ---------------------------------------------------------------------------
  // Properties of a run of the main loop

  /** `calls` begins with the whole of `base`: the log only ever grows at its end. */
  predicate Extends(calls: seq<Call>, base: seq<Call>)
  {
    |base| <= |calls| && calls[..|base|] == base
  }

  lemma CallbacksExtendLog(s: MasterState, events: seq<Event>, template: LaunchTemplate)
    ensures Extends(AfterEvents(s, events, template).calls, s.calls)
  {
    AfterEventsEffect(s, events, template);
    var added := LaunchCalls(AllocationsOf(events), template);
    assert (s.calls + added)[..|s.calls|] == s.calls;
  }

  lemma {:induction false} IssueLoopExtendsLog(s: MasterState, i: nat, request: ContainerRequest,
                                               schedule: seq<seq<Event>>, template: LaunchTemplate)
    requires i <= INT32_MAX as int
    ensures Extends(IssueLoop(s, i, request, schedule, template).calls, s.calls)
    decreases INT32_MAX as int - i
  {
    if i < s.containersNumToWait as int {
      var issued := s.(calls := s.calls + [AddContainerRequest(request)]);
      var next := AfterEvents(issued, EventsAt(schedule, i + 1), template);
      CallbacksExtendLog(issued, EventsAt(schedule, i + 1), template);
      IssueLoopExtendsLog(next, i + 1, request, schedule, template);
      var r := IssueLoop(next, i + 1, request, schedule, template);
      assert r.calls[..|s.calls|] == next.calls[..|issued.calls|][..|s.calls|];
    }
  }

  lemma {:induction false} AwaitDoneExtendsLog(s: MasterState, schedule: seq<seq<Event>>, j: nat, template: LaunchTemplate)
    requires j <= |schedule|
    ensures Extends(AwaitDone(s, schedule, j, template).0.calls, s.calls)
    decreases |schedule| - j
  {
    if s.containersNumToWait != 0 && j < |schedule| {
      var next := AfterEvents(s, schedule[j], template);
      CallbacksExtendLog(s, schedule[j], template);
      AwaitDoneExtendsLog(next, schedule, j + 1, template);
      var r := AwaitDone(next, schedule, j + 1, template).0;
      assert r.calls[..|s.calls|] == r.calls[..|next.calls|][..|s.calls|];
    }
  }

  /** Every run registers before it makes any other call: its log is the earlier log, the
      registration, and then whatever the run adds. */
  lemma RunRegistersFirst(s: MasterState, template: LaunchTemplate, inputExists: bool, blockLocations: seq<BlockLocation>,
                          issueSchedule: seq<seq<Event>>, waitSchedule: seq<seq<Event>>)
    ensures var r := RunMainLoopSpec(s, template, inputExists, blockLocations, issueSchedule, waitSchedule).0;
      Extends(r.calls, s.calls + [RegisterApplicationMaster("", 0, "")])
  {
    var registered := Register(s);
    if inputExists && blockLocations != [] {
      var hosts := blockLocations[0].hosts;
      var start := AfterEvents(registered, EventsAt(issueSchedule, 0), template);
      CallbacksExtendLog(registered, EventsAt(issueSchedule, 0), template);
      IssueLoopExtendsLog(start, 0, ContainerRequestFor(hosts), issueSchedule, template);
      var issued := RequestContainers(registered, hosts, issueSchedule, template);
      AwaitDoneExtendsLog(issued, waitSchedule, 0, template);
      var waited := AwaitDone(issued, waitSchedule, 0, template).0;
      assert Extends(waited.calls, registered.calls);
      var r := RunMainLoopSpec(s, template, inputExists, blockLocations, issueSchedule, waitSchedule).0;
      assert r.calls[..|waited.calls|] == waited.calls;
      assert r.calls[..|registered.calls|] == waited.calls[..|registered.calls|];
    } else {
      assert registered.calls[..|registered.calls|] == registered.calls;
    }
  }

  /** Nothing in the master ever changes `launchedContainers`. */
  lemma LaunchedNeverIncremented(s: MasterState, template: LaunchTemplate, inputExists: bool, blockLocations: seq<BlockLocation>,
                                 issueSchedule: seq<seq<Event>>, waitSchedule: seq<seq<Event>>)
    ensures RunMainLoopSpec(s, template, inputExists, blockLocations, issueSchedule, waitSchedule).0.launchedContainers
      == s.launchedContainers
  {
    if inputExists && blockLocations != [] {
      RequestContainersEffect(Register(s), blockLocations[0].hosts, issueSchedule, template);
      var issued := RequestContainers(Register(s), blockLocations[0].hosts, issueSchedule, template);
      WaitThenUnregisterEffect(issued, waitSchedule, template);
    }
  }

  /** When the input is missing, the master registers and does nothing else: no request,
      no unregistration, no change to the counters. */
  lemma MissingInputIssuesNothing(s: MasterState, template: LaunchTemplate, blockLocations: seq<BlockLocation>,
                                  issueSchedule: seq<seq<Event>>, waitSchedule: seq<seq<Event>>)
    ensures var (r, outcome) := RunMainLoopSpec(s, template, false, blockLocations, issueSchedule, waitSchedule);
      outcome == InputMissing
      && r.containersNumToWait == s.containersNumToWait && r.launchedContainers == s.launchedContainers
      && Requests(r.calls) == Requests(s.calls) && UnregisterCount(r.calls) == UnregisterCount(s.calls)
  {
    ProtocolCallAppended(s.calls, RegisterApplicationMaster("", 0, ""));
  }

  /** When the input exists and no completion arrives while the requests are made, a new
      master asks for exactly `containersNum` containers (none when that is not positive),
      each on the hosts of the first block, at priority 0, with 128 MB, one virtual core
      and no racks. */
  lemma QuietRunIssuesContainersNumRequests(containersNum: int32, template: LaunchTemplate, blockLocations: seq<BlockLocation>,
                                            issueSchedule: seq<seq<Event>>, waitSchedule: seq<seq<Event>>)
    requires blockLocations != []
    requires NoCompletions(issueSchedule)
    ensures var (r, _) := RunMainLoopSpec(MasterState(containersNum, 0, []), template, true, blockLocations,
                                          issueSchedule, waitSchedule);
      var requests := Requests(r.calls);
      |requests| == (if containersNum > 0 then containersNum as int else 0)
      && forall k :: 0 <= k < |requests| ==>
           requests[k].priority == 0 && requests[k].capability == Resource(128, 1)
           && requests[k].nodes == blockLocations[0].hosts && requests[k].racks == None
  {
    var registered := Register(MasterState(containersNum, 0, []));
    var hosts := blockLocations[0].hosts;
    var issued := RequestContainers(registered, hosts, issueSchedule, template);
    var r := RunMainLoopSpec(MasterState(containersNum, 0, []), template, true, blockLocations,
                             issueSchedule, waitSchedule).0;
    var n := if containersNum > 0 then containersNum as int else 0;
    assert Requests(issued.calls) == Repeat(ContainerRequestFor(hosts), n) by {
      ProtocolCallAppended([], RegisterApplicationMaster("", 0, ""));
      assert Requests(registered.calls) == [];
      QuietRequestContainers(registered, hosts, issueSchedule, template);
    }
    assert Requests(r.calls) == Requests(issued.calls) by {
      WaitThenUnregisterEffect(issued, waitSchedule, template);
    }
  }

  /** The master unregisters at most once per run, with SUCCEEDED, and only when the counter
      is zero; when the schedule runs out first the counter is not zero. */
  lemma UnregisterOnlyWhenDone(s: MasterState, template: LaunchTemplate, inputExists: bool, blockLocations: seq<BlockLocation>,
                               issueSchedule: seq<seq<Event>>, waitSchedule: seq<seq<Event>>)
    ensures var (r, outcome) := RunMainLoopSpec(s, template, inputExists, blockLocations, issueSchedule, waitSchedule);
      UnregisterCount(r.calls) == UnregisterCount(s.calls) + (if outcome == Unregistered then 1 else 0)
      && (outcome == Unregistered ==>
            r.containersNumToWait == 0 && r.calls[|r.calls| - 1] == UnregisterApplicationMaster(SUCCEEDED, "", ""))
      && (outcome == StillPolling ==> r.containersNumToWait != 0)
  {
    ProtocolCallAppended(s.calls, RegisterApplicationMaster("", 0, ""));
    if inputExists && blockLocations != [] {
      RequestContainersEffect(Register(s), blockLocations[0].hosts, issueSchedule, template);
      var issued := RequestContainers(Register(s), blockLocations[0].hosts, issueSchedule, template);
      WaitThenUnregisterEffect(issued, waitSchedule, template);
    }
  }

  /** When every jar lookup succeeds, a batch gets one `startContainer` per container, in the
      order of the batch, whether or not an earlier start threw. */
  lemma {:induction false} BatchAttemptsEveryContainer(allocations: seq<Allocation>, template: LaunchTemplate)
    requires forall k :: 0 <= k < |allocations| ==> allocations[k].jarStatus.Some?
    ensures var r := LaunchCalls(allocations, template);
      |r| == |allocations|
      && forall k :: 0 <= k < |r| ==>
           r[k] == StartContainer(allocations[k].container,
                                  ContextFromTemplate(template, allocations[k].jarStatus).value,
                                  allocations[k].startThrows)
    decreases |allocations|
  {
    if allocations != [] {
      BatchAttemptsEveryContainer(allocations[..|allocations| - 1], template);
    }
  }

  /** Containers whose jar cannot be looked up are skipped; the others are still attempted. */
  lemma {:induction false} MissingJarSkipsOnlyThatContainer(a: seq<Allocation>, b: Allocation, c: seq<Allocation>,
                                                            template: LaunchTemplate)
    requires b.jarStatus.None?
    ensures LaunchCalls(a + [b] + c, template) == LaunchCalls(a, template) + LaunchCalls(c, template)
  {
    LaunchCallsAppend(a + [b], c, template);
    LaunchCallsAppend(a, [b], template);
    assert AttemptCalls(b, template) == [];
    assert [b][..0] == [];
    assert LaunchCalls([b], template) == [];
    assert LaunchCalls(a + [b], template) == LaunchCalls(a, template);
  }
}
