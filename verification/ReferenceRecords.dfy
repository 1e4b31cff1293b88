/**
 * What each listed reference shows, read off the records of the three sources themselves: which records
 * name its key, and what each of them states.
 */
module ReferenceRecords {
  import opened Wrappers
  import opened KnownReferences

  // ----- which records name a key

  predicate HasSpec(task: Task) { |task.confirmed| > 0 || task.draft.Some? }

  /** Runs belong to the tasks that list them; a task without runs stands for itself, frozen once it is pinned. */
  predicate TaskNames(task: Task, k: Key) {
    match k
    case JobKey(run) => run in task.jobs
    case TaskKey(id) => id == task.id && task.jobs == [] && task.pinned.Some?
    case SelectionKey(id) =>
      id == task.id && task.jobs == [] && task.pinned.None? && (HasSpec(task) || task.selection.Some?)
    case DraftKey(_, _) => false
  }

  predicate JobNames(job: Job, k: Key) { k == JobKey(job.id) }

  /** A strategy names its draft, unless that is an intent. */
  predicate DraftNames(strategy: Strategy, k: Key) {
    && k.DraftKey? && k.strategy == strategy.id && strategy.draft.Some?
    && !strategy.draft.value.isIntent && strategy.draft.value.revision == k.revision
  }

  predicate ExperimentNames(e: Experiment, k: Key) { k.JobKey? && k.job == e.job && e.job != NoText }

  ghost predicate HasExperiment(strategy: Strategy, k: Key) {
    exists e :: e in strategy.experiments && ExperimentNames(e, k)
  }

  ghost predicate HasJob(jobs: seq<Job>, k: Key) { exists job :: job in jobs && JobNames(job, k) }

  ghost predicate HasTask(tasks: seq<Task>, k: Key) { exists task :: task in tasks && TaskNames(task, k) }

  ghost predicate HasStrategy(strategies: seq<Strategy>, k: Key) {
    exists strategy :: strategy in strategies && (DraftNames(strategy, k) || HasExperiment(strategy, k))
  }

  // ----- what each record associates with a key

  predicate JobScopes(job: Job, s: Scope) {
    match s
    case JobRecord => true
    case JobSnapshot => job.snapshot.Some?
    case JobBinding => job.binding.Some?
    case JobDatasetVersion => job.datasetVersion.Some?
    case _ => false
  }

  /** A frozen specification where one is confirmed, a draft one otherwise. */
  predicate TaskScopes(task: Task, k: Key, s: Scope) {
    match s
    case TaskJob => k.JobKey?
    case TaskFrozenSpec => |task.confirmed| > 0
    case TaskDraftSpec => |task.confirmed| == 0 && task.draft.Some?
    case TaskBinding => task.pinned.Some?
    case TaskSelection => k.SelectionKey?
    case _ => false
  }

  /** Where a reference was observed. */
  ghost predicate IsObserved(sources: Sources, k: Key, s: Scope) {
    || (exists job :: job in sources.jobs && JobNames(job, k) && JobScopes(job, s))
    || (exists task :: task in sources.tasks && TaskNames(task, k) && TaskScopes(task, k, s))
    || (s == StrategyDraft && exists strategy :: strategy in sources.strategies && DraftNames(strategy, k))
    || (s == StrategyExperiment && exists strategy :: strategy in sources.strategies && HasExperiment(strategy, k))
  }

  /** Where a reference leads: to its own run, and to the tasks and strategies that name it. */
  ghost predicate IsLinked(sources: Sources, k: Key, l: Link) {
    match l
    case RunLink(run) => k == JobKey(run) && run != NoText
    case ResearchLink(id) => exists task :: task in sources.tasks && TaskNames(task, k) && task.id == id
    case StrategyLink(id) =>
      exists strategy :: strategy in sources.strategies && strategy.id == id
        && (DraftNames(strategy, k) || HasExperiment(strategy, k))
  }

  // ----- contributions, record by record

  lemma {:induction false} JobsHold(jobs: seq<Job>, c: Contribution)
    ensures c in JobsSay(jobs) <==> exists job :: job in jobs && c == JobContribution(job)
  {
    hide JobContribution;
    if jobs != [] {
      var n := |jobs| - 1;
      JobsHold(jobs[..n], c);
      assert forall job :: job in jobs <==> job in jobs[..n] || job == jobs[n];
    }
  }

  lemma {:induction false} TaskJobsHold(task: Task, runs: seq<Text>, c: Contribution)
    ensures c in TaskJobContributions(task, runs) <==> exists run :: run in runs && c == TaskJobContribution(task, run)
  {
    hide TaskJobContribution;
    if runs != [] {
      var n := |runs| - 1;
      TaskJobsHold(task, runs[..n], c);
      assert forall run :: run in runs <==> run in runs[..n] || run == runs[n];
    }
  }

  lemma {:induction false} TasksHold(tasks: seq<Task>, c: Contribution)
    ensures c in TasksSay(tasks) <==> exists task :: task in tasks && c in TaskContributions(task)
  {
    hide TaskContributions;
    if tasks != [] {
      var n := |tasks| - 1;
      TasksHold(tasks[..n], c);
      assert forall task :: task in tasks <==> task in tasks[..n] || task == tasks[n];
    }
  }

  ghost function ExperimentSays(strategy: Strategy, e: Experiment): Contribution {
    Observed(JobKey(e.job), Frozen, Some(e.job), e.identity, StrategyExperiment, StrategyLink(strategy.id))
  }

  ghost predicate ExperimentIsSaid(strategy: Strategy, experiments: seq<Experiment>, c: Contribution) {
    exists e :: e in experiments && e.job != NoText && c == ExperimentSays(strategy, e)
  }

  lemma {:induction false} ExperimentsHold(strategy: Strategy, experiments: seq<Experiment>, c: Contribution)
    ensures c in ExperimentContributions(strategy, experiments) <==> ExperimentIsSaid(strategy, experiments, c)
  {
    if experiments != [] {
      var n := |experiments| - 1;
      ExperimentsHold(strategy, experiments[..n], c);
      assert forall e :: e in experiments <==> e in experiments[..n] || e == experiments[n];
      var last := experiments[n];
      var before := ExperimentContributions(strategy, experiments[..n]);
      if last.job != NoText {
        assert ExperimentContributions(strategy, experiments) == before + [ExperimentSays(strategy, last)];
      }
    }
  }

  lemma {:induction false} StrategiesHold(strategies: seq<Strategy>, c: Contribution)
    ensures c in StrategiesSay(strategies)
      <==> exists strategy :: strategy in strategies && c in StrategyContributions(strategy)
  {
    hide StrategyContributions;
    if strategies != [] {
      var n := |strategies| - 1;
      StrategiesHold(strategies[..n], c);
      assert forall strategy :: strategy in strategies <==> strategy in strategies[..n] || strategy == strategies[n];
    }
  }

  /** A task's contribution to a key, for each key it names. */
  ghost function TaskSays(task: Task, k: Key): Contribution
    requires TaskNames(task, k)
  {
    match k
    case JobKey(run) => TaskJobContribution(task, run)
    case TaskKey(_) => PinnedContribution(task)
    case SelectionKey(_) => SelectionContribution(task)
  }

  lemma TaskHolds(task: Task, c: Contribution)
    ensures c in TaskContributions(task) <==> TaskNames(task, c.key) && c == TaskSays(task, c.key)
  {
    TaskJobsHold(task, task.jobs, c);
    hide TaskJobContributions, SelectionLayers;
  }

  lemma StrategyHolds(strategy: Strategy, c: Contribution)
    ensures c in StrategyContributions(strategy) <==>
      || (DraftNames(strategy, c.key) && c == DraftContributions(strategy)[0])
      || ExperimentIsSaid(strategy, strategy.experiments, c)
  {
    ExperimentsHold(strategy, strategy.experiments, c);
    hide ExperimentContributions, ExperimentIsSaid;
  }

  lemma SayHolds(sources: Sources, c: Contribution)
    ensures c in Say(sources) <==>
      || (exists job :: job in sources.jobs && c == JobContribution(job))
      || (exists task :: task in sources.tasks && c in TaskContributions(task))
      || (exists strategy :: strategy in sources.strategies && c in StrategyContributions(strategy))
  {
    JobsHold(sources.jobs, c);
    TasksHold(sources.tasks, c);
    StrategiesHold(sources.strategies, c);
    hide JobContribution, TaskContributions, StrategyContributions, JobsSay, TasksSay, StrategiesSay;
  }

  // ----- keys, scopes and links

  ghost predicate ScopeIsSaid(cs: seq<Contribution>, k: Key, s: Scope) {
    exists c :: c in cs && c.key == k && s in c.scopes
  }

  ghost predicate LinkIsSaid(cs: seq<Contribution>, k: Key, l: Link) {
    exists c :: c in cs && c.key == k && l in c.links
  }

  predicate IsOwnLink(k: Key, l: Link) { l.RunLink? && k == JobKey(l.job) && l.job != NoText }

  lemma ContributedHolds(r: Reference, c: Contribution, s: Scope, l: Link)
    ensures s in Contributed(r, c).scope <==> s in r.scope || s in c.scopes
    ensures l in Contributed(r, c).links <==> l in r.links || l in c.links
  {
    FilledAllKeeps(r, c.identities);
    PushedHolds(r.scope, c.scopes);
    PushedHolds(r.links, c.links);
    hide FilledAll, PushedAll;
  }

  lemma SaidSnoc(cs: seq<Contribution>, c: Contribution, k: Key, s: Scope, l: Link)
    ensures ScopeIsSaid(cs + [c], k, s) <==> ScopeIsSaid(cs, k, s) || (c.key == k && s in c.scopes)
    ensures LinkIsSaid(cs + [c], k, l) <==> LinkIsSaid(cs, k, l) || (c.key == k && l in c.links)
  {
    assert forall d :: d in cs + [c] <==> d in cs || d == c;
    assert c in cs + [c];
  }

  /** What a key has accumulated in its scope and its links. */
  predicate Holds(r: Option<Reference>, k: Key, s: Scope, l: Link, scoped: bool, linked: bool) {
    match r
    case Some(reference) => (s in reference.scope <==> scoped) && (l in reference.links <==> IsOwnLink(k, l) || linked)
    case None => !scoped && !linked
  }

  lemma CreatedHolds(c: Contribution, k: Key, s: Scope, l: Link)
    requires IsProper(c) && c.key == k
    ensures Holds(Some(Created(k, c.kind, c.jobId)), k, s, l, false, false)
  {
  }

  lemma {:induction false} AfterHolds(cs: seq<Contribution>, k: Key, s: Scope, l: Link)
    requires AllProper(cs)
    ensures Holds(After(None, cs, k), k, s, l, ScopeIsSaid(cs, k, s), LinkIsSaid(cs, k, l))
  {
    if cs != [] {
      hide Contributed, ScopeIsSaid, LinkIsSaid, IsOwnLink, Created, IsProper;
      var n := |cs| - 1;
      assert cs == cs[..n] + [cs[n]];
      SaidSnoc(cs[..n], cs[n], k, s, l);
      AfterHolds(cs[..n], k, s, l);
      assert IsProper(cs[n]);
      if cs[n].key == k {
        var before := After(None, cs[..n], k);
        if before.None? {
          CreatedHolds(cs[n], k, s, l);
        }
        ContributedHolds(if before.Some? then before.value else Created(k, cs[n].kind, cs[n].jobId), cs[n], s, l);
      }
    }
  }

  lemma {:induction false} KeysHold(cs: seq<Contribution>, k: Key)
    ensures k in KeysOf(cs) <==> exists c :: c in cs && c.key == k
  {
    if cs != [] {
      var n := |cs| - 1;
      KeysHold(cs[..n], k);
      assert forall c :: c in cs <==> c in cs[..n] || c == cs[n];
    }
  }

  lemma JobSays(job: Job, s: Scope)
    ensures s in JobContribution(job).scopes <==> JobScopes(job, s)
    ensures JobContribution(job).key == JobKey(job.id) && JobContribution(job).links == []
  {
  }

  lemma TaskSaysScopes(task: Task, k: Key, s: Scope)
    requires TaskNames(task, k)
    ensures TaskSays(task, k).key == k && TaskSays(task, k).links == [ResearchLink(task.id)]
    ensures s in TaskSays(task, k).scopes <==> TaskScopes(task, k, s)
  {
    hide SelectionLayers;
  }

  /** A key is listed exactly when some record names it. */
  lemma KeysExactly(sources: Sources, k: Key)
    ensures HasReference(Derived(sources), k) <==>
      HasJob(sources.jobs, k) || HasTask(sources.tasks, k) || HasStrategy(sources.strategies, k)
  {
    KeysAreNamed(sources, k);
    KeysHold(Say(sources), k);
    hide Derived, HasReference, Say, KeysOf, TaskContributions, StrategyContributions, TaskNames;
    forall c {
      SayHolds(sources, c);
    }
    forall task, c {
      TaskHolds(task, c);
    }
    forall strategy, c {
      StrategyHolds(strategy, c);
    }
    if job :| job in sources.jobs && JobNames(job, k) {
      assert JobContribution(job) in Say(sources);
    }
    if task :| task in sources.tasks && TaskNames(task, k) {
      TaskSaysScopes(task, k, TaskJob);
      assert TaskSays(task, k) in TaskContributions(task);
    }
    if strategy :| strategy in sources.strategies && DraftNames(strategy, k) {
      assert DraftContributions(strategy)[0] in StrategyContributions(strategy);
    }
    if strategy, e :| strategy in sources.strategies && e in strategy.experiments && ExperimentNames(e, k) {
      assert ExperimentSays(strategy, e) in StrategyContributions(strategy);
    }
  }

  lemma StrategySays(strategy: Strategy, c: Contribution)
    requires c in StrategyContributions(strategy)
    ensures c.links == [StrategyLink(strategy.id)]
    ensures c.scopes == [StrategyDraft] || c.scopes == [StrategyExperiment]
    ensures c.scopes == [StrategyDraft] ==> DraftNames(strategy, c.key)
    ensures c.scopes == [StrategyExperiment] ==> HasExperiment(strategy, c.key)
  {
    StrategyHolds(strategy, c);
    hide StrategyContributions;
    if e :| e in strategy.experiments && e.job != NoText && c == ExperimentSays(strategy, e) {
      assert ExperimentNames(e, c.key);
    }
  }

  lemma StrategyIsSaid(sources: Sources, strategy: Strategy, k: Key)
    requires strategy in sources.strategies
    ensures DraftNames(strategy, k) ==>
      ScopeIsSaid(Say(sources), k, StrategyDraft) && LinkIsSaid(Say(sources), k, StrategyLink(strategy.id))
    ensures HasExperiment(strategy, k) ==>
      ScopeIsSaid(Say(sources), k, StrategyExperiment) && LinkIsSaid(Say(sources), k, StrategyLink(strategy.id))
  {
    hide Say, StrategyContributions;
    if DraftNames(strategy, k) {
      var c := DraftContributions(strategy)[0];
      StrategyHolds(strategy, c);
      SayHolds(sources, c);
      assert StrategyDraft in c.scopes && StrategyLink(strategy.id) in c.links;
    }
    if e :| e in strategy.experiments && ExperimentNames(e, k) {
      var c := ExperimentSays(strategy, e);
      assert ExperimentIsSaid(strategy, strategy.experiments, c);
      StrategyHolds(strategy, c);
      SayHolds(sources, c);
      assert StrategyExperiment in c.scopes && StrategyLink(strategy.id) in c.links;
    }
  }

  lemma TaskIsSaid(sources: Sources, task: Task, k: Key)
    requires task in sources.tasks && TaskNames(task, k)
    ensures TaskSays(task, k) in Say(sources) && TaskSays(task, k).key == k
  {
    hide Say, TaskContributions;
    TaskSaysScopes(task, k, TaskJob);
    TaskHolds(task, TaskSays(task, k));
    SayHolds(sources, TaskSays(task, k));
  }

  /** Each contribution comes from a record that names its key, and associates what that record does. */
  lemma SaidIsObserved(sources: Sources, c: Contribution, s: Scope, l: Link)
    requires c in Say(sources)
    ensures s in c.scopes ==> IsObserved(sources, c.key, s)
    ensures l in c.links ==> IsLinked(sources, c.key, l)
  {
    SayHolds(sources, c);
    hide Say, TaskContributions, StrategyContributions, TaskNames, TaskScopes, JobScopes;
    if job :| job in sources.jobs && c == JobContribution(job) {
      JobSays(job, s);
    } else if task :| task in sources.tasks && c in TaskContributions(task) {
      TaskHolds(task, c);
      TaskSaysScopes(task, c.key, s);
    } else {
      var strategy :| strategy in sources.strategies && c in StrategyContributions(strategy);
      StrategySays(strategy, c);
    }
  }

  lemma ObservedIsSaid(sources: Sources, k: Key, s: Scope)
    requires IsObserved(sources, k, s)
    ensures ScopeIsSaid(Say(sources), k, s)
  {
    hide Say, TaskContributions, StrategyContributions, TaskNames, TaskScopes, JobScopes;
    if job :| job in sources.jobs && JobNames(job, k) && JobScopes(job, s) {
      JobSays(job, s);
      SayHolds(sources, JobContribution(job));
    } else if task :| task in sources.tasks && TaskNames(task, k) && TaskScopes(task, k, s) {
      TaskSaysScopes(task, k, s);
      TaskIsSaid(sources, task, k);
    } else {
      forall strategy | strategy in sources.strategies {
        StrategyIsSaid(sources, strategy, k);
      }
    }
  }

  lemma LinkedIsSaid(sources: Sources, k: Key, l: Link)
    requires IsLinked(sources, k, l) && !l.RunLink?
    ensures LinkIsSaid(Say(sources), k, l)
  {
    hide Say, TaskNames;
    match l
    case ResearchLink(id) =>
      var task :| task in sources.tasks && TaskNames(task, k) && task.id == id;
      TaskSaysScopes(task, k, TaskJob);
      TaskIsSaid(sources, task, k);
    case StrategyLink(id) =>
      forall strategy | strategy in sources.strategies {
        StrategyIsSaid(sources, strategy, k);
      }
  }

  /**
   * A listed reference was observed exactly where the records that name its key say, and leads exactly to
   * its own run and to the tasks and strategies that name it.
   */
  lemma AssociationsExactly(sources: Sources, r: Reference, s: Scope, l: Link)
    requires r in Derived(sources)
    ensures s in r.scope <==> IsObserved(sources, r.key, s)
    ensures l in r.links <==> IsLinked(sources, r.key, l)
  {
    hide Derived, Say, After, AllProper, KeysOf, IsObserved, Unknowns;
    SayIsProper(sources, NoText);
    DerivedAt(sources, r.key);
    AfterHolds(Say(sources), r.key, s, l);
    forall c | c in Say(sources) && c.key == r.key
      ensures (s in c.scopes ==> IsObserved(sources, r.key, s)) && (l in c.links ==> IsLinked(sources, r.key, l))
    {
      SaidIsObserved(sources, c, s, l);
    }
    if IsObserved(sources, r.key, s) {
      ObservedIsSaid(sources, r.key, s);
    }
    if !l.RunLink? && IsLinked(sources, r.key, l) {
      LinkedIsSaid(sources, r.key, l);
    }
  }

  // ----- identities

  /** The one confirmed last. */
  function Latest(confirmed: seq<Spec>): Spec
    requires confirmed != []
  {
    if |confirmed| == 1 then confirmed[0] else Latest(confirmed[1..])
  }

  /** A task's specification is the one confirmed last, and its draft while none is confirmed. */
  function SpecTexts(task: Task, f: Field): seq<Text> {
    if task.confirmed != [] then [Stated(Latest(task.confirmed).identity, f)]
    else match task.draft
      case Some(draft) => [Stated(draft.identity, f)]
      case None => []
  }

  /** A run's input is its snapshot's where that has one; the dataset version comes after it. */
  function JobTexts(job: Job, f: Field): seq<Text> {
    match f
    case ScenarioField => [job.scenario]
    case SourceField =>
      (match job.snapshot
       case Some(Some(input)) => [input.source]
       case _ => [job.inputIdentity.source])
    case DatasetField =>
      (match job.snapshot
       case Some(Some(input)) => [input.dataset]
       case _ => [job.inputIdentity.dataset])
      + (match job.datasetVersion
         case Some(version) => [version]
         case None => [])
  }

  function JobsTexts(jobs: seq<Job>, k: Key, f: Field): seq<Text> {
    if jobs == [] then []
    else
      var last := jobs[|jobs| - 1];
      JobsTexts(jobs[..|jobs| - 1], k, f) + if JobNames(last, k) then JobTexts(last, f) else []
  }

  function TasksTexts(tasks: seq<Task>, k: Key, f: Field): seq<Text> {
    if tasks == [] then []
    else
      var last := tasks[|tasks| - 1];
      TasksTexts(tasks[..|tasks| - 1], k, f) + if TaskNames(last, k) then SpecTexts(last, f) else []
  }

  function ExperimentTexts(e: Experiment, k: Key, f: Field): seq<Text> {
    if ExperimentNames(e, k) then [Stated(e.identity, f)] else []
  }

  function ExperimentsTexts(experiments: seq<Experiment>, k: Key, f: Field): seq<Text> {
    if experiments == [] then []
    else
      ExperimentsTexts(experiments[..|experiments| - 1], k, f)
      + ExperimentTexts(experiments[|experiments| - 1], k, f)
  }

  function StrategyTexts(strategy: Strategy, k: Key, f: Field): seq<Text> {
    (if DraftNames(strategy, k) then [Stated(strategy.draft.value.identity, f)] else [])
    + ExperimentsTexts(strategy.experiments, k, f)
  }

  function StrategiesTexts(strategies: seq<Strategy>, k: Key, f: Field): seq<Text> {
    if strategies == [] then []
    else
      StrategiesTexts(strategies[..|strategies| - 1], k, f) + StrategyTexts(strategies[|strategies| - 1], k, f)
  }

  /** Everything the records that name a key state for a field, in the order they are read. */
  function Texts(sources: Sources, k: Key, f: Field): seq<Text> {
    JobsTexts(sources.jobs, k, f) + TasksTexts(sources.tasks, k, f) + StrategiesTexts(sources.strategies, k, f)
  }

  /** The first text that is not empty. */
  function FirstOf(texts: seq<Text>): Text {
    if texts == [] then NoText else if texts[0] != NoText then texts[0] else FirstOf(texts[1..])
  }

  lemma {:induction false} FirstOfConcat(a: seq<Text>, b: seq<Text>)
    ensures FirstOf(a + b) == if FirstOf(a) != NoText then FirstOf(a) else FirstOf(b)
  {
    if a == [] {
      assert a + b == b;
    } else {
      FirstOfConcat(a[1..], b);
      assert (a + b)[1..] == a[1..] + b;
    }
  }

  lemma {:induction false} FirstStatedConcat(a: seq<Contribution>, b: seq<Contribution>, k: Key, f: Field)
    ensures FirstStated(a + b, k, f) == Filled(FirstStated(a, k, f), FirstStated(b, k, f))
  {
    hide FirstIn;
    if b == [] {
      assert a + b == a;
    } else {
      FirstStatedConcat(a, b[..|b| - 1], k, f);
      assert (a + b)[..|a + b| - 1] == a + b[..|b| - 1];
    }
  }

  /** These contributions state for a field of a key what these texts say. */
  predicate Tells(cs: seq<Contribution>, k: Key, f: Field, texts: seq<Text>) {
    FirstStated(cs, k, f) == FirstOf(texts)
  }

  lemma NothingTold(k: Key, f: Field)
    ensures Tells([], k, f, [])
  {
  }

  lemma ToldMore(a: seq<Contribution>, b: seq<Contribution>, k: Key, f: Field, s: seq<Text>, t: seq<Text>)
    requires Tells(a, k, f, s) && Tells(b, k, f, t)
    ensures Tells(a + b, k, f, s + t)
  {
    hide FirstStated, FirstOf;
    FirstStatedConcat(a, b, k, f);
    FirstOfConcat(s, t);
  }

  lemma OneTells(c: Contribution, k: Key, f: Field, texts: seq<Text>)
    requires c.key == k ==> FirstIn(c.identities, f) == FirstOf(texts)
    requires c.key != k ==> texts == []
    ensures Tells([c], k, f, texts)
  {
    hide FirstIn;
    assert [c][..0] == [];
    assert FirstStated([c][..0], k, f) == NoText;
  }

  lemma FirstInSnoc(identities: seq<Identity>, last: Identity, f: Field)
    ensures FirstIn(identities + [last], f) == Filled(FirstIn(identities, f), Stated(last, f))
  {
    assert (identities + [last])[..|identities|] == identities;
  }

  lemma FirstInOne(identity: Identity, f: Field)
    ensures FirstIn([identity], f) == Stated(identity, f)
  {
    assert [] + [identity] == [identity];
    FirstInSnoc([], identity, f);
  }

  lemma FirstOfTwo(first: Text, second: Text)
    ensures FirstOf([first]) == first
    ensures FirstOf([first] + [second]) == Filled(first, second)
  {
    FirstOfConcat([first], [second]);
  }

  lemma JobStates(job: Job, f: Field)
    ensures FirstIn(JobIdentities(job), f) == FirstOf(JobTexts(job, f))
  {
    var input := if job.snapshot.Some? && job.snapshot.value.Some? then job.snapshot.value.value else job.inputIdentity;
    var scenario, data := Identity(job.scenario, NoText, NoText), Identity(NoText, input.dataset, input.source);
    FirstInOne(scenario, f);
    FirstInSnoc([scenario], data, f);
    assert [scenario] + [data] == [scenario, data];
    if job.datasetVersion.Some? {
      FirstInSnoc([scenario, data], Identity(NoText, job.datasetVersion.value, NoText), f);
    } else {
      assert JobIdentities(job) == [scenario, data];
    }
    hide FirstIn;
    FirstOfTwo(job.scenario, NoText);
    FirstOfTwo(input.source, NoText);
    FirstOfTwo(input.dataset, if job.datasetVersion.Some? then job.datasetVersion.value else NoText);
    assert [input.dataset] + [] == [input.dataset];
  }

  lemma JobTells(job: Job, k: Key, f: Field)
    ensures Tells([JobContribution(job)], k, f, if JobNames(job, k) then JobTexts(job, f) else [])
  {
    JobStates(job, f);
    OneTells(JobContribution(job), k, f, if JobNames(job, k) then JobTexts(job, f) else []);
    hide *;
  }

  lemma {:induction false} LatestIsLast(confirmed: seq<Spec>)
    requires confirmed != []
    ensures Latest(confirmed) == confirmed[|confirmed| - 1]
  {
    if |confirmed| > 1 {
      LatestIsLast(confirmed[1..]);
    }
  }

  lemma SpecTells(task: Task, f: Field)
    ensures FirstIn(SpecIdentities(CurrentSpec(task)), f) == FirstOf(SpecTexts(task, f))
  {
    if task.confirmed != [] {
      LatestIsLast(task.confirmed);
    }
    if CurrentSpec(task).Some? {
      FirstInOne(CurrentSpec(task).value.identity, f);
    }
  }

  lemma OneStates(c: Contribution, k: Key, f: Field)
    ensures FirstStated([c], k, f) == if c.key == k then FirstIn(c.identities, f) else NoText
  {
    hide FirstIn;
    assert [c][..0] == [];
    assert FirstStated([c][..0], k, f) == NoText;
  }

  lemma {:induction false} TaskJobsTell(task: Task, runs: seq<Text>, k: Key, f: Field)
    ensures FirstStated(TaskJobContributions(task, runs), k, f)
      == if k.JobKey? && k.job in runs then FirstOf(SpecTexts(task, f)) else NoText
  {
    if runs != [] {
      var n := |runs| - 1;
      var c := TaskJobContribution(task, runs[n]);
      assert c.key == JobKey(runs[n]) && c.identities == SpecIdentities(CurrentSpec(task));
      SpecTells(task, f);
      hide TaskJobContribution, FirstIn, SpecTexts, FirstOf, SpecIdentities, CurrentSpec, FirstStated;
      TaskJobsTell(task, runs[..n], k, f);
      FirstStatedConcat(TaskJobContributions(task, runs[..n]), [c], k, f);
      OneStates(c, k, f);
      assert runs == runs[..n] + [runs[n]];
    }
  }

  lemma TaskTells(task: Task, k: Key, f: Field)
    ensures Tells(TaskContributions(task), k, f, if TaskNames(task, k) then SpecTexts(task, f) else [])
  {
    SpecTells(task, f);
    hide FirstIn, SpecTexts, SelectionLayers;
    if task.jobs != [] {
      TaskJobsTell(task, task.jobs, k, f);
    } else if task.pinned.Some? {
      OneTells(PinnedContribution(task), k, f, if TaskNames(task, k) then SpecTexts(task, f) else []);
    } else if TaskContributions(task) == [] {
      NothingTold(k, f);
    } else {
      OneTells(SelectionContribution(task), k, f, if TaskNames(task, k) then SpecTexts(task, f) else []);
    }
  }

  ghost function ExperimentSaying(strategy: Strategy, e: Experiment): seq<Contribution> {
    if e.job == NoText then [] else [ExperimentSays(strategy, e)]
  }

  lemma ExperimentTells(strategy: Strategy, e: Experiment, k: Key, f: Field)
    ensures Tells(ExperimentSaying(strategy, e), k, f, ExperimentTexts(e, k, f))
  {
    FirstInOne(e.identity, f);
    hide FirstIn;
    if e.job == NoText {
      NothingTold(k, f);
    } else {
      OneTells(ExperimentSays(strategy, e), k, f, ExperimentTexts(e, k, f));
    }
  }

  lemma {:induction false} ExperimentsTell(strategy: Strategy, experiments: seq<Experiment>, k: Key, f: Field)
    ensures Tells(ExperimentContributions(strategy, experiments), k, f, ExperimentsTexts(experiments, k, f))
  {
    if experiments == [] {
      NothingTold(k, f);
    } else {
      var n := |experiments| - 1;
      var before := ExperimentContributions(strategy, experiments[..n]);
      var texts := ExperimentsTexts(experiments[..n], k, f);
      ExperimentsTell(strategy, experiments[..n], k, f);
      ExperimentTells(strategy, experiments[n], k, f);
      ToldMore(before, ExperimentSaying(strategy, experiments[n]), k, f, texts, ExperimentTexts(experiments[n], k, f));
      assert ExperimentContributions(strategy, experiments) == before + ExperimentSaying(strategy, experiments[n]);
      hide Tells;
    }
  }

  lemma StrategyTells(strategy: Strategy, k: Key, f: Field)
    ensures Tells(StrategyContributions(strategy), k, f, StrategyTexts(strategy, k, f))
  {
    var drafted := DraftContributions(strategy);
    var texts := if DraftNames(strategy, k) then [Stated(strategy.draft.value.identity, f)] else [];
    ExperimentsTell(strategy, strategy.experiments, k, f);
    if drafted == [] {
      NothingTold(k, f);
    } else {
      FirstInOne(strategy.draft.value.identity, f);
      hide FirstIn;
      OneTells(drafted[0], k, f, texts);
      assert drafted == [drafted[0]];
    }
    hide Tells, ExperimentContributions, ExperimentsTexts;
    ToldMore(drafted, ExperimentContributions(strategy, strategy.experiments), k, f, texts,
             ExperimentsTexts(strategy.experiments, k, f));
  }

  lemma {:induction false} JobsTell(jobs: seq<Job>, k: Key, f: Field)
    ensures Tells(JobsSay(jobs), k, f, JobsTexts(jobs, k, f))
  {
    hide JobContribution, Tells, JobTexts, JobNames;
    NothingTold(k, f);
    if jobs != [] {
      var n := |jobs| - 1;
      JobsTell(jobs[..n], k, f);
      JobTells(jobs[n], k, f);
      ToldMore(JobsSay(jobs[..n]), [JobContribution(jobs[n])], k, f, JobsTexts(jobs[..n], k, f),
               if JobNames(jobs[n], k) then JobTexts(jobs[n], f) else []);
    }
  }

  lemma {:induction false} TasksTell(tasks: seq<Task>, k: Key, f: Field)
    ensures Tells(TasksSay(tasks), k, f, TasksTexts(tasks, k, f))
  {
    hide TaskContributions, Tells, SpecTexts, TaskNames;
    NothingTold(k, f);
    if tasks != [] {
      var n := |tasks| - 1;
      TasksTell(tasks[..n], k, f);
      TaskTells(tasks[n], k, f);
      ToldMore(TasksSay(tasks[..n]), TaskContributions(tasks[n]), k, f, TasksTexts(tasks[..n], k, f),
               if TaskNames(tasks[n], k) then SpecTexts(tasks[n], f) else []);
    }
  }

  lemma {:induction false} StrategiesTell(strategies: seq<Strategy>, k: Key, f: Field)
    ensures Tells(StrategiesSay(strategies), k, f, StrategiesTexts(strategies, k, f))
  {
    hide StrategyContributions, Tells, StrategyTexts;
    NothingTold(k, f);
    if strategies != [] {
      var n := |strategies| - 1;
      StrategiesTell(strategies[..n], k, f);
      StrategyTells(strategies[n], k, f);
      ToldMore(StrategiesSay(strategies[..n]), StrategyContributions(strategies[n]), k, f,
               StrategiesTexts(strategies[..n], k, f), StrategyTexts(strategies[n], k, f));
    }
  }

  /**
   * Each identity field of a listed reference is the first non-empty text the records naming its key state
   * for it: the run's own record first, with its snapshot's input before any other; then the tasks, by the
   * specification confirmed last or else the draft; then the strategies.
   */
  lemma IdentityExactly(sources: Sources, r: Reference, f: Field)
    requires r in Derived(sources)
    ensures Known(r, f) == FirstOf(Texts(sources, r.key, f))
  {
    var k := r.key;
    var a, b, c := JobsSay(sources.jobs), TasksSay(sources.tasks), StrategiesSay(sources.strategies);
    JobsTell(sources.jobs, k, f);
    TasksTell(sources.tasks, k, f);
    StrategiesTell(sources.strategies, k, f);
    hide Derived, JobsSay, TasksSay, StrategiesSay, FirstStated, FirstOf, JobsTexts, TasksTexts, StrategiesTexts;
    ToldMore(a, b, k, f, JobsTexts(sources.jobs, k, f), TasksTexts(sources.tasks, k, f));
    ToldMore(a + b, c, k, f, JobsTexts(sources.jobs, k, f) + TasksTexts(sources.tasks, k, f),
             StrategiesTexts(sources.strategies, k, f));
    assert Say(sources) + [] == Say(sources);
    FirstStatementWins(sources, Say(sources), [], k, f);
  }

  // ----- layers

  /** What a task's composition is read from: its specification, or the record of its creation while it has none. */
  function HeldSelection(task: Task): Option<Selection> {
    if task.confirmed != [] then Latest(task.confirmed).selection
    else match task.draft
      case Some(draft) => draft.selection
      case None => task.selection
  }

  function Rank(name: LayerName): nat {
    match name
    case Model => 0
    case Data => 1
    case StrategyLayer => 2
    case Validator => 3
    case Backtest => 4
  }

  predicate IsChoice(l: Layer, selection: Option<Selection>) {
    && selection.Some? && l.layer in selection.value.chosen && l.digest == NoText
    && l.plugin == selection.value.chosen[l.layer].plugin && l.version == selection.value.chosen[l.layer].version
  }

  ghost predicate IsRising(layers: seq<Layer>) {
    forall i, j :: 0 <= i < j < |layers| ==> Rank(layers[i].layer) < Rank(layers[j].layer)
  }

  /** Exactly the chosen layers, in layer order, by plugin and version and without a digest. */
  ghost predicate AreChosen(layers: seq<Layer>, selection: Option<Selection>) {
    (forall l :: l in layers <==> IsChoice(l, selection)) && IsRising(layers)
  }

  lemma {:induction false} ChosenHolds(order: seq<LayerName>, selection: Selection, l: Layer)
    ensures l in SelectionLayersOf(order, selection) <==> IsChoice(l, Some(selection)) && l.layer in order
  {
    if order != [] {
      ChosenHolds(order[1..], selection, l);
      assert order == [order[0]] + order[1..];
    }
  }

  lemma RisingCons(first: Layer, rest: seq<Layer>)
    requires IsRising(rest) && forall l :: l in rest ==> Rank(first.layer) < Rank(l.layer)
    ensures IsRising([first] + rest)
  {
    hide Rank;
  }

  lemma {:induction false} ChosenRises(order: seq<LayerName>, selection: Selection)
    requires forall i, j :: 0 <= i < j < |order| ==> Rank(order[i]) < Rank(order[j])
    ensures IsRising(SelectionLayersOf(order, selection))
  {
    if order != [] {
      hide IsRising, Rank, IsChoice;
      ChosenRises(order[1..], selection);
      var rest := SelectionLayersOf(order[1..], selection);
      forall l | l in rest ensures Rank(order[0]) < Rank(l.layer) {
        ChosenHolds(order[1..], selection, l);
      }
      assert [] + rest == rest;
      if order[0] in selection.chosen {
        RisingCons(SelectionLayersOf(order, selection)[0], rest);
      }
    } else {
      assert IsRising([]);
    }
  }

  lemma EveryLayerIsOrdered(name: LayerName)
    ensures name in LayerOrder()
    ensures forall i, j :: 0 <= i < j < |LayerOrder()| ==> Rank(LayerOrder()[i]) < Rank(LayerOrder()[j])
  {
    var order := LayerOrder();
    assert order[0] == Model && order[1] == Data && order[2] == StrategyLayer && order[3] == Validator
      && order[4] == Backtest;
  }

  lemma SelectionLayersAre(selection: Selection)
    ensures AreChosen(SelectionLayers(selection), Some(selection))
  {
    forall l ensures l in SelectionLayersOf(LayerOrder(), selection) <==> IsChoice(l, Some(selection)) {
      ChosenHolds(LayerOrder(), selection, l);
      EveryLayerIsOrdered(l.layer);
    }
    EveryLayerIsOrdered(Model);
    hide LayerOrder, Rank, IsRising, IsChoice;
    ChosenRises(LayerOrder(), selection);
  }

  /** A task that stands for itself sets the layers of its key: the pinned ones, or those of its selection. */
  ghost predicate SetsLayers(task: Task, layers: seq<Layer>, defaultRoute: bool) {
    if task.pinned.Some? then layers == task.pinned.value && !defaultRoute
    else AreChosen(layers, HeldSelection(task)) && (defaultRoute <==> layers == [])
  }

  lemma TaskSets(task: Task, k: Key)
    requires TaskNames(task, k) && !k.JobKey?
    ensures TaskContributions(task) == [TaskSays(task, k)]
    ensures TaskSays(task, k).key == k && TaskSays(task, k).layers.SetLayers?
    ensures SetsLayers(task, TaskSays(task, k).layers.layers, TaskSays(task, k).layers.defaultRoute)
  {
    if task.confirmed != [] {
      LatestIsLast(task.confirmed);
    }
    var selection := CurrentComposition(task, CurrentSpec(task)).0;
    SelectionLayersAre(selection);
    assert AreChosen(SelectionLayers(selection), HeldSelection(task)) by {
      hide SelectionLayers;
    }
    hide SelectionLayers, AreChosen;
  }

  ghost predicate Unsaid(cs: seq<Contribution>, k: Key) { forall c :: c in cs ==> c.key != k }

  lemma LastSetStays(before: seq<Contribution>, c: Contribution, after: seq<Contribution>, k: Key)
    requires c.key == k && c.layers.SetLayers? && Unsaid(after, k)
    ensures var r := After(None, before + [c] + after, k);
      r.Some? && r.value.layers == c.layers.layers && r.value.defaultRoute == c.layers.defaultRoute
  {
    KeysHold(after, k);
    AfterConcat(None, before + [c], after, k);
    UnsaidStays(After(None, before + [c], k), after, k);
    assert (before + [c])[..|before|] == before;
    var first := After(None, before, k);
    ContributedSets(if first.Some? then first.value else Created(k, c.kind, c.jobId), c);
    hide Contributed, Created;
  }

  /** The last task that names the key. */
  ghost predicate IsLastNaming(tasks: seq<Task>, k: Key, i: nat) {
    i < |tasks| && TaskNames(tasks[i], k) && forall j :: i < j < |tasks| ==> !TaskNames(tasks[j], k)
  }

  lemma RestIsUnsaid(sources: Sources, k: Key, i: nat)
    requires IsLastNaming(sources.tasks, k, i) && !k.JobKey?
    ensures Unsaid(TasksSay(sources.tasks[i + 1..]) + StrategiesSay(sources.strategies), k)
  {
    hide TasksSay, StrategiesSay, TaskContributions, StrategyContributions;
    var rest := sources.tasks[i + 1..];
    forall c | c in TasksSay(rest) ensures c.key != k {
      TasksHold(rest, c);
      var task :| task in rest && c in TaskContributions(task);
      var j :| 0 <= j < |rest| && rest[j] == task;
      assert rest[j] == sources.tasks[i + 1 + j];
      TaskHolds(task, c);
    }
    forall c | c in StrategiesSay(sources.strategies) ensures c.key != k {
      StrategiesHold(sources.strategies, c);
      var strategy :| strategy in sources.strategies && c in StrategyContributions(strategy);
      StrategySays(strategy, c);
      StrategyHolds(strategy, c);
    }
  }

  lemma OneTaskSays(task: Task)
    ensures TasksSay([task]) == TaskContributions(task)
  {
    assert [task][..0] == [] && TasksSay([]) == [];
    assert TasksSay([task][..0]) + TaskContributions(task) == TaskContributions(task);
    hide TaskContributions;
  }

  lemma TasksSplit(before: seq<Task>, task: Task, rest: seq<Task>)
    ensures TasksSay(before + [task] + rest) == TasksSay(before) + TaskContributions(task) + TasksSay(rest)
  {
    hide *;
    TasksSayConcat(before + [task], rest);
    TasksSayConcat(before, [task]);
    OneTaskSays(task);
  }

  lemma SaySplit(sources: Sources, before: seq<Task>, task: Task, rest: seq<Task>)
    requires sources.tasks == before + [task] + rest
    ensures Say(sources) == JobsSay(sources.jobs) + TasksSay(before) + TaskContributions(task)
                            + (TasksSay(rest) + StrategiesSay(sources.strategies))
  {
    TasksSplit(before, task, rest);
    assert Say(sources) == JobsSay(sources.jobs) + TasksSay(sources.tasks) + StrategiesSay(sources.strategies);
    hide *;
    Regrouped(JobsSay(sources.jobs), TasksSay(before), TaskContributions(task), TasksSay(rest),
              StrategiesSay(sources.strategies));
  }

  lemma Regrouped<T>(a: seq<T>, b: seq<T>, c: seq<T>, d: seq<T>, e: seq<T>)
    ensures a + (b + c + d) + e == a + b + c + (d + e)
  {
  }

  lemma SplitAt<T>(s: seq<T>, i: nat)
    requires i < |s|
    ensures s == s[..i] + [s[i]] + s[i + 1..]
  {
  }

  lemma SayAround(sources: Sources, i: nat)
    requires i < |sources.tasks|
    ensures Say(sources) == JobsSay(sources.jobs) + TasksSay(sources.tasks[..i]) + TaskContributions(sources.tasks[i])
                            + (TasksSay(sources.tasks[i + 1..]) + StrategiesSay(sources.strategies))
  {
    hide *;
    SplitAt(sources.tasks, i);
    SaySplit(sources, sources.tasks[..i], sources.tasks[i], sources.tasks[i + 1..]);
  }

  /**
   * A reference of a task without runs shows the layers of the last record of that task: the pinned ones where
   * it is pinned, otherwise exactly those its specification selects, or its creation while it has none, in layer
   * order; and the default route exactly where that selects nothing.
   */
  lemma TaskLayersExactly(sources: Sources, r: Reference, i: nat)
    requires r in Derived(sources) && !r.key.JobKey? && IsLastNaming(sources.tasks, r.key, i)
    ensures SetsLayers(sources.tasks[i], r.layers, r.defaultRoute)
  {
    var k, task := r.key, sources.tasks[i];
    TaskSets(task, k);
    RestIsUnsaid(sources, k, i);
    SayAround(sources, i);
    DerivedAt(sources, k);
    hide Derived, Say, After, JobsSay, TasksSay, StrategiesSay, TaskContributions, TaskNames, SetsLayers,
         Unsaid, Unknowns;
    LastSetStays(JobsSay(sources.jobs) + TasksSay(sources.tasks[..i]), TaskSays(task, k),
                 TasksSay(sources.tasks[i + 1..]) + StrategiesSay(sources.strategies), k);
  }

  // ----- the layers of runs

  function JobsBindings(jobs: seq<Job>, run: Text): seq<seq<Layer>> {
    if jobs == [] then []
    else
      var last := jobs[|jobs| - 1];
      JobsBindings(jobs[..|jobs| - 1], run)
      + if last.id == run && last.binding.Some? then [last.binding.value] else []
  }

  function TasksBindings(tasks: seq<Task>, run: Text): seq<seq<Layer>> {
    if tasks == [] then []
    else
      var last := tasks[|tasks| - 1];
      TasksBindings(tasks[..|tasks| - 1], run)
      + TaskBound(last, run)
  }

  /** The first binding with a component. */
  function FirstBinding(bindings: seq<seq<Layer>>): seq<Layer> {
    if bindings == [] then [] else if bindings[0] != [] then bindings[0] else FirstBinding(bindings[1..])
  }

  lemma {:induction false} FirstBindingConcat(a: seq<seq<Layer>>, b: seq<seq<Layer>>)
    ensures FirstBinding(a + b) == if FirstBinding(a) != [] then FirstBinding(a) else FirstBinding(b)
  {
    if a == [] {
      assert a + b == b;
    } else {
      FirstBindingConcat(a[1..], b);
      assert (a + b)[1..] == a[1..] + b;
    }
  }

  lemma {:induction false} FirstLayersConcat(a: seq<Contribution>, b: seq<Contribution>, k: Key)
    ensures FirstLayers(a + b, k) == if FirstLayers(a, k) != [] then FirstLayers(a, k) else FirstLayers(b, k)
  {
    if b == [] {
      assert a + b == a;
    } else {
      FirstLayersConcat(a, b[..|b| - 1], k);
      assert (a + b)[..|a + b| - 1] == a + b[..|b| - 1];
    }
  }

  predicate Binds(cs: seq<Contribution>, run: Text, bindings: seq<seq<Layer>>) {
    FirstLayers(cs, JobKey(run)) == FirstBinding(bindings)
  }

  lemma BoundMore(a: seq<Contribution>, b: seq<Contribution>, run: Text, s: seq<seq<Layer>>, t: seq<seq<Layer>>)
    requires Binds(a, run, s) && Binds(b, run, t)
    ensures Binds(a + b, run, s + t)
  {
    hide FirstLayers, FirstBinding;
    FirstLayersConcat(a, b, JobKey(run));
    FirstBindingConcat(s, t);
  }

  lemma OneBinds(c: Contribution, run: Text)
    ensures FirstLayers([c], JobKey(run))
      == if c.key == JobKey(run) && c.layers.FillLayers? then c.layers.layers else []
  {
    assert [c][..0] == [];
    assert FirstLayers([c][..0], JobKey(run)) == [];
  }

  lemma OneBinding(binding: seq<Layer>)
    ensures FirstBinding([binding]) == binding
  {
  }

  lemma {:induction false} JobsBind(jobs: seq<Job>, run: Text)
    ensures Binds(JobsSay(jobs), run, JobsBindings(jobs, run))
  {
    if jobs != [] {
      var n := |jobs| - 1;
      var job := jobs[n];
      JobsBind(jobs[..n], run);
      OneBinds(JobContribution(job), run);
      var bound := if job.id == run && job.binding.Some? then [job.binding.value] else [];
      if bound != [] {
        OneBinding(bound[0]);
      }
      assert Binds([JobContribution(job)], run, bound);
      hide Binds, JobContribution;
      BoundMore(JobsSay(jobs[..n]), [JobContribution(job)], run, JobsBindings(jobs[..n], run), bound);
    }
  }

  lemma {:induction false} TaskJobsBind(task: Task, runs: seq<Text>, run: Text)
    ensures FirstLayers(TaskJobContributions(task, runs), JobKey(run))
      == if run in runs && task.pinned.Some? then task.pinned.value else []
  {
    if runs != [] {
      var n := |runs| - 1;
      var c := TaskJobContribution(task, runs[n]);
      assert c.key == JobKey(runs[n]);
      assert c.layers == if task.pinned.Some? then FillLayers(task.pinned.value) else KeepLayers;
      hide TaskJobContribution, FirstLayers;
      TaskJobsBind(task, runs[..n], run);
      FirstLayersConcat(TaskJobContributions(task, runs[..n]), [c], JobKey(run));
      OneBinds(c, run);
      assert runs == runs[..n] + [runs[n]];
    }
  }

  function TaskBound(task: Task, run: Text): seq<seq<Layer>> {
    if run in task.jobs && task.pinned.Some? then [task.pinned.value] else []
  }

  lemma TaskBinds(task: Task, run: Text)
    ensures Binds(TaskContributions(task), run, TaskBound(task, run))
  {
    TaskJobsBind(task, task.jobs, run);
    if TaskBound(task, run) != [] {
      OneBinding(task.pinned.value);
    }
    if task.pinned.Some? {
      OneBinds(PinnedContribution(task), run);
    }
    OneBinds(SelectionContribution(task), run);
    hide SelectionLayers, TaskJobContributions;
  }

  lemma {:induction false} TasksBind(tasks: seq<Task>, run: Text)
    ensures Binds(TasksSay(tasks), run, TasksBindings(tasks, run))
  {
    if tasks != [] {
      var n := |tasks| - 1;
      TasksBind(tasks[..n], run);
      TaskBinds(tasks[n], run);
      hide Binds, TaskContributions;
      BoundMore(TasksSay(tasks[..n]), TaskContributions(tasks[n]), run, TasksBindings(tasks[..n], run),
                TaskBound(tasks[n], run));
    }
  }

  lemma {:induction false} BindsNothing(cs: seq<Contribution>, k: Key)
    requires forall c :: c in cs ==> c.layers == KeepLayers
    ensures FirstLayers(cs, k) == []
  {
    if cs != [] {
      BindsNothing(cs[..|cs| - 1], k);
    }
  }

  lemma StrategiesBindNothing(strategies: seq<Strategy>, run: Text)
    ensures Binds(StrategiesSay(strategies), run, [])
  {
    forall c | c in StrategiesSay(strategies) ensures c.layers == KeepLayers {
      StrategiesHold(strategies, c);
      var strategy :| strategy in strategies && c in StrategyContributions(strategy);
      StrategyHolds(strategy, c);
    }
    BindsNothing(StrategiesSay(strategies), JobKey(run));
  }

  /** A run shows the first binding with a component, its own records' before its tasks', and no default route. */
  lemma RunLayersExactly(sources: Sources, r: Reference, run: Text)
    requires r in Derived(sources) && r.key == JobKey(run)
    ensures r.layers == FirstBinding(JobsBindings(sources.jobs, run) + TasksBindings(sources.tasks, run))
    ensures !r.defaultRoute
  {
    var a, b, c := JobsSay(sources.jobs), TasksSay(sources.tasks), StrategiesSay(sources.strategies);
    JobsBind(sources.jobs, run);
    TasksBind(sources.tasks, run);
    StrategiesBindNothing(sources.strategies, run);
    var bound := JobsBindings(sources.jobs, run) + TasksBindings(sources.tasks, run);
    hide Derived, JobsSay, TasksSay, StrategiesSay, FirstLayers, FirstBinding, JobsBindings, TasksBindings;
    BoundMore(a, b, run, JobsBindings(sources.jobs, run), TasksBindings(sources.tasks, run));
    BoundMore(a + b, c, run, bound, []);
    assert bound + [] == bound;
    assert Say(sources) + [] == Say(sources);
    FirstBindingWins(sources, Say(sources), [], run);
  }

  // ----- kinds and order

  predicate IsOfItsKind(r: Reference, k: Key) {
    match k
    case JobKey(run) => r.kind == Frozen && r.jobId == Some(run)
    case TaskKey(_) => r.kind == Frozen && r.jobId == None
    case _ => r.kind == Draft && r.jobId == None
  }

  lemma {:induction false} AfterIsOfItsKind(cs: seq<Contribution>, k: Key)
    requires AllProper(cs)
    ensures var r := After(None, cs, k); r.Some? ==> r.value.key == k && IsOfItsKind(r.value, k)
  {
    hide Contributed;
    if cs != [] {
      var n := |cs| - 1;
      assert forall c :: c in cs[..n] ==> c in cs;
      AfterIsOfItsKind(cs[..n], k);
      assert IsProper(cs[n]);
      var before := After(None, cs[..n], k);
      ContributedKeepsKey(if before.Some? then before.value else Created(k, cs[n].kind, cs[n].jobId), cs[n]);
    }
  }

  /** Runs and pinned tasks are frozen, selections and strategy drafts are not, and only runs name a run. */
  lemma KindsExactly(sources: Sources, r: Reference)
    requires r in Derived(sources)
    ensures IsOfItsKind(r, r.key)
  {
    hide Derived, Say, After, AllProper, KeysOf, Unknowns;
    SayIsProper(sources, NoText);
    DerivedAt(sources, r.key);
    AfterIsOfItsKind(Say(sources), r.key);
  }

  ghost predicate StandsFirst(a: seq<Reference>, b: seq<Reference>) {
    |a| <= |b| && forall i :: 0 <= i < |a| ==> a[i].key == b[i].key
  }

  lemma {:induction false} OrderGrows(index: Index, cs: seq<Contribution>)
    ensures index.order <= AppliedAll(index, cs).order
  {
    hide Contributed, Ensured;
    if cs != [] {
      OrderGrows(index, cs[..|cs| - 1]);
    }
  }

  lemma KeyAt(sources: Sources, i: nat)
    ensures |Derived(sources)| == |AppliedAll(Empty(), Say(sources)).order|
    ensures i < |Derived(sources)| ==> Derived(sources)[i].key == AppliedAll(Empty(), Say(sources)).order[i]
  {
    hide Derived, Say, AppliedAll, Unknowns;
    var index := AppliedAll(Empty(), Say(sources));
    DerivedShape(sources);
    if i < |index.order| {
      assert index.order[i] in index.order;
    }
  }

  lemma PrefixStandsFirst(s: Sources, t: Sources, more: seq<Contribution>)
    requires Say(t) == Say(s) + more
    ensures StandsFirst(Derived(s), Derived(t))
  {
    hide Derived, Say, AppliedAll;
    AppliedAllConcat(Empty(), Say(s), more);
    OrderGrows(AppliedAll(Empty(), Say(s)), more);
    KeyAt(s, 0);
    KeyAt(t, 0);
    forall i | 0 <= i < |Derived(s)| ensures Derived(s)[i].key == Derived(t)[i].key {
      KeyAt(s, i);
      KeyAt(t, i);
    }
  }

  lemma Regrouped4<T>(a: seq<T>, b: seq<T>, c: seq<T>, d: seq<T>)
    ensures a + b + c + d == a + (b + c + d)
    ensures a + (b + c) + d == a + b + (c + d)
    ensures a + b + (c + d) == a + b + c + d
  {
  }

  lemma JobsStandFirst(sources: Sources, i: nat)
    requires i <= |sources.jobs|
    ensures StandsFirst(Derived(Sources(sources.jobs[..i], [], [])), Derived(sources))
  {
    var part := Sources(sources.jobs[..i], [], []);
    SaysAlone(part);
    hide *;
    assert Say(sources) == JobsSay(sources.jobs) + TasksSay(sources.tasks) + StrategiesSay(sources.strategies);
    assert sources.jobs == sources.jobs[..i] + sources.jobs[i..];
    JobsSayConcat(sources.jobs[..i], sources.jobs[i..]);
    var a, b := JobsSay(sources.jobs[..i]), JobsSay(sources.jobs[i..]);
    Regrouped4(a, b, TasksSay(sources.tasks), StrategiesSay(sources.strategies));
    PrefixStandsFirst(part, sources, b + TasksSay(sources.tasks) + StrategiesSay(sources.strategies));
  }

  lemma SaysNoStrategy(jobs: seq<Job>, tasks: seq<Task>)
    ensures Say(Sources(jobs, tasks, [])) == JobsSay(jobs) + TasksSay(tasks)
  {
    assert StrategiesSay([]) == [];
    hide JobsSay, TasksSay, StrategiesSay;
    assert JobsSay(jobs) + TasksSay(tasks) + [] == JobsSay(jobs) + TasksSay(tasks);
  }

  lemma TasksStandFirst(sources: Sources, i: nat)
    requires i <= |sources.tasks|
    ensures StandsFirst(Derived(Sources(sources.jobs, sources.tasks[..i], [])), Derived(sources))
  {
    var part := Sources(sources.jobs, sources.tasks[..i], []);
    SaysNoStrategy(sources.jobs, sources.tasks[..i]);
    assert Say(sources) == JobsSay(sources.jobs) + TasksSay(sources.tasks) + StrategiesSay(sources.strategies);
    hide *;
    var jobs, a, b, c := JobsSay(sources.jobs), TasksSay(sources.tasks[..i]), TasksSay(sources.tasks[i..]),
                         StrategiesSay(sources.strategies);
    assert TasksSay(sources.tasks) == a + b by {
      assert sources.tasks == sources.tasks[..i] + sources.tasks[i..];
      TasksSayConcat(sources.tasks[..i], sources.tasks[i..]);
    }
    assert Say(sources) == Say(part) + (b + c) by {
      Regrouped4(jobs, a, b, c);
    }
    PrefixStandsFirst(part, sources, b + c);
  }

  lemma StrategiesStandFirst(sources: Sources, i: nat)
    requires i <= |sources.strategies|
    ensures StandsFirst(Derived(sources.(strategies := sources.strategies[..i])), Derived(sources))
  {
    var part := sources.(strategies := sources.strategies[..i]);
    assert Say(part) == JobsSay(sources.jobs) + TasksSay(sources.tasks) + StrategiesSay(sources.strategies[..i]);
    hide *;
    assert sources.strategies == sources.strategies[..i] + sources.strategies[i..];
    StrategiesSayConcat(sources.strategies[..i], sources.strategies[i..]);
    var a, b := StrategiesSay(sources.strategies[..i]), StrategiesSay(sources.strategies[i..]);
    Regrouped4(JobsSay(sources.jobs), TasksSay(sources.tasks), a, b);
    PrefixStandsFirst(part, sources, b);
  }

  /**
   * References are listed in the order in which their keys are first named, jobs before tasks before strategies:
   * what was read so far stands first, whatever is read after it.
   */
  lemma EarlierRecordsStandFirst(sources: Sources, i: nat)
    ensures i <= |sources.jobs| ==> StandsFirst(Derived(Sources(sources.jobs[..i], [], [])), Derived(sources))
    ensures i <= |sources.tasks| ==>
      StandsFirst(Derived(Sources(sources.jobs, sources.tasks[..i], [])), Derived(sources))
    ensures i <= |sources.strategies| ==>
      StandsFirst(Derived(sources.(strategies := sources.strategies[..i])), Derived(sources))
  {
    hide *;
    if i <= |sources.jobs| {
      JobsStandFirst(sources, i);
    }
    if i <= |sources.tasks| {
      TasksStandFirst(sources, i);
    }
    if i <= |sources.strategies| {
      StrategiesStandFirst(sources, i);
    }
  }

  function DimensionRank(d: Dimension): nat {
    match d
    case UnknownScenario => 0
    case UnknownDataset => 1
    case UnknownSource => 2
    case UnknownPlugin => 3
    case UnknownDigest => 4
  }

  /** What is not known is named in this order. */
  lemma UnknownInOrder(sources: Sources, r: Reference)
    requires r in Derived(sources)
    ensures forall i, j :: 0 <= i < j < |r.unknown| ==> DimensionRank(r.unknown[i]) < DimensionRank(r.unknown[j])
  {
    hide Derived, Say, After, Unknowns, DimensionRank;
    DerivedAt(sources, r.key);
    UnknownsRise(After(None, Say(sources), r.key).value);
  }

  lemma UnknownsRise(r: Reference)
    ensures var unknown := Unknowns(r);
      forall i, j :: 0 <= i < j < |unknown| ==> DimensionRank(unknown[i]) < DimensionRank(unknown[j])
  {
    hide LacksDigest;
  }
}
