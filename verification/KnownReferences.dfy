/**
 * The index of known references: three read sources folded into one insertion-ordered map, one
 * reference per identity, with identity fields filled by whoever states them first.
 */
module KnownReferences {
  import opened Wrappers

  /** A text of which only presence and identity matter; an absent, null or empty one is NoText. */
  datatype Text = NoText | Text(id: nat)

  datatype LayerName = Model | Data | StrategyLayer | Validator | Backtest

  datatype Layer = Layer(layer: LayerName, plugin: Text, version: Text, digest: Text)

  datatype Kind = Draft | Frozen

  /** The map's keys; the prefix before the first colon and the revision after the last keep them apart. */
  datatype Key =
    | JobKey(job: Text) | TaskKey(task: Text) | SelectionKey(task: Text) | DraftKey(strategy: Text, revision: int)

  datatype Scope =
    | JobRecord | JobSnapshot | JobBinding | JobDatasetVersion
    | TaskJob | TaskFrozenSpec | TaskDraftSpec | TaskBinding | TaskSelection
    | StrategyDraft | StrategyExperiment

  datatype Link = RunLink(job: Text) | ResearchLink(task: Text) | StrategyLink(strategy: Text)

  datatype Dimension = UnknownScenario | UnknownDataset | UnknownSource | UnknownPlugin | UnknownDigest

  datatype Reference = Reference(key: Key, kind: Kind, jobId: Option<Text>, scenario: Text, dataset: Text, source: Text,
                                 layers: seq<Layer>, defaultRoute: bool, scope: seq<Scope>, links: seq<Link>,
                                 unknown: seq<Dimension>)

  // ----- the sources

  datatype Identity = Identity(scenario: Text, dataset: Text, source: Text)

  datatype Job = Job(id: Text, scenario: Text, snapshot: Option<Option<Identity>>, inputIdentity: Identity,
                     binding: Option<seq<Layer>>, datasetVersion: Option<Text>)

  datatype LayerSelection = LayerSelection(plugin: Text, version: Text)

  datatype Selection = Selection(chosen: map<LayerName, LayerSelection>)

  datatype Spec = Spec(identity: Identity, selection: Option<Selection>)

  datatype Task = Task(id: Text, confirmed: seq<Spec>, draft: Option<Spec>, jobs: seq<Text>,
                       pinned: Option<seq<Layer>>, selection: Option<Selection>)

  datatype StrategyDraftRecord = StrategyDraftRecord(isIntent: bool, revision: int, identity: Identity)

  datatype Experiment = Experiment(job: Text, identity: Identity)

  datatype Strategy = Strategy(id: Text, draft: Option<StrategyDraftRecord>, experiments: seq<Experiment>)

  datatype Sources = Sources(jobs: seq<Job>, tasks: seq<Task>, strategies: seq<Strategy>)

  // ----- one reference

  /** `if (!list.includes(value)) list.push(value)`. */
  function Pushed<T(==)>(list: seq<T>, value: T): seq<T> { if value in list then list else list + [value] }

  function PushedAll<T(==)>(list: seq<T>, values: seq<T>): seq<T> {
    if values == [] then list else Pushed(PushedAll(list, values[..|values| - 1]), values[|values| - 1])
  }

  function Filled(current: Text, stated: Text): Text { if current == NoText then stated else current }

  function FillIdentity(r: Reference, identity: Identity): Reference {
    r.(scenario := Filled(r.scenario, identity.scenario),
       dataset := Filled(r.dataset, identity.dataset),
       source := Filled(r.source, identity.source))
  }

  function Created(key: Key, kind: Kind, jobId: Option<Text>): Reference {
    Reference(key, kind, jobId, NoText, NoText, NoText, [], false, [],
              if jobId.Some? && jobId.value != NoText then [RunLink(jobId.value)] else [], [])
  }

  function LayerOrder(): seq<LayerName> { [Model, Data, StrategyLayer, Validator, Backtest] }

  function SelectionLayersOf(order: seq<LayerName>, selection: Selection): seq<Layer> {
    if order == [] then []
    else
      (if order[0] in selection.chosen
       then [Layer(order[0], selection.chosen[order[0]].plugin, selection.chosen[order[0]].version, NoText)] else [])
      + SelectionLayersOf(order[1..], selection)
  }

  function SelectionLayers(selection: Selection): seq<Layer> { SelectionLayersOf(LayerOrder(), selection) }

  /** The composition a task holds, and whether any record states one. */
  function CurrentComposition(task: Task, spec: Option<Spec>): (Selection, bool) {
    if spec.Some? then (if spec.value.selection.Some? then spec.value.selection.value else Selection(map[]), true)
    else (if task.selection.Some? then task.selection.value else Selection(map[]), task.selection.Some?)
  }

  function CurrentSpec(task: Task): Option<Spec> {
    if task.confirmed != [] then Some(task.confirmed[|task.confirmed| - 1]) else task.draft
  }

  function SpecScope(task: Task): Scope { if task.confirmed != [] then TaskFrozenSpec else TaskDraftSpec }

  function Unknowns(r: Reference): seq<Dimension> {
    Named(r.scenario == NoText, UnknownScenario) + Named(r.dataset == NoText, UnknownDataset)
    + Named(r.source == NoText, UnknownSource) + UnknownLayers(r)
  }

  function Named(missing: bool, d: Dimension): seq<Dimension> { if missing then [d] else [] }

  function UnknownLayers(r: Reference): seq<Dimension> {
    if r.layers == [] && !r.defaultRoute then [UnknownPlugin] else Named(LacksDigest(r), UnknownDigest)
  }

  predicate LacksDigest(r: Reference) { exists l :: l in r.layers && l.digest == NoText }

  function Finalized(r: Reference): Reference { r.(unknown := Unknowns(r)) }

  // ----- what each record contributes

  datatype LayerWrite =
    | KeepLayers
    /** Written only while no layer is known. */
    | FillLayers(layers: seq<Layer>)
    /** Always written. */
    | SetLayers(layers: seq<Layer>, defaultRoute: bool)

  datatype Contribution = Contribution(key: Key, kind: Kind, jobId: Option<Text>, identities: seq<Identity>,
                                       layers: LayerWrite, scopes: seq<Scope>, links: seq<Link>)

  function FilledAll(r: Reference, identities: seq<Identity>): Reference {
    if identities == [] then r
    else FillIdentity(FilledAll(r, identities[..|identities| - 1]), identities[|identities| - 1])
  }

  function WithLayers(r: Reference, write: LayerWrite): Reference {
    match write
    case KeepLayers => r
    case FillLayers(layers) => if r.layers == [] then r.(layers := layers) else r
    case SetLayers(layers, defaultRoute) => r.(layers := layers, defaultRoute := defaultRoute)
  }

  function Contributed(r: Reference, c: Contribution): Reference {
    var filled := WithLayers(FilledAll(r, c.identities), c.layers);
    filled.(scope := PushedAll(filled.scope, c.scopes), links := PushedAll(filled.links, c.links))
  }

  /** The identity part of the job index, in the order it is filled. */
  function JobIdentities(job: Job): seq<Identity> {
    var input := if job.snapshot.Some? && job.snapshot.value.Some? then job.snapshot.value.value else job.inputIdentity;
    [Identity(job.scenario, NoText, NoText), Identity(NoText, input.dataset, input.source)]
    + (if job.datasetVersion.Some? then [Identity(NoText, job.datasetVersion.value, NoText)] else [])
  }

  function JobContribution(job: Job): Contribution {
    Contribution(JobKey(job.id), Frozen, Some(job.id), JobIdentities(job),
      if job.binding.Some? then FillLayers(job.binding.value) else KeepLayers,
      [JobRecord] + (if job.snapshot.Some? then [JobSnapshot] else [])
      + (if job.binding.Some? then [JobBinding] else [])
      + (if job.datasetVersion.Some? then [JobDatasetVersion] else []),
      [])
  }

  function SpecIdentities(spec: Option<Spec>): seq<Identity> { if spec.Some? then [spec.value.identity] else [] }

  function SpecScopes(task: Task): seq<Scope> { if CurrentSpec(task).Some? then [SpecScope(task)] else [] }

  function TaskJobContribution(task: Task, job: Text): Contribution {
    Contribution(JobKey(job), Frozen, Some(job), SpecIdentities(CurrentSpec(task)),
      if task.pinned.Some? then FillLayers(task.pinned.value) else KeepLayers,
      [TaskJob] + SpecScopes(task) + (if task.pinned.Some? then [TaskBinding] else []),
      [ResearchLink(task.id)])
  }

  function TaskJobContributions(task: Task, jobs: seq<Text>): seq<Contribution> {
    if jobs == [] then []
    else TaskJobContributions(task, jobs[..|jobs| - 1]) + [TaskJobContribution(task, jobs[|jobs| - 1])]
  }

  function PinnedContribution(task: Task): Contribution
    requires task.pinned.Some?
  {
    Contribution(TaskKey(task.id), Frozen, None, SpecIdentities(CurrentSpec(task)),
      SetLayers(task.pinned.value, false), [TaskBinding] + SpecScopes(task), [ResearchLink(task.id)])
  }

  function SelectionContribution(task: Task): Contribution {
    var (selection, stated) := CurrentComposition(task, CurrentSpec(task));
    var layers := SelectionLayers(selection);
    Contribution(SelectionKey(task.id), Draft, None, SpecIdentities(CurrentSpec(task)),
      SetLayers(layers, stated && layers == []), SpecScopes(task) + [TaskSelection], [ResearchLink(task.id)])
  }

  function TaskContributions(task: Task): seq<Contribution> {
    if task.jobs != [] then TaskJobContributions(task, task.jobs)
    else if task.pinned.Some? then [PinnedContribution(task)]
    else if CurrentSpec(task).None? && !CurrentComposition(task, CurrentSpec(task)).1 then []
    else [SelectionContribution(task)]
  }

  function DraftContributions(strategy: Strategy): seq<Contribution> {
    if strategy.draft.Some? && !strategy.draft.value.isIntent then
      [Contribution(DraftKey(strategy.id, strategy.draft.value.revision), Draft, None, [strategy.draft.value.identity],
                    KeepLayers, [StrategyDraft], [StrategyLink(strategy.id)])]
    else []
  }

  function ExperimentContributions(strategy: Strategy, experiments: seq<Experiment>): seq<Contribution> {
    if experiments == [] then []
    else
      var last := experiments[|experiments| - 1];
      ExperimentContributions(strategy, experiments[..|experiments| - 1])
      + (if last.job == NoText then []
         else [Contribution(JobKey(last.job), Frozen, Some(last.job), [last.identity], KeepLayers,
                            [StrategyExperiment], [StrategyLink(strategy.id)])])
  }

  function StrategyContributions(strategy: Strategy): seq<Contribution> {
    DraftContributions(strategy) + ExperimentContributions(strategy, strategy.experiments)
  }

  function JobsSay(jobs: seq<Job>): seq<Contribution> {
    if jobs == [] then [] else JobsSay(jobs[..|jobs| - 1]) + [JobContribution(jobs[|jobs| - 1])]
  }

  function TasksSay(tasks: seq<Task>): seq<Contribution> {
    if tasks == [] then [] else TasksSay(tasks[..|tasks| - 1]) + TaskContributions(tasks[|tasks| - 1])
  }

  function StrategiesSay(strategies: seq<Strategy>): seq<Contribution> {
    if strategies == [] then []
    else StrategiesSay(strategies[..|strategies| - 1]) + StrategyContributions(strategies[|strategies| - 1])
  }

  function Say(sources: Sources): seq<Contribution> {
    JobsSay(sources.jobs) + TasksSay(sources.tasks) + StrategiesSay(sources.strategies)
  }

  // ----- the index

  /** An insertion-ordered map. */
  datatype Index = Index(order: seq<Key>, table: map<Key, Reference>)

  ghost predicate IsIndex(index: Index) {
    && (forall k :: k in index.order <==> k in index.table)
    && (forall i, j :: 0 <= i < j < |index.order| ==> index.order[i] != index.order[j])
    && (forall k :: k in index.table ==> index.table[k].key == k)
  }

  function Ensured(index: Index, key: Key, kind: Kind, jobId: Option<Text>): Reference {
    if key in index.table then index.table[key] else Created(key, kind, jobId)
  }

  function Applied(index: Index, c: Contribution): Index {
    Index(if c.key in index.table then index.order else index.order + [c.key],
          index.table[c.key := Contributed(Ensured(index, c.key, c.kind, c.jobId), c)])
  }

  function AppliedAll(index: Index, cs: seq<Contribution>): Index {
    if cs == [] then index else Applied(AppliedAll(index, cs[..|cs| - 1]), cs[|cs| - 1])
  }

  function Empty(): Index { Index([], map[]) }

  function Listed(index: Index, order: seq<Key>): seq<Reference>
    requires forall k :: k in order ==> k in index.table
  {
    if order == [] then [] else Listed(index, order[..|order| - 1]) + [Finalized(index.table[order[|order| - 1]])]
  }

  lemma {:induction false} AppliedAllConcat(index: Index, a: seq<Contribution>, b: seq<Contribution>)
    ensures AppliedAll(index, a + b) == AppliedAll(AppliedAll(index, a), b)
  {
    hide Applied;
    if b == [] {
      assert a + b == a;
    } else {
      AppliedAllConcat(index, a, b[..|b| - 1]);
      assert (a + b)[..|a + b| - 1] == a + b[..|b| - 1];
    }
  }

  lemma ContributedKeepsKey(r: Reference, c: Contribution)
    ensures Contributed(r, c).key == r.key && Contributed(r, c).kind == r.kind && Contributed(r, c).jobId == r.jobId
  {
    FilledAllKeeps(r, c.identities);
  }

  lemma {:induction false} FilledAllKeeps(r: Reference, identities: seq<Identity>)
    ensures var f := FilledAll(r, identities); f == r.(scenario := f.scenario, dataset := f.dataset, source := f.source)
  {
    if identities != [] {
      FilledAllKeeps(r, identities[..|identities| - 1]);
    }
  }

  lemma AppliedIsIndex(index: Index, c: Contribution)
    requires IsIndex(index)
    ensures IsIndex(Applied(index, c))
  {
    ContributedKeepsKey(Ensured(index, c.key, c.kind, c.jobId), c);
    hide Contributed;
    var next := Applied(index, c);
    if c.key !in index.table {
      assert c.key !in index.order;
      assert forall k :: k in next.order <==> k in index.order || k == c.key;
    }
  }

  lemma {:induction false} AppliedAllIsIndex(index: Index, cs: seq<Contribution>)
    requires IsIndex(index)
    ensures IsIndex(AppliedAll(index, cs))
  {
    hide Applied, IsIndex;
    if cs != [] {
      AppliedAllIsIndex(index, cs[..|cs| - 1]);
      AppliedIsIndex(AppliedAll(index, cs[..|cs| - 1]), cs[|cs| - 1]);
    }
  }

  lemma EmptyIsIndex()
    ensures IsIndex(Empty())
  {
  }

  /** The references the sources hold, in the order in which they were first named. */
  function Derived(sources: Sources): seq<Reference> {
    var index := AppliedAll(Empty(), Say(sources));
    EmptyIsIndex();
    AppliedAllIsIndex(Empty(), Say(sources));
    Listed(index, index.order)
  }

  // ----- a contribution, said one piece at a time

  function Silent(key: Key, kind: Kind, jobId: Option<Text>): Contribution {
    Contribution(key, kind, jobId, [], KeepLayers, [], [])
  }

  function Observed(key: Key, kind: Kind, jobId: Option<Text>, identity: Identity, scope: Scope, link: Link)
      : Contribution
  {
    Contribution(key, kind, jobId, [identity], KeepLayers, [scope], [link])
  }

  lemma SilentChangesNothing(r: Reference, c: Contribution)
    requires c == Silent(c.key, c.kind, c.jobId)
    ensures Contributed(r, c) == r
  {
  }

  lemma PushedSnoc<T>(list: seq<T>, values: seq<T>, value: T)
    ensures PushedAll(list, values + [value]) == Pushed(PushedAll(list, values), value)
  {
    assert (values + [value])[..|values|] == values;
  }

  lemma SaysScope(r: Reference, c: Contribution, scope: Scope) returns (d: Contribution)
    ensures d == c.(scopes := c.scopes + [scope])
    ensures Contributed(r, d) == Contributed(r, c).(scope := Pushed(Contributed(r, c).scope, scope))
  {
    d := c.(scopes := c.scopes + [scope]);
    PushedSnoc(WithLayers(FilledAll(r, c.identities), c.layers).scope, c.scopes, scope);
    hide FilledAll, PushedAll;
  }

  lemma SaysLink(r: Reference, c: Contribution, link: Link) returns (d: Contribution)
    ensures d == c.(links := c.links + [link])
    ensures Contributed(r, d) == Contributed(r, c).(links := Pushed(Contributed(r, c).links, link))
  {
    d := c.(links := c.links + [link]);
    PushedSnoc(WithLayers(FilledAll(r, c.identities), c.layers).links, c.links, link);
    hide FilledAll, PushedAll;
  }

  lemma FillBesideLayers(r: Reference, write: LayerWrite, identity: Identity)
    ensures WithLayers(FillIdentity(r, identity), write) == FillIdentity(WithLayers(r, write), identity)
  {
  }

  lemma SaysIdentity(r: Reference, c: Contribution, identity: Identity) returns (d: Contribution)
    ensures d == c.(identities := c.identities + [identity])
    ensures Contributed(r, d) == FillIdentity(Contributed(r, c), identity)
  {
    d := c.(identities := c.identities + [identity]);
    assert d.identities[..|c.identities|] == c.identities;
    assert FilledAll(r, d.identities) == FillIdentity(FilledAll(r, c.identities), identity);
    FillBesideLayers(FilledAll(r, c.identities), c.layers, identity);
    hide FilledAll, PushedAll, WithLayers;
  }

  /** The layers a contribution writes meet only what the reference held before it. */
  lemma SaysLayers(r: Reference, c: Contribution, write: LayerWrite) returns (d: Contribution)
    requires c.layers == KeepLayers
    ensures d == c.(layers := write)
    ensures Contributed(r, d) == WithLayers(Contributed(r, c), write)
  {
    d := c.(layers := write);
    FilledAllKeeps(r, c.identities);
    hide FilledAll, PushedAll;
  }

  lemma RecordedIsApplied(index: Index, c: Contribution, reference: Reference)
    requires IsIndex(index) && reference == Contributed(Ensured(index, c.key, c.kind, c.jobId), c)
    ensures reference.key == c.key && IsIndex(Applied(index, c))
    ensures Applied(index, c) == Index(if c.key in index.table then index.order else index.order + [c.key],
                                       index.table[c.key := reference])
  {
    ContributedKeepsKey(Ensured(index, c.key, c.kind, c.jobId), c);
    AppliedIsIndex(index, c);
    hide Contributed;
  }

  lemma AppliedAllSnoc(index: Index, cs: seq<Contribution>, c: Contribution)
    ensures AppliedAll(index, cs + [c]) == Applied(AppliedAll(index, cs), c)
  {
    assert (cs + [c])[..|cs|] == cs;
  }

  lemma AppliedAllOne(index: Index, c: Contribution)
    ensures AppliedAll(index, [c]) == Applied(index, c)
  {
    assert [c][..0] == [];
    assert AppliedAll(index, []) == index;
  }

  lemma NothingApplied()
    ensures AppliedAll(Empty(), []) == Empty()
  {
  }

  lemma KeysAreListed(index: Index)
    requires IsIndex(index)
    ensures forall k :: k in index.order ==> k in index.table
  {
  }

  // ----- the fold itself

  /** A binding, when there is one, fills the layers only if none is known, and is associated either way. */
  method WithBinding(before: Reference, ghost first: Reference, ghost c: Contribution, binding: Option<seq<Layer>>,
                     scope: Scope)
      returns (reference: Reference, ghost d: Contribution)
    requires before == Contributed(first, c) && c.layers == KeepLayers
    ensures reference == Contributed(first, d)
    ensures d == if binding.Some? then c.(layers := FillLayers(binding.value), scopes := c.scopes + [scope]) else c
  {
    hide Contributed, Pushed;
    reference, d := before, c;
    if binding.Some? {
      if reference.layers == [] {
        reference := reference.(layers := binding.value);
      }
      d := SaysLayers(first, d, FillLayers(binding.value));
      reference := reference.(scope := Pushed(reference.scope, scope));
      d := SaysScope(first, d, scope);
    }
  }

  /** The record itself, its scenario, and the input it ran on: the snapshot's when it has one. */
  method WithInput(before: Reference, ghost first: Reference, ghost c: Contribution, job: Job)
      returns (reference: Reference, ghost d: Contribution)
    requires before == Contributed(first, c) && c.scopes == [] && c.identities == []
    ensures reference == Contributed(first, d)
    ensures d == c.(scopes := [JobRecord] + (if job.snapshot.Some? then [JobSnapshot] else []),
                    identities := JobIdentities(job)[..2])
  {
    hide Contributed, Pushed, FillIdentity;
    reference := before.(scope := Pushed(before.scope, JobRecord));
    d := SaysScope(first, c, JobRecord);
    reference := FillIdentity(reference, Identity(job.scenario, NoText, NoText));
    d := SaysIdentity(first, d, Identity(job.scenario, NoText, NoText));
    var input := if job.snapshot.Some? && job.snapshot.value.Some? then job.snapshot.value.value else job.inputIdentity;
    reference := FillIdentity(reference, Identity(NoText, input.dataset, input.source));
    d := SaysIdentity(first, d, Identity(NoText, input.dataset, input.source));
    assert d.identities == JobIdentities(job)[..2];
    if job.snapshot.Some? {
      reference := reference.(scope := Pushed(reference.scope, JobSnapshot));
      d := SaysScope(first, d, JobSnapshot);
    }
  }

  class ReferenceIndex {
    var order: seq<Key>
    var table: map<Key, Reference>

    ghost function Value(): Index
      reads this
    {
      Index(order, table)
    }

    constructor ()
      ensures Value() == Empty()
    {
      order, table := [], map[];
    }

    /** The reference of a key, created and recorded when it is new. */
    method EnsureReference(key: Key, kind: Kind, jobId: Option<Text>) returns (reference: Reference)
      modifies this
      ensures reference == Ensured(old(Value()), key, kind, jobId)
      ensures order == (if key in old(table) then old(order) else old(order) + [key])
      ensures table == old(table)[key := reference]
    {
      if key in table {
        reference := table[key];
        assert table == table[key := reference];
        return;
      }
      reference := Created(key, kind, jobId);
      table := table[key := reference];
      order := order + [key];
    }

    /** Writes a changed reference back under its key. */
    method Record(reference: Reference)
      requires reference.key in table
      modifies this`table
      ensures table == old(table)[reference.key := reference]
    {
      table := table[reference.key := reference];
    }

    method AddJob(job: Job)
      requires IsIndex(Value())
      modifies this
      ensures IsIndex(Value()) && Value() == Applied(old(Value()), JobContribution(job))
    {
      hide Contributed, IsIndex, Pushed, FillIdentity, Ensured;
      var reference := EnsureReference(JobKey(job.id), Frozen, Some(job.id));
      ghost var first, c := reference, Silent(JobKey(job.id), Frozen, Some(job.id));
      SilentChangesNothing(first, c);
      reference, c := WithInput(reference, first, c, job);
      ghost var whole := JobContribution(job);
      reference, c := WithBinding(reference, first, c, job.binding, JobBinding);
      assert c.layers == whole.layers;
      if job.datasetVersion.Some? {
        reference := FillIdentity(reference, Identity(NoText, job.datasetVersion.value, NoText));
        c := SaysIdentity(first, c, Identity(NoText, job.datasetVersion.value, NoText));
        reference := reference.(scope := Pushed(reference.scope, JobDatasetVersion));
        c := SaysScope(first, c, JobDatasetVersion);
      }
      assert c == whole;
      RecordedIsApplied(old(Value()), c, reference);
      Record(reference);
      assert table == old(table)[reference.key := reference];
    }

    /** What a task adds to one run it names. */
    method AddTaskJob(task: Task, job: Text)
      requires IsIndex(Value())
      modifies this
      ensures IsIndex(Value()) && Value() == Applied(old(Value()), TaskJobContribution(task, job))
    {
      hide Contributed, IsIndex, Pushed, FillIdentity, Ensured;
      var spec := CurrentSpec(task);
      var reference := EnsureReference(JobKey(job), Frozen, Some(job));
      ghost var first, c := reference, Silent(JobKey(job), Frozen, Some(job));
      SilentChangesNothing(first, c);
      reference := reference.(scope := Pushed(reference.scope, TaskJob));
      c := SaysScope(first, c, TaskJob);
      reference := reference.(links := Pushed(reference.links, ResearchLink(task.id)));
      c := SaysLink(first, c, ResearchLink(task.id));
      if spec.Some? {
        reference := FillIdentity(reference, spec.value.identity);
        c := SaysIdentity(first, c, spec.value.identity);
        reference := reference.(scope := Pushed(reference.scope, SpecScope(task)));
        c := SaysScope(first, c, SpecScope(task));
      }
      reference, c := WithBinding(reference, first, c, task.pinned, TaskBinding);
      assert c == TaskJobContribution(task, job);
      RecordedIsApplied(old(Value()), c, reference);
      Record(reference);
      assert table == old(table)[reference.key := reference];
    }

    /** A confirmed and pinned task without any run keeps its own frozen reference. */
    method AddPinned(task: Task)
      requires task.pinned.Some? && IsIndex(Value())
      modifies this
      ensures IsIndex(Value()) && Value() == Applied(old(Value()), PinnedContribution(task))
    {
      hide Contributed, IsIndex, Pushed, FillIdentity, Ensured;
      var spec := CurrentSpec(task);
      var reference := EnsureReference(TaskKey(task.id), Frozen, None);
      ghost var first, c := reference, Silent(TaskKey(task.id), Frozen, None);
      SilentChangesNothing(first, c);
      reference := reference.(layers := task.pinned.value, defaultRoute := false);
      c := SaysLayers(first, c, SetLayers(task.pinned.value, false));
      reference := reference.(scope := Pushed(reference.scope, TaskBinding));
      c := SaysScope(first, c, TaskBinding);
      if spec.Some? {
        reference := FillIdentity(reference, spec.value.identity);
        c := SaysIdentity(first, c, spec.value.identity);
        reference := reference.(scope := Pushed(reference.scope, SpecScope(task)));
        c := SaysScope(first, c, SpecScope(task));
      }
      reference := reference.(links := Pushed(reference.links, ResearchLink(task.id)));
      c := SaysLink(first, c, ResearchLink(task.id));
      assert c == PinnedContribution(task);
      RecordedIsApplied(old(Value()), c, reference);
      Record(reference);
      assert table == old(table)[reference.key := reference];
    }

    method AddSelection(task: Task)
      requires IsIndex(Value())
      modifies this
      ensures IsIndex(Value()) && Value() == Applied(old(Value()), SelectionContribution(task))
    {
      hide Contributed, IsIndex, SelectionLayers, Pushed, FillIdentity, Ensured;
      var spec := CurrentSpec(task);
      var (selection, stated) := CurrentComposition(task, spec);
      var reference := EnsureReference(SelectionKey(task.id), Draft, None);
      ghost var first, c := reference, Silent(SelectionKey(task.id), Draft, None);
      SilentChangesNothing(first, c);
      if spec.Some? {
        reference := FillIdentity(reference, spec.value.identity);
        c := SaysIdentity(first, c, spec.value.identity);
        reference := reference.(scope := Pushed(reference.scope, SpecScope(task)));
        c := SaysScope(first, c, SpecScope(task));
      }
      var layers := SelectionLayers(selection);
      reference := reference.(layers := layers, defaultRoute := stated && layers == []);
      c := SaysLayers(first, c, SetLayers(layers, stated && layers == []));
      reference := reference.(scope := Pushed(reference.scope, TaskSelection));
      c := SaysScope(first, c, TaskSelection);
      reference := reference.(links := Pushed(reference.links, ResearchLink(task.id)));
      c := SaysLink(first, c, ResearchLink(task.id));
      assert c == SelectionContribution(task);
      RecordedIsApplied(old(Value()), c, reference);
      Record(reference);
      assert table == old(table)[reference.key := reference];
    }

    method AddTask(task: Task)
      requires IsIndex(Value())
      modifies this
      ensures IsIndex(Value()) && Value() == AppliedAll(old(Value()), TaskContributions(task))
    {
      hide Applied, IsIndex, TaskJobContribution, PinnedContribution, SelectionContribution, CurrentComposition;
      ghost var start := Value();
      if task.jobs != [] {
        assert task.jobs[..0] == [];
        for k := 0 to |task.jobs|
          invariant IsIndex(Value())
          invariant Value() == AppliedAll(start, TaskJobContributions(task, task.jobs[..k]))
        {
          AddTaskJob(task, task.jobs[k]);
          assert task.jobs[..k + 1][..k] == task.jobs[..k];
          AppliedAllSnoc(start, TaskJobContributions(task, task.jobs[..k]), TaskJobContribution(task, task.jobs[k]));
        }
        assert task.jobs[..|task.jobs|] == task.jobs;
        return;
      }
      if task.pinned.Some? {
        AddPinned(task);
        AppliedAllOne(start, PinnedContribution(task));
        return;
      }
      var spec := CurrentSpec(task);
      if spec.None? && !CurrentComposition(task, spec).1 {
        return;
      }
      AddSelection(task);
      AppliedAllOne(start, SelectionContribution(task));
    }

    method AddStrategy(strategy: Strategy)
      requires IsIndex(Value())
      modifies this
      ensures IsIndex(Value()) && Value() == AppliedAll(old(Value()), StrategyContributions(strategy))
    {
      hide Applied, IsIndex;
      ghost var start := Value();
      if strategy.draft.Some? && !strategy.draft.value.isIntent {
        AddObserved(DraftKey(strategy.id, strategy.draft.value.revision), Draft, None, strategy.draft.value.identity,
                    StrategyDraft, StrategyLink(strategy.id));
        AppliedAllOne(start, DraftContributions(strategy)[0]);
      }
      ghost var drafted := DraftContributions(strategy);
      assert strategy.experiments[..0] == [];
      assert drafted + [] == drafted;
      for k := 0 to |strategy.experiments|
        invariant IsIndex(Value())
        invariant Value() == AppliedAll(start, drafted + ExperimentContributions(strategy, strategy.experiments[..k]))
      {
        var experiment := strategy.experiments[k];
        ghost var before := drafted + ExperimentContributions(strategy, strategy.experiments[..k]);
        assert strategy.experiments[..k + 1][..k] == strategy.experiments[..k];
        if experiment.job != NoText {
          AddObserved(JobKey(experiment.job), Frozen, Some(experiment.job), experiment.identity,
                      StrategyExperiment, StrategyLink(strategy.id));
          ghost var c := Observed(JobKey(experiment.job), Frozen, Some(experiment.job), experiment.identity,
                                  StrategyExperiment, StrategyLink(strategy.id));
          AppliedAllSnoc(start, before, c);
          assert before + [c]
            == drafted + ExperimentContributions(strategy, strategy.experiments[..k + 1]);
        } else {
          assert ExperimentContributions(strategy, strategy.experiments[..k + 1])
            == ExperimentContributions(strategy, strategy.experiments[..k]);
        }
      }
      assert strategy.experiments[..|strategy.experiments|] == strategy.experiments;
    }

    /** One identity, one association and one link, without any layer. */
    method AddObserved(key: Key, kind: Kind, jobId: Option<Text>, identity: Identity, scope: Scope, link: Link)
      requires IsIndex(Value())
      modifies this
      ensures IsIndex(Value()) && Value() == Applied(old(Value()), Observed(key, kind, jobId, identity, scope, link))
    {
      hide Contributed, IsIndex, Pushed, FillIdentity, Ensured;
      var reference := EnsureReference(key, kind, jobId);
      ghost var first, c := reference, Silent(key, kind, jobId);
      SilentChangesNothing(first, c);
      reference := FillIdentity(reference, identity);
      c := SaysIdentity(first, c, identity);
      reference := reference.(scope := Pushed(reference.scope, scope));
      c := SaysScope(first, c, scope);
      reference := reference.(links := Pushed(reference.links, link));
      c := SaysLink(first, c, link);
      assert c == Observed(key, kind, jobId, identity, scope, link);
      RecordedIsApplied(old(Value()), c, reference);
      Record(reference);
      assert table == old(table)[reference.key := reference];
    }
  }

  method DeriveKnownReferences(sources: Sources) returns (references: seq<Reference>)
    ensures references == Derived(sources)
  {
    hide Applied, IsIndex, JobContribution, TaskContributions, StrategyContributions, AppliedAll;
    EmptyIsIndex();
    NothingApplied();
    var index := new ReferenceIndex();
    ghost var said: seq<Contribution> := [];
    for k := 0 to |sources.jobs|
      invariant IsIndex(index.Value())
      invariant index.Value() == AppliedAll(Empty(), JobsSay(sources.jobs[..k]))
    {
      assert sources.jobs[..k + 1][..k] == sources.jobs[..k];
      AppliedAllSnoc(Empty(), JobsSay(sources.jobs[..k]), JobContribution(sources.jobs[k]));
      index.AddJob(sources.jobs[k]);
    }
    assert sources.jobs[..|sources.jobs|] == sources.jobs;
    said := JobsSay(sources.jobs);
    assert said + [] == said;
    for k := 0 to |sources.tasks|
      invariant IsIndex(index.Value())
      invariant index.Value() == AppliedAll(Empty(), said + TasksSay(sources.tasks[..k]))
    {
      assert sources.tasks[..k + 1][..k] == sources.tasks[..k];
      ghost var before, added := said + TasksSay(sources.tasks[..k]), TaskContributions(sources.tasks[k]);
      AppliedAllConcat(Empty(), before, added);
      assert before + added == said + TasksSay(sources.tasks[..k + 1]);
      index.AddTask(sources.tasks[k]);
    }
    assert sources.tasks[..|sources.tasks|] == sources.tasks;
    said := said + TasksSay(sources.tasks);
    assert said + [] == said;
    for k := 0 to |sources.strategies|
      invariant IsIndex(index.Value())
      invariant index.Value() == AppliedAll(Empty(), said + StrategiesSay(sources.strategies[..k]))
    {
      assert sources.strategies[..k + 1][..k] == sources.strategies[..k];
      ghost var before := said + StrategiesSay(sources.strategies[..k]);
      ghost var added := StrategyContributions(sources.strategies[k]);
      AppliedAllConcat(Empty(), before, added);
      assert before + added == said + StrategiesSay(sources.strategies[..k + 1]);
      index.AddStrategy(sources.strategies[k]);
    }
    assert sources.strategies[..|sources.strategies|] == sources.strategies;
    KeysAreListed(index.Value());
    return Listed(Index(index.order, index.table), index.order);
  }

  // ----- what the index means

  function KeysOf(cs: seq<Contribution>): set<Key> {
    if cs == [] then {} else KeysOf(cs[..|cs| - 1]) + {cs[|cs| - 1].key}
  }

  /** Everything known of one key after some contributions, starting from what was known before. */
  function After(start: Option<Reference>, cs: seq<Contribution>, k: Key): Option<Reference> {
    if cs == [] then start
    else
      var before, last := After(start, cs[..|cs| - 1], k), cs[|cs| - 1];
      if last.key != k then before
      else Some(Contributed(if before.Some? then before.value else Created(k, last.kind, last.jobId), last))
  }

  function At(index: Index, k: Key): Option<Reference> { if k in index.table then Some(index.table[k]) else None }

  lemma {:induction false} AfterIsApplied(index: Index, cs: seq<Contribution>, k: Key)
    ensures At(AppliedAll(index, cs), k) == After(At(index, k), cs, k)
  {
    hide Contributed, Created;
    if cs != [] {
      AfterIsApplied(index, cs[..|cs| - 1], k);
    }
  }

  lemma {:induction false} AfterSome(start: Option<Reference>, cs: seq<Contribution>, k: Key)
    ensures After(start, cs, k).Some? <==> start.Some? || k in KeysOf(cs)
  {
    hide Contributed, Created;
    if cs != [] {
      AfterSome(start, cs[..|cs| - 1], k);
    }
  }

  lemma {:induction false} AfterConcat(start: Option<Reference>, a: seq<Contribution>, b: seq<Contribution>, k: Key)
    ensures After(start, a + b, k) == After(After(start, a, k), b, k)
    ensures KeysOf(a + b) == KeysOf(a) + KeysOf(b)
  {
    hide Contributed, Created;
    if b == [] {
      assert a + b == a;
    } else {
      AfterConcat(start, a, b[..|b| - 1], k);
      assert (a + b)[..|a + b| - 1] == a + b[..|b| - 1];
    }
  }

  ghost predicate HasReference(references: seq<Reference>, k: Key) { exists r :: r in references && r.key == k }

  lemma {:induction false} ListedShape(index: Index, order: seq<Key>)
    requires IsIndex(index) && forall k :: k in order ==> k in index.table
    ensures |Listed(index, order)| == |order|
    ensures forall i :: 0 <= i < |order| ==> Listed(index, order)[i] == Finalized(index.table[order[i]])
  {
    hide IsIndex, Finalized;
    if order != [] {
      ListedShape(index, order[..|order| - 1]);
    }
  }

  lemma DerivedShape(sources: Sources)
    ensures var index := AppliedAll(Empty(), Say(sources));
      && IsIndex(index)
      && |Derived(sources)| == |index.order|
      && forall i :: 0 <= i < |index.order| ==> Derived(sources)[i] == Finalized(index.table[index.order[i]])
  {
    hide Say, AppliedAll, IsIndex, Listed;
    var index := AppliedAll(Empty(), Say(sources));
    EmptyIsIndex();
    AppliedAllIsIndex(Empty(), Say(sources));
    KeysAreListed(index);
    ListedShape(index, index.order);
  }

  /**
   * Every identity appears once, and the identities are exactly those some source names: the union
   * of what each source alone would give.
   */
  lemma KeysAreTheUnion(sources: Sources, k: Key)
    ensures forall i, j :: 0 <= i < j < |Derived(sources)| ==> Derived(sources)[i].key != Derived(sources)[j].key
    ensures HasReference(Derived(sources), k) <==> k in KeysOf(Say(sources))
    ensures HasReference(Derived(sources), k) <==>
      || HasReference(Derived(Sources(sources.jobs, [], [])), k)
      || HasReference(Derived(Sources([], sources.tasks, [])), k)
      || HasReference(Derived(Sources([], [], sources.strategies)), k)
  {
    hide Derived, KeysOf, AppliedAll, JobsSay, TasksSay, StrategiesSay, After;
    DerivedDistinct(sources);
    KeysAreNamed(sources, k);
    KeysAreNamed(Sources(sources.jobs, [], []), k);
    KeysAreNamed(Sources([], sources.tasks, []), k);
    KeysAreNamed(Sources([], [], sources.strategies), k);
    AfterConcat(None, JobsSay(sources.jobs), TasksSay(sources.tasks), k);
    AfterConcat(None, JobsSay(sources.jobs) + TasksSay(sources.tasks), StrategiesSay(sources.strategies), k);
    SaysAlone(sources);
  }

  lemma SaysAlone(sources: Sources)
    ensures Say(Sources(sources.jobs, [], [])) == JobsSay(sources.jobs)
    ensures Say(Sources([], sources.tasks, [])) == TasksSay(sources.tasks)
    ensures Say(Sources([], [], sources.strategies)) == StrategiesSay(sources.strategies)
  {
    assert JobsSay([]) == [] && TasksSay([]) == [] && StrategiesSay([]) == [];
    hide JobsSay, TasksSay, StrategiesSay;
  }

  lemma DerivedDistinct(sources: Sources)
    ensures forall i, j :: 0 <= i < j < |Derived(sources)| ==> Derived(sources)[i].key != Derived(sources)[j].key
  {
    hide Derived, Say, AppliedAll;
    DerivedShape(sources);
  }

  lemma KeysAreNamed(sources: Sources, k: Key)
    ensures HasReference(Derived(sources), k) <==> k in KeysOf(Say(sources))
  {
    hide Derived, Say, AppliedAll, KeysOf, After;
    var index := AppliedAll(Empty(), Say(sources));
    DerivedShape(sources);
    AfterIsApplied(Empty(), Say(sources), k);
    AfterSome(None, Say(sources), k);
    if k in index.table {
      var i :| 0 <= i < |index.order| && index.order[i] == k;
      assert Derived(sources)[i] in Derived(sources);
    }
    if r :| r in Derived(sources) && r.key == k {
      var i :| 0 <= i < |Derived(sources)| && Derived(sources)[i] == r;
    }
  }

  // ----- each run is one frozen reference

  /** What a key says about the references it may hold. */
  predicate IsProper(c: Contribution) {
    match c.key
    case JobKey(job) => c.kind == Frozen && c.jobId == Some(job) && !c.layers.SetLayers?
    case TaskKey(_) => c.kind == Frozen && c.jobId == None && c.layers.SetLayers?
    case SelectionKey(_) => c.kind == Draft && c.jobId == None && c.layers.SetLayers?
    case DraftKey(_, _) => c.kind == Draft && c.jobId == None && !c.layers.SetLayers?
  }

  predicate AllProper(cs: seq<Contribution>) { forall c :: c in cs ==> IsProper(c) }

  lemma ProperConcat(a: seq<Contribution>, b: seq<Contribution>)
    requires AllProper(a) && AllProper(b)
    ensures AllProper(a + b)
  {
    assert forall c :: c in a + b ==> c in a || c in b;
  }

  lemma {:induction false} TaskJobsProper(task: Task, jobs: seq<Text>, job: Text)
    ensures AllProper(TaskJobContributions(task, jobs))
    ensures JobKey(job) in KeysOf(TaskJobContributions(task, jobs)) <==> job in jobs
  {
    if jobs != [] {
      var n := |jobs| - 1;
      TaskJobsProper(task, jobs[..n], job);
      ProperConcat(TaskJobContributions(task, jobs[..n]), [TaskJobContribution(task, jobs[n])]);
      AfterConcat(None, TaskJobContributions(task, jobs[..n]), [TaskJobContribution(task, jobs[n])], JobKey(job));
      OneKey(TaskJobContribution(task, jobs[n]));
      assert jobs == jobs[..n] + [jobs[n]];
    }
  }

  lemma OneKey(c: Contribution)
    ensures KeysOf([c]) == {c.key}
  {
    assert [c][..0] == [];
  }

  lemma TaskProper(task: Task, job: Text)
    ensures AllProper(TaskContributions(task))
    ensures JobKey(job) in KeysOf(TaskContributions(task)) <==> job in task.jobs
  {
    hide SelectionLayers, CurrentComposition, TaskJobContributions;
    TaskJobsProper(task, task.jobs, job);
    if task.pinned.Some? {
      OneKey(PinnedContribution(task));
    }
    OneKey(SelectionContribution(task));
  }

  ghost predicate HasExperimentOf(experiments: seq<Experiment>, job: Text) {
    job != NoText && exists e :: e in experiments && e.job == job
  }

  lemma HasExperimentSnoc(experiments: seq<Experiment>, last: Experiment, job: Text)
    ensures HasExperimentOf(experiments + [last], job)
      <==> HasExperimentOf(experiments, job) || (last.job == job && job != NoText)
  {
    assert last in experiments + [last];
    assert forall e :: e in experiments + [last] <==> e in experiments || e == last;
  }

  /** One more contribution adds its key. */
  lemma SaidOneMore(before: seq<Contribution>, c: Contribution, k: Key)
    requires AllProper(before) && IsProper(c)
    ensures AllProper(before + [c])
    ensures k in KeysOf(before + [c]) <==> k in KeysOf(before) || k == c.key
  {
    hide After;
    ProperConcat(before, [c]);
    AfterConcat(None, before, [c], k);
    OneKey(c);
  }

  lemma {:induction false} ExperimentsProper(strategy: Strategy, experiments: seq<Experiment>, job: Text)
    ensures AllProper(ExperimentContributions(strategy, experiments))
    ensures JobKey(job) in KeysOf(ExperimentContributions(strategy, experiments)) <==> HasExperimentOf(experiments, job)
  {
    if experiments != [] {
      hide HasExperimentOf, KeysOf;
      var n := |experiments| - 1;
      var last := experiments[n];
      var c := Observed(JobKey(last.job), Frozen, Some(last.job), last.identity, StrategyExperiment,
                        StrategyLink(strategy.id));
      ExperimentsProper(strategy, experiments[..n], job);
      assert experiments == experiments[..n] + [last];
      HasExperimentSnoc(experiments[..n], last, job);
      var before := ExperimentContributions(strategy, experiments[..n]);
      if last.job != NoText {
        SaidOneMore(before, c, JobKey(job));
        assert ExperimentContributions(strategy, experiments) == before + [c];
      } else {
        assert ExperimentContributions(strategy, experiments) == before;
      }
    }
  }

  lemma StrategyProper(strategy: Strategy, job: Text)
    ensures AllProper(StrategyContributions(strategy))
    ensures JobKey(job) in KeysOf(StrategyContributions(strategy)) <==> HasExperimentOf(strategy.experiments, job)
  {
    hide HasExperimentOf;
    var drafted := DraftContributions(strategy);
    ExperimentsProper(strategy, strategy.experiments, job);
    ProperConcat(drafted, ExperimentContributions(strategy, strategy.experiments));
    AfterConcat(None, drafted, ExperimentContributions(strategy, strategy.experiments), JobKey(job));
    if drafted != [] {
      OneKey(drafted[0]);
    }
  }

  ghost predicate HasJob(jobs: seq<Job>, job: Text) { exists j :: j in jobs && j.id == job }

  ghost predicate HasTaskOf(tasks: seq<Task>, job: Text) { exists t :: t in tasks && job in t.jobs }

  ghost predicate HasStrategyOf(strategies: seq<Strategy>, job: Text) {
    exists s :: s in strategies && HasExperimentOf(s.experiments, job)
  }

  lemma NothingNames(job: Text)
    ensures AllProper([]) && KeysOf([]) == {}
    ensures !HasJob([], job) && !HasTaskOf([], job) && !HasStrategyOf([], job)
  {
  }

  lemma HasJobSnoc(jobs: seq<Job>, last: Job, job: Text)
    ensures HasJob(jobs + [last], job) <==> HasJob(jobs, job) || last.id == job
  {
    assert last in jobs + [last];
    assert forall j :: j in jobs + [last] <==> j in jobs || j == last;
  }

  lemma HasTaskSnoc(tasks: seq<Task>, last: Task, job: Text)
    ensures HasTaskOf(tasks + [last], job) <==> HasTaskOf(tasks, job) || job in last.jobs
  {
    assert last in tasks + [last];
    assert forall t :: t in tasks + [last] <==> t in tasks || t == last;
  }

  lemma HasStrategySnoc(strategies: seq<Strategy>, last: Strategy, job: Text)
    ensures HasStrategyOf(strategies + [last], job)
      <==> HasStrategyOf(strategies, job) || HasExperimentOf(last.experiments, job)
  {
    hide HasExperimentOf;
    assert last in strategies + [last];
    assert forall s :: s in strategies + [last] <==> s in strategies || s == last;
  }

  lemma SaidMore(before: seq<Contribution>, more: seq<Contribution>, k: Key)
    requires AllProper(before) && AllProper(more)
    ensures AllProper(before + more)
    ensures k in KeysOf(before + more) <==> k in KeysOf(before) || k in KeysOf(more)
  {
    ProperConcat(before, more);
    AfterConcat(None, before, more, k);
    hide *;
  }

  lemma {:induction false} JobsProper(jobs: seq<Job>, job: Text)
    ensures AllProper(JobsSay(jobs))
    ensures JobKey(job) in KeysOf(JobsSay(jobs)) <==> HasJob(jobs, job)
  {
    if jobs != [] {
      var n := |jobs| - 1;
      var c := JobContribution(jobs[n]);
      assert IsProper(c) && c.key == JobKey(jobs[n].id);
      hide JobContribution, HasJob, AllProper, KeysOf, IsProper;
      JobsProper(jobs[..n], job);
      SaidOneMore(JobsSay(jobs[..n]), c, JobKey(job));
      assert jobs == jobs[..n] + [jobs[n]];
      HasJobSnoc(jobs[..n], jobs[n], job);
    }
  }

  lemma {:induction false} TasksProper(tasks: seq<Task>, job: Text)
    ensures AllProper(TasksSay(tasks))
    ensures JobKey(job) in KeysOf(TasksSay(tasks)) <==> HasTaskOf(tasks, job)
  {
    hide TaskContributions, HasTaskOf, AllProper, KeysOf;
    NothingNames(job);
    if tasks != [] {
      var n := |tasks| - 1;
      TasksProper(tasks[..n], job);
      TaskProper(tasks[n], job);
      SaidMore(TasksSay(tasks[..n]), TaskContributions(tasks[n]), JobKey(job));
      assert tasks == tasks[..n] + [tasks[n]];
      HasTaskSnoc(tasks[..n], tasks[n], job);
    }
  }

  lemma {:induction false} StrategiesProper(strategies: seq<Strategy>, job: Text)
    ensures AllProper(StrategiesSay(strategies))
    ensures JobKey(job) in KeysOf(StrategiesSay(strategies)) <==> HasStrategyOf(strategies, job)
  {
    hide StrategyContributions, HasStrategyOf, HasExperimentOf, AllProper, KeysOf;
    NothingNames(job);
    if strategies != [] {
      var n := |strategies| - 1;
      StrategiesProper(strategies[..n], job);
      StrategyProper(strategies[n], job);
      SaidMore(StrategiesSay(strategies[..n]), StrategyContributions(strategies[n]), JobKey(job));
      assert strategies == strategies[..n] + [strategies[n]];
      HasStrategySnoc(strategies[..n], strategies[n], job);
    }
  }

  /** Some record of some source names the run. */
  ghost predicate NamesRun(sources: Sources, job: Text) {
    HasJob(sources.jobs, job) || HasTaskOf(sources.tasks, job) || HasStrategyOf(sources.strategies, job)
  }

  lemma SayIsProper(sources: Sources, job: Text)
    ensures AllProper(Say(sources))
    ensures JobKey(job) in KeysOf(Say(sources)) <==> NamesRun(sources, job)
  {
    hide JobsSay, TasksSay, StrategiesSay, HasJob, HasTaskOf, HasStrategyOf, AllProper, KeysOf;
    var a, b, c := JobsSay(sources.jobs), TasksSay(sources.tasks), StrategiesSay(sources.strategies);
    JobsProper(sources.jobs, job);
    TasksProper(sources.tasks, job);
    StrategiesProper(sources.strategies, job);
    SaidMore(a, b, JobKey(job));
    SaidMore(a + b, c, JobKey(job));
  }

  lemma {:induction false} RunIsFrozen(cs: seq<Contribution>, job: Text)
    requires AllProper(cs)
    ensures var r := After(None, cs, JobKey(job)); r.Some? ==> r.value.kind == Frozen && r.value.jobId == Some(job)
  {
    hide Contributed;
    if cs != [] {
      var n := |cs| - 1;
      assert forall c :: c in cs[..n] ==> c in cs;
      RunIsFrozen(cs[..n], job);
      assert IsProper(cs[n]);
      var before := After(None, cs[..n], JobKey(job));
      ContributedKeepsKey(if before.Some? then before.value else Created(JobKey(job), cs[n].kind, cs[n].jobId), cs[n]);
    }
  }

  /** A run has a reference exactly when a record names it, then exactly one, frozen and naming that run. */
  lemma RunsAreFrozenOnce(sources: Sources, job: Text)
    ensures HasReference(Derived(sources), JobKey(job)) <==> NamesRun(sources, job)
    ensures forall r :: r in Derived(sources) && r.key == JobKey(job) ==> r.kind == Frozen && r.jobId == Some(job)
  {
    hide Derived, Say, NamesRun, AllProper, KeysOf, AppliedAll, After, HasReference;
    SayIsProper(sources, job);
    KeysAreNamed(sources, JobKey(job));
    RunIsFrozen(Say(sources), job);
    DerivedAt(sources, JobKey(job));
  }

  /** Every listed reference is what its key accumulated, finalized. */
  lemma DerivedAt(sources: Sources, k: Key)
    ensures forall r :: r in Derived(sources) && r.key == k ==>
      After(None, Say(sources), k).Some? && r == Finalized(After(None, Say(sources), k).value)
  {
    hide Derived, Say, AppliedAll, After, Unknowns;
    var index := AppliedAll(Empty(), Say(sources));
    DerivedShape(sources);
    AfterIsApplied(Empty(), Say(sources), k);
    forall r | r in Derived(sources) && r.key == k
      ensures After(None, Say(sources), k).Some? && r == Finalized(After(None, Say(sources), k).value)
    {
      var i :| 0 <= i < |Derived(sources)| && Derived(sources)[i] == r;
      assert index.order[i] in index.order;
    }
  }

  // ----- identity fields belong to whoever states them first

  /** The three identity fields, one at a time. */
  datatype Field = ScenarioField | DatasetField | SourceField

  function Stated(identity: Identity, f: Field): Text {
    match f
    case ScenarioField => identity.scenario
    case DatasetField => identity.dataset
    case SourceField => identity.source
  }

  function Known(r: Reference, f: Field): Text {
    match f
    case ScenarioField => r.scenario
    case DatasetField => r.dataset
    case SourceField => r.source
  }

  function FirstIn(identities: seq<Identity>, f: Field): Text {
    if identities == [] then NoText
    else Filled(FirstIn(identities[..|identities| - 1], f), Stated(identities[|identities| - 1], f))
  }

  /** The first value any contribution to a key states for a field. */
  function FirstStated(cs: seq<Contribution>, k: Key, f: Field): Text {
    if cs == [] then NoText
    else
      var before, last := FirstStated(cs[..|cs| - 1], k, f), cs[|cs| - 1];
      if last.key == k then Filled(before, FirstIn(last.identities, f)) else before
  }

  lemma {:induction false} FilledAllIsFirst(r: Reference, identities: seq<Identity>, f: Field)
    ensures Known(FilledAll(r, identities), f) == Filled(Known(r, f), FirstIn(identities, f))
  {
    if identities != [] {
      FilledAllIsFirst(r, identities[..|identities| - 1], f);
    }
  }

  lemma ContributedKnown(r: Reference, c: Contribution, f: Field)
    ensures Known(Contributed(r, c), f) == Filled(Known(r, f), FirstIn(c.identities, f))
  {
    hide FilledAll, PushedAll, FirstIn;
    FilledAllIsFirst(r, c.identities, f);
  }

  lemma {:induction false} AfterKnown(cs: seq<Contribution>, k: Key, f: Field)
    ensures var r := After(None, cs, k); r.Some? ==> Known(r.value, f) == FirstStated(cs, k, f)
    ensures After(None, cs, k).None? ==> FirstStated(cs, k, f) == NoText
  {
    hide Contributed, FirstIn;
    if cs != [] {
      var n := |cs| - 1;
      AfterKnown(cs[..n], k, f);
      var before := After(None, cs[..n], k);
      ContributedKnown(if before.Some? then before.value else Created(k, cs[n].kind, cs[n].jobId), cs[n], f);
    }
  }

  lemma {:induction false} FirstStatedStays(a: seq<Contribution>, b: seq<Contribution>, k: Key, f: Field)
    requires FirstStated(a, k, f) != NoText
    ensures FirstStated(a + b, k, f) == FirstStated(a, k, f)
  {
    hide FirstIn;
    if b == [] {
      assert a + b == a;
    } else {
      FirstStatedStays(a, b[..|b| - 1], k, f);
      assert (a + b)[..|a + b| - 1] == a + b[..|b| - 1];
    }
  }

  /**
   * Each identity field of a listed reference is the first non-empty value stated for it, in the
   * order jobs, tasks, strategies; once some prefix of the records has stated it, no later record
   * changes it.
   */
  lemma FirstStatementWins(sources: Sources, a: seq<Contribution>, b: seq<Contribution>, k: Key, f: Field)
    requires Say(sources) == a + b
    ensures forall r :: r in Derived(sources) && r.key == k ==> Known(r, f) == FirstStated(Say(sources), k, f)
    ensures FirstStated(a, k, f) != NoText ==> FirstStated(Say(sources), k, f) == FirstStated(a, k, f)
  {
    hide Derived, Say, After, FirstStated, Unknowns;
    DerivedAt(sources, k);
    AfterKnown(Say(sources), k, f);
    if FirstStated(a, k, f) != NoText {
      FirstStatedStays(a, b, k, f);
    }
  }

  /** The first non-empty binding any contribution to a key brings. */
  function FirstLayers(cs: seq<Contribution>, k: Key): seq<Layer> {
    if cs == [] then []
    else
      var before, last := FirstLayers(cs[..|cs| - 1], k), cs[|cs| - 1];
      if before == [] && last.key == k && last.layers.FillLayers? then last.layers.layers else before
  }

  lemma ContributedLayers(r: Reference, c: Contribution)
    requires !c.layers.SetLayers?
    ensures Contributed(r, c).defaultRoute == r.defaultRoute
    ensures Contributed(r, c).layers == if r.layers == [] && c.layers.FillLayers? then c.layers.layers else r.layers
  {
    FilledAllKeeps(r, c.identities);
    hide FilledAll, PushedAll;
  }

  lemma {:induction false} AfterLayers(cs: seq<Contribution>, job: Text)
    requires AllProper(cs)
    ensures var r := After(None, cs, JobKey(job));
      if r.Some? then r.value.layers == FirstLayers(cs, JobKey(job)) && !r.value.defaultRoute
      else FirstLayers(cs, JobKey(job)) == []
  {
    hide Contributed;
    if cs != [] {
      var n, k := |cs| - 1, JobKey(job);
      assert forall c :: c in cs[..n] ==> c in cs;
      AfterLayers(cs[..n], job);
      assert IsProper(cs[n]);
      if cs[n].key == k {
        var before := After(None, cs[..n], k);
        ContributedLayers(if before.Some? then before.value else Created(k, cs[n].kind, cs[n].jobId), cs[n]);
      }
    }
  }

  lemma {:induction false} FirstLayersStay(a: seq<Contribution>, b: seq<Contribution>, k: Key)
    requires FirstLayers(a, k) != []
    ensures FirstLayers(a + b, k) == FirstLayers(a, k)
  {
    if b == [] {
      assert a + b == a;
    } else {
      FirstLayersStay(a, b[..|b| - 1], k);
      assert (a + b)[..|a + b| - 1] == a + b[..|b| - 1];
    }
  }

  /**
   * A run shows the layers of the first non-empty binding any record brings for it, is never on the
   * default route, and once some prefix of the records has brought a binding no later one replaces it.
   */
  lemma FirstBindingWins(sources: Sources, a: seq<Contribution>, b: seq<Contribution>, job: Text)
    requires Say(sources) == a + b
    ensures forall r :: r in Derived(sources) && r.key == JobKey(job) ==>
      r.layers == FirstLayers(Say(sources), JobKey(job)) && !r.defaultRoute
    ensures FirstLayers(a, JobKey(job)) != [] ==>
      FirstLayers(Say(sources), JobKey(job)) == FirstLayers(a, JobKey(job))
  {
    hide Derived, Say, After, AllProper, KeysOf, FirstLayers;
    SayIsProper(sources, job);
    DerivedAt(sources, JobKey(job));
    AfterLayers(Say(sources), job);
    if FirstLayers(a, JobKey(job)) != [] {
      FirstLayersStay(a, b, JobKey(job));
    }
  }

  // ----- duplicated sources

  /** Saying it again can change nothing but a layer write. */
  ghost predicate IsSettled(r: Reference, c: Contribution) {
    && (forall s :: s in c.scopes ==> s in r.scope)
    && (forall l :: l in c.links ==> l in r.links)
    && (forall f :: FirstIn(c.identities, f) != NoText ==> Known(r, f) != NoText)
    && (c.layers.FillLayers? && c.layers.layers != [] ==> r.layers != [])
  }

  lemma {:induction false} PushedHolds<T>(list: seq<T>, values: seq<T>)
    ensures forall v :: v in PushedAll(list, values) <==> v in list || v in values
    ensures (forall v :: v in values ==> v in list) ==> PushedAll(list, values) == list
  {
    if values != [] {
      var n := |values| - 1;
      PushedHolds(list, values[..n]);
      assert values == values[..n] + [values[n]];
      assert forall v :: v in values <==> v in values[..n] || v == values[n];
    }
  }

  /** A contribution leaves its own statements settled. */
  lemma ContributedSettles(r: Reference, c: Contribution)
    ensures IsSettled(Contributed(r, c), c)
  {
    var filled := WithLayers(FilledAll(r, c.identities), c.layers);
    PushedHolds(filled.scope, c.scopes);
    PushedHolds(filled.links, c.links);
    FilledAllKeeps(r, c.identities);
    forall f {
      ContributedKnown(r, c, f);
    }
    hide FilledAll, PushedAll, FirstIn;
  }

  /** Another contribution of the same kind of key keeps it settled. */
  lemma SettledStays(r: Reference, c: Contribution, d: Contribution)
    requires IsSettled(r, c) && (c.layers.FillLayers? ==> !d.layers.SetLayers?)
    ensures IsSettled(Contributed(r, d), c)
  {
    var filled := WithLayers(FilledAll(r, d.identities), d.layers);
    PushedHolds(filled.scope, d.scopes);
    PushedHolds(filled.links, d.links);
    FilledAllKeeps(r, d.identities);
    forall f {
      ContributedKnown(r, d, f);
    }
    hide FilledAll, PushedAll, FirstIn;
  }

  lemma {:induction false} SettledFill(r: Reference, identities: seq<Identity>)
    requires forall f :: FirstIn(identities, f) != NoText ==> Known(r, f) != NoText
    ensures FilledAll(r, identities) == r
  {
    FilledAllKeeps(r, identities);
    FilledAllIsFirst(r, identities, ScenarioField);
    FilledAllIsFirst(r, identities, DatasetField);
    FilledAllIsFirst(r, identities, SourceField);
    hide FilledAll, FirstIn;
  }

  function SetOnly(r: Reference, write: LayerWrite): Reference {
    match write
    case SetLayers(layers, defaultRoute) => r.(layers := layers, defaultRoute := defaultRoute)
    case _ => r
  }

  lemma SettledAbsorbs(r: Reference, c: Contribution)
    requires IsSettled(r, c)
    ensures Contributed(r, c) == SetOnly(r, c.layers)
  {
    SettledFill(r, c.identities);
    PushedHolds(r.scope, c.scopes);
    PushedHolds(r.links, c.links);
    hide FilledAll, PushedAll, FirstIn;
  }

  lemma SetStaysSettled(r: Reference, c: Contribution, write: LayerWrite)
    requires IsSettled(r, c) && (c.layers.FillLayers? ==> !write.SetLayers?)
    ensures IsSettled(SetOnly(r, write), c)
  {
    hide FirstIn;
  }

  ghost predicate AllSettled(r: Reference, cs: seq<Contribution>, k: Key) {
    forall c :: c in cs && c.key == k ==> IsSettled(r, c)
  }

  lemma {:induction false} AfterSettles(start: Option<Reference>, cs: seq<Contribution>, k: Key)
    requires AllProper(cs)
    ensures var r := After(start, cs, k); r.Some? ==> AllSettled(r.value, cs, k)
  {
    hide Contributed, Created, IsSettled;
    if cs != [] {
      var n := |cs| - 1;
      assert forall c :: c in cs[..n] ==> c in cs;
      assert forall c :: c in cs ==> c in cs[..n] || c == cs[n];
      AfterSettles(start, cs[..n], k);
      AfterNone(start, cs[..n], k);
      if cs[n].key == k {
        var before := After(start, cs[..n], k);
        var r := if before.Some? then before.value else Created(k, cs[n].kind, cs[n].jobId);
        ContributedSettles(r, cs[n]);
        forall c | c in cs && c.key == k ensures IsSettled(Contributed(r, cs[n]), c) {
          assert IsProper(c) && IsProper(cs[n]);
          if c != cs[n] {
            SettledStays(r, c, cs[n]);
          }
        }
      }
    }
  }

  lemma {:induction false} AfterNone(start: Option<Reference>, cs: seq<Contribution>, k: Key)
    ensures After(start, cs, k).None? ==> forall c :: c in cs ==> c.key != k
  {
    hide Contributed, Created;
    if cs != [] {
      AfterNone(start, cs[..|cs| - 1], k);
      assert forall c :: c in cs ==> c in cs[..|cs| - 1] || c == cs[|cs| - 1];
    }
  }

  /** What the last layer write to a key leaves. */
  function LastSet(r: Reference, cs: seq<Contribution>, k: Key): Reference {
    if cs == [] then r
    else
      var before, last := LastSet(r, cs[..|cs| - 1], k), cs[|cs| - 1];
      if last.key == k then SetOnly(before, last.layers) else before
  }

  lemma {:induction false} SettledAgain(r: Reference, cs: seq<Contribution>, k: Key)
    requires AllProper(cs) && AllSettled(r, cs, k)
    ensures After(Some(r), cs, k) == Some(LastSet(r, cs, k))
    ensures forall c :: IsProper(c) && c.key == k && IsSettled(r, c) ==> IsSettled(LastSet(r, cs, k), c)
  {
    hide Contributed, IsSettled, SetOnly;
    if cs != [] {
      var n := |cs| - 1;
      assert forall c :: c in cs[..n] ==> c in cs;
      SettledAgain(r, cs[..n], k);
      if cs[n].key == k {
        var before := LastSet(r, cs[..n], k);
        assert IsProper(cs[n]);
        SettledAbsorbs(before, cs[n]);
        forall c | IsProper(c) && c.key == k && IsSettled(r, c) ensures IsSettled(LastSet(r, cs, k), c) {
          SetStaysSettled(before, c, cs[n].layers);
        }
      }
    }
  }

  /** The two fields a layer write sets. */
  predicate SameButSet(r: Reference, q: Reference) { r == q.(layers := r.layers, defaultRoute := r.defaultRoute) }

  lemma {:induction false} LastSetDiffers(r: Reference, cs: seq<Contribution>, k: Key)
    ensures SameButSet(LastSet(r, cs, k), r)
  {
    if cs != [] {
      LastSetDiffers(r, cs[..|cs| - 1], k);
    }
  }

  lemma ContributedSets(r: Reference, c: Contribution)
    requires c.layers.SetLayers?
    ensures Contributed(r, c).layers == c.layers.layers && Contributed(r, c).defaultRoute == c.layers.defaultRoute
  {
    hide FilledAll, PushedAll;
  }

  lemma {:induction false} NoSets(r: Reference, cs: seq<Contribution>, k: Key)
    requires forall c :: c in cs && c.key == k ==> !c.layers.SetLayers?
    ensures LastSet(r, cs, k) == r
  {
    if cs != [] {
      assert forall c :: c in cs[..|cs| - 1] ==> c in cs;
      NoSets(r, cs[..|cs| - 1], k);
    }
  }

  lemma {:induction false} LastSetIsThere(start: Option<Reference>, cs: seq<Contribution>, k: Key)
    requires AllProper(cs)
    ensures var r := After(start, cs, k); r.Some? && k in KeysOf(cs) ==> LastSet(r.value, cs, k) == r.value
  {
    hide Contributed, Created;
    if cs != [] {
      var n := |cs| - 1;
      assert forall c :: c in cs[..n] ==> c in cs;
      if cs[n].key == k {
        var before := After(start, cs[..n], k);
        var r := if before.Some? then before.value else Created(k, cs[n].kind, cs[n].jobId);
        assert IsProper(cs[n]);
        if cs[n].layers.SetLayers? {
          LastSetDiffers(Contributed(r, cs[n]), cs[..n], k);
          ContributedSets(r, cs[n]);
        } else {
          assert forall c :: c in cs && c.key == k ==> IsProper(c);
          NoSets(Contributed(r, cs[n]), cs, k);
        }
      } else {
        LastSetIsThere(start, cs[..n], k);
      }
    }
  }

  lemma {:induction false} UnsaidStays(start: Option<Reference>, cs: seq<Contribution>, k: Key)
    requires k !in KeysOf(cs)
    ensures After(start, cs, k) == start
  {
    hide Contributed, Created;
    if cs != [] {
      UnsaidStays(start, cs[..|cs| - 1], k);
    }
  }

  /** Saying the same things twice in a row leaves every key as saying them once. */
  lemma AfterTwice(start: Option<Reference>, cs: seq<Contribution>, k: Key)
    requires AllProper(cs)
    ensures After(After(start, cs, k), cs, k) == After(start, cs, k)
  {
    hide After, AllProper, KeysOf, AllSettled, LastSet;
    if k in KeysOf(cs) {
      AfterSome(start, cs, k);
      AfterSettles(start, cs, k);
      LastSetIsThere(start, cs, k);
      SettledAgain(After(start, cs, k).value, cs, k);
    } else {
      UnsaidStays(start, cs, k);
    }
  }

  lemma {:induction false} OrderStays(index: Index, cs: seq<Contribution>)
    requires KeysOf(cs) <= index.table.Keys
    ensures AppliedAll(index, cs).order == index.order && AppliedAll(index, cs).table.Keys == index.table.Keys
  {
    hide Contributed, Ensured;
    if cs != [] {
      OrderStays(index, cs[..|cs| - 1]);
    }
  }

  lemma AppliedTwice(index: Index, cs: seq<Contribution>)
    requires AllProper(cs)
    ensures AppliedAll(AppliedAll(index, cs), cs) == AppliedAll(index, cs)
  {
    hide AppliedAll, AllProper, KeysOf, After;
    var once := AppliedAll(index, cs);
    var twice := AppliedAll(once, cs);
    forall k ensures At(twice, k) == At(once, k) && (k in KeysOf(cs) ==> k in once.table) {
      AfterIsApplied(index, cs, k);
      AfterIsApplied(once, cs, k);
      AfterTwice(At(index, k), cs, k);
      AfterSome(At(index, k), cs, k);
    }
    OrderStays(once, cs);
    TablesAgree(twice.table, once.table);
  }

  lemma TablesAgree(s: map<Key, Reference>, t: map<Key, Reference>)
    requires forall k :: At(Index([], s), k) == At(Index([], t), k)
    ensures s == t
  {
    assert forall k :: k in s <==> At(Index([], s), k).Some?;
    assert forall k :: k in t <==> At(Index([], t), k).Some?;
    assert forall k :: k in s ==> At(Index([], s), k).value == s[k];
    assert forall k :: k in t ==> At(Index([], t), k).value == t[k];
  }

  /** Repeating a run of contributions in place changes nothing, whatever comes before and after. */
  lemma RepeatedInPlace(before: seq<Contribution>, cs: seq<Contribution>, after: seq<Contribution>)
    requires AllProper(cs)
    ensures AppliedAll(Empty(), before + cs + cs + after) == AppliedAll(Empty(), before + cs + after)
  {
    hide AppliedAll, AllProper;
    AppliedAllConcat(Empty(), before, cs);
    AppliedAllConcat(Empty(), before + cs, cs);
    AppliedAllConcat(Empty(), before + cs + cs, after);
    AppliedAllConcat(Empty(), before + cs, after);
    AppliedTwice(AppliedAll(Empty(), before), cs);
  }

  lemma {:induction false} JobsSayConcat(a: seq<Job>, b: seq<Job>)
    ensures JobsSay(a + b) == JobsSay(a) + JobsSay(b)
  {
    hide JobContribution;
    if b == [] {
      assert a + b == a;
    } else {
      JobsSayConcat(a, b[..|b| - 1]);
      assert (a + b)[..|a + b| - 1] == a + b[..|b| - 1];
    }
  }

  lemma {:induction false} TasksSayConcat(a: seq<Task>, b: seq<Task>)
    ensures TasksSay(a + b) == TasksSay(a) + TasksSay(b)
  {
    hide TaskContributions;
    if b == [] {
      assert a + b == a;
    } else {
      TasksSayConcat(a, b[..|b| - 1]);
      assert (a + b)[..|a + b| - 1] == a + b[..|b| - 1];
    }
  }

  lemma {:induction false} StrategiesSayConcat(a: seq<Strategy>, b: seq<Strategy>)
    ensures StrategiesSay(a + b) == StrategiesSay(a) + StrategiesSay(b)
  {
    hide StrategyContributions;
    if b == [] {
      assert a + b == a;
    } else {
      StrategiesSayConcat(a, b[..|b| - 1]);
      assert (a + b)[..|a + b| - 1] == a + b[..|b| - 1];
    }
  }

  lemma SameIndexSameList(s: Sources, t: Sources)
    requires AppliedAll(Empty(), Say(s)) == AppliedAll(Empty(), Say(t))
    ensures Derived(s) == Derived(t)
  {
    hide AppliedAll, Say, IsIndex;
  }

  /** Reading any one source list twice over gives exactly the same references, in the same order. */
  lemma DuplicatedSourceChangesNothing(sources: Sources)
    ensures Derived(sources.(jobs := sources.jobs + sources.jobs)) == Derived(sources)
    ensures Derived(sources.(tasks := sources.tasks + sources.tasks)) == Derived(sources)
    ensures Derived(sources.(strategies := sources.strategies + sources.strategies)) == Derived(sources)
  {
    hide AppliedAll, IsIndex, JobsSay, TasksSay, StrategiesSay, Derived, AllProper;
    var a, b, c := JobsSay(sources.jobs), TasksSay(sources.tasks), StrategiesSay(sources.strategies);
    JobsProper(sources.jobs, NoText);
    TasksProper(sources.tasks, NoText);
    StrategiesProper(sources.strategies, NoText);
    JobsSayConcat(sources.jobs, sources.jobs);
    TasksSayConcat(sources.tasks, sources.tasks);
    StrategiesSayConcat(sources.strategies, sources.strategies);
    RepeatedInPlace([], a, b + c);
    RepeatedInPlace(a, b, c);
    RepeatedInPlace(a + b, c, []);
    assert [] + a + a + (b + c) == a + a + b + c;
    assert [] + a + (b + c) == a + b + c;
    assert a + b + b + c == a + (b + b) + c;
    assert a + b + c + c + [] == a + b + (c + c);
    assert a + b + c + [] == a + b + c;
    SameIndexSameList(sources.(jobs := sources.jobs + sources.jobs), sources);
    SameIndexSameList(sources.(tasks := sources.tasks + sources.tasks), sources);
    SameIndexSameList(sources.(strategies := sources.strategies + sources.strategies), sources);
  }

  // ----- what is not known

  ghost predicate Lacks(r: Reference, d: Dimension) {
    match d
    case UnknownScenario => r.scenario == NoText
    case UnknownDataset => r.dataset == NoText
    case UnknownSource => r.source == NoText
    case UnknownPlugin => r.layers == [] && !r.defaultRoute
    case UnknownDigest => LacksDigest(r)
  }

  ghost predicate EachOnce<T>(list: seq<T>) { forall i, j :: 0 <= i < j < |list| ==> list[i] != list[j] }

  /** A reference names as unknown exactly the dimensions it lacks, each once. */
  lemma UnknownIsExact(sources: Sources, r: Reference, d: Dimension)
    requires r in Derived(sources)
    ensures d in r.unknown <==> Lacks(r, d)
    ensures EachOnce(r.unknown)
  {
    hide Derived, Say, After, Created, Contributed, Unknowns, EachOnce;
    DerivedAt(sources, r.key);
    var before := After(None, Say(sources), r.key).value;
    UnknownsAreExact(before, d);
    UnknownsOnce(before);
    assert r == Finalized(before);
  }

  lemma NamedHolds(missing: bool, d: Dimension, e: Dimension)
    ensures e in Named(missing, d) <==> missing && e == d
  {
  }

  lemma UnknownLayersHold(r: Reference, d: Dimension)
    ensures d in UnknownLayers(r) <==> (d == UnknownPlugin || d == UnknownDigest) && Lacks(r, d)
  {
  }

  lemma UnknownsAreExact(r: Reference, d: Dimension)
    ensures d in Unknowns(r) <==> Lacks(r, d)
  {
    var a, b, c, u := Named(r.scenario == NoText, UnknownScenario), Named(r.dataset == NoText, UnknownDataset),
                      Named(r.source == NoText, UnknownSource), UnknownLayers(r);
    NamedHolds(r.scenario == NoText, UnknownScenario, d);
    NamedHolds(r.dataset == NoText, UnknownDataset, d);
    NamedHolds(r.source == NoText, UnknownSource, d);
    UnknownLayersHold(r, d);
    hide Named, UnknownLayers, LacksDigest;
    assert Unknowns(r) == a + b + c + u;
    assert d in a + b + c + u <==> d in a || d in b || d in c || d in u;
  }

  lemma OnceConcat<T>(a: seq<T>, b: seq<T>)
    requires EachOnce(a) && EachOnce(b) && forall x :: x in a ==> x !in b
    ensures EachOnce(a + b)
  {
    forall i, j | 0 <= i < j < |a + b| ensures (a + b)[i] != (a + b)[j] {
      if i < |a| <= j {
        assert (a + b)[i] in a && (a + b)[j] in b;
      }
    }
  }

  lemma UnknownsOnce(r: Reference)
    ensures EachOnce(Unknowns(r))
  {
    hide LacksDigest;
    var a, b, c, u := Named(r.scenario == NoText, UnknownScenario), Named(r.dataset == NoText, UnknownDataset),
                      Named(r.source == NoText, UnknownSource), UnknownLayers(r);
    assert EachOnce(a) && EachOnce(b) && EachOnce(c) && EachOnce(u);
    hide EachOnce;
    OnceConcat(a, b);
    OnceConcat(a + b, c);
    OnceConcat(a + b + c, u);
    assert Unknowns(r) == a + b + c + u;
  }

  // ----- a cleared selection

  /** Neither frozen nor run, with a current spec that states no selection. */
  predicate IsCleared(task: Task) {
    && task.jobs == [] && task.pinned.None?
    && (if |task.confirmed| > 0 then task.confirmed[|task.confirmed| - 1].selection.None?
        else task.draft.Some? && task.draft.value.selection.None?)
  }

  lemma {:induction false} NothingSelected(order: seq<LayerName>)
    ensures SelectionLayersOf(order, Selection(map[])) == []
  {
    if order != [] {
      NothingSelected(order[1..]);
    }
  }

  lemma ClearedSays(task: Task)
    requires IsCleared(task)
    ensures TaskContributions(task) == [SelectionContribution(task)]
    ensures SelectionContribution(task).key == SelectionKey(task.id)
    ensures SelectionContribution(task).layers == SetLayers([], true)
  {
    NothingSelected(LayerOrder());
  }

  /** Whatever is said of this selection says the default route. */
  ghost predicate SaysDefault(cs: seq<Contribution>, id: Text) {
    forall c :: c in cs && c.key == SelectionKey(id) ==> c.layers == SetLayers([], true)
  }

  lemma SaysDefaultConcat(a: seq<Contribution>, b: seq<Contribution>, id: Text)
    requires SaysDefault(a, id) && SaysDefault(b, id)
    ensures SaysDefault(a + b, id)
  {
    assert forall c :: c in a + b ==> c in a || c in b;
  }

  lemma {:induction false} JobsSelectNothing(jobs: seq<Job>, id: Text)
    ensures SaysDefault(JobsSay(jobs), id)
  {
    if jobs != [] {
      var n := |jobs| - 1;
      JobsSelectNothing(jobs[..n], id);
      assert JobContribution(jobs[n]).key.JobKey?;
      hide JobContribution;
      SaysDefaultConcat(JobsSay(jobs[..n]), [JobContribution(jobs[n])], id);
    }
  }

  lemma {:induction false} TaskJobsSelectNothing(task: Task, jobs: seq<Text>, id: Text)
    ensures SaysDefault(TaskJobContributions(task, jobs), id)
  {
    if jobs != [] {
      var n := |jobs| - 1;
      TaskJobsSelectNothing(task, jobs[..n], id);
      assert TaskJobContribution(task, jobs[n]).key.JobKey?;
      hide TaskJobContribution;
      SaysDefaultConcat(TaskJobContributions(task, jobs[..n]), [TaskJobContribution(task, jobs[n])], id);
    }
  }

  lemma TaskSaysDefault(task: Task, id: Text)
    requires task.id == id ==> IsCleared(task)
    ensures SaysDefault(TaskContributions(task), id)
  {
    hide TaskJobContributions, SelectionLayers, CurrentComposition;
    TaskJobsSelectNothing(task, task.jobs, id);
    if task.id == id {
      ClearedSays(task);
    }
  }

  lemma {:induction false} TasksSayDefault(tasks: seq<Task>, id: Text)
    requires forall t :: t in tasks && t.id == id ==> IsCleared(t)
    ensures SaysDefault(TasksSay(tasks), id)
  {
    hide TaskContributions, IsCleared;
    if tasks != [] {
      var n := |tasks| - 1;
      assert forall t :: t in tasks[..n] ==> t in tasks;
      TasksSayDefault(tasks[..n], id);
      TaskSaysDefault(tasks[n], id);
      SaysDefaultConcat(TasksSay(tasks[..n]), TaskContributions(tasks[n]), id);
    }
  }

  lemma {:induction false} ExperimentsSelectNothing(strategy: Strategy, experiments: seq<Experiment>, id: Text)
    ensures SaysDefault(ExperimentContributions(strategy, experiments), id)
  {
    if experiments != [] {
      ExperimentsSelectNothing(strategy, experiments[..|experiments| - 1], id);
    }
  }

  lemma {:induction false} StrategiesSelectNothing(strategies: seq<Strategy>, id: Text)
    ensures SaysDefault(StrategiesSay(strategies), id)
  {
    if strategies != [] {
      var n := |strategies| - 1;
      StrategiesSelectNothing(strategies[..n], id);
      ExperimentsSelectNothing(strategies[n], strategies[n].experiments, id);
      var drafted := DraftContributions(strategies[n]);
      assert SaysDefault(drafted, id);
      hide SaysDefault, DraftContributions, ExperimentContributions;
      SaysDefaultConcat(drafted, ExperimentContributions(strategies[n], strategies[n].experiments), id);
      SaysDefaultConcat(StrategiesSay(strategies[..n]), StrategyContributions(strategies[n]), id);
    }
  }

  lemma {:induction false} AfterDefault(cs: seq<Contribution>, id: Text)
    requires SaysDefault(cs, id)
    ensures var r := After(None, cs, SelectionKey(id)); r.Some? ==> r.value.layers == [] && r.value.defaultRoute
  {
    hide FilledAll, PushedAll;
    if cs != [] {
      var n := |cs| - 1;
      assert forall c :: c in cs[..n] ==> c in cs;
      AfterDefault(cs[..n], id);
      assert cs[n] in cs;
    }
  }

  lemma {:induction false} SaidIsNamed(cs: seq<Contribution>, c: Contribution)
    requires c in cs
    ensures c.key in KeysOf(cs)
  {
    if c != cs[|cs| - 1] {
      SaidIsNamed(cs[..|cs| - 1], c);
    }
  }

  lemma {:induction false} ClearedIsSaid(tasks: seq<Task>, task: Task)
    requires task in tasks && IsCleared(task)
    ensures SelectionContribution(task) in TasksSay(tasks)
  {
    hide TaskContributions, SelectionContribution;
    if task == tasks[|tasks| - 1] {
      ClearedSays(task);
    } else {
      ClearedIsSaid(tasks[..|tasks| - 1], task);
    }
  }

  /**
   * When a research task is neither frozen nor run and every record of it has a current spec without a
   * selection, its one reference shows no layers and the host default route: the selection recorded at
   * its creation is not put back.
   */
  lemma ClearedSelectionStaysCleared(sources: Sources, task: Task)
    requires task in sources.tasks && forall t :: t in sources.tasks && t.id == task.id ==> IsCleared(t)
    ensures HasReference(Derived(sources), SelectionKey(task.id))
    ensures forall r :: r in Derived(sources) && r.key == SelectionKey(task.id) ==> r.layers == [] && r.defaultRoute
  {
    hide Derived, IsCleared, SaysDefault, KeysOf, After, HasReference, SelectionContribution, JobsSay, TasksSay,
         StrategiesSay;
    var a, b, c := JobsSay(sources.jobs), TasksSay(sources.tasks), StrategiesSay(sources.strategies);
    JobsSelectNothing(sources.jobs, task.id);
    TasksSayDefault(sources.tasks, task.id);
    StrategiesSelectNothing(sources.strategies, task.id);
    SaysDefaultConcat(a, b, task.id);
    SaysDefaultConcat(a + b, c, task.id);
    AfterDefault(Say(sources), task.id);
    ClearedIsSaid(sources.tasks, task);
    ClearedSays(task);
    SaidIsNamed(Say(sources), SelectionContribution(task));
    hide Say;
    KeysAreNamed(sources, SelectionKey(task.id));
    DerivedAt(sources, SelectionKey(task.id));
  }
}
