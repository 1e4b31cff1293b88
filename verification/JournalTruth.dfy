/**
 * The oracle of the fault campaign: what a journal of durable records says about each order after a
 * crash at any point, and the checker that compares a recovery admission with it.
 */
module JournalTruth {
  import opened Wrappers

  /** An order, identified by its owner's sequence number. */
  datatype Order = Order(sequence: int)

  /** A text that is only ever compared with another for equality. */
  datatype Label = Label(id: nat)

  /** "uncertain" and any state other than the two decisive ones read the same. */
  datatype SubmissionState = Submitted | DefinitelyNotSubmitted | Uncertain | OtherState(text: Label)

  type Digest = Option<Label>

  /** One journal record, as far as the oracle looks into its payload. */
  datatype Record =
    | Authorization(order: Option<Order>)
    | SubmissionResult(resultOf: Order, state: SubmissionState)
    | FactDispatch(isTrade: bool, tradeOf: Option<Order>, digest: Digest)
    | OtherRecord

  datatype Classification = SentConfirmed | DefinitelyNotSent | Unknown | OtherClassification(text: Label)

  datatype Terminal = Filled | NotTerminal | OtherTerminal(text: Label)

  datatype Verdict = Verdict(trades: nat, result: Option<SubmissionState>, classification: Classification,
                             terminal: Terminal)

  // ----- what a journal says, without an algorithm

  /** The order a record puts into the truth, if any. */
  function Subject(r: Record): Option<Order> {
    match r
    case Authorization(order) => order
    case SubmissionResult(order, _) => Some(order)
    case FactDispatch(isTrade, order, _) => if isTrade then order else None
    case OtherRecord => None
  }

  function Orders(records: seq<Record>): set<Order> {
    if records == [] then {}
    else
      var last := Subject(records[|records| - 1]);
      Orders(records[..|records| - 1]) + (if last.Some? then {last.value} else {})
  }

  function TradeFact(r: Record, o: Order): set<Digest> {
    if r.FactDispatch? && r.isTrade && r.tradeOf == Some(o) then {r.digest} else {}
  }

  /** The distinct trade facts recorded for an order. */
  function Facts(records: seq<Record>, o: Order): set<Digest> {
    if records == [] then {}
    else Facts(records[..|records| - 1], o) + TradeFact(records[|records| - 1], o)
  }

  /** The state of the latest result record of an order. */
  function LastResult(records: seq<Record>, o: Order): Option<SubmissionState> {
    if records == [] then None
    else
      var last := records[|records| - 1];
      if last.SubmissionResult? && last.resultOf == o then Some(last.state) else LastResult(records[..|records| - 1], o)
  }

  function Judge(trades: nat, result: Option<SubmissionState>): Verdict {
    if trades > 0 then Verdict(trades, result, SentConfirmed, Filled)
    else if result == Some(Submitted) then Verdict(trades, result, SentConfirmed, NotTerminal)
    else if result == Some(DefinitelyNotSubmitted) then Verdict(trades, result, DefinitelyNotSent, NotTerminal)
    else Verdict(trades, result, Unknown, NotTerminal)
  }

  function VerdictOf(records: seq<Record>, o: Order): Verdict {
    Judge(|Facts(records, o)|, LastResult(records, o))
  }

  function Truth(records: seq<Record>): map<Order, Verdict> {
    map o | o in Orders(records) :: VerdictOf(records, o)
  }

  // ----- the fold

  /** An entry while records are still being read. */
  datatype Pending = Pending(result: Option<SubmissionState>, facts: set<Digest>)

  function Blank(): Pending { Pending(None, {}) }

  ghost predicate IsFoldOf(entries: map<Order, Pending>, records: seq<Record>) {
    && entries.Keys == Orders(records)
    && forall o :: o in entries ==> entries[o] == Pending(LastResult(records, o), Facts(records, o))
  }

  lemma {:induction false} UnmentionedIsBlank(records: seq<Record>, o: Order)
    requires o !in Orders(records)
    ensures LastResult(records, o) == None && Facts(records, o) == {}
  {
    if records != [] {
      UnmentionedIsBlank(records[..|records| - 1], o);
    }
  }

  /** What one record does to the entries. */
  function Folded(entries: map<Order, Pending>, record: Record): map<Order, Pending> {
    match record
    case Authorization(order) =>
      if order.Some? && order.value !in entries then entries[order.value := Blank()] else entries
    case SubmissionResult(order, state) =>
      entries[order := EntryOf(entries, order).(result := Some(state))]
    case FactDispatch(isTrade, order, digest) =>
      if isTrade && order.Some? then
        var entry := EntryOf(entries, order.value);
        entries[order.value := entry.(facts := entry.facts + {digest})]
      else entries
    case OtherRecord => entries
  }

  /** `truth.setdefault(sequence, ...)`. */
  function EntryOf(entries: map<Order, Pending>, o: Order): Pending {
    if o in entries then entries[o] else Blank()
  }

  lemma FoldStep(entries: map<Order, Pending>, records: seq<Record>, record: Record)
    requires IsFoldOf(entries, records)
    ensures IsFoldOf(Folded(entries, record), records + [record])
  {
    var all, subject := records + [record], Subject(record);
    assert all[..|all| - 1] == records;
    if subject.Some? && subject.value !in entries {
      UnmentionedIsBlank(records, subject.value);
    }
    forall o | o in Folded(entries, record)
      ensures Folded(entries, record)[o] == Pending(LastResult(all, o), Facts(all, o))
    {
      assert o !in entries ==> subject == Some(o);
    }
  }

  method ExpectedTruth(records: seq<Record>) returns (truth: map<Order, Verdict>)
    ensures truth == Truth(records)
  {
    var entries: map<Order, Pending> := map[];
    hide Orders, Facts, LastResult, IsFoldOf;
    FoldOfNothing();
    for k := 0 to |records|
      invariant IsFoldOf(entries, records[..k])
    {
      var record := records[k];
      assert records[..k + 1] == records[..k] + [record];
      FoldStep(entries, records[..k], record);
      match record
      case Authorization(order) =>
        if order.Some? {
          entries := if order.value in entries then entries else entries[order.value := Blank()];
        }
      case SubmissionResult(order, state) =>
        var entry := if order in entries then entries[order] else Blank();
        entries := entries[order := entry.(result := Some(state))];
      case FactDispatch(isTrade, order, digest) =>
        if isTrade && order.Some? {
          var entry := if order.value in entries then entries[order.value] else Blank();
          entries := entries[order.value := entry.(facts := entry.facts + {digest})];
        }
      case OtherRecord =>
    }
    assert records[..|records|] == records;
    truth := map o | o in entries :: Judge(|entries[o].facts|, entries[o].result);
    FoldGivesTruth(entries, records);
  }

  lemma FoldOfNothing()
    ensures IsFoldOf(map[], [])
  {
  }

  lemma FoldGivesTruth(entries: map<Order, Pending>, records: seq<Record>)
    requires IsFoldOf(entries, records)
    ensures (map o | o in entries :: Judge(|entries[o].facts|, entries[o].result)) == Truth(records)
  {
    hide Orders, Facts, LastResult;
  }

  // ----- extending a journal

  lemma {:induction false} Extended(a: seq<Record>, b: seq<Record>, o: Order)
    ensures Orders(a + b) == Orders(a) + Orders(b)
    ensures Facts(a + b, o) == Facts(a, o) + Facts(b, o)
    ensures LastResult(a + b, o) == if LastResult(b, o).Some? then LastResult(b, o) else LastResult(a, o)
  {
    if b == [] {
      assert a + b == a;
    } else {
      Extended(a, b[..|b| - 1], o);
      assert (a + b)[..|a + b| - 1] == a + b[..|b| - 1];
    }
  }

  /** More journal never removes an order, lowers its distinct trade count, or unfills it. */
  lemma PrefixMonotone(a: seq<Record>, b: seq<Record>, o: Order)
    requires o in Truth(a)
    ensures o in Truth(a + b)
    ensures Truth(a)[o].trades <= Truth(a + b)[o].trades
    ensures Truth(a)[o].terminal == Filled ==>
      Truth(a + b)[o].terminal == Filled && Truth(a + b)[o].classification == Truth(a)[o].classification
  {
    hide Orders, Facts, LastResult;
    Extended(a, b, o);
    SubsetSize(Facts(a, o), Facts(a + b, o));
  }

  lemma {:induction false} SubsetSize<T>(a: set<T>, b: set<T>)
    requires a <= b
    ensures |a| <= |b|
    decreases |a|
  {
    if x :| x in a {
      SubsetSize(a - {x}, b - {x});
    }
  }

  /**
   * A confirmed order stays confirmed exactly when some trade is known, before or after, or the
   * latest result added for it, if there is one, again says submitted.
   */
  lemma ConfirmedStaysExactly(a: seq<Record>, b: seq<Record>, o: Order)
    requires o in Truth(a) && Truth(a)[o].classification == SentConfirmed
    ensures o in Truth(a + b)
    ensures Truth(a + b)[o].classification == SentConfirmed
      <==> Facts(a, o) != {} || Facts(b, o) != {} || LastResult(b, o) in {None, Some(Submitted)}
  {
    hide Orders, Facts, LastResult;
    Extended(a, b, o);
    EmptySize(Facts(a, o));
    EmptySize(Facts(a + b, o));
  }

  lemma EmptySize<T>(s: set<T>)
    ensures |s| == 0 <==> s == {}
  {
  }

  /** A journal holds at most one result record per order. */
  predicate OneResultEach(records: seq<Record>) {
    forall i, j :: 0 <= i < j < |records| && records[i].SubmissionResult? && records[j].SubmissionResult?
      ==> records[i].resultOf != records[j].resultOf
  }

  lemma {:induction false} LastResultIsRecorded(records: seq<Record>, o: Order)
    ensures LastResult(records, o).Some?
      <==> exists i :: 0 <= i < |records| && records[i].SubmissionResult? && records[i].resultOf == o
    ensures LastResult(records, o).Some? ==> SubmissionResult(o, LastResult(records, o).value) in records
  {
    if records != [] {
      var n := |records| - 1;
      LastResultIsRecorded(records[..n], o);
      assert records == records[..n] + [records[n]];
    }
  }

  /** With one result per order, confirmation is never withdrawn. */
  lemma ConfirmedStays(a: seq<Record>, b: seq<Record>, o: Order)
    requires OneResultEach(a + b)
    requires o in Truth(a) && Truth(a)[o].classification == SentConfirmed
    ensures o in Truth(a + b) && Truth(a + b)[o].classification == SentConfirmed
  {
    hide OneResultEach, Orders, Facts, LastResult;
    ConfirmedStaysExactly(a, b, o);
    ResultsOnOneSide(a, b, o);
    EmptySize(Facts(a, o));
  }

  lemma ResultsOnOneSide(a: seq<Record>, b: seq<Record>, o: Order)
    requires OneResultEach(a + b)
    ensures LastResult(a, o) == None || LastResult(b, o) == None
  {
    hide LastResult;
    LastResultIsRecorded(a, o);
    LastResultIsRecorded(b, o);
    forall i, j | 0 <= i < |a| && 0 <= j < |b|
      ensures !(a[i].SubmissionResult? && b[j].SubmissionResult? && a[i].resultOf == b[j].resultOf)
    {
      assert (a + b)[i] == a[i] && (a + b)[|a| + j] == b[j];
    }
  }

  /** Without it, a second result record can withdraw a confirmation: the bound is needed. */
  lemma SecondResultWithdraws(o: Order)
    ensures var first, second := SubmissionResult(o, Submitted), SubmissionResult(o, Uncertain);
      && Truth([first])[o].classification == SentConfirmed
      && Truth([first] + [second])[o].classification == Unknown
  {
    var first, second := SubmissionResult(o, Submitted), SubmissionResult(o, Uncertain);
    assert [first][..0] == [] && [second][..0] == [];
    assert LastResult([second], o) == Some(second.state);
    assert Orders([first]) == {o};
    assert Facts([], o) == {} && LastResult([], o) == None;
    assert Facts([first], o) == {} && Facts([second], o) == {};
    Extended([first], [second], o);
    EmptySize(Facts([first] + [second], o));
  }

  // ----- order and redelivery

  /** Two result records of one order with different states. */
  predicate Disagree(r: Record, q: Record) {
    r.SubmissionResult? && q.SubmissionResult? && r.resultOf == q.resultOf && r.state != q.state
  }

  /** All result records of one order carry one state. */
  predicate ResultsAgree(records: seq<Record>) {
    forall r, q :: r in records && q in records ==> !Disagree(r, q)
  }

  lemma {:induction false} SubjectsAndFacts(records: seq<Record>, o: Order, d: Digest)
    ensures o in Orders(records) <==> exists r :: r in records && Subject(r) == Some(o)
    ensures d in Facts(records, o) <==> FactDispatch(true, Some(o), d) in records
  {
    if records != [] {
      var n := |records| - 1;
      SubjectsAndFacts(records[..n], o, d);
      assert records == records[..n] + [records[n]];
    }
  }

  /** When the results agree, the truth depends on nothing but which records the journal holds. */
  lemma TruthOfRecordSet(a: seq<Record>, b: seq<Record>)
    requires forall r :: r in a <==> r in b
    requires ResultsAgree(a)
    ensures Truth(a) == Truth(b)
  {
    hide Orders, Facts, LastResult, ResultsAgree;
    forall o ensures (o in Truth(a) <==> o in Truth(b)) && (o in Truth(a) ==> Truth(a)[o] == Truth(b)[o]) {
      SubjectsAndFacts(a, o, None);
      SubjectsAndFacts(b, o, None);
      forall d ensures d in Facts(a, o) <==> d in Facts(b, o) {
        SubjectsAndFacts(a, o, d);
        SubjectsAndFacts(b, o, d);
      }
      assert Facts(a, o) == Facts(b, o);
      SameLastResult(a, b, o);
    }
    SameTruth(Truth(a), Truth(b));
  }

  lemma SameTruth(s: map<Order, Verdict>, t: map<Order, Verdict>)
    requires forall o :: (o in s <==> o in t) && (o in s ==> s[o] == t[o])
    ensures s == t
  {
  }

  lemma SameLastResult(a: seq<Record>, b: seq<Record>, o: Order)
    requires forall r :: r in a <==> r in b
    requires ResultsAgree(a)
    ensures LastResult(a, o) == LastResult(b, o)
  {
    hide LastResult;
    LastResultIsRecorded(a, o);
    LastResultIsRecorded(b, o);
    if LastResult(a, o).Some? {
      var r := SubmissionResult(o, LastResult(a, o).value);
      assert r in b;
      var i :| 0 <= i < |b| && b[i] == r;
    }
    if LastResult(b, o).Some? {
      var r := SubmissionResult(o, LastResult(b, o).value);
      assert r in a;
      var i :| 0 <= i < |a| && a[i] == r;
    }
  }

  /** Delivering a record again changes nothing, unless it is a result that disagrees with the latest. */
  lemma RedeliveryIsHarmless(records: seq<Record>, r: Record)
    requires r in records
    requires r.SubmissionResult? ==> LastResult(records, r.resultOf) == Some(r.state)
    ensures Truth(records + [r]) == Truth(records)
  {
    hide Orders, Facts, LastResult;
    forall o ensures (o in Truth(records + [r]) <==> o in Truth(records))
      && (o in Truth(records + [r]) ==> Truth(records + [r])[o] == Truth(records)[o])
    {
      Extended(records, [r], o);
      SubjectsAndFacts(records, o, if r.FactDispatch? then r.digest else None);
      SingleRecord(r, o);
      assert Facts(records, o) + Facts([r], o) == Facts(records, o);
    }
    SameTruth(Truth(records + [r]), Truth(records));
  }

  lemma SingleRecord(r: Record, o: Order)
    ensures Orders([r]) == if Subject(r).Some? then {Subject(r).value} else {}
    ensures Facts([r], o) == TradeFact(r, o)
    ensures LastResult([r], o) == if r.SubmissionResult? && r.resultOf == o then Some(r.state) else None
  {
    assert [r][..0] == [];
    assert Orders([]) == {} && Facts([], o) == {} && LastResult([], o) == None;
  }

  /** Two journals hold the same records in some order. */
  ghost predicate IsReordering(a: seq<Record>, b: seq<Record>) { multiset(a) == multiset(b) }

  lemma ReorderedHolds(a: seq<Record>, b: seq<Record>)
    requires IsReordering(a, b)
    ensures forall r :: r in a <==> r in b
  {
    forall r ensures r in a <==> r in b {
      assert r in a <==> r in multiset(a);
      assert r in b <==> r in multiset(b);
    }
  }

  /** Moving one record to the end is a reordering that makes it the latest. */
  lemma MovedLast(records: seq<Record>, i: nat)
    requires i < |records|
    ensures IsReordering(records, records[..i] + records[i + 1..] + [records[i]])
  {
    assert records == records[..i] + [records[i]] + records[i + 1..];
  }

  /**
   * The truth of a journal is the same under every reordering of its records exactly when the
   * result records of each order agree.
   */
  lemma OrderIndependentExactly(records: seq<Record>)
    ensures ResultsAgree(records) <==> forall other :: IsReordering(records, other) ==> Truth(other) == Truth(records)
  {
    if ResultsAgree(records) {
      forall other | IsReordering(records, other) ensures Truth(other) == Truth(records) {
        ReorderedHolds(records, other);
        TruthOfRecordSet(records, other);
      }
    } else {
      var r, q :| r in records && q in records && Disagree(r, q);
      var stale := if LastResult(records, r.resultOf) == Some(r.state) then q else r;
      var k :| 0 <= k < |records| && records[k] == stale;
      MovedResultShows(records, k);
    }
  }

  /** Moving a result that is not the latest to the end changes the truth. */
  lemma MovedResultShows(records: seq<Record>, k: nat)
    requires k < |records| && records[k].SubmissionResult?
    requires LastResult(records, records[k].resultOf) != Some(records[k].state)
    ensures exists other :: IsReordering(records, other) && Truth(other) != Truth(records)
  {
    hide Orders, Facts, LastResult;
    var o, rest := records[k].resultOf, records[..k] + records[k + 1..];
    var other := rest + [records[k]];
    MovedLast(records, k);
    Extended(rest, [records[k]], o);
    SingleRecord(records[k], o);
    SubjectsAndFacts(records, o, None);
    assert records[k] in records;
    assert o in Truth(records) && o in Truth(other);
    assert Truth(other)[o].result == LastResult(other, o) && Truth(records)[o].result == LastResult(records, o);
  }

  // ----- the checker

  datatype Intent = Intent(order: Order, classification: Classification, terminal: Terminal, venueOrder: Option<Label>)

  datatype Joint = Joint(notSentOrders: seq<Order>, openOrders: seq<Order>, recoveredFills: int,
                         divergentOrders: seq<Order>)

  datatype Admission = Admission(isTerminal: bool, outboundIntents: Option<seq<Intent>>, joint: Option<Joint>,
                                 reconciliationRequired: Option<bool>)

  datatype Refusal = DrillError | MissingKey

  /** The dictionary keyed by order: a later intent of one order replaces an earlier one. */
  function IntentsByOrder(intents: seq<Intent>): map<Order, Intent> {
    if intents == [] then map[]
    else
      var last := intents[|intents| - 1];
      IntentsByOrder(intents[..|intents| - 1])[last.order := last]
  }

  function StatedIntents(admission: Admission): map<Order, Intent> {
    IntentsByOrder(if admission.outboundIntents.Some? then admission.outboundIntents.value else [])
  }

  ghost function Total(truth: map<Order, Verdict>): nat
    decreases |truth|
  {
    if truth == map[] then 0
    else
      var o := Pick(truth.Keys);
      SmallerMap(truth, o);
      truth[o].trades + Total(truth - {o})
  }

  lemma SmallerMap(truth: map<Order, Verdict>, o: Order)
    requires o in truth
    ensures |truth - {o}| < |truth|
  {
    assert (truth - {o}).Keys == truth.Keys - {o};
    assert |(truth - {o}).Keys| == |truth - {o}| && |truth.Keys| == |truth|;
  }

  ghost function Pick(s: set<Order>): (o: Order)
    requires s != {}
    ensures o in s
  {
    var o :| o in s;
    o
  }

  lemma {:induction false} TotalWithout(truth: map<Order, Verdict>, o: Order)
    requires o in truth
    ensures Total(truth) == truth[o].trades + Total(truth - {o})
    decreases |truth|
  {
    var p := Pick(truth.Keys);
    if o != p {
      SmallerMap(truth, p);
      SmallerMap(truth, o);
      TotalWithout(truth - {p}, o);
      TotalWithout(truth - {o}, p);
      assert truth - {p} - {o} == truth - {o} - {p};
    }
  }

  /** What the checks say of one order. */
  predicate OrderPasses(o: Order, expected: Verdict, got: Intent, joint: Joint) {
    && got.classification == expected.classification
    && got.terminal == expected.terminal
    && expected.trades <= 1
    && (expected.classification == Unknown ==> o in joint.notSentOrders && o !in joint.openOrders)
    && (expected.classification != Unknown && expected.terminal == NotTerminal ==> o in joint.openOrders)
  }

  ghost predicate Accepts(admission: Admission, records: seq<Record>) {
    if admission.isTerminal then
      admission.outboundIntents == Some([]) && admission.reconciliationRequired == Some(false)
    else
      var truth, intents := Truth(records), StatedIntents(admission);
      && intents.Keys == truth.Keys
      && admission.joint.Some?
      && (forall o :: o in truth ==> OrderPasses(o, truth[o], intents[o], admission.joint.value))
      && admission.joint.value.recoveredFills == Total(truth)
      && admission.joint.value.divergentOrders == []
      && admission.reconciliationRequired == Some(false)
      && (forall o :: o in truth && truth[o].classification == Unknown ==> intents[o].venueOrder == None)
  }

  /** A key is looked up that is not there: before the checks of the orders, or after those of the fills. */
  ghost predicate LacksKey(admission: Admission, records: seq<Record>) {
    var truth, intents := Truth(records), StatedIntents(admission);
    && !admission.isTerminal && intents.Keys == truth.Keys
    && (admission.joint.None?
        || (&& admission.reconciliationRequired.None? && admission.joint.value.divergentOrders == []
            && admission.joint.value.recoveredFills == Total(truth)
            && forall o :: o in truth ==> OrderPasses(o, truth[o], intents[o], admission.joint.value)))
  }

  method SumTrades(truth: map<Order, Verdict>) returns (total: nat)
    ensures total == Total(truth)
  {
    total := 0;
    var rest := truth;
    while rest != map[]
      invariant total + Total(rest) == Total(truth)
      decreases |rest|
    {
      var o :| o in rest;
      TotalWithout(rest, o);
      SmallerMap(rest, o);
      total := total + rest[o].trades;
      rest := rest - {o};
    }
  }

  method CollectIntents(intents: seq<Intent>) returns (byOrder: map<Order, Intent>)
    ensures byOrder == IntentsByOrder(intents)
  {
    byOrder := map[];
    for k := 0 to |intents|
      invariant byOrder == IntentsByOrder(intents[..k])
    {
      assert intents[..k + 1][..k] == intents[..k];
      byOrder := byOrder[intents[k].order := intents[k]];
    }
    assert intents[..|intents|] == intents;
  }

  /** The loop over the orders: whether every order passes. */
  method CheckOrders(truth: map<Order, Verdict>, intents: map<Order, Intent>, joint: Joint) returns (ok: bool)
    requires intents.Keys == truth.Keys
    ensures ok <==> forall o :: o in truth ==> OrderPasses(o, truth[o], intents[o], joint)
  {
    var left := truth.Keys;
    while left != {}
      invariant left <= truth.Keys
      invariant forall o :: o in truth && o !in left ==> OrderPasses(o, truth[o], intents[o], joint)
      decreases |left|
    {
      var sequence :| sequence in left;
      var expected, got := truth[sequence], intents[sequence];
      if got.classification != expected.classification || got.terminal != expected.terminal || expected.trades > 1 {
        return false;
      }
      if expected.classification == Unknown {
        if !(sequence in joint.notSentOrders && sequence !in joint.openOrders) {
          return false;
        }
      } else if expected.terminal == NotTerminal {
        if sequence !in joint.openOrders {
          return false;
        }
      }
      left := left - {sequence};
    }
    return true;
  }

  method VerifyAdmission(admission: Admission, records: seq<Record>) returns (r: Result<(), Refusal>)
    ensures r.Success? <==> Accepts(admission, records)
    ensures r == Failure(MissingKey) <==> LacksKey(admission, records)
  {
    if admission.isTerminal {
      if admission.outboundIntents == Some([]) && admission.reconciliationRequired == Some(false) {
        return Success(());
      }
      return Failure(DrillError);
    }
    var truth := ExpectedTruth(records);
    var intents := CollectIntents(if admission.outboundIntents.Some? then admission.outboundIntents.value else []);
    hide Truth, Total, IntentsByOrder, OrderPasses;
    if intents.Keys != truth.Keys {
      return Failure(DrillError);
    }
    if admission.joint.None? {
      return Failure(MissingKey);
    }
    var joint := admission.joint.value;
    var consistent := CheckOrders(truth, intents, joint);
    if !consistent {
      return Failure(DrillError);
    }
    var total := SumTrades(truth);
    if joint.recoveredFills != total || joint.divergentOrders != [] {
      return Failure(DrillError);
    }
    if admission.reconciliationRequired.None? {
      return Failure(MissingKey);
    }
    if admission.reconciliationRequired != Some(false) {
      return Failure(DrillError);
    }
    if exists o :: o in truth && truth[o].classification == Unknown && intents[o].venueOrder != None {
      return Failure(DrillError);
    }
    return Success(());
  }

  // ----- the checker is adequate

  function FilledOrders(truth: map<Order, Verdict>): set<Order> {
    set o | o in truth && truth[o].terminal == Filled
  }

  lemma {:induction false} TotalCountsFilled(truth: map<Order, Verdict>)
    requires forall o :: o in truth ==> truth[o].trades <= 1 && (truth[o].terminal == Filled <==> truth[o].trades > 0)
    ensures Total(truth) == |FilledOrders(truth)|
    decreases |truth|
  {
    if truth == map[] {
      assert FilledOrders(truth) == {};
    } else {
      var o := Pick(truth.Keys);
      SmallerMap(truth, o);
      TotalCountsFilled(truth - {o});
      assert FilledOrders(truth - {o}) == FilledOrders(truth) - {o};
    }
  }

  predicate Agrees(got: Intent, expected: Verdict) {
    got.classification == expected.classification && got.terminal == expected.terminal
  }

  /** Unknown orders are closed, unsent and unidentified; every other order that is not filled is open. */
  predicate IsKeptRight(o: Order, v: Verdict, got: Intent, joint: Joint) {
    && (v.classification == Unknown ==> o !in joint.openOrders && o in joint.notSentOrders && got.venueOrder == None)
    && (v.classification != Unknown && v.terminal != Filled ==> o in joint.openOrders)
  }

  /**
   * An accepted admission that is not terminal states, for exactly the orders of the journal, the
   * journal's own classification and terminal; it counts one recovered fill per filled order; it
   * keeps every unknown order closed, unsent and without a venue identity; and it keeps open every
   * other order that is not filled, those definitely not sent included.
   */
  lemma AcceptedIsTruth(admission: Admission, records: seq<Record>)
    requires Accepts(admission, records) && !admission.isTerminal
    ensures StatedIntents(admission).Keys == Orders(records)
    ensures forall o :: o in Orders(records) ==> Agrees(StatedIntents(admission)[o], VerdictOf(records, o))
    ensures admission.joint.value.recoveredFills == |FilledOrders(Truth(records))|
    ensures forall o :: o in Orders(records) ==>
      IsKeptRight(o, VerdictOf(records, o), StatedIntents(admission)[o], admission.joint.value)
  {
    hide Orders, Facts, LastResult, IntentsByOrder, Total;
    var truth := Truth(records);
    assert forall o :: o in truth ==> OrderPasses(o, truth[o], StatedIntents(admission)[o], admission.joint.value);
    TotalCountsFilled(truth);
  }

  /** Two accepted admissions of one journal agree on every order and on the fill count. */
  lemma AcceptedAgree(a: Admission, b: Admission, records: seq<Record>)
    requires Accepts(a, records) && Accepts(b, records) && !a.isTerminal && !b.isTerminal
    ensures StatedIntents(a).Keys == StatedIntents(b).Keys == Orders(records)
    ensures forall o :: o in Orders(records) ==>
      StatedIntents(a)[o].classification == StatedIntents(b)[o].classification
    ensures forall o :: o in Orders(records) ==> StatedIntents(a)[o].terminal == StatedIntents(b)[o].terminal
    ensures a.joint.value.recoveredFills == b.joint.value.recoveredFills
  {
    hide Orders, Facts, LastResult, IntentsByOrder, Total, Accepts;
    AcceptedIsTruth(a, records);
    AcceptedIsTruth(b, records);
  }

  predicate ExactlyOnce(records: seq<Record>) { forall o :: o in Orders(records) ==> |Facts(records, o)| <= 1 }

  ghost function Listed(orders: set<Order>): (s: seq<Order>)
    ensures forall o :: o in s <==> o in orders
    ensures forall i, j :: 0 <= i < j < |s| ==> s[i] != s[j]
    decreases |orders|
  {
    if orders == {} then []
    else
      var o := Pick(orders);
      Listed(orders - {o}) + [o]
  }

  function TruthfulIntent(o: Order, v: Verdict): Intent { Intent(o, v.classification, v.terminal, None) }

  function TruthfulIntents(orders: seq<Order>, records: seq<Record>): seq<Intent> {
    if orders == [] then []
    else
      var last := orders[|orders| - 1];
      TruthfulIntents(orders[..|orders| - 1], records) + [TruthfulIntent(last, VerdictOf(records, last))]
  }

  lemma ByOrderSnoc(intents: seq<Intent>, last: Intent)
    ensures IntentsByOrder(intents + [last]) == IntentsByOrder(intents)[last.order := last]
  {
    assert (intents + [last])[..|intents|] == intents;
  }

  lemma {:induction false} TruthfulByOrder(orders: seq<Order>, records: seq<Record>)
    ensures forall o :: o in IntentsByOrder(TruthfulIntents(orders, records)) <==> o in orders
    ensures forall o :: o in orders ==>
      IntentsByOrder(TruthfulIntents(orders, records))[o] == TruthfulIntent(o, VerdictOf(records, o))
    decreases |orders|
  {
    hide VerdictOf;
    if orders != [] {
      var n := |orders| - 1;
      TruthfulByOrder(orders[..n], records);
      ByOrderSnoc(TruthfulIntents(orders[..n], records), TruthfulIntent(orders[n], VerdictOf(records, orders[n])));
      assert forall o :: o in orders <==> o in orders[..n] || o == orders[n];
      hide IntentsByOrder;
    }
  }

  ghost function TruthfulAdmission(records: seq<Record>): Admission {
    var truth := Truth(records);
    var notSent := set o | o in truth && truth[o].classification == Unknown;
    var open := set o | o in truth && truth[o].classification != Unknown && truth[o].terminal == NotTerminal;
    Admission(false, Some(TruthfulIntents(Listed(truth.Keys), records)),
              Some(Joint(Listed(notSent), Listed(open), Total(truth), [])), Some(false))
  }

  lemma TruthfulIsAccepted(records: seq<Record>)
    requires ExactlyOnce(records)
    ensures Accepts(TruthfulAdmission(records), records)
  {
    hide Orders, Facts, LastResult, Total, IntentsByOrder, TruthfulIntents, Listed;
    var admission, truth := TruthfulAdmission(records), Truth(records);
    TruthfulByOrder(Listed(truth.Keys), records);
    assert forall o :: o in StatedIntents(admission) <==> o in truth;
    assert StatedIntents(admission).Keys == truth.Keys;
    forall o | o in truth ensures OrderPasses(o, truth[o], StatedIntents(admission)[o], admission.joint.value) {
      assert StatedIntents(admission)[o] == TruthfulIntent(o, VerdictOf(records, o));
    }
  }

  /** A journal has an accepted admission that is not terminal exactly when no order traded twice. */
  lemma AcceptableExactly(records: seq<Record>)
    ensures (exists admission :: Accepts(admission, records) && !admission.isTerminal) <==> ExactlyOnce(records)
  {
    hide Orders, Facts, LastResult, Total, IntentsByOrder;
    if admission :| Accepts(admission, records) && !admission.isTerminal {
      var truth := Truth(records);
      forall o | o in Orders(records) ensures |Facts(records, o)| <= 1 {
        assert OrderPasses(o, truth[o], StatedIntents(admission)[o], admission.joint.value);
      }
    }
    if ExactlyOnce(records) {
      var admission := TruthfulAdmission(records);
      TruthfulIsAccepted(records);
    }
  }

  /** Some listed intent contradicts the journal. */
  ghost predicate ListsWrongIntent(admission: Admission, records: seq<Record>) {
    admission.outboundIntents.Some?
    && exists intent :: intent in admission.outboundIntents.value && IsWrongIntent(intent, records)
  }

  predicate IsWrongIntent(intent: Intent, records: seq<Record>) {
    intent.order in Orders(records) && !Agrees(intent, VerdictOf(records, intent.order))
  }

  predicate IsShadowed(intents: seq<Intent>, i: nat)
    requires i < |intents|
  {
    exists j :: i < j < |intents| && intents[j].order == intents[i].order
  }

  lemma {:induction false} LastListedStands(intents: seq<Intent>, i: nat)
    requires i < |intents| && !IsShadowed(intents, i)
    ensures intents[i].order in IntentsByOrder(intents) && IntentsByOrder(intents)[intents[i].order] == intents[i]
    decreases |intents|
  {
    var n := |intents| - 1;
    if i < n {
      assert intents[n].order != intents[i].order;
      assert intents[..n][i] == intents[i];
      LastListedStands(intents[..n], i);
    }
  }

  /** In an accepted admission an intent can contradict the journal only where a later one for its order shadows it. */
  lemma OnlyShadowedGoWrong(admission: Admission, records: seq<Record>, i: nat)
    requires Accepts(admission, records) && !admission.isTerminal
    requires admission.outboundIntents.Some? && i < |admission.outboundIntents.value|
    ensures var intents := admission.outboundIntents.value;
      IsWrongIntent(intents[i], records) ==> IsShadowed(intents, i)
  {
    var intents := admission.outboundIntents.value;
    if !IsShadowed(intents, i) {
      LastListedStands(intents, i);
      AcceptedIsTruth(admission, records);
      assert StatedIntents(admission)[intents[i].order] == intents[i];
      hide Accepts, IsShadowed, IntentsByOrder, VerdictOf, FilledOrders;
    }
  }

  /** The last position that lists an intent for the order of position `i`. */
  lemma {:induction false} LastPosition(intents: seq<Intent>, i: nat) returns (j: nat)
    requires i < |intents|
    ensures i <= j < |intents| && intents[j].order == intents[i].order && !IsShadowed(intents, j)
    decreases |intents| - i
  {
    j := i;
    if IsShadowed(intents, i) {
      var k :| i < k < |intents| && intents[k].order == intents[i].order;
      j := LastPosition(intents, k);
    }
  }

  /** Any two intents listed for one order state the same classification and terminal. */
  predicate IsConsistent(intents: seq<Intent>) {
    forall i, j :: 0 <= i < |intents| && 0 <= j < |intents| && intents[i].order == intents[j].order ==>
      intents[i].classification == intents[j].classification && intents[i].terminal == intents[j].terminal
  }

  /** In an accepted admission the last intent listed for an order agrees with the journal. */
  lemma LastListedAgrees(admission: Admission, records: seq<Record>, i: nat) returns (j: nat)
    requires Accepts(admission, records) && !admission.isTerminal
    requires admission.outboundIntents.Some? && i < |admission.outboundIntents.value|
    ensures j < |admission.outboundIntents.value|
    ensures var got, last := admission.outboundIntents.value[i], admission.outboundIntents.value[j];
      last.order == got.order && got.order in Orders(records) && Agrees(last, VerdictOf(records, got.order))
  {
    var intents := admission.outboundIntents.value;
    j := LastPosition(intents, i);
    LastListedStands(intents, j);
    AcceptedIsTruth(admission, records);
    assert StatedIntents(admission)[intents[j].order] == intents[j];
    hide Accepts, IsShadowed, IntentsByOrder, VerdictOf, FilledOrders;
  }

  /** An accepted admission lists no wrong intent exactly when it never contradicts itself about an order. */
  lemma ListedRightExactly(admission: Admission, records: seq<Record>)
    requires Accepts(admission, records) && !admission.isTerminal && admission.outboundIntents.Some?
    ensures !ListsWrongIntent(admission, records) <==> IsConsistent(admission.outboundIntents.value)
  {
    hide Accepts, VerdictOf;
    var intents := admission.outboundIntents.value;
    forall i | 0 <= i < |intents|
      ensures intents[i].order in Orders(records)
      ensures IsConsistent(intents) ==> !IsWrongIntent(intents[i], records)
    {
      var j := LastListedAgrees(admission, records, i);
    }
    if !ListsWrongIntent(admission, records) {
      forall i | 0 <= i < |intents| ensures Agrees(intents[i], VerdictOf(records, intents[i].order)) {
        assert intents[i] in intents;
      }
    }
  }

  /** Only the last intent listed for an order is checked: an earlier, contradicting one passes. */
  lemma ShadowedIntentPasses()
    ensures exists admission, records ::
      Accepts(admission, records) && !admission.isTerminal && ListsWrongIntent(admission, records)
  {
    var o := Order(7);
    var records := [Authorization(Some(o))];
    var wrong := Intent(o, SentConfirmed, Filled, Some(Label(1)));
    var right := Intent(o, Unknown, NotTerminal, None);
    SingleRecord(records[0], o);
    assert records == [records[0]];
    EmptySize(Facts(records, o));
    var truth := Truth(records);
    assert truth.Keys == {o} && truth[o] == Verdict(0, None, Unknown, NotTerminal);
    var admission := Admission(false, Some([wrong, right]), Some(Joint([o], [], 0, [])), Some(false));
    assert [wrong, right][..1] == [wrong] && [wrong][..0] == [];
    assert IntentsByOrder([wrong]) == map[o := wrong];
    assert StatedIntents(admission) == map[o := right];
    TotalWithout(truth, o);
    assert truth - {o} == map[];
    assert Accepts(admission, records);
    assert wrong in admission.outboundIntents.value;
    assert ListsWrongIntent(admission, records);
  }

  // ----- the truth and the checker, on the records alone

  /** Some trade of the order is recorded. */
  ghost predicate HasTrade(records: seq<Record>, o: Order) {
    exists r :: r in records && r.FactDispatch? && r.isTrade && r.tradeOf == Some(o)
  }

  /** Record `i` is the last result record of the order. */
  ghost predicate IsLatest(records: seq<Record>, o: Order, i: nat) {
    && i < |records| && records[i].SubmissionResult? && records[i].resultOf == o
    && forall j :: i < j < |records| && records[j].SubmissionResult? ==> records[j].resultOf != o
  }

  /** The latest result of the order says this. */
  ghost predicate LatestSays(records: seq<Record>, o: Order, state: SubmissionState) {
    exists i: nat :: IsLatest(records, o, i) && records[i].state == state
  }

  ghost predicate HasResult(records: seq<Record>, o: Order) {
    exists r :: r in records && r.SubmissionResult? && r.resultOf == o
  }

  /** The journal mentions the order: authorizes it, has a result of it or a trade. */
  ghost predicate IsMentioned(records: seq<Record>, o: Order) {
    Authorization(Some(o)) in records || HasResult(records, o) || HasTrade(records, o)
  }

  ghost predicate IsClassified(records: seq<Record>, o: Order, c: Classification) {
    match c
    case SentConfirmed => HasTrade(records, o) || LatestSays(records, o, Submitted)
    case DefinitelyNotSent => !HasTrade(records, o) && LatestSays(records, o, DefinitelyNotSubmitted)
    case Unknown =>
      && !HasTrade(records, o) && !LatestSays(records, o, Submitted)
      && !LatestSays(records, o, DefinitelyNotSubmitted)
    case OtherClassification(_) => false
  }

  ghost predicate IsEnded(records: seq<Record>, o: Order, terminal: Terminal) {
    match terminal
    case Filled => HasTrade(records, o)
    case NotTerminal => !HasTrade(records, o)
    case OtherTerminal(_) => false
  }

  lemma {:induction false} LatestIs(records: seq<Record>, o: Order, i: nat)
    requires IsLatest(records, o, i)
    ensures LastResult(records, o) == Some(records[i].state)
  {
    var n := |records| - 1;
    if i < n {
      assert IsLatest(records[..n], o, i);
      LatestIs(records[..n], o, i);
    }
  }

  lemma {:induction false} LatestExists(records: seq<Record>, o: Order) returns (i: nat)
    requires LastResult(records, o).Some?
    ensures IsLatest(records, o, i)
  {
    var n := |records| - 1;
    if records[n].SubmissionResult? && records[n].resultOf == o {
      i := n;
    } else {
      i := LatestExists(records[..n], o);
    }
  }

  lemma ResultExactly(records: seq<Record>, o: Order, state: SubmissionState)
    ensures LastResult(records, o) == Some(state) <==> LatestSays(records, o, state)
    ensures LastResult(records, o) == None <==> !HasResult(records, o)
  {
    hide LastResult;
    LastResultIsRecorded(records, o);
    if LastResult(records, o).Some? {
      var i := LatestExists(records, o);
      LatestIs(records, o, i);
    }
    if i: nat :| IsLatest(records, o, i) && records[i].state == state {
      LatestIs(records, o, i);
    }
  }

  lemma TradedExactly(records: seq<Record>, o: Order)
    ensures HasTrade(records, o) <==> |Facts(records, o)| > 0
  {
    hide Facts, Orders;
    EmptySize(Facts(records, o));
    if r :| r in records && r.FactDispatch? && r.isTrade && r.tradeOf == Some(o) {
      SubjectsAndFacts(records, o, r.digest);
      assert r == FactDispatch(true, Some(o), r.digest);
    }
    if d :| d in Facts(records, o) {
      SubjectsAndFacts(records, o, d);
    }
  }

  lemma MentionedExactly(records: seq<Record>, o: Order)
    ensures o in Orders(records) <==> IsMentioned(records, o)
  {
    hide Facts, Orders;
    SubjectsAndFacts(records, o, None);
    assert Subject(Authorization(Some(o))) == Some(o);
  }

  /** The distinct trade facts recorded of an order. */
  ghost function Digests(records: seq<Record>, o: Order): iset<Digest> {
    iset r | r in records && r.FactDispatch? && r.isTrade && r.tradeOf == Some(o) :: r.digest
  }

  ghost predicate IsAllOf(facts: set<Digest>, digests: iset<Digest>) { forall d :: d in facts <==> d in digests }

  /**
   * The truth has an entry for exactly the orders the journal mentions. It counts their distinct trade facts,
   * and classifies each by whether a trade is recorded and, without one, by its latest result record.
   */
  lemma VerdictExactly(records: seq<Record>, o: Order, c: Classification, t: Terminal)
    ensures o in Truth(records) <==> IsMentioned(records, o)
    ensures o in Truth(records) ==>
      && (Truth(records)[o].classification == c <==> IsClassified(records, o, c))
      && (Truth(records)[o].terminal == t <==> IsEnded(records, o, t))
    ensures o in Truth(records) ==>
      exists facts :: Truth(records)[o].trades == |facts| && IsAllOf(facts, Digests(records, o))
  {
    MentionedExactly(records, o);
    TradedExactly(records, o);
    ResultExactly(records, o, Submitted);
    ResultExactly(records, o, DefinitelyNotSubmitted);
    hide Facts, Orders, LastResult, HasTrade, LatestSays, HasResult, IsMentioned;
    forall d ensures d in Facts(records, o) <==> d in Digests(records, o) {
      SubjectsAndFacts(records, o, d);
      if d in Facts(records, o) {
        assert FactDispatch(true, Some(o), d).digest == d;
      }
    }
    assert IsAllOf(Facts(records, o), Digests(records, o));
  }

  /** Intent `i` is the last one listed for its order. */
  ghost predicate StandsLast(intents: seq<Intent>, i: nat) {
    i < |intents| && forall j :: i < j < |intents| ==> intents[j].order != intents[i].order
  }

  /** What must hold of one order: what its intent says, how often it traded, and where it is kept. */
  ghost predicate IsRight(records: seq<Record>, got: Intent, joint: Joint) {
    var o := got.order;
    && IsClassified(records, o, got.classification) && IsEnded(records, o, got.terminal)
    && (forall d, e :: d in Digests(records, o) && e in Digests(records, o) ==> d == e)
    && (if IsClassified(records, o, Unknown)
        then o in joint.notSentOrders && o !in joint.openOrders && got.venueOrder.None?
        else HasTrade(records, o) || o in joint.openOrders)
  }

  ghost predicate IsListed(intents: seq<Intent>, o: Order) {
    exists i: nat :: StandsLast(intents, i) && intents[i].order == o
  }

  ghost predicate ListsMentioned(intents: seq<Intent>, records: seq<Record>) {
    forall o :: IsMentioned(records, o) <==> IsListed(intents, o)
  }

  ghost predicate EachIsRight(intents: seq<Intent>, records: seq<Record>, joint: Joint) {
    forall i: nat :: StandsLast(intents, i) ==> IsRight(records, intents[i], joint)
  }

  /** An admission agrees with the journal. */
  ghost predicate IsTruthful(admission: Admission, records: seq<Record>) {
    var intents := if admission.outboundIntents.Some? then admission.outboundIntents.value else [];
    if admission.isTerminal
    then admission.outboundIntents.Some? && intents == [] && admission.reconciliationRequired == Some(false)
    else
      && admission.joint.Some? && admission.reconciliationRequired == Some(false)
      && ListsMentioned(intents, records) && EachIsRight(intents, records, admission.joint.value)
      && admission.joint.value.divergentOrders == []
      && CountsTraded(admission.joint.value.recoveredFills, records)
  }

  /** The number is that of the orders with a trade. */
  ghost predicate CountsTraded(n: int, records: seq<Record>) {
    exists traded: set<Order> :: n == |traded| && forall o :: o in traded <==> HasTrade(records, o)
  }

  lemma {:induction false} ByOrderExactly(intents: seq<Intent>, o: Order)
    ensures o in IntentsByOrder(intents) <==> exists i: nat :: StandsLast(intents, i) && intents[i].order == o
    ensures forall i: nat :: StandsLast(intents, i) && intents[i].order == o ==>
      IntentsByOrder(intents)[o] == intents[i]
  {
    forall i: nat | StandsLast(intents, i) && intents[i].order == o
      ensures o in IntentsByOrder(intents) && IntentsByOrder(intents)[o] == intents[i]
    {
      LastListedStands(intents, i);
    }
    if o in IntentsByOrder(intents) {
      var i := ListedLast(intents, o);
    }
  }

  lemma {:induction false} ListedLast(intents: seq<Intent>, o: Order) returns (i: nat)
    requires o in IntentsByOrder(intents)
    ensures StandsLast(intents, i) && intents[i].order == o
  {
    var n := |intents| - 1;
    if intents[n].order == o {
      i := n;
    } else {
      i := ListedLast(intents[..n], o);
      assert intents[i] == intents[..n][i];
      forall j | i < j < |intents| ensures intents[j].order != o {
        assert j < n ==> intents[j] == intents[..n][j];
      }
    }
  }

  lemma OnceExactly(records: seq<Record>, o: Order)
    ensures |Facts(records, o)| <= 1 <==> forall d, e :: d in Digests(records, o) && e in Digests(records, o) ==> d == e
  {
    hide Facts, Orders;
    forall d ensures d in Facts(records, o) <==> d in Digests(records, o) {
      SubjectsAndFacts(records, o, d);
      if d in Facts(records, o) {
        assert FactDispatch(true, Some(o), d).digest == d;
      }
    }
    AtMostOne(Facts(records, o));
    hide Digests;
  }

  lemma AtMostOne<T>(s: set<T>)
    ensures |s| <= 1 <==> forall x, y :: x in s && y in s ==> x == y
  {
    if x :| x in s {
      assert |s| == 1 + |s - {x}|;
      EmptySize(s - {x});
      if s - {x} != {} {
        var y :| y in s - {x};
      }
    }
  }

  /** The order passes the checks exactly when its intent is right. */
  lemma PassesExactly(records: seq<Record>, got: Intent, joint: Joint)
    requires got.order in Orders(records)
    ensures var o := got.order;
      IsRight(records, got, joint) <==>
        && OrderPasses(o, VerdictOf(records, o), got, joint)
        && (VerdictOf(records, o).classification == Unknown ==> got.venueOrder == None)
  {
    var o := got.order;
    VerdictExactly(records, o, got.classification, got.terminal);
    VerdictExactly(records, o, Unknown, Filled);
    VerdictExactly(records, o, Unknown, NotTerminal);
    OnceExactly(records, o);
    hide Orders, Facts, LastResult, IsClassified, Digests, HasTrade;
  }

  /** With at most one trade each, the trades add up to the orders that traded. */
  lemma FillsExactly(records: seq<Record>, n: int)
    requires forall o :: o in Orders(records) ==> |Facts(records, o)| <= 1
    ensures n == Total(Truth(records)) <==> CountsTraded(n, records)
  {
    hide Orders, Facts, LastResult, Total, HasTrade;
    var truth := Truth(records);
    TotalCountsFilled(truth);
    forall o ensures o in FilledOrders(truth) <==> HasTrade(records, o) {
      MentionedExactly(records, o);
      TradedExactly(records, o);
    }
    if traded: set<Order> :| n == |traded| && forall o :: o in traded <==> HasTrade(records, o) {
      assert traded == FilledOrders(truth);
    }
  }

  /** The intent standing for the order passes every check of it. */
  predicate IsPassed(o: Order, v: Verdict, got: Intent, joint: Joint) {
    OrderPasses(o, v, got, joint) && (v.classification == Unknown ==> got.venueOrder == None)
  }

  ghost predicate EachPassed(byOrder: map<Order, Intent>, records: seq<Record>, joint: Joint)
    requires byOrder.Keys == Orders(records)
  {
    forall o :: o in Orders(records) ==> IsPassed(o, VerdictOf(records, o), byOrder[o], joint)
  }

  lemma AllListed(intents: seq<Intent>, records: seq<Record>)
    ensures IntentsByOrder(intents).Keys == Orders(records) <==> ListsMentioned(intents, records)
  {
    hide Orders, IntentsByOrder, IsMentioned, StandsLast;
    forall o
      ensures o in IntentsByOrder(intents) <==> IsListed(intents, o)
      ensures o in Orders(records) <==> IsMentioned(records, o)
    {
      ByOrderExactly(intents, o);
      MentionedExactly(records, o);
    }
    hide IsListed;
  }

  lemma AllRight(intents: seq<Intent>, records: seq<Record>, joint: Joint)
    requires IntentsByOrder(intents).Keys == Orders(records)
    ensures EachPassed(IntentsByOrder(intents), records, joint) <==> EachIsRight(intents, records, joint)
  {
    hide Orders, IntentsByOrder, VerdictOf, IsRight, OrderPasses;
    forall i: nat | StandsLast(intents, i)
      ensures intents[i].order in Orders(records) && IntentsByOrder(intents)[intents[i].order] == intents[i]
      ensures IsRight(records, intents[i], joint)
        <==> IsPassed(intents[i].order, VerdictOf(records, intents[i].order), intents[i], joint)
    {
      ByOrderExactly(intents, intents[i].order);
      PassesExactly(records, intents[i], joint);
    }
    forall o | o in Orders(records) ensures exists i: nat :: StandsLast(intents, i) && intents[i].order == o {
      ByOrderExactly(intents, o);
    }
    hide IsPassed;
  }

  lemma PassedOnce(byOrder: map<Order, Intent>, records: seq<Record>, joint: Joint)
    requires byOrder.Keys == Orders(records) && EachPassed(byOrder, records, joint)
    ensures forall o :: o in Orders(records) ==> |Facts(records, o)| <= 1
  {
    hide Orders, Facts, LastResult;
  }

  lemma AcceptsEach(admission: Admission, records: seq<Record>)
    requires !admission.isTerminal
    ensures Accepts(admission, records) <==>
      && admission.joint.Some? && admission.reconciliationRequired == Some(false)
      && StatedIntents(admission).Keys == Orders(records)
      && EachPassed(StatedIntents(admission), records, admission.joint.value)
      && admission.joint.value.divergentOrders == []
      && admission.joint.value.recoveredFills == Total(Truth(records))
  {
    hide Orders, VerdictOf, Total, IntentsByOrder, OrderPasses;
  }

  /**
   * The checker accepts exactly the admissions that agree with the journal: a terminal one without intents, and
   * otherwise one whose last intent for each mentioned order states its classification and terminal, with no
   * order traded twice, the unknown ones closed, unsent and unidentified, the others open until they traded,
   * the fills counted, and nothing divergent or left to reconcile.
   */
  lemma AcceptedExactly(admission: Admission, records: seq<Record>)
    ensures Accepts(admission, records) <==> IsTruthful(admission, records)
  {
    if !admission.isTerminal {
      AcceptsEach(admission, records);
      hide Accepts;
      if admission.joint.Some? {
        var intents := if admission.outboundIntents.Some? then admission.outboundIntents.value else [];
        var joint := admission.joint.value;
        hide Orders, Truth, IntentsByOrder, CountsTraded, EachPassed, EachIsRight, ListsMentioned;
        AllListed(intents, records);
        if IntentsByOrder(intents).Keys == Orders(records) {
          AllRight(intents, records, joint);
          if EachPassed(IntentsByOrder(intents), records, joint) {
            PassedOnce(IntentsByOrder(intents), records, joint);
            FillsExactly(records, joint.recoveredFills);
          }
        }
      }
    }
  }
}
