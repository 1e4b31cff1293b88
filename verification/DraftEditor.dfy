/**
 * The manual draft editor's save protocol: an operation is stored as pending before it is sent,
 * nothing is ever sent again, and the tab may be reloaded or the page left at any point.
 */
module DraftEditor {
  import opened Wrappers

  /** A fresh identity per save. */
  datatype Operation = Operation(id: nat)

  datatype Path = Path(id: nat)

  /** A typed text, with its number when it is written as a safe integer. */
  datatype Raw = Raw(text: nat, integer: Option<int>)

  datatype Value = TextValue(raw: Raw) | IntegerValue(n: int)

  datatype Request = Request(operation: Operation, expectedRevision: int, values: map<Path, Value>)

  datatype Buffer = Buffer(revision: int, values: map<Path, Raw>, pending: Option<Request>)

  // ----- what the host answers

  datatype Change = Change(operation: Operation, isManual: bool)

  datatype Strategy = Strategy(id: nat, changes: seq<Change>)

  /** A record, a refusal whose code is one of the four listed ones, or any other failure. */
  datatype Reply = Record(strategy: Strategy) | ListedRefusal | OtherFailure

  /** The record is this research's own and holds the manual operation. */
  predicate Confirms(strategy: Strategy, id: nat, operation: Operation) {
    strategy.id == id && Change(operation, true) in strategy.changes
  }

  // ----- the contract of editable fields

  datatype Field = Field(path: Path, editable: bool, isInteger: bool)

  function EditableField(fields: seq<Field>, path: Path): Option<Field> {
    if fields == [] then None
    else if fields[0].path == path && fields[0].editable then Some(fields[0])
    else EditableField(fields[1..], path)
  }

  /** A typed value as it is sent, unless it has no editable field or is not an integer where one is due. */
  function Converted(fields: seq<Field>, path: Path, raw: Raw): Option<Value> {
    match EditableField(fields, path)
    case None => None
    case Some(field) =>
      if !field.isInteger then Some(TextValue(raw))
      else if raw.integer.Some? then Some(IntegerValue(raw.integer.value))
      else None
  }

  predicate AllConvert(fields: seq<Field>, values: map<Path, Raw>) {
    forall path :: path in values ==> Converted(fields, path, values[path]).Some?
  }

  /** `sent` holds exactly the typed paths, each with its converted value. */
  ghost predicate IsConversion(fields: seq<Field>, values: map<Path, Raw>, sent: map<Path, Value>) {
    && sent.Keys == values.Keys
    && (forall path :: path in values ==> Converted(fields, path, values[path]) == Some(sent[path]))
  }

  method ConvertValues(fields: seq<Field>, values: map<Path, Raw>) returns (r: Option<map<Path, Value>>)
    ensures r.Some? <==> AllConvert(fields, values)
    ensures r.Some? ==> IsConversion(fields, values, r.value)
  {
    var sent: map<Path, Value> := map[];
    var left := values.Keys;
    while left != {}
      invariant left <= values.Keys && sent.Keys == values.Keys - left
      invariant forall path :: path in sent ==> Some(sent[path]) == Converted(fields, path, values[path])
      decreases |left|
    {
      var path :| path in left;
      var value := Converted(fields, path, values[path]);
      if value.None? {
        return None;
      }
      sent := sent[path := value.value];
      left := left - {path};
    }
    return Some(sent);
  }

  // ----- one mounted editor over the tab's stored buffer

  /** The stored buffer, and what the mounted editor holds. */
  datatype View = View(stored: Option<Buffer>, buffer: Option<Buffer>, inFlight: bool, retained: bool)

  function PendingOf(buffer: Option<Buffer>): Option<Request> {
    if buffer.Some? then buffer.value.pending else None
  }

  predicate IsPendingOn(buffer: Option<Buffer>, operation: Operation) {
    PendingOf(buffer).Some? && PendingOf(buffer).value.operation == operation
  }

  /** A new mount reads what is stored. */
  function Mounted(stored: Option<Buffer>): View { View(stored, stored, false, true) }

  /** `persist(next)`; the storage operation may fail. */
  function Persisted(v: View, next: Option<Buffer>, ok: bool): View {
    v.(buffer := next, stored := if ok then next else v.stored, retained := ok)
  }

  /** The inputs and the cancel button are disabled while a call is in flight or an operation is pending. */
  predicate IsEditable(v: View) { !v.inFlight && PendingOf(v.buffer).None? }

  function Edited(v: View, draftRevision: int, path: Path, raw: Raw, ok: bool): View {
    var revision := if v.buffer.Some? then v.buffer.value.revision else draftRevision;
    var values := if v.buffer.Some? then v.buffer.value.values else map[];
    Persisted(v, Some(Buffer(revision, values[path := raw], None)), ok)
  }

  predicate CanSave(v: View, draftRevision: int) {
    !v.inFlight && v.buffer.Some? && v.buffer.value.pending.None? && v.buffer.value.revision == draftRevision
  }

  /** The save button would send: the guards hold and every typed value converts. */
  predicate IsSendable(v: View, draftRevision: int, fields: Option<seq<Field>>) {
    CanSave(v, draftRevision) && fields.Some? && AllConvert(fields.value, v.buffer.value.values)
  }

  /** The request carries exactly the typed values and the revision they were typed against. */
  ghost predicate CarriesTyped(request: Request, typed: Buffer, fields: seq<Field>) {
    request.expectedRevision == typed.revision && IsConversion(fields, typed.values, request.values)
  }

  /** The identity could not be stored: nothing is sent and the buffer stays as typed. */
  function SaveUnsent(v: View): View { v.(retained := false) }

  function SaveSent(v: View, request: Request): View
    requires v.buffer.Some?
  {
    Persisted(v, Some(v.buffer.value.(pending := Some(request))), true).(inFlight := true)
  }

  /**
   * `finish(next, operation)` in the mounted editor; none when it throws, which leaves everything
   * as it was.
   */
  function Finished(v: View, id: nat, strategy: Strategy, operation: Operation, removeOk: bool, persistOk: bool)
      : Option<View>
  {
    if !Confirms(strategy, id, operation) then None
    else if IsPendingOn(v.stored, operation) && !removeOk then None
    else
      var removed := if IsPendingOn(v.stored, operation) then v.(stored := None) else v;
      Some(Persisted(removed, None, persistOk))
  }

  /** What a save call's reply does to the mounted editor that sent it; `sent` is the buffer it closed over. */
  function SaveReplied(v: View, id: nat, sent: Buffer, operation: Operation, reply: Reply, removeOk: bool,
                       persistOk: bool): View
  {
    (match reply
     case Record(strategy) =>
       (match Finished(v, id, strategy, operation, removeOk, persistOk)
        case Some(next) => next
        case None => v)
     case ListedRefusal => Persisted(v, Some(Buffer(sent.revision, sent.values, None)), persistOk)
     case OtherFailure => v).(inFlight := false)
  }

  /** What a read reply does: it finishes the pending operation or leaves everything unconfirmed. */
  function ReadReplied(v: View, id: nat, operation: Operation, reply: Reply, removeOk: bool, persistOk: bool): View {
    (match reply
     case Record(strategy) =>
       (match Finished(v, id, strategy, operation, removeOk, persistOk)
        case Some(next) => next
        case None => v)
     case _ => v).(inFlight := false)
  }

  /** A reply reaching an editor that has left the page only takes its own operation out of storage. */
  function LateReplied(v: View, id: nat, operation: Operation, reply: Reply, removeOk: bool): View {
    if reply.Record? && Confirms(reply.strategy, id, operation) && IsPendingOn(v.stored, operation) && removeOk
    then v.(stored := None) else v
  }

  /** The mounted component: its state cells and the tab's storage entry. */
  class Editor {
    const id: nat
    var stored: Option<Buffer>
    var buffer: Option<Buffer>
    var inFlight: bool
    var retained: bool

    ghost function Now(): View
      reads this
    {
      View(stored, buffer, inFlight, retained)
    }

    constructor (id: nat, stored: Option<Buffer>)
      ensures this.id == id && Now() == Mounted(stored)
    {
      this.id := id;
      this.stored, buffer, inFlight, retained := stored, stored, false, true;
    }

    method Persist(next: Option<Buffer>, ok: bool) returns (kept: bool)
      modifies this
      ensures kept == ok && Now() == Persisted(old(Now()), next, ok)
    {
      buffer := next;
      if ok {
        stored := next;
        retained := true;
        return true;
      }
      retained := false;
      return false;
    }

    method Change(draftRevision: int, path: Path, raw: Raw, ok: bool)
      requires IsEditable(Now())
      modifies this
      ensures Now() == Edited(old(Now()), draftRevision, path, raw, ok)
    {
      var revision := if buffer.Some? then buffer.value.revision else draftRevision;
      var values := if buffer.Some? then buffer.value.values else map[];
      var _ := Persist(Some(Buffer(revision, values[path := raw], None)), ok);
    }

    method Cancel(ok: bool)
      requires IsEditable(Now())
      modifies this
      ensures Now() == Persisted(old(Now()), None, ok)
    {
      var _ := Persist(None, ok);
    }

    /** The part of `save` before its first await: the request to send, if any. */
    method BeginSave(draftRevision: int, fields: Option<seq<Field>>, operation: Operation, ok: bool)
        returns (sent: Option<Request>)
      modifies this
      ensures sent.Some? <==> IsSendable(old(Now()), draftRevision, fields) && ok
      ensures sent.Some? ==> Now() == SaveSent(old(Now()), sent.value) && sent.value.operation == operation
      ensures sent.Some? ==> CarriesTyped(sent.value, old(buffer).value, fields.value)
      ensures sent.None? && IsSendable(old(Now()), draftRevision, fields) ==> Now() == SaveUnsent(old(Now()))
      ensures sent.None? && !IsSendable(old(Now()), draftRevision, fields) ==> Now() == old(Now())
    {
      if inFlight || buffer.None? || buffer.value.pending.Some? {
        return None;
      }
      if buffer.value.revision != draftRevision || fields.None? {
        return None;
      }
      var typed := buffer.value;
      var values := ConvertValues(fields.value, typed.values);
      if values.None? {
        return None;
      }
      var request := Request(operation, typed.revision, values.value);
      inFlight := true;
      var kept := Persist(Some(typed.(pending := Some(request))), ok);
      if !kept {
        buffer := Some(typed);
        inFlight := false;
        return None;
      }
      return Some(request);
    }

    method Finish(strategy: Strategy, operation: Operation, removeOk: bool, persistOk: bool) returns (done: bool)
      modifies this
      ensures done == Finished(old(Now()), id, strategy, operation, removeOk, persistOk).Some?
      ensures done ==> Now() == Finished(old(Now()), id, strategy, operation, removeOk, persistOk).value
      ensures !done ==> Now() == old(Now())
    {
      if !Confirms(strategy, id, operation) {
        return false;
      }
      if stored.Some? && stored.value.pending.Some? && stored.value.pending.value.operation == operation {
        if !removeOk {
          return false;
        }
        stored := None;
      }
      var _ := Persist(None, persistOk);
      return true;
    }

    /** The part of `save` after the reply arrives while still mounted. */
    method EndSave(sent: Buffer, operation: Operation, reply: Reply, removeOk: bool, persistOk: bool)
      modifies this
      ensures Now() == SaveReplied(old(Now()), id, sent, operation, reply, removeOk, persistOk)
    {
      match reply {
        case Record(strategy) =>
          var _ := Finish(strategy, operation, removeOk, persistOk);
        case ListedRefusal =>
          var _ := Persist(Some(Buffer(sent.revision, sent.values, None)), persistOk);
        case OtherFailure =>
      }
      inFlight := false;
    }

    method BeginReconcile() returns (operation: Option<Operation>)
      modifies this
      ensures operation.Some? <==> !old(inFlight) && PendingOf(old(buffer)).Some?
      ensures operation.Some? ==> IsPendingOn(old(buffer), operation.value)
      ensures Now() == if operation.Some? then old(Now()).(inFlight := true) else old(Now())
    {
      if inFlight || buffer.None? || buffer.value.pending.None? {
        return None;
      }
      inFlight := true;
      return Some(buffer.value.pending.value.operation);
    }

    method EndReconcile(operation: Operation, reply: Reply, removeOk: bool, persistOk: bool)
      modifies this
      ensures Now() == ReadReplied(old(Now()), id, operation, reply, removeOk, persistOk)
    {
      if reply.Record? {
        var _ := Finish(reply.strategy, operation, removeOk, persistOk);
      }
      inFlight := false;
    }
  }

  // ----- whole runs of one tab

  /** A call whose reply has not arrived: a save with the buffer it closed over, or a read. */
  datatype Call = SaveCall(sent: Buffer, request: Request) | ReadCall(of: Operation)

  function OperationOf(call: Call): Operation {
    match call
    case SaveCall(_, request) => request.operation
    case ReadCall(operation) => operation
  }

  /**
   * The tab: the mounted editor and its call, the calls of editors that left the page, and what has
   * happened so far: the requests sent, the operations some record confirmed, and those the host
   * refused with a listed code.
   */
  datatype Tab = Tab(view: View, call: Option<Call>, lateCalls: multiset<Call>, sent: seq<Request>,
                     confirmed: set<Operation>, refused: set<Operation>)

  datatype Event =
    | Edit(draftRevision: int, path: Path, raw: Raw, ok: bool)
    | CancelEdit(ok: bool)
    /** The save button, with the request built from the buffer and a fresh identity. */
    | Save(draftRevision: int, fields: seq<Field>, request: Request, ok: bool)
    | Reconcile
    | ReplyHere(reply: Reply, removeOk: bool, persistOk: bool)
    /** A reload or a new mount of the page; the call in flight is lost or finishes unmounted. */
    | Remount(late: bool)
    | ReplyLate(call: Call, reply: Reply, removeOk: bool)

  ghost predicate WasSent(tab: Tab, operation: Operation) { exists r :: r in tab.sent && r.operation == operation }

  ghost predicate IsEnabled(tab: Tab, e: Event) {
    match e
    case Edit(_, _, _, _) => IsEditable(tab.view)
    case CancelEdit(_) => IsEditable(tab.view) && tab.view.buffer.Some?
    case Save(draftRevision, fields, request, _) =>
      CanSave(tab.view, draftRevision) && CarriesTyped(request, tab.view.buffer.value, fields)
      && !WasSent(tab, request.operation)
    case Reconcile => !tab.view.inFlight && PendingOf(tab.view.buffer).Some?
    case ReplyHere(_, _, _) => tab.call.Some?
    case Remount(late) => late ==> tab.call.Some?
    case ReplyLate(call, _, _) => call in tab.lateCalls
  }

  /** What a reply establishes about the operation it answers for. */
  function Learned(tab: Tab, id: nat, call: Call, reply: Reply): Tab {
    match reply
    case Record(strategy) =>
      if Confirms(strategy, id, OperationOf(call)) then tab.(confirmed := tab.confirmed + {OperationOf(call)}) else tab
    case ListedRefusal =>
      if call.SaveCall? then tab.(refused := tab.refused + {OperationOf(call)}) else tab
    case OtherFailure => tab
  }

  ghost function Next(tab: Tab, id: nat, e: Event): Tab
    requires IsEnabled(tab, e)
  {
    match e
    case Edit(draftRevision, path, raw, ok) => tab.(view := Edited(tab.view, draftRevision, path, raw, ok))
    case CancelEdit(ok) => tab.(view := Persisted(tab.view, None, ok))
    case Save(_, _, request, ok) =>
      if ok then
        tab.(view := SaveSent(tab.view, request), call := Some(SaveCall(tab.view.buffer.value, request)),
             sent := tab.sent + [request])
      else tab.(view := SaveUnsent(tab.view))
    case Reconcile =>
      tab.(view := tab.view.(inFlight := true), call := Some(ReadCall(PendingOf(tab.view.buffer).value.operation)))
    case ReplyHere(reply, removeOk, persistOk) =>
      var call := tab.call.value;
      var view :=
        match call
        case SaveCall(sent, request) => SaveReplied(tab.view, id, sent, request.operation, reply, removeOk, persistOk)
        case ReadCall(operation) => ReadReplied(tab.view, id, operation, reply, removeOk, persistOk);
      Learned(tab, id, call, reply).(view := view, call := None)
    case Remount(late) =>
      tab.(view := Mounted(tab.view.stored), call := None,
           lateCalls := if late then tab.lateCalls + multiset{tab.call.value} else tab.lateCalls)
    case ReplyLate(call, reply, removeOk) =>
      Learned(tab, id, call, reply).(view := LateReplied(tab.view, id, OperationOf(call), reply, removeOk),
                                     lateCalls := tab.lateCalls - multiset{call})
  }

  function Start(): Tab { Tab(Mounted(None), None, multiset{}, [], {}, {}) }

  /** The tab after these events from the start, if each is possible when it happens. */
  ghost function Run(id: nat, events: seq<Event>): Option<Tab> {
    if events == [] then Some(Start())
    else
      var before, e := Run(id, events[..|events| - 1]), events[|events| - 1];
      if before.Some? && IsEnabled(before.value, e) then Some(Next(before.value, id, e)) else None
  }

  ghost predicate IsReachable(id: nat, tab: Tab) { exists events :: Run(id, events) == Some(tab) }

  predicate IsResolved(tab: Tab, operation: Operation) { operation in tab.confirmed || operation in tab.refused }

  // ----- what every run keeps

  /** A sent operation that nothing has resolved is pending both in storage and on screen. */
  ghost predicate UnresolvedIsPending(tab: Tab) {
    forall r :: r in tab.sent && !IsResolved(tab, r.operation) ==>
      IsPendingOn(tab.view.stored, r.operation) && IsPendingOn(tab.view.buffer, r.operation)
  }

  ghost predicate PendingWasSent(tab: Tab) {
    && (PendingOf(tab.view.buffer).Some? ==> PendingOf(tab.view.buffer).value in tab.sent)
    && (PendingOf(tab.view.stored).Some? ==> PendingOf(tab.view.stored).value in tab.sent)
  }

  ghost predicate LateCallsWereSent(tab: Tab) { forall c :: c in tab.lateCalls ==> WasSent(tab, OperationOf(c)) }

  /** The call in flight is about the pending operation, and a save call closed over its typed values. */
  ghost predicate CallIsPending(tab: Tab) {
    && (tab.view.inFlight <==> tab.call.Some?)
    && (tab.call.Some? ==> IsPendingOn(tab.view.buffer, OperationOf(tab.call.value)))
    && (tab.call.Some? && tab.call.value.SaveCall? ==>
          tab.call.value.sent.(pending := Some(tab.call.value.request)) == tab.view.buffer.value)
  }

  /** What is on screen is also stored, unless storing failed or its own save was confirmed elsewhere. */
  ghost predicate ScreenIsStored(tab: Tab) {
    tab.view.retained ==>
      || tab.view.stored == tab.view.buffer
      || (tab.view.stored == None && PendingOf(tab.view.buffer).Some?
          && PendingOf(tab.view.buffer).value.operation in tab.confirmed)
  }

  ghost predicate OneIdentityEach(tab: Tab) {
    forall i, j :: 0 <= i < j < |tab.sent| ==> tab.sent[i].operation != tab.sent[j].operation
  }

  ghost predicate Invariant(tab: Tab) { IsViewGood(tab) && LateCallsWereSent(tab) }

  ghost predicate IsViewGood(tab: Tab) {
    UnresolvedIsPending(tab) && PendingWasSent(tab) && CallIsPending(tab) && ScreenIsStored(tab) && OneIdentityEach(tab)
  }

  lemma StartIsGood()
    ensures Invariant(Start())
  {
  }

  lemma SentGrows(tab: Tab, id: nat, e: Event)
    requires IsEnabled(tab, e)
    ensures Next(tab, id, e).sent == tab.sent + (if e.Save? && e.ok then [e.request] else [])
  {
  }

  lemma SaveKeeps(tab: Tab, id: nat, e: Event)
    requires IsViewGood(tab) && IsEnabled(tab, e) && e.Save?
    ensures IsViewGood(Next(tab, id, e))
  {
    var next := Next(tab, id, e);
    if e.ok {
      assert next.sent == tab.sent + [e.request];
      assert forall r :: r in next.sent <==> r in tab.sent || r == e.request;
      assert forall r :: r in tab.sent ==> IsResolved(tab, r.operation);
    }
  }

  lemma ReplyHereKeeps(tab: Tab, id: nat, e: Event)
    requires IsViewGood(tab) && IsEnabled(tab, e) && e.ReplyHere?
    ensures IsViewGood(Next(tab, id, e))
  {
    var next := Next(tab, id, e);
    assert next.sent == tab.sent;
  }

  lemma ReplyLateKeeps(tab: Tab, id: nat, e: Event)
    requires IsViewGood(tab) && IsEnabled(tab, e) && e.ReplyLate?
    ensures IsViewGood(Next(tab, id, e))
  {
    var next := Next(tab, id, e);
    assert next.sent == tab.sent && next.call == tab.call;
  }

  lemma OtherKeeps(tab: Tab, id: nat, e: Event)
    requires IsViewGood(tab) && IsEnabled(tab, e) && !e.Save? && !e.ReplyHere? && !e.ReplyLate?
    ensures IsViewGood(Next(tab, id, e))
  {
    var next := Next(tab, id, e);
    assert next.sent == tab.sent && next.confirmed == tab.confirmed && next.refused == tab.refused;
  }

  /** A call that outlives its page was about a pending operation, hence sent. */
  lemma LateCallsKept(tab: Tab, id: nat, e: Event)
    requires LateCallsWereSent(tab) && CallWasSent(tab) && IsEnabled(tab, e)
    ensures LateCallsWereSent(Next(tab, id, e))
  {
    SentGrows(tab, id, e);
    LateCallsStep(tab, id, e);
    hide Next, IsEnabled;
    var next := Next(tab, id, e);
    forall c | c in next.lateCalls ensures WasSent(next, OperationOf(c)) {
      var r :| r in tab.sent && r.operation == OperationOf(c);
      assert r in next.sent;
    }
  }

  ghost predicate CallWasSent(tab: Tab) { tab.call.Some? ==> WasSent(tab, OperationOf(tab.call.value)) }

  lemma LateCallsStep(tab: Tab, id: nat, e: Event)
    requires IsEnabled(tab, e)
    ensures forall c :: c in Next(tab, id, e).lateCalls ==> c in tab.lateCalls || Some(c) == tab.call
  {
  }

  lemma CallIsSent(tab: Tab)
    requires IsViewGood(tab)
    ensures CallWasSent(tab)
  {
    hide OneIdentityEach, UnresolvedIsPending, ScreenIsStored;
  }

  lemma StepKeeps(tab: Tab, id: nat, e: Event)
    requires Invariant(tab) && IsEnabled(tab, e)
    ensures Invariant(Next(tab, id, e))
  {
    hide IsViewGood, LateCallsWereSent, CallWasSent, Next, IsEnabled;
    CallIsSent(tab);
    LateCallsKept(tab, id, e);
    if e.Save? {
      SaveKeeps(tab, id, e);
    } else if e.ReplyHere? {
      ReplyHereKeeps(tab, id, e);
    } else if e.ReplyLate? {
      ReplyLateKeeps(tab, id, e);
    } else {
      OtherKeeps(tab, id, e);
    }
  }

  lemma {:induction false} RunKeeps(id: nat, events: seq<Event>)
    requires Run(id, events).Some?
    ensures Invariant(Run(id, events).value)
    decreases |events|
  {
    hide Invariant, Next, IsEnabled;
    if events == [] {
      StartIsGood();
    } else {
      RunKeeps(id, events[..|events| - 1]);
      StepKeeps(Run(id, events[..|events| - 1]).value, id, events[|events| - 1]);
    }
  }

  lemma ReachableIsGood(id: nat, tab: Tab)
    requires IsReachable(id, tab)
    ensures Invariant(tab)
  {
    hide Invariant;
    var events :| Run(id, events) == Some(tab);
    RunKeeps(id, events);
  }

  // ----- the protocol's promises

  /**
   * Write-ahead, on every run: a step that sends a request sends one, with an identity never used
   * before, at a moment when every request sent earlier is resolved; by then the request is stored
   * as pending together with the typed values, and it carries exactly those values.
   */
  lemma SentOnlyWhenStored(id: nat, tab: Tab, e: Event)
    requires IsReachable(id, tab) && IsEnabled(tab, e)
    ensures var next := Next(tab, id, e);
      next.sent != tab.sent ==>
        && e.Save? && next.sent == tab.sent + [e.request]
        && !WasSent(tab, e.request.operation)
        && (forall r :: r in tab.sent ==> IsResolved(tab, r.operation))
        && tab.view.buffer.Some? && SaysTyped(e.request, tab.view.buffer.value, e.fields)
        && e.request.expectedRevision == e.draftRevision
        && next.view.stored == Some(tab.view.buffer.value.(pending := Some(e.request)))
  {
    ReachableIsGood(id, tab);
    if Next(tab, id, e).sent != tab.sent {
      CarriedSaysTyped(e.request, tab.view.buffer.value, e.fields);
    }
    hide SaysTyped;
  }

  /** Field `i` is the first editable one of the path. */
  predicate IsFieldOf(fields: seq<Field>, path: Path, i: nat) {
    && i < |fields| && fields[i].path == path && fields[i].editable
    && forall j :: 0 <= j < i ==> !(fields[j].path == path && fields[j].editable)
  }

  /** A text is sent as it stands, unless its field takes integers and it is one. */
  predicate IsSentAs(isInteger: bool, raw: Raw, value: Value) {
    if isInteger then raw.integer.Some? && value == IntegerValue(raw.integer.value) else value == TextValue(raw)
  }

  ghost predicate IsSentFor(fields: seq<Field>, path: Path, raw: Raw, value: Value) {
    exists i: nat :: IsFieldOf(fields, path, i) && IsSentAs(fields[i].isInteger, raw, value)
  }

  /** The request says what was typed, path by path, for editable fields alone, and against the revision typed on. */
  ghost predicate SaysTyped(request: Request, typed: Buffer, fields: seq<Field>) {
    && request.expectedRevision == typed.revision
    && (forall path :: path in request.values <==> path in typed.values)
    && (forall path :: path in request.values ==>
          IsSentFor(fields, path, typed.values[path], request.values[path]))
  }

  lemma {:induction false} EditableExactly(fields: seq<Field>, path: Path)
    ensures EditableField(fields, path).Some? <==> exists i: nat :: IsFieldOf(fields, path, i)
    ensures forall i: nat :: IsFieldOf(fields, path, i) ==> EditableField(fields, path) == Some(fields[i])
  {
    if fields != [] {
      EditableExactly(fields[1..], path);
      if fields[0].path == path && fields[0].editable {
        assert IsFieldOf(fields, path, 0);
      } else {
        forall i: nat | IsFieldOf(fields, path, i) ensures i > 0 && IsFieldOf(fields[1..], path, i - 1) {
          assert fields[i] == fields[1..][i - 1];
          forall j | 0 <= j < i - 1 ensures !(fields[1..][j].path == path && fields[1..][j].editable) {
            assert fields[1..][j] == fields[j + 1];
          }
        }
        if i: nat :| IsFieldOf(fields[1..], path, i) {
          assert forall j :: 0 < j < |fields| ==> fields[j] == fields[1..][j - 1];
          assert IsFieldOf(fields, path, i + 1);
        }
      }
    }
  }

  /** A typed value converts exactly when its path has an editable field that takes it. */
  lemma ConvertedExactly(fields: seq<Field>, path: Path, raw: Raw, value: Value)
    ensures Converted(fields, path, raw) == Some(value) <==> IsSentFor(fields, path, raw, value)
  {
    EditableExactly(fields, path);
    hide EditableField, IsFieldOf;
  }

  lemma CarriedSaysTyped(request: Request, typed: Buffer, fields: seq<Field>)
    requires CarriesTyped(request, typed, fields)
    ensures SaysTyped(request, typed, fields)
  {
    hide Converted, IsSentFor;
    forall path | path in request.values
      ensures IsSentFor(fields, path, typed.values[path], request.values[path])
    {
      ConvertedExactly(fields, path, typed.values[path], request.values[path]);
    }
  }

  /** What can be in the way of a save. */
  datatype Obstacle = CallInFlight | NothingToSave | SaveUnresolved | DraftMovedOn | NoContract | ValueUnfit(path: Path)

  ghost predicate Stands(v: View, draftRevision: int, fields: Option<seq<Field>>, o: Obstacle) {
    match o
    case CallInFlight => v.inFlight
    case NothingToSave => v.buffer.None?
    case SaveUnresolved => v.buffer.Some? && v.buffer.value.pending.Some?
    case DraftMovedOn => v.buffer.Some? && v.buffer.value.revision != draftRevision
    case NoContract => fields.None?
    case ValueUnfit(path) =>
      && fields.Some? && v.buffer.Some? && path in v.buffer.value.values
      && forall i: nat :: IsFieldOf(fields.value, path, i) ==>
           fields.value[i].isInteger && v.buffer.value.values[path].integer.None?
  }

  lemma UnfitExactly(fields: seq<Field>, path: Path, raw: Raw)
    ensures Converted(fields, path, raw).None? <==>
      forall i: nat :: IsFieldOf(fields, path, i) ==> fields[i].isInteger && raw.integer.None?
  {
    EditableExactly(fields, path);
    hide EditableField, IsFieldOf;
  }

  /** The save button sends, provided its identity can be stored, exactly when nothing is in the way. */
  lemma SendsExactly(v: View, draftRevision: int, fields: Option<seq<Field>>)
    ensures IsSendable(v, draftRevision, fields) <==> forall o :: !Stands(v, draftRevision, fields, o)
  {
    hide Converted, IsFieldOf;
    if fields.Some? && v.buffer.Some? {
      forall path | path in v.buffer.value.values
        ensures Converted(fields.value, path, v.buffer.value.values[path]).None?
          <==> Stands(v, draftRevision, fields, ValueUnfit(path))
      {
        UnfitExactly(fields.value, path, v.buffer.value.values[path]);
      }
    }
    if forall o :: !Stands(v, draftRevision, fields, o) {
      assert !Stands(v, draftRevision, fields, CallInFlight) && !Stands(v, draftRevision, fields, NothingToSave);
      assert !Stands(v, draftRevision, fields, SaveUnresolved) && !Stands(v, draftRevision, fields, DraftMovedOn);
      assert !Stands(v, draftRevision, fields, NoContract);
    }
  }

  // ----- what each step leaves on screen and in storage

  /** The record a call here was waiting for has come and can be finished with. */
  ghost predicate Finishes(tab: Tab, id: nat, e: Event) {
    && e.ReplyHere? && tab.call.Some? && e.reply.Record?
    && e.reply.strategy.id == id && Change(OperationOf(tab.call.value), true) in e.reply.strategy.changes
    && (e.removeOk || !IsPendingOn(tab.view.stored, OperationOf(tab.call.value)))
  }

  /** The save of this page is refused with a listed code. */
  predicate Unlocks(tab: Tab, e: Event) {
    e.ReplyHere? && e.reply.ListedRefusal? && tab.call.Some? && tab.call.value.SaveCall?
  }

  lemma BufferExactly(tab: Tab, id: nat, e: Event)
    requires IsEnabled(tab, e)
    ensures Next(tab, id, e).view.buffer ==
      match e
      case Edit(draftRevision, path, raw, _) =>
        if tab.view.buffer.None? then Some(Buffer(draftRevision, map[path := raw], None))
        else Some(Buffer(tab.view.buffer.value.revision, tab.view.buffer.value.values[path := raw], None))
      case CancelEdit(_) => None
      case Save(_, _, request, ok) =>
        if ok then Some(tab.view.buffer.value.(pending := Some(request))) else tab.view.buffer
      case ReplyHere(_, _, _) =>
        if Finishes(tab, id, e) then None
        else if Unlocks(tab, e) then Some(Buffer(tab.call.value.sent.revision, tab.call.value.sent.values, None))
        else tab.view.buffer
      case Remount(_) => tab.view.stored
      case _ => tab.view.buffer
  {
    hide Converted;
  }

  /** Storage follows the screen where storing works; only a record takes out what another page left there. */
  lemma StoredExactly(tab: Tab, id: nat, e: Event)
    requires IsEnabled(tab, e)
    ensures var stored, next := tab.view.stored, Next(tab, id, e).view;
      next.stored ==
      match e
      case Edit(_, _, _, ok) => if ok then next.buffer else stored
      case CancelEdit(ok) => if ok then None else stored
      case Save(_, _, _, ok) => if ok then next.buffer else stored
      case ReplyHere(_, _, persistOk) =>
        if Finishes(tab, id, e) then
          if persistOk || IsPendingOn(stored, OperationOf(tab.call.value)) then None else stored
        else if Unlocks(tab, e) && persistOk then next.buffer
        else stored
      case ReplyLate(call, reply, removeOk) =>
        if reply.Record? && Confirms(reply.strategy, id, OperationOf(call)) && IsPendingOn(stored, OperationOf(call))
           && removeOk
        then None else stored
      case _ => stored
  {
    hide Converted, CarriesTyped;
    if e.ReplyHere? {
      StoredByReply(tab, id, e);
      hide Next, IsEnabled, Finishes, IsPendingOn;
    }
  }

  lemma StoredByReply(tab: Tab, id: nat, e: Event)
    requires IsEnabled(tab, e) && e.ReplyHere?
    ensures var stored, next := tab.view.stored, Next(tab, id, e).view;
      next.stored ==
        if Finishes(tab, id, e) then
          if e.persistOk || IsPendingOn(stored, OperationOf(tab.call.value)) then None else stored
        else if Unlocks(tab, e) && e.persistOk then next.buffer
        else stored
  {
  }

  /** The page warns that nothing is kept exactly from the latest storing that failed on. */
  lemma RetainedExactly(tab: Tab, id: nat, e: Event)
    requires IsEnabled(tab, e)
    ensures Next(tab, id, e).view.retained ==
      match e
      case Edit(_, _, _, ok) => ok
      case CancelEdit(ok) => ok
      case Save(_, _, _, ok) => ok
      case ReplyHere(_, _, persistOk) =>
        if Finishes(tab, id, e) || Unlocks(tab, e) then persistOk else tab.view.retained
      case Remount(_) => true
      case _ => tab.view.retained
  {
    hide Converted, CarriesTyped, IsEditable;
  }

  /** At no point of any run are two sent operations unresolved. */
  lemma OneUnresolvedAtMost(id: nat, tab: Tab, r: Request, q: Request)
    requires IsReachable(id, tab) && r in tab.sent && q in tab.sent
    requires !IsResolved(tab, r.operation) && !IsResolved(tab, q.operation)
    ensures r == q
  {
    ReachableIsGood(id, tab);
    hide IsReachable, PendingWasSent, CallIsPending, ScreenIsStored, LateCallsWereSent;
    var i :| 0 <= i < |tab.sent| && tab.sent[i] == r;
    var j :| 0 <= j < |tab.sent| && tab.sent[j] == q;
  }

  predicate Answers(call: Call, reply: Reply, id: nat, operation: Operation) {
    && OperationOf(call) == operation
    && ((reply.Record? && Confirms(reply.strategy, id, operation)) || (reply.ListedRefusal? && call.SaveCall?))
  }

  /** The reply of this step settles the operation: its record holds it, or its own save is refused by code. */
  ghost predicate Settles(tab: Tab, id: nat, e: Event, operation: Operation) {
    match e
    case ReplyHere(reply, _, _) => tab.call.Some? && Answers(tab.call.value, reply, id, operation)
    case ReplyLate(call, reply, _) => Answers(call, reply, id, operation)
    case _ => false
  }

  lemma SettledStep(tab: Tab, id: nat, e: Event, operation: Operation)
    requires IsEnabled(tab, e)
    ensures IsResolved(Next(tab, id, e), operation) <==> IsResolved(tab, operation) || Settles(tab, id, e, operation)
  {
  }

  /** The run's event `k` settles the operation. */
  ghost predicate SettlesAt(id: nat, events: seq<Event>, k: nat, operation: Operation) {
    k < |events| && Run(id, events[..k]).Some? && Settles(Run(id, events[..k]).value, id, events[k], operation)
  }

  ghost predicate IsSettledIn(id: nat, events: seq<Event>, operation: Operation) {
    exists k :: SettlesAt(id, events, k, operation)
  }

  lemma SettledInMore(id: nat, events: seq<Event>, e: Event, operation: Operation)
    requires Run(id, events).Some?
    ensures IsSettledIn(id, events + [e], operation)
      <==> IsSettledIn(id, events, operation) || Settles(Run(id, events).value, id, e, operation)
  {
    hide Settles, Run;
    var more := events + [e];
    assert more[..|events|] == events;
    assert forall k :: 0 <= k < |events| ==> more[..k] == events[..k];
    if k: nat :| SettlesAt(id, more, k, operation) {
      assert k < |events| ==> SettlesAt(id, events, k, operation);
    }
    if k: nat :| SettlesAt(id, events, k, operation) {
      assert SettlesAt(id, more, k, operation);
    }
    if Settles(Run(id, events).value, id, e, operation) {
      assert SettlesAt(id, more, |events|, operation);
    }
  }

  lemma NothingSettled(id: nat, operation: Operation)
    ensures !IsResolved(Start(), operation) && !IsSettledIn(id, [], operation)
  {
  }

  /**
   * After every run an operation is resolved exactly when some reply of that run settled it, and
   * then it had been sent.
   */
  lemma {:induction false} ResolvedExactly(id: nat, events: seq<Event>, operation: Operation)
    requires Run(id, events).Some?
    ensures IsResolved(Run(id, events).value, operation) <==> IsSettledIn(id, events, operation)
    ensures IsSettledIn(id, events, operation) ==> WasSent(Run(id, events).value, operation)
    decreases |events|
  {
    hide IsResolved, Settles, WasSent, Next, IsEnabled, IsSettledIn, Invariant;
    if events == [] {
      NothingSettled(id, operation);
    } else {
      var start, e := events[..|events| - 1], events[|events| - 1];
      var tab := Run(id, start).value;
      ResolvedExactly(id, start, operation);
      RunKeeps(id, start);
      assert events == start + [e];
      SettledInMore(id, start, e, operation);
      SettledStep(tab, id, e, operation);
      SettledWasSent(tab, id, e, operation);
    }
  }

  lemma SettledWasSent(tab: Tab, id: nat, e: Event, operation: Operation)
    requires Invariant(tab) && IsEnabled(tab, e)
    ensures WasSent(tab, operation) ==> WasSent(Next(tab, id, e), operation)
    ensures Settles(tab, id, e, operation) ==> WasSent(Next(tab, id, e), operation)
  {
    hide OneIdentityEach, UnresolvedIsPending, ScreenIsStored;
    assert forall r :: r in tab.sent ==> r in Next(tab, id, e).sent;
    if Settles(tab, id, e, operation) {
      assert WasSent(tab, operation);
    }
  }

  /** A pending operation leaves the screen only once it is resolved, however the tab is reloaded. */
  lemma PendingClearedOnlyWhenResolved(id: nat, tab: Tab, e: Event, operation: Operation)
    requires IsReachable(id, tab) && IsEnabled(tab, e)
    requires IsPendingOn(tab.view.buffer, operation) && !IsPendingOn(Next(tab, id, e).view.buffer, operation)
    ensures IsResolved(Next(tab, id, e), operation)
  {
    ReachableIsGood(id, tab);
    StepKeeps(tab, id, e);
    assert PendingOf(tab.view.buffer).value in Next(tab, id, e).sent;
  }

  predicate Shows(buffer: Option<Buffer>, revision: int, values: map<Path, Raw>) {
    buffer.Some? && buffer.value.revision == revision && buffer.value.values == values
  }

  /**
   * Typed values stay on screen unless a value is typed, which replaces that one alone; or they are
   * cancelled while nothing is pending; or a record confirms their own save; or the page is reloaded
   * after storing them had failed, and shows what is stored.
   */
  lemma TypedValuesStay(id: nat, tab: Tab, e: Event)
    requires IsReachable(id, tab) && IsEnabled(tab, e) && tab.view.buffer.Some?
    ensures var next, typed := Next(tab, id, e), tab.view.buffer.value;
      || Shows(next.view.buffer, typed.revision, typed.values)
      || (e.Edit? && Shows(next.view.buffer, typed.revision, typed.values[e.path := e.raw]))
      || (e.CancelEdit? && typed.pending.None?)
      || (typed.pending.Some? && typed.pending.value.operation in next.confirmed)
      || (e.Remount? && !tab.view.retained && next.view.buffer == tab.view.stored)
  {
    ReachableIsGood(id, tab);
    hide UnresolvedIsPending, PendingWasSent, LateCallsWereSent, OneIdentityEach, IsReachable;
    if e.ReplyHere? {
      RepliedValuesStay(id, tab, e);
      hide Next, IsEnabled, CallIsPending, ScreenIsStored;
    } else if !e.Remount? {
      hide CallIsPending, ScreenIsStored;
    }
  }

  lemma RepliedValuesStay(id: nat, tab: Tab, e: Event)
    requires CallIsPending(tab) && IsEnabled(tab, e) && e.ReplyHere? && tab.view.buffer.Some?
    ensures var next, typed := Next(tab, id, e), tab.view.buffer.value;
      || Shows(next.view.buffer, typed.revision, typed.values)
      || (typed.pending.Some? && typed.pending.value.operation in next.confirmed)
  {
  }

  /** Pending on screen and in storage, with no save in flight here. */
  predicate IsHeldPending(tab: Tab, operation: Operation) {
    && IsPendingOn(tab.view.stored, operation) && IsPendingOn(tab.view.buffer, operation)
    && (tab.call.None? || tab.call.value.ReadCall?)
  }

  /** The event brings a record of this research that holds the manual operation. */
  predicate BringsRecordOf(e: Event, id: nat, operation: Operation) {
    ReplyOf(e).Record? && Confirms(ReplyOf(e).strategy, id, operation)
  }

  lemma HeldStays(id: nat, tab: Tab, e: Event, operation: Operation)
    requires Invariant(tab) && IsEnabled(tab, e) && IsHeldPending(tab, operation) && !BringsRecordOf(e, id, operation)
    ensures IsHeldPending(Next(tab, id, e), operation)
    ensures !e.Edit? && !e.CancelEdit? && !e.Save?
  {
    hide OneIdentityEach, UnresolvedIsPending;
  }

  /** No event of the list types, cancels or saves. */
  predicate NothingTyped(events: seq<Event>) {
    forall e :: e in events ==> !e.Edit? && !e.CancelEdit? && !e.Save?
  }

  /**
   * An operation that is pending on screen and in storage with no save in flight stays so through
   * every continuation of the run, reloads and refusals included, until a record holding it arrives;
   * and until then nothing can be typed, cancelled or saved.
   */
  lemma {:induction false} PendingStaysForGood(id: nat, events: seq<Event>, more: seq<Event>, operation: Operation)
    requires Run(id, events).Some? && IsHeldPending(Run(id, events).value, operation)
    requires Run(id, events + more).Some?
    requires forall e :: e in more ==> !BringsRecordOf(e, id, operation)
    ensures IsHeldPending(Run(id, events + more).value, operation) && NothingTyped(more)
    decreases |more|
  {
    hide IsHeldPending, BringsRecordOf, Invariant, Next, IsEnabled;
    if more == [] {
      assert events + more == events;
    } else {
      var start, e := more[..|more| - 1], more[|more| - 1];
      assert (events + more)[..|events + more| - 1] == events + start;
      assert e in more && forall x :: x in start ==> x in more;
      PendingStaysForGood(id, events, start, operation);
      RunKeeps(id, events + start);
      HeldStays(id, Run(id, events + start).value, e, operation);
      assert more == start + [e];
    }
  }

  /** The operation is pending neither on screen nor in storage. */
  predicate IsFree(tab: Tab, operation: Operation) {
    !IsPendingOn(tab.view.buffer, operation) && !IsPendingOn(tab.view.stored, operation)
  }

  /**
   * A listed refusal of an operation that is unresolved, or still pending on screen and in storage,
   * takes it off both exactly when it reaches the page that sent the save and the unlocked values
   * can be stored there.
   */
  lemma RefusalFreesExactly(id: nat, tab: Tab, e: Event, operation: Operation)
    requires IsReachable(id, tab) && IsEnabled(tab, e) && IsRefusalOf(tab, e, operation)
    requires !IsResolved(tab, operation)
      || (IsPendingOn(tab.view.buffer, operation) && IsPendingOn(tab.view.stored, operation))
    ensures operation in Next(tab, id, e).refused
    ensures IsFree(Next(tab, id, e), operation) <==> e.ReplyHere? && e.persistOk
  {
    ReachableIsGood(id, tab);
    if !IsResolved(tab, operation) {
      assert WasSent(tab, operation);
    }
  }

  /** The step delivers a listed refusal of the operation's own save, to its page or after it was left. */
  predicate IsRefusalOf(tab: Tab, e: Event, operation: Operation) {
    match e
    case ReplyHere(reply, _, _) =>
      reply.ListedRefusal? && tab.call.Some? && tab.call.value.SaveCall? && OperationOf(tab.call.value) == operation
    case ReplyLate(call, reply, _) => reply.ListedRefusal? && call.SaveCall? && OperationOf(call) == operation
    case _ => false
  }

  function ReplyOf(e: Event): Reply {
    match e
    case ReplyHere(reply, _, _) => reply
    case ReplyLate(_, reply, _) => reply
    case _ => OtherFailure
  }

  /** Refused at the host, confirmed nowhere, and still pending in storage and on screen, with no call left. */
  predicate IsStuck(tab: Tab, operation: Operation) {
    && operation in tab.refused && operation !in tab.confirmed && tab.call.None? && tab.lateCalls == multiset{}
    && IsHeldPending(tab, operation)
  }

  function FirstTyped(): Buffer { Buffer(1, map[Path(0) := Raw(0, None)], None) }

  function FirstRequest(): Request { Request(Operation(0), 1, map[Path(0) := TextValue(Raw(0, None))]) }

  /** One value is typed and saved. */
  function SavingRun(): seq<Event> {
    [Edit(1, Path(0), Raw(0, None), true)] + [Save(1, [Field(Path(0), true, false)], FirstRequest(), true)]
  }

  /** The page is left before the refusal arrives. */
  function LeavingRun(): seq<Event> {
    SavingRun() + [Remount(true)] + [ReplyLate(SaveCall(FirstTyped(), FirstRequest()), ListedRefusal, true)]
  }

  /** The refusal reaches the page, which cannot store the unlocked values, and the page is reloaded. */
  function UnstoredRun(): seq<Event> { SavingRun() + [ReplyHere(ListedRefusal, true, false)] + [Remount(false)] }

  /** A refusal that arrives after the page was left leaves its operation stuck. */
  lemma LateRefusalHappens(id: nat)
    ensures Run(id, LeavingRun()).Some? && IsStuck(Run(id, LeavingRun()).value, Operation(0))
  {
    hide Run;
    SavingRuns(id);
    var saved := Some(FirstTyped().(pending := Some(FirstRequest())));
    var call := SaveCall(FirstTyped(), FirstRequest());
    var left := Tab(Mounted(saved), None, multiset{call}, [FirstRequest()], {}, {});
    RunMore(id, SavingRun(), Remount(true), left);
    var refused := Tab(Mounted(saved), None, multiset{}, [FirstRequest()], {}, {Operation(0)});
    RunMore(id, SavingRun() + [Remount(true)], ReplyLate(call, ListedRefusal, true), refused);
  }

  /** So does one that reaches its page while storing fails there, once the page is reloaded. */
  lemma UnstoredRefusalHappens(id: nat)
    ensures Run(id, UnstoredRun()).Some? && IsStuck(Run(id, UnstoredRun()).value, Operation(0))
  {
    hide Run;
    SavingRuns(id);
    var saved := Some(FirstTyped().(pending := Some(FirstRequest())));
    var refuse := ReplyHere(ListedRefusal, true, false);
    var freed := Tab(View(saved, Some(FirstTyped()), false, false), None, multiset{}, [FirstRequest()], {},
                     {Operation(0)});
    RunMore(id, SavingRun(), refuse, freed);
    var back := Tab(Mounted(saved), None, multiset{}, [FirstRequest()], {}, {Operation(0)});
    RunMore(id, SavingRun() + [refuse], Remount(false), back);
  }

  lemma RunMore(id: nat, events: seq<Event>, e: Event, next: Tab)
    requires Run(id, events).Some? && IsEnabled(Run(id, events).value, e) && next == Next(Run(id, events).value, id, e)
    ensures Run(id, events + [e]) == Some(next)
  {
    hide Next, IsEnabled;
    assert (events + [e])[..|events|] == events;
  }

  lemma SavingRuns(id: nat)
    ensures var saved := Some(FirstTyped().(pending := Some(FirstRequest())));
      Run(id, SavingRun()) == Some(Tab(View(saved, saved, true, true), Some(SaveCall(FirstTyped(), FirstRequest())),
                                       multiset{}, [FirstRequest()], {}, {}))
  {
    assert Run(id, []) == Some(Start());
    hide Run;
    var edit := Edit(1, Path(0), Raw(0, None), true);
    var typed := Start().(view := View(Some(FirstTyped()), Some(FirstTyped()), false, true));
    RunMore(id, [], edit, typed);
    assert [] + [edit] == [edit];
    var fields := [Field(Path(0), true, false)];
    assert EditableField(fields, Path(0)) == Some(fields[0]);
    assert CarriesTyped(FirstRequest(), FirstTyped(), fields);
    var saved := Some(FirstTyped().(pending := Some(FirstRequest())));
    var sent := Tab(View(saved, saved, true, true), Some(SaveCall(FirstTyped(), FirstRequest())), multiset{},
                    [FirstRequest()], {}, {});
    assert [] + [FirstRequest()] == [FirstRequest()];
    RunMore(id, [edit], Save(1, fields, FirstRequest(), true), sent);
  }
}
