/**
 * The local simulation page's start protocol: a start is ticked for exactly the inputs on screen,
 * its identity is stored before it is sent, and it is only queried afterwards, never sent again.
 * Calls overlap freely, and the page may be left or reloaded at any point.
 */
module PaperStart {
  import opened Wrappers

  datatype Identity = Identity(id: nat)

  /** A typed number; none when it does not read as a finite one. */
  datatype Number = Number(text: nat, value: Option<real>)

  datatype Name = Name(text: nat, trimmed: Option<nat>)

  datatype Typed = Typed(name: Name, pricesText: nat, prices: seq<Option<real>>, interval: Number, duration: Number)

  datatype Preparation = Preparation(fingerprint: nat, eligible: bool, startAvailable: bool)

  datatype Prepared = Prepared(candidate: nat, value: Preparation)

  datatype Page = Page(location: nat, candidate: Option<nat>, prepared: Option<Prepared>, typed: Typed)

  /** Everything a confirmation stands for. */
  datatype Key = Key(location: nat, candidate: Option<nat>, fingerprint: Option<nat>, typed: Typed)

  datatype Request = Request(id: Identity, candidate: nat, fingerprint: nat, name: nat, prices: seq<real>,
                             interval: real, duration: Option<real>)

  /** A run's identity is that of the request that started it. */
  datatype Instance = Instance(run: Identity, terminal: bool)

  datatype Token = Token(number: nat)

  /** `Settling` is the refresh a successful start waits for before the page is idle again. */
  datatype Busy = Idle | Starting(request: Request) | Stopping(run: Identity) | Settling(token: Token)

  datatype View = View(stored: Option<Request>, pending: Option<Request>, busy: Busy, epoch: nat,
                       instances: seq<Instance>, disconnected: bool, page: Page, confirmation: Key, checked: bool)

  // ----- what is on screen

  function PreparationOf(page: Page): Option<Preparation> {
    if page.prepared.Some? && Some(page.prepared.value.candidate) == page.candidate
    then Some(page.prepared.value.value) else None
  }

  function KeyOf(page: Page): Key {
    var preparation := PreparationOf(page);
    Key(page.location, page.candidate, if preparation.Some? then Some(preparation.value.fingerprint) else None,
        page.typed)
  }

  predicate IsActive(instances: seq<Instance>) { exists i :: i in instances && !i.terminal }

  predicate IsListed(instances: seq<Instance>, run: Identity) { exists i :: i in instances && i.run == run }

  predicate IsPositive(price: Option<real>) { price.Some? && price.value > 0.0 }

  predicate IsDuration(n: Number) {
    n.value.Some? && n.value.value == n.value.value.Floor as real && 1.0 <= n.value.value <= 3600.0
  }

  predicate IsTypedWell(typed: Typed, studio: bool) {
    && 1 <= |typed.prices| <= 64 && (forall p :: p in typed.prices ==> IsPositive(p))
    && typed.interval.value.Some? && 0.01 <= typed.interval.value.value <= 10.0
    && typed.name.trimmed.Some?
    && (studio ==> IsDuration(typed.duration))
  }

  /** Every guard of the start button, in the state it sees. */
  predicate IsStartable(v: View, studio: bool) {
    && v.busy == Idle && v.pending.None? && !IsActive(v.instances) && !v.disconnected
    && v.confirmation == KeyOf(v.page) && v.checked
    && PreparationOf(v.page).Some? && PreparationOf(v.page).value.eligible && PreparationOf(v.page).value.startAvailable
    && IsTypedWell(v.page.typed, studio)
  }

  function Amount(price: Option<real>): real { if price.Some? then price.value else 0.0 }

  function Values(prices: seq<Option<real>>): seq<real>
    requires forall p :: p in prices ==> IsPositive(p)
  {
    seq(|prices|, i requires 0 <= i < |prices| => Amount(prices[i]))
  }

  function Built(page: Page, studio: bool, id: Identity): Request
    requires PreparationOf(page).Some? && IsTypedWell(page.typed, studio)
  {
    Request(id, page.candidate.value, PreparationOf(page).value.fingerprint, page.typed.name.trimmed.value,
            Values(page.typed.prices), page.typed.interval.value.value,
            if studio then page.typed.duration.value else None)
  }

  // ----- what each step does to the mounted page

  /** A confirmation whose key no longer is the current one is replaced by an unticked one. */
  function Rendered(v: View): View {
    if v.confirmation == KeyOf(v.page) then v else v.(confirmation := KeyOf(v.page), checked := false)
  }

  function Confirmed(v: View, checked: bool): View { v.(confirmation := KeyOf(v.page), checked := checked) }

  function Navigated(v: View, candidate: Option<nat>): View {
    Rendered(v.(page := v.page.(location := v.page.location + 1, candidate := candidate)))
  }

  function Retyped(v: View, typed: Typed): View { Rendered(v.(page := v.page.(typed := typed))) }

  function PreparedAs(v: View, prepared: Prepared): View { Rendered(v.(page := v.page.(prepared := Some(prepared)))) }

  /** A new mount reads the stored request and has checked no candidate yet. */
  function Mounted(stored: Option<Request>, first: Page): View {
    var page := first.(prepared := None);
    View(stored, stored, Idle, 0, [], false, page, KeyOf(page), false)
  }

  function Cleared(v: View): View { v.(stored := None, pending := None) }

  function Refreshing(v: View): View { v.(epoch := v.epoch + 1) }

  function ListApplied(v: View, reply: Option<seq<Instance>>, removeOk: bool): View {
    match reply
    case None => v.(disconnected := true)
    case Some(rows) =>
      var w := v.(instances := rows, disconnected := false);
      if v.pending.Some? && IsListed(rows, v.pending.value.id)
      then if removeOk then Cleared(Navigated(w, None)) else Navigated(w, None).(disconnected := true)
      else w
  }

  /** Only the reply to the latest refresh is applied. */
  function ListReplied(v: View, token: Token, reply: Option<seq<Instance>>, removeOk: bool): View {
    var w := if token.number == v.epoch then ListApplied(v, reply, removeOk) else v;
    if v.busy == Settling(token) then w.(busy := Idle) else w
  }

  datatype QueryAnswer = Found | Missing | Unanswered

  /** The query's reply clears whatever is pending by then. */
  function QueryReplied(v: View, answer: QueryAnswer, removeOk: bool): View {
    match answer
    case Found => if removeOk then Refreshing(Cleared(Navigated(v, None))) else Navigated(v, None)
    case Missing => if removeOk then Confirmed(Cleared(v), false) else v
    case Unanswered => v
  }

  /** After its page was left, only a query answered "missing" still clears the stored request. */
  function LateQueryReplied(v: View, answer: QueryAnswer, removeOk: bool): View {
    if answer.Missing? && removeOk then v.(stored := None) else v
  }

  function StartSent(v: View, request: Request): View {
    v.(stored := Some(request), pending := Some(request), busy := Starting(request), epoch := v.epoch + 1)
  }

  function StartReplied(v: View, found: bool, removeOk: bool): View {
    if found && removeOk then
      Refreshing(Confirmed(Cleared(Navigated(v, None)), false)).(busy := Settling(Token(v.epoch + 1)))
    else if found then Navigated(v, None).(busy := Idle)
    else v.(busy := Idle)
  }

  function Replaced(instances: seq<Instance>, result: Instance): seq<Instance> {
    seq(|instances|, i requires 0 <= i < |instances| => if instances[i].run == result.run then result else instances[i])
  }

  function StopSent(v: View, run: Identity): View { v.(busy := Stopping(run), epoch := v.epoch + 1) }

  function StopReplied(v: View, reply: Option<Instance>): View {
    match reply
    case Some(result) => v.(instances := Replaced(v.instances, result), busy := Idle)
    case None => v.(disconnected := true, busy := Idle)
  }

  /** The mounted component: its refs and state cells, and the tab's storage entry. */
  class PaperPage {
    const studio: bool
    var stored: Option<Request>
    var pending: Option<Request>
    var busy: Busy
    var epoch: nat
    var instances: seq<Instance>
    var disconnected: bool
    var page: Page
    var confirmation: Key
    var checked: bool

    ghost function Now(): View
      reads this
    {
      View(stored, pending, busy, epoch, instances, disconnected, page, confirmation, checked)
    }

    constructor (studio: bool, stored: Option<Request>, first: Page)
      ensures this.studio == studio && Now() == Mounted(stored, first)
    {
      var page := first.(prepared := None);
      this.studio, this.stored, pending, busy, epoch := studio, stored, stored, Idle, 0;
      instances, disconnected, this.page, confirmation, checked := [], false, page, KeyOf(page), false;
    }

    method SetConfirmed(value: bool)
      modifies this`confirmation, this`checked
      ensures Now() == Confirmed(old(Now()), value)
    {
      confirmation, checked := KeyOf(page), value;
    }

    /** What a render does after the page changed. */
    method Render()
      modifies this`confirmation, this`checked
      ensures Now() == Rendered(old(Now()))
    {
      if confirmation != KeyOf(page) {
        SetConfirmed(false);
      }
    }

    method Navigate(candidate: Option<nat>)
      modifies this`page, this`confirmation, this`checked
      ensures Now() == Navigated(old(Now()), candidate)
    {
      page := page.(location := page.location + 1, candidate := candidate);
      Render();
    }

    /** `updatePending`: storage first, and nothing else when storage fails. */
    method UpdatePending(value: Option<Request>, ok: bool)
      modifies this`stored, this`pending
      ensures stored == if ok then value else old(stored)
      ensures pending == if ok then value else old(pending)
    {
      if ok {
        stored := value;
        pending := value;
      }
    }

    method BeginRefresh() returns (token: Token)
      modifies this`epoch
      ensures Now() == Refreshing(old(Now())) && token == Token(epoch)
    {
      epoch := epoch + 1;
      token := Token(epoch);
    }

    method EndRefresh(token: Token, reply: Option<seq<Instance>>, removeOk: bool)
      modifies this
      ensures Now() == ListReplied(old(Now()), token, reply, removeOk)
    {
      if token.number == epoch {
        match reply {
          case None =>
            disconnected := true;
          case Some(rows) =>
            instances, disconnected := rows, false;
            if pending.Some? && exists i :: i in rows && i.run == pending.value.id {
              Navigate(None);
              UpdatePending(None, removeOk);
              disconnected := !removeOk;
            }
        }
      }
      if busy == Settling(token) {
        busy := Idle;
      }
    }

    method EndQuery(answer: QueryAnswer, removeOk: bool) returns (token: Option<Token>)
      modifies this
      ensures Now() == QueryReplied(old(Now()), answer, removeOk)
      ensures token == if answer.Found? && removeOk then Some(Token(epoch)) else None
    {
      token := None;
      match answer {
        case Found =>
          Navigate(None);
          UpdatePending(None, removeOk);
          if removeOk {
            var t := BeginRefresh();
            token := Some(t);
          }
        case Missing =>
          UpdatePending(None, removeOk);
          if removeOk {
            SetConfirmed(false);
          }
        case Unanswered =>
      }
    }

    /** The part of `start` before its first await: the request to send, if any. */
    method BeginStart(id: Identity, ok: bool) returns (sent: Option<Request>)
      modifies this
      ensures sent.Some? <==> IsStartable(old(Now()), studio) && ok
      ensures sent.Some? ==> sent.value == Built(old(page), studio, id) && Now() == StartSent(old(Now()), sent.value)
      ensures sent.None? ==> Now() == old(Now())
    {
      var preparation := PreparationOf(page);
      if busy != Idle || preparation.None? || !preparation.value.eligible || !preparation.value.startAvailable {
        return None;
      }
      if confirmation != KeyOf(page) || !checked || pending.Some? || IsActive(instances) || disconnected {
        return None;
      }
      if !IsTypedWell(page.typed, studio) || !ok {
        return None;
      }
      var request := Built(page, studio, id);
      UpdatePending(Some(request), true);
      busy, epoch := Starting(request), epoch + 1;
      return Some(request);
    }

    method EndStart(found: bool, removeOk: bool) returns (token: Option<Token>)
      modifies this
      ensures Now() == StartReplied(old(Now()), found, removeOk)
      ensures token == if found && removeOk then Some(Token(epoch)) else None
    {
      token := None;
      if found {
        Navigate(None);
        UpdatePending(None, removeOk);
        if removeOk {
          SetConfirmed(false);
          var t := BeginRefresh();
          token, busy := Some(t), Settling(t);
          return;
        }
      }
      busy := Idle;
    }

    method EndStop(reply: Option<Instance>)
      modifies this
      ensures Now() == StopReplied(old(Now()), reply)
    {
      if reply.Some? {
        instances := Replaced(instances, reply.value);
      } else {
        disconnected := true;
      }
      busy := Idle;
    }
  }

  // ----- whole runs of one tab

  /**
   * The tab: the mounted page with the refreshes and queries it waits for, the queries of pages
   * already left, and what has happened so far: the requests sent, the identities some reply
   * resolved, and the key the box was last ticked for.
   */
  datatype Tab = Tab(view: View, lists: set<Token>, queries: multiset<Request>, lateQueries: multiset<Request>,
                     sent: seq<Request>, resolved: set<Identity>, ticked: Option<Key>)

  datatype Event =
    | Tick(checked: bool)
    | Navigate(candidate: Option<nat>)
    | Retype(typed: Typed)
    | Prepare(prepared: Prepared)
    | Refresh
    | ListReply(token: Token, rows: Option<seq<Instance>>, removeOk: bool)
    | Query
    | QueryReply(intent: Request, answer: QueryAnswer, removeOk: bool)
    | LateQueryReply(intent: Request, answer: QueryAnswer, removeOk: bool)
    /** The start button, with a fresh identity. */
    | Start(id: Identity, ok: bool)
    | StartReply(found: bool, removeOk: bool)
    | Stop(run: Identity)
    | StopReply(result: Option<Instance>)
    /** The page is left or reloaded; what it was waiting for finishes after it, if at all. */
    | Remount(location: nat, candidate: Option<nat>, typed: Typed)

  ghost predicate WasSent(tab: Tab, id: Identity) { exists r :: r in tab.sent && r.id == id }

  ghost predicate IsEnabled(tab: Tab, studio: bool, e: Event) {
    match e
    case Prepare(prepared) => Some(prepared.candidate) == tab.view.page.candidate
    case ListReply(token, _, _) => token in tab.lists
    case Query => tab.view.pending.Some?
    case QueryReply(intent, _, _) => intent in tab.queries
    case LateQueryReply(intent, _, _) => intent in tab.lateQueries
    case Start(id, _) => IsStartable(tab.view, studio) && !WasSent(tab, id)
    case StartReply(_, _) => tab.view.busy.Starting?
    case Stop(run) => tab.view.busy == Idle && IsListed(tab.view.instances, run)
    case StopReply(result) => tab.view.busy.Stopping?
    case _ => true
  }

  /** The pending identity, when the latest refresh lists it. */
  function ListedNow(v: View, token: Token, rows: Option<seq<Instance>>): set<Identity> {
    if token.number == v.epoch && rows.Some? && v.pending.Some? && IsListed(rows.value, v.pending.value.id)
    then {v.pending.value.id} else {}
  }

  ghost function Next(tab: Tab, studio: bool, e: Event): Tab
    requires IsEnabled(tab, studio, e)
  {
    var v := tab.view;
    match e
    case Tick(checked) => tab.(view := Confirmed(v, checked), ticked := if checked then Some(KeyOf(v.page)) else None)
    case Navigate(candidate) => tab.(view := Navigated(v, candidate))
    case Retype(typed) => tab.(view := Retyped(v, typed))
    case Prepare(prepared) => tab.(view := PreparedAs(v, prepared))
    case Refresh => tab.(view := Refreshing(v), lists := tab.lists + {Token(v.epoch + 1)})
    case ListReply(token, rows, removeOk) =>
      tab.(view := ListReplied(v, token, rows, removeOk), lists := tab.lists - {token},
           resolved := tab.resolved + ListedNow(v, token, rows))
    case Query => tab.(queries := tab.queries + multiset{v.pending.value})
    case QueryReply(intent, answer, removeOk) =>
      tab.(view := QueryReplied(v, answer, removeOk), queries := tab.queries - multiset{intent},
           lists := if answer.Found? && removeOk then tab.lists + {Token(v.epoch + 1)} else tab.lists,
           resolved := if answer.Unanswered? then tab.resolved else tab.resolved + {intent.id})
    case LateQueryReply(intent, answer, removeOk) =>
      tab.(view := LateQueryReplied(v, answer, removeOk), lateQueries := tab.lateQueries - multiset{intent},
           resolved := if answer.Missing? then tab.resolved + {intent.id} else tab.resolved)
    case Start(id, ok) =>
      if !ok then tab else
      var request := Built(v.page, studio, id);
      tab.(view := StartSent(v, request), sent := tab.sent + [request])
    case StartReply(found, removeOk) =>
      tab.(view := StartReplied(v, found, removeOk),
           lists := if found && removeOk then tab.lists + {Token(v.epoch + 1)} else tab.lists,
           resolved := if found then tab.resolved + {v.busy.request.id} else tab.resolved)
    case Stop(run) => tab.(view := StopSent(v, run))
    case StopReply(result) => tab.(view := StopReplied(v, result))
    case Remount(location, candidate, typed) =>
      tab.(view := Mounted(v.stored, Page(location, candidate, None, typed)), lists := {}, queries := multiset{},
           lateQueries := tab.lateQueries + tab.queries)
  }

  function Fresh(page: Page): Tab { Tab(Mounted(None, page), {}, multiset{}, multiset{}, [], {}, None) }

  /** The tab after these events on a first page, if each is possible when it happens. */
  ghost function Run(page: Page, studio: bool, events: seq<Event>): Option<Tab> {
    if events == [] then Some(Fresh(page))
    else
      var before, e := Run(page, studio, events[..|events| - 1]), events[|events| - 1];
      if before.Some? && IsEnabled(before.value, studio, e) then Some(Next(before.value, studio, e)) else None
  }

  ghost predicate IsReachable(studio: bool, tab: Tab) { exists page, events :: Run(page, studio, events) == Some(tab) }

  // ----- what every run keeps

  ghost predicate PendingWasSent(tab: Tab) {
    && (tab.view.pending.Some? ==> tab.view.pending.value in tab.sent)
    && (tab.view.stored == tab.view.pending || tab.view.stored == None)
  }

  /** While a start waits for its reply nothing but that start can be pending. */
  ghost predicate StartIsPending(tab: Tab) {
    tab.view.busy.Starting? ==>
      tab.view.busy.request in tab.sent && (tab.view.pending == None || tab.view.pending == Some(tab.view.busy.request))
  }

  ghost predicate TickIsCurrent(tab: Tab) {
    tab.view.confirmation == KeyOf(tab.view.page) && (tab.view.checked ==> tab.ticked == Some(KeyOf(tab.view.page)))
  }

  ghost predicate OneIdentityEach(tab: Tab) {
    forall i, j :: 0 <= i < j < |tab.sent| ==> tab.sent[i].id != tab.sent[j].id
  }

  ghost predicate Invariant(tab: Tab) {
    PendingWasSent(tab) && StartIsPending(tab) && TickIsCurrent(tab) && OneIdentityEach(tab)
  }

  /** The new view is confirmed for its own page, and ticked only as the old one was. */
  ghost predicate IsTickKept(v: View, w: View) {
    w.confirmation == KeyOf(w.page) && (w.checked ==> v.checked && KeyOf(w.page) == KeyOf(v.page))
  }

  /** What is pending is unchanged or cleared, in the page and in storage alike. */
  ghost predicate IsClearing(v: View, w: View, clears: bool) {
    && w.pending == (if clears then None else v.pending)
    && w.stored == (if clears then None else v.stored)
    && (w.busy.Starting? ==> w.busy == v.busy)
  }

  lemma PageChangeKeepsTick(v: View, page: Page)
    requires v.confirmation == KeyOf(v.page)
    ensures IsTickKept(v, Rendered(v.(page := page)))
    ensures IsClearing(v, Rendered(v.(page := page)), false)
  {
    hide KeyOf;
  }

  lemma ListReplyEffect(v: View, token: Token, rows: Option<seq<Instance>>, removeOk: bool)
    requires v.confirmation == KeyOf(v.page)
    ensures IsTickKept(v, ListReplied(v, token, rows, removeOk))
    ensures IsClearing(v, ListReplied(v, token, rows, removeOk), removeOk && ListedNow(v, token, rows) != {})
  {
    hide KeyOf, IsListed;
    if v.pending.Some? {
      assert v.pending.value.id in {v.pending.value.id};
    }
  }

  lemma QueryReplyEffect(v: View, answer: QueryAnswer, removeOk: bool)
    requires v.confirmation == KeyOf(v.page)
    ensures IsTickKept(v, QueryReplied(v, answer, removeOk))
    ensures IsClearing(v, QueryReplied(v, answer, removeOk), removeOk && !answer.Unanswered?)
  {
    hide KeyOf;
  }

  lemma StartReplyEffect(v: View, found: bool, removeOk: bool)
    requires v.confirmation == KeyOf(v.page)
    ensures IsTickKept(v, StartReplied(v, found, removeOk))
    ensures IsClearing(v, StartReplied(v, found, removeOk), removeOk && found)
    ensures !StartReplied(v, found, removeOk).busy.Starting?
  {
    hide KeyOf;
  }

  lemma StartKeeps(tab: Tab, studio: bool, e: Event)
    requires Invariant(tab) && IsEnabled(tab, studio, e) && e.Start?
    ensures Invariant(Next(tab, studio, e))
  {
    hide Values, IsTypedWell, KeyOf;
    var next := Next(tab, studio, e);
    if e.ok {
      assert forall r :: r in next.sent <==> r in tab.sent || r == next.sent[|tab.sent|];
      forall i, j | 0 <= i < j < |next.sent| ensures next.sent[i].id != next.sent[j].id {
        assert tab.sent[i] in tab.sent;
      }
    }
  }

  /** Whether the step clears what is pending in the page and in storage. */
  ghost predicate Clears(tab: Tab, e: Event) {
    match e
    case ListReply(token, rows, removeOk) => removeOk && ListedNow(tab.view, token, rows) != {}
    case QueryReply(_, answer, removeOk) => removeOk && !answer.Unanswered?
    case StartReply(found, removeOk) => removeOk && found
    case _ => false
  }

  /** Every step but a start, a remount and a late reply is such a change of the view. */
  lemma StepEffect(tab: Tab, studio: bool, e: Event)
    requires TickIsCurrent(tab) && IsEnabled(tab, studio, e)
    requires !e.Start? && !e.Remount? && !e.LateQueryReply? && !e.Tick?
    ensures IsTickKept(tab.view, Next(tab, studio, e).view) && Next(tab, studio, e).ticked == tab.ticked
    ensures IsClearing(tab.view, Next(tab, studio, e).view, Clears(tab, e))
    ensures e.StartReply? ==> !Next(tab, studio, e).view.busy.Starting?
    ensures Next(tab, studio, e).sent == tab.sent
  {
    hide KeyOf, ListReplied, QueryReplied, StartReplied, Rendered, Replaced, IsListed, ListedNow;
    var v := tab.view;
    match e {
      case Navigate(candidate) =>
        PageChangeKeepsTick(v, v.page.(location := v.page.location + 1, candidate := candidate));
      case Retype(typed) =>
        PageChangeKeepsTick(v, v.page.(typed := typed));
      case Prepare(prepared) =>
        PageChangeKeepsTick(v, v.page.(prepared := Some(prepared)));
      case ListReply(token, rows, removeOk) =>
        ListReplyEffect(v, token, rows, removeOk);
      case QueryReply(_, answer, removeOk) =>
        QueryReplyEffect(v, answer, removeOk);
      case StartReply(found, removeOk) =>
        StartReplyEffect(v, found, removeOk);
      case _ =>
    }
  }

  lemma StepKeeps(tab: Tab, studio: bool, e: Event)
    requires Invariant(tab) && IsEnabled(tab, studio, e)
    ensures Invariant(Next(tab, studio, e))
  {
    hide IsStartable, Built, IsListed, Replaced, KeyOf, ListedNow;
    if e.Start? {
      StartKeeps(tab, studio, e);
    } else if !e.Remount? && !e.LateQueryReply? && !e.Tick? {
      StepEffect(tab, studio, e);
      hide Next, IsEnabled;
    }
  }

  lemma {:induction false} RunKeeps(page: Page, studio: bool, events: seq<Event>)
    requires Run(page, studio, events).Some?
    ensures Invariant(Run(page, studio, events).value)
    decreases |events|
  {
    hide Next, IsEnabled;
    if events != [] {
      hide Invariant;
      RunKeeps(page, studio, events[..|events| - 1]);
      StepKeeps(Run(page, studio, events[..|events| - 1]).value, studio, events[|events| - 1]);
    }
  }

  lemma ReachableIsGood(studio: bool, tab: Tab)
    requires IsReachable(studio, tab)
    ensures Invariant(tab)
  {
    hide Invariant;
    var page, events :| Run(page, studio, events) == Some(tab);
    RunKeeps(page, studio, events);
  }

  // ----- what a start sends

  /** The request says what the ticked key says, number by number. */
  ghost predicate SaysTicked(request: Request, key: Key, studio: bool) {
    && Some(request.candidate) == key.candidate && Some(request.fingerprint) == key.fingerprint
    && Some(request.name) == key.typed.name.trimmed
    && |request.prices| == |key.typed.prices|
    && (forall i :: 0 <= i < |request.prices| ==>
          key.typed.prices[i] == Some(request.prices[i]) && request.prices[i] > 0.0)
    && key.typed.interval.value == Some(request.interval) && 0.01 <= request.interval <= 10.0
    && request.duration == (if studio then key.typed.duration.value else None)
  }

  /**
   * Write-ahead and consent, on every run: the only step that sends anything is a start, with nothing
   * in its way; it sends one request with a new identity, that request says what the box was last
   * ticked for, and by then it is both stored and held as pending.
   */
  lemma SentAsTickedAndStored(studio: bool, tab: Tab, e: Event)
    requires IsReachable(studio, tab) && IsEnabled(tab, studio, e) && Next(tab, studio, e).sent != tab.sent
    ensures e.Start? && !WasSent(tab, e.id) && forall o :: !Stands(tab.view, studio, o)
    ensures tab.ticked.Some?
    ensures exists r :: Next(tab, studio, e).sent == tab.sent + [r] && r.id == e.id && IsHeld(Next(tab, studio, e), r)
              && SaysTicked(r, tab.ticked.value, studio)
  {
    ReachableIsGood(studio, tab);
    assert e.Start? && e.ok;
    var r := Built(tab.view.page, studio, e.id);
    assert Next(tab, studio, e).sent == tab.sent + [r];
    BuiltSaysKey(tab.view.page, studio, e.id);
    StartsExactly(tab.view, studio);
  }

  /** What can be in the way of a start. */
  datatype Obstacle =
    | SomethingInFlight | StartUnresolved | RunNotTerminal | Disconnected | NotConfirmed
    | NotPrepared | NotEligible | StartUnavailable | NoName | NoPrices | TooManyPrices | PriceNotPositive
    | IntervalOutOfRange | DurationOutOfRange

  ghost predicate Stands(v: View, studio: bool, o: Obstacle) {
    var page := v.page;
    match o
    case SomethingInFlight => !v.busy.Idle?
    case StartUnresolved => v.pending.Some?
    case RunNotTerminal => exists i :: i in v.instances && !i.terminal
    case Disconnected => v.disconnected
    case NotConfirmed => !v.checked || v.confirmation != KeyOf(page)
    case NotPrepared => page.prepared.None? || page.candidate != Some(page.prepared.value.candidate)
    case NotEligible => page.prepared.Some? && !page.prepared.value.value.eligible
    case StartUnavailable => page.prepared.Some? && !page.prepared.value.value.startAvailable
    case NoName => page.typed.name.trimmed.None?
    case NoPrices => |page.typed.prices| == 0
    case TooManyPrices => |page.typed.prices| > 64
    case PriceNotPositive => exists p :: p in page.typed.prices && (p.None? || p.value <= 0.0)
    case IntervalOutOfRange => !IsWithin(page.typed.interval, 0.01, 10.0)
    case DurationOutOfRange =>
      studio && !(IsWithin(page.typed.duration, 1.0, 3600.0) && exists n: int :: IsWhole(page.typed.duration, n))
  }

  predicate IsWithin(n: Number, low: real, high: real) {
    n.value.Some? && low <= n.value.value && n.value.value <= high
  }

  predicate IsWhole(n: Number, value: int) { n.value == Some(value as real) }

  lemma DurationsAreWhole(n: Number)
    ensures IsDuration(n) <==> IsWithin(n, 1.0, 3600.0) && exists value: int :: IsWhole(n, value)
  {
    if IsDuration(n) {
      assert IsWhole(n, n.value.value.Floor);
    }
  }

  /** A start is possible exactly when nothing is in its way. */
  lemma StartsExactly(v: View, studio: bool)
    ensures IsStartable(v, studio) <==> forall o :: !Stands(v, studio, o)
  {
    DurationsAreWhole(v.page.typed.duration);
    hide KeyOf, IsDuration, IsWhole;
    if forall o :: !Stands(v, studio, o) {
      assert !Stands(v, studio, SomethingInFlight) && !Stands(v, studio, StartUnresolved);
      assert !Stands(v, studio, RunNotTerminal) && !Stands(v, studio, Disconnected) && !Stands(v, studio, NotConfirmed);
      assert !Stands(v, studio, NotPrepared) && !Stands(v, studio, NotEligible) && !Stands(v, studio, StartUnavailable);
      assert !Stands(v, studio, NoName) && !Stands(v, studio, NoPrices) && !Stands(v, studio, TooManyPrices);
      assert !Stands(v, studio, PriceNotPositive) && !Stands(v, studio, IntervalOutOfRange);
      assert !Stands(v, studio, DurationOutOfRange);
    }
  }

  lemma BuiltSaysKey(page: Page, studio: bool, id: Identity)
    requires PreparationOf(page).Some? && IsTypedWell(page.typed, studio)
    ensures SaysTicked(Built(page, studio, id), KeyOf(page), studio)
  {
    forall i | 0 <= i < |page.typed.prices| ensures IsPositive(page.typed.prices[i]) {
      assert page.typed.prices[i] in page.typed.prices;
    }
  }

  /** A tick stands only for the inputs it was given for: any step that changes them takes it away. */
  lemma AnyChangeUnticks(studio: bool, tab: Tab, e: Event)
    requires IsReachable(studio, tab) && IsEnabled(tab, studio, e)
    ensures KeyOf(Next(tab, studio, e).view.page) != KeyOf(tab.view.page) ==> !Next(tab, studio, e).view.checked
    ensures Next(tab, studio, e).view.checked ==> tab.view.checked || e.Tick?
  {
    ReachableIsGood(studio, tab);
    hide Invariant, IsReachable, IsStartable, Built, KeyOf, OneIdentityEach, PendingWasSent, StartIsPending;
    if !e.Start? && !e.Remount? && !e.LateQueryReply? && !e.Tick? {
      assert TickIsCurrent(tab) by { TickOf(tab); }
      StepEffect(tab, studio, e);
    } else {
      OthersTick(tab, studio, e);
    }
    hide Next, IsEnabled;
  }

  lemma TickOf(tab: Tab)
    requires Invariant(tab)
    ensures TickIsCurrent(tab)
  {
    hide TickIsCurrent, OneIdentityEach;
  }

  lemma OthersTick(tab: Tab, studio: bool, e: Event)
    requires IsEnabled(tab, studio, e) && (e.Start? || e.Remount? || e.LateQueryReply? || e.Tick?)
    ensures KeyOf(Next(tab, studio, e).view.page) != KeyOf(tab.view.page) ==> !Next(tab, studio, e).view.checked
    ensures Next(tab, studio, e).view.checked ==> tab.view.checked || e.Tick?
  {
    hide IsStartable, Built, KeyOf;
  }

  // ----- what each step leaves on the page

  /** A reply to the latest refresh; earlier ones are ignored. */
  predicate IsLatestList(tab: Tab, e: Event) { e.ListReply? && e.token == Token(tab.view.epoch) }

  /** The step selects the run it has found, which leaves the page's inputs for another location. */
  predicate SelectsRun(tab: Tab, e: Event) {
    match e
    case ListReply(_, rows, _) =>
      IsLatestList(tab, e) && rows.Some? && tab.view.pending.Some? && IsListed(rows.value, tab.view.pending.value.id)
    case QueryReply(_, answer, _) => answer.Found?
    case StartReply(found, _) => found
    case _ => false
  }

  lemma NavigatedShows(v: View)
    ensures var w := Navigated(v, None);
      && w.instances == v.instances && w.disconnected == v.disconnected && w.busy == v.busy && w.epoch == v.epoch
      && w.pending == v.pending
      && w.page == v.page.(location := v.page.location + 1, candidate := None)
  {
    hide KeyOf;
  }

  /** The page after the run found was selected. */
  function Selecting(page: Page): Page { page.(location := page.location + 1, candidate := None) }

  ghost predicate ShowsList(v: View, w: View, token: Token, rows: Option<seq<Instance>>, removeOk: bool) {
    var latest := token == Token(v.epoch);
    var finds := latest && rows.Some? && v.pending.Some? && IsListed(rows.value, v.pending.value.id);
    && w.instances == (if latest && rows.Some? then rows.value else v.instances)
    && w.disconnected == (if latest then rows.None? || (finds && !removeOk) else v.disconnected)
    && w.busy == (if v.busy == Settling(token) then Idle else v.busy) && w.epoch == v.epoch
    && w.page == (if finds then Selecting(v.page) else v.page)
  }

  ghost predicate ShowsQuery(v: View, w: View, answer: QueryAnswer, removeOk: bool) {
    && w.instances == v.instances && w.disconnected == v.disconnected && w.busy == v.busy
    && w.epoch == (if answer.Found? && removeOk then v.epoch + 1 else v.epoch)
    && w.page == (if answer.Found? then Selecting(v.page) else v.page)
  }

  ghost predicate ShowsStart(v: View, w: View, found: bool, removeOk: bool) {
    && w.instances == v.instances && w.disconnected == v.disconnected
    && w.epoch == (if found && removeOk then v.epoch + 1 else v.epoch)
    && w.busy == (if found && removeOk then Settling(Token(w.epoch)) else Idle)
    && w.page == (if found then Selecting(v.page) else v.page)
  }

  /** What the three replies show. */
  lemma RepliesShow(v: View, e: Event)
    ensures e.ListReply? ==> ShowsList(v, ListReplied(v, e.token, e.rows, e.removeOk), e.token, e.rows, e.removeOk)
    ensures e.QueryReply? ==> ShowsQuery(v, QueryReplied(v, e.answer, e.removeOk), e.answer, e.removeOk)
    ensures e.StartReply? ==> ShowsStart(v, StartReplied(v, e.found, e.removeOk), e.found, e.removeOk)
  {
    hide IsListed, Navigated;
    NavigatedShows(v);
    if e.ListReply? && e.rows.Some? {
      NavigatedShows(v.(instances := e.rows.value, disconnected := false));
    }
  }

  /** A listing shows its rows, a stop's result its own row. */
  lemma RowsExactly(tab: Tab, studio: bool, e: Event)
    requires IsEnabled(tab, studio, e)
    ensures var rows, next := tab.view.instances, Next(tab, studio, e).view.instances;
      if IsLatestList(tab, e) && e.rows.Some? then next == e.rows.value
      else if e.StopReply? && e.result.Some? then
        && |next| == |rows|
        && forall i :: 0 <= i < |rows| ==>
             next[i] == if rows[i].run == e.result.value.run then e.result.value else rows[i]
      else if e.Remount? then next == []
      else next == rows
  {
    RepliesShow(tab.view, e);
    hide ListReplied, QueryReplied, StartReplied, IsStartable, Built, KeyOf, IsListed;
  }

  /** The page counts as disconnected from a failed listing or stop, or a start that could not be cleared, on. */
  lemma DisconnectedExactly(tab: Tab, studio: bool, e: Event)
    requires IsEnabled(tab, studio, e)
    ensures Next(tab, studio, e).view.disconnected <==>
      if IsLatestList(tab, e) then e.rows.None? || (SelectsRun(tab, e) && !e.removeOk)
      else if e.StopReply? then e.result.None? || tab.view.disconnected
      else tab.view.disconnected && !e.Remount?
  {
    RepliesShow(tab.view, e);
    hide ListReplied, QueryReplied, StartReplied, IsStartable, Built, KeyOf, IsListed, Replaced;
  }

  predicate IsReply(e: Event) { e.ListReply? || e.QueryReply? || e.StartReply? }

  /** Only what the user enters changes the inputs, and only navigating or finding a run the location. */
  predicate LeavesPage(tab: Tab, e: Event, next: Page) {
    var page := tab.view.page;
    && next.typed == (if e.Retype? || e.Remount? then e.typed else page.typed)
    && next.prepared == (if e.Prepare? then Some(e.prepared) else if e.Remount? then None else page.prepared)
    && next.location == (if e.Remount? then e.location
                         else if e.Navigate? || SelectsRun(tab, e) then page.location + 1 else page.location)
    && next.candidate == (if e.Remount? || e.Navigate? then e.candidate
                          else if SelectsRun(tab, e) then None else page.candidate)
  }

  lemma PageExactly(tab: Tab, studio: bool, e: Event)
    requires IsEnabled(tab, studio, e)
    ensures LeavesPage(tab, e, Next(tab, studio, e).view.page)
  {
    if IsReply(e) {
      RepliesShow(tab.view, e);
      hide ListReplied, QueryReplied, StartReplied, KeyOf, IsListed, ListedNow;
    } else {
      InputPage(tab, studio, e);
      hide Next, LeavesPage;
    }
  }

  lemma InputPage(tab: Tab, studio: bool, e: Event)
    requires IsEnabled(tab, studio, e) && !IsReply(e)
    ensures LeavesPage(tab, e, Next(tab, studio, e).view.page)
  {
    hide IsStartable, Built, KeyOf, IsListed, Replaced, ListReplied, QueryReplied, StartReplied;
  }

  /** The request a start sends is what the page then waits for; a successful one then waits for its own refresh. */
  lemma BusyExactly(tab: Tab, studio: bool, e: Event)
    requires IsEnabled(tab, studio, e)
    ensures var busy, next := tab.view.busy, Next(tab, studio, e);
      && (next.view.busy.Starting? <==>
            (e.Start? && e.ok) || (busy.Starting? && !e.StartReply? && !e.Remount? && !e.Stop?))
      && (next.view.busy.Stopping? <==>
            e.Stop? || (busy.Stopping? && !e.StopReply? && !e.Remount? && !(e.Start? && e.ok)))
      && (next.view.busy.Settling? <==>
            || (e.StartReply? && e.found && e.removeOk)
            || (busy.Settling? && !e.Remount? && !(e.ListReply? && busy == Settling(e.token))))
      && (e.Start? && e.ok ==> next.sent == tab.sent + [next.view.busy.request])
      && (e.Stop? ==> next.view.busy == Stopping(e.run))
      && (e.StartReply? && e.found && e.removeOk ==> next.view.busy == Settling(Token(next.view.epoch)))
      && (busy.Settling? && next.view.busy.Settling? ==> next.view.busy == busy)
  {
    RepliesShow(tab.view, e);
    hide ListReplied, QueryReplied, StartReplied, IsListed, Replaced, Built, KeyOf, Values;
  }

  /** Each refresh, start and stop begins a new epoch, which makes every earlier listing stale. */
  lemma EpochExactly(tab: Tab, studio: bool, e: Event)
    requires IsEnabled(tab, studio, e)
    ensures Next(tab, studio, e).view.epoch ==
      if e.Remount? then 0
      else if || e.Refresh? || e.Stop? || (e.Start? && e.ok) || (e.StartReply? && e.found && e.removeOk)
              || (e.QueryReply? && e.answer.Found? && e.removeOk)
      then tab.view.epoch + 1 else tab.view.epoch
  {
    RepliesShow(tab.view, e);
    hide ListReplied, QueryReplied, StartReplied, IsListed, Replaced, Built, KeyOf, Values, IsStartable;
  }

  /** The step takes the tick away whatever is on screen: its page is new, or the start it stood for is settled. */
  predicate Unticks(e: Event) {
    e.Remount? || (e.QueryReply? && e.answer.Missing? && e.removeOk) || (e.StartReply? && e.found && e.removeOk)
  }

  /** The box is ticked exactly when it has just been, or was and neither the inputs nor such a step untick it. */
  lemma TickExactly(studio: bool, tab: Tab, e: Event)
    requires IsReachable(studio, tab) && IsEnabled(tab, studio, e)
    ensures Next(tab, studio, e).view.checked <==>
      if e.Tick? then e.checked
      else !Unticks(e) && tab.view.checked && KeyOf(Next(tab, studio, e).view.page) == KeyOf(tab.view.page)
  {
    ReachableIsGood(studio, tab);
    hide *;
    TickOf(tab);
    if IsReply(e) {
      ReplyTicks(tab, studio, e);
    } else {
      InputTicks(tab, studio, e);
    }
  }

  lemma ReplyTicks(tab: Tab, studio: bool, e: Event)
    requires TickIsCurrent(tab) && IsEnabled(tab, studio, e) && IsReply(e)
    ensures Next(tab, studio, e).view.checked <==>
      if e.Tick? then e.checked
      else !Unticks(e) && tab.view.checked && KeyOf(Next(tab, studio, e).view.page) == KeyOf(tab.view.page)
  {
    RepliesTick(tab.view, e);
    hide KeyOf, IsListed, ListReplied, QueryReplied, StartReplied, ListedNow;
  }

  lemma InputTicks(tab: Tab, studio: bool, e: Event)
    requires TickIsCurrent(tab) && IsEnabled(tab, studio, e) && !IsReply(e)
    ensures Next(tab, studio, e).view.checked <==>
      if e.Tick? then e.checked
      else !Unticks(e) && tab.view.checked && KeyOf(Next(tab, studio, e).view.page) == KeyOf(tab.view.page)
  {
    hide IsStartable, Built, KeyOf, IsListed, Replaced;
  }

  predicate IsTickLeft(v: View, w: View) { w.checked <==> v.checked && KeyOf(w.page) == KeyOf(v.page) }

  lemma RepliesTick(v: View, e: Event)
    requires v.confirmation == KeyOf(v.page)
    ensures e.ListReply? ==> IsTickLeft(v, ListReplied(v, e.token, e.rows, e.removeOk))
    ensures e.QueryReply? ==>
      var w := QueryReplied(v, e.answer, e.removeOk); if Unticks(e) then !w.checked else IsTickLeft(v, w)
    ensures e.StartReply? ==>
      var w := StartReplied(v, e.found, e.removeOk); if Unticks(e) then !w.checked else IsTickLeft(v, w)
  {
    hide KeyOf, IsListed;
  }

  /** A mounted page holds what is stored as pending, has prepared nothing and read nothing, and is unticked. */
  lemma MountExactly(stored: Option<Request>, first: Page)
    ensures var v := Mounted(stored, first);
      && v.stored == stored && v.pending == stored && v.page == first.(prepared := None)
      && v.busy.Idle? && v.instances == [] && !v.disconnected && !v.checked
  {
  }

  // ----- when an unresolved start stays held

  predicate IsHeld(tab: Tab, r: Request) { tab.view.pending == Some(r) && tab.view.stored == Some(r) }

  /** Every start that nothing has resolved is held, in the page and in storage. */
  ghost predicate UnresolvedIsHeld(tab: Tab) {
    forall r :: r in tab.sent && r.id !in tab.resolved ==> IsHeld(tab, r)
  }

  predicate IsOther(held: Option<Request>, intent: Request, resolved: set<Identity>) {
    held.Some? && held.value.id != intent.id && held.value.id !in resolved
  }

  /**
   * The reply to a query about one start clears another that is unresolved: the reply's branch
   * compares nothing before clearing.
   */
  predicate ClearsAnother(tab: Tab, e: Event) {
    match e
    case QueryReply(intent, answer, removeOk) =>
      !answer.Unanswered? && removeOk && IsOther(tab.view.pending, intent, tab.resolved)
    case LateQueryReply(intent, answer, removeOk) =>
      answer.Missing? && removeOk && IsOther(tab.view.stored, intent, tab.resolved)
    case _ => false
  }

  /** A step lets go of an unresolved start exactly when it is such a reply. */
  lemma StepHoldsExactly(tab: Tab, studio: bool, e: Event)
    requires Invariant(tab) && UnresolvedIsHeld(tab) && IsEnabled(tab, studio, e)
    ensures UnresolvedIsHeld(Next(tab, studio, e)) <==> !ClearsAnother(tab, e)
  {
    hide Invariant, UnresolvedIsHeld, Next, IsEnabled;
    if e.Start? {
      StartHolds(tab, studio, e);
    } else {
      SameHeld(tab, studio, e);
    }
  }

  lemma StartHolds(tab: Tab, studio: bool, e: Event)
    requires Invariant(tab) && UnresolvedIsHeld(tab) && IsEnabled(tab, studio, e) && e.Start?
    ensures UnresolvedIsHeld(Next(tab, studio, e))
  {
  }

  predicate ActsApart(e: Event) { e.Remount? || e.LateQueryReply? || e.Tick? }

  /** What a step adds to the resolved starts. */
  function NewlyResolved(tab: Tab, e: Event): set<Identity> {
    match e
    case ListReply(token, rows, _) => ListedNow(tab.view, token, rows)
    case QueryReply(intent, answer, _) => if answer.Unanswered? then {} else {intent.id}
    case StartReply(found, _) => if found && tab.view.busy.Starting? then {tab.view.busy.request.id} else {}
    case _ => {}
  }

  lemma ResolvedStep(tab: Tab, studio: bool, e: Event)
    requires IsEnabled(tab, studio, e) && !ActsApart(e)
    ensures Next(tab, studio, e).resolved == tab.resolved + NewlyResolved(tab, e)
  {
    hide IsStartable, Built, IsListed, Replaced, KeyOf, ListReplied, QueryReplied, StartReplied, ListedNow;
  }

  lemma SameHeldByReplies(tab: Tab, studio: bool, e: Event)
    requires Invariant(tab) && UnresolvedIsHeld(tab) && IsEnabled(tab, studio, e) && !e.Start? && !ActsApart(e)
    ensures UnresolvedIsHeld(Next(tab, studio, e)) <==> !ClearsAnother(tab, e)
  {
    StepEffect(tab, studio, e);
    ResolvedStep(tab, studio, e);
    hide OneIdentityEach, TickIsCurrent, IsTickKept, Next, IsStartable, IsListed, IsEnabled;
    var next := Next(tab, studio, e);
    if ClearsAnother(tab, e) {
      var held := tab.view.pending.value;
      assert held in next.sent && held.id !in next.resolved && !IsHeld(next, held);
    }
  }

  lemma SameHeldApart(tab: Tab, studio: bool, e: Event)
    requires Invariant(tab) && UnresolvedIsHeld(tab) && IsEnabled(tab, studio, e) && ActsApart(e)
    ensures UnresolvedIsHeld(Next(tab, studio, e)) <==> !ClearsAnother(tab, e)
  {
    hide OneIdentityEach, TickIsCurrent, KeyOf;
    var next := Next(tab, studio, e);
    if ClearsAnother(tab, e) {
      var held := tab.view.stored.value;
      assert held in next.sent && held.id !in next.resolved && !IsHeld(next, held);
    }
  }

  lemma SameHeld(tab: Tab, studio: bool, e: Event)
    requires Invariant(tab) && UnresolvedIsHeld(tab) && IsEnabled(tab, studio, e) && !e.Start?
    ensures UnresolvedIsHeld(Next(tab, studio, e)) <==> !ClearsAnother(tab, e)
  {
    hide Invariant, UnresolvedIsHeld, Next, IsEnabled, ClearsAnother;
    if ActsApart(e) {
      SameHeldApart(tab, studio, e);
    } else {
      SameHeldByReplies(tab, studio, e);
    }
  }

  /** The run holds every unresolved start at every point. */
  ghost predicate AlwaysHeld(page: Page, studio: bool, events: seq<Event>)
    requires Run(page, studio, events).Some?
  {
    && UnresolvedIsHeld(Run(page, studio, events).value)
    && (events != [] ==> AlwaysHeld(page, studio, events[..|events| - 1]))
  }

  /** No reply of the run clears another start. */
  ghost predicate NeverClearsAnother(page: Page, studio: bool, events: seq<Event>)
    requires Run(page, studio, events).Some?
  {
    events != [] ==>
      && NeverClearsAnother(page, studio, events[..|events| - 1])
      && !ClearsAnother(Run(page, studio, events[..|events| - 1]).value, events[|events| - 1])
  }

  /** The protocol holds on a run exactly when no query reply of it clears another start. */
  lemma {:induction false} RunHoldsExactly(page: Page, studio: bool, events: seq<Event>)
    requires Run(page, studio, events).Some?
    ensures AlwaysHeld(page, studio, events) <==> NeverClearsAnother(page, studio, events)
    decreases |events|
  {
    hide Invariant, Next, IsEnabled, ClearsAnother;
    if events == [] {
      hide KeyOf;
    } else {
      hide UnresolvedIsHeld;
      var before := events[..|events| - 1];
      RunHoldsExactly(page, studio, before);
      RunKeeps(page, studio, before);
      if AlwaysHeld(page, studio, before) {
        assert UnresolvedIsHeld(Run(page, studio, before).value);
        StepHoldsExactly(Run(page, studio, before).value, studio, events[|events| - 1]);
      }
    }
  }

  /** On such a run at most one start is unresolved, and none is when another is sent. */
  lemma NoSecondStart(page: Page, studio: bool, events: seq<Event>, e: Event)
    requires Run(page, studio, events).Some? && NeverClearsAnother(page, studio, events)
    ensures var tab := Run(page, studio, events).value;
      && (forall r, q :: r in tab.sent && q in tab.sent && r.id !in tab.resolved && q.id !in tab.resolved ==> r == q)
      && (IsEnabled(tab, studio, e) && e.Start? ==> forall r :: r in tab.sent ==> r.id in tab.resolved)
  {
    RunHoldsExactly(page, studio, events);
    assert UnresolvedIsHeld(Run(page, studio, events).value);
    hide Run, NeverClearsAnother, AlwaysHeld;
  }

  /** The step's reply is about this identity and settles it: a start reply, a listing, a found run or a missing one. */
  ghost predicate Settles(tab: Tab, e: Event, id: Identity) {
    match e
    case ListReply(token, rows, _) => id in ListedNow(tab.view, token, rows)
    case QueryReply(intent, answer, _) => intent.id == id && !answer.Unanswered?
    case LateQueryReply(intent, answer, _) => intent.id == id && answer.Missing?
    case StartReply(found, _) => found && tab.view.busy.Starting? && tab.view.busy.request.id == id
    case _ => false
  }

  lemma SettledStep(tab: Tab, studio: bool, e: Event, id: Identity)
    requires IsEnabled(tab, studio, e)
    ensures id in Next(tab, studio, e).resolved <==> id in tab.resolved || Settles(tab, e, id)
  {
    hide IsStartable, Built, IsTypedWell, IsActive, IsListed, Replaced, KeyOf;
  }

  /** The run's event `k` settles the start. */
  ghost predicate SettlesAt(page: Page, studio: bool, events: seq<Event>, k: nat, id: Identity) {
    k < |events| && Run(page, studio, events[..k]).Some? && Settles(Run(page, studio, events[..k]).value, events[k], id)
  }

  ghost predicate IsSettledIn(page: Page, studio: bool, events: seq<Event>, id: Identity) {
    exists k :: SettlesAt(page, studio, events, k, id)
  }

  lemma SettledInMore(page: Page, studio: bool, events: seq<Event>, e: Event, id: Identity)
    requires Run(page, studio, events).Some?
    ensures IsSettledIn(page, studio, events + [e], id)
      <==> IsSettledIn(page, studio, events, id) || Settles(Run(page, studio, events).value, e, id)
  {
    hide Settles, Run;
    var more := events + [e];
    assert more[..|events|] == events;
    assert forall k :: 0 <= k < |events| ==> more[..k] == events[..k];
    if k: nat :| SettlesAt(page, studio, more, k, id) {
      assert k < |events| ==> SettlesAt(page, studio, events, k, id);
    }
    if k: nat :| SettlesAt(page, studio, events, k, id) {
      assert SettlesAt(page, studio, more, k, id);
    }
    if Settles(Run(page, studio, events).value, e, id) {
      assert SettlesAt(page, studio, more, |events|, id);
    }
  }

  /** After every run a start is resolved exactly when some reply of that run settled it. */
  lemma {:induction false} ResolvedExactly(page: Page, studio: bool, events: seq<Event>, id: Identity)
    requires Run(page, studio, events).Some?
    ensures id in Run(page, studio, events).value.resolved <==> IsSettledIn(page, studio, events, id)
    decreases |events|
  {
    if events == [] {
      hide KeyOf, Settles;
    } else {
      hide Settles, Next, IsEnabled, IsSettledIn;
      var start, e := events[..|events| - 1], events[|events| - 1];
      ResolvedExactly(page, studio, start, id);
      assert events == start + [e];
      SettledInMore(page, studio, start, e, id);
      SettledStep(Run(page, studio, start).value, studio, e, id);
    }
  }

  /** On such a run a held start is let go of only once it is resolved. */
  lemma LetGoOnlyWhenResolved(page: Page, studio: bool, events: seq<Event>, e: Event, r: Request)
    requires Run(page, studio, events).Some? && NeverClearsAnother(page, studio, events)
    requires IsEnabled(Run(page, studio, events).value, studio, e) && !ClearsAnother(Run(page, studio, events).value, e)
    requires r in Run(page, studio, events).value.sent && !IsHeld(Next(Run(page, studio, events).value, studio, e), r)
    ensures r.id in Next(Run(page, studio, events).value, studio, e).resolved
  {
    RunHoldsExactly(page, studio, events);
    RunKeeps(page, studio, events);
    var tab := Run(page, studio, events).value;
    assert UnresolvedIsHeld(tab);
    StepHoldsExactly(tab, studio, e);
    hide Run, NeverClearsAnother, AlwaysHeld, Next, IsEnabled, Invariant, ClearsAnother;
    assert r in Next(tab, studio, e).sent by { SentStays(tab, studio, e, r); }
  }

  lemma SentStays(tab: Tab, studio: bool, e: Event, r: Request)
    requires IsEnabled(tab, studio, e) && r in tab.sent
    ensures r in Next(tab, studio, e).sent
  {
    hide IsStartable, Built, IsTypedWell, IsActive, IsListed, Replaced, KeyOf;
  }

  // ----- the other runs do exist

  /** A start is one navigation and one tick away. */
  ghost predicate IsReady(tab: Tab, studio: bool) {
    && tab.view.busy == Idle && tab.view.pending.None? && !IsActive(tab.view.instances) && !tab.view.disconnected
    && IsSetUp(tab.view.page, studio)
  }

  predicate IsSetUp(page: Page, studio: bool) {
    && page.prepared.Some? && page.prepared.value.value.eligible && page.prepared.value.value.startAvailable
    && IsTypedWell(page.typed, studio)
  }

  lemma ReachableStep(studio: bool, tab: Tab, e: Event)
    requires IsReachable(studio, tab) && IsEnabled(tab, studio, e)
    ensures IsReachable(studio, Next(tab, studio, e))
  {
    hide Next, IsEnabled;
    var page, events :| Run(page, studio, events) == Some(tab);
    assert (events + [e])[..|events|] == events;
    assert Run(page, studio, events + [e]) == Some(Next(tab, studio, e));
  }

  /** The tab after a start was sent from a ready one: this one start more, in flight and held. */
  ghost predicate IsStartedFrom(before: Tab, after: Tab, r: Request, studio: bool) {
    && after.sent == before.sent + [r] && after.resolved == before.resolved && after.queries == before.queries
    && IsHeld(after, r) && after.view.busy == Starting(r) && !after.view.disconnected
    && after.view.instances == before.view.instances && IsSetUp(after.view.page, studio)
  }

  lemma StartFromReady(studio: bool, tab: Tab, id: Identity) returns (after: Tab, r: Request)
    requires IsReachable(studio, tab) && IsReady(tab, studio) && !WasSent(tab, id)
    ensures IsReachable(studio, after) && IsStartedFrom(tab, after, r, studio) && r.id == id
  {
    hide IsReachable, IsTypedWell, IsActive, Values;
    var there := Navigate(Some(tab.view.page.prepared.value.candidate));
    ReachableStep(studio, tab, there);
    var t1 := Next(tab, studio, there);
    ReachableStep(studio, t1, Tick(true));
    var t2 := Next(t1, studio, Tick(true));
    assert IsStartable(t2.view, studio);
    ReachableStep(studio, t2, Start(id, true));
    after := Next(t2, studio, Start(id, true));
    r := Built(t2.view.page, studio, id);
  }

  /** A started page whose reply never comes through, and that asks about it. */
  lemma AskedAbout(studio: bool, tab: Tab, r: Request) returns (after: Tab)
    requires IsReachable(studio, tab) && tab.view.busy == Starting(r) && tab.view.pending == Some(r)
    ensures IsReachable(studio, after) && r in after.queries
    ensures after == tab.(view := tab.view.(busy := Idle), queries := tab.queries + multiset{r})
  {
    hide IsReachable;
    ReachableStep(studio, tab, StartReply(false, true));
    var t1 := Next(tab, studio, StartReply(false, true));
    ReachableStep(studio, t1, Query);
    after := Next(t1, studio, Query);
  }

  /** A refresh then lists it as already terminal. */
  lemma ListedTerminal(studio: bool, tab: Tab, r: Request) returns (after: Tab)
    requires IsReachable(studio, tab) && tab.view.busy == Idle && IsHeld(tab, r) && IsSetUp(tab.view.page, studio)
    ensures IsReachable(studio, after) && IsReady(after, studio)
    ensures after.sent == tab.sent && after.queries == tab.queries && after.resolved == tab.resolved + {r.id}
  {
    hide IsReachable, KeyOf, IsTypedWell;
    var token := Token(tab.view.epoch + 1);
    var rows := [Instance(r.id, true)];
    ReachableStep(studio, tab, Refresh);
    var t1 := Next(tab, studio, Refresh);
    assert rows[0].run == r.id;
    assert IsListed(rows, r.id) && !IsActive(rows);
    var reply := ListReply(token, Some(rows), true);
    ReachableStep(studio, t1, reply);
    after := Next(t1, studio, reply);
  }

  /** The old query is answered now, while another start is in flight and unanswered. */
  lemma ClearedByOldQuery(studio: bool, tab: Tab, asked: Request, r: Request) returns (after: Tab)
    requires IsReachable(studio, tab) && asked in tab.queries && tab.view.busy == Starting(r)
    requires !IsActive(tab.view.instances) && !tab.view.disconnected && IsSetUp(tab.view.page, studio)
    ensures IsReachable(studio, after) && IsReady(after, studio)
    ensures after.sent == tab.sent && after.resolved == tab.resolved + {asked.id}
  {
    hide IsReachable, KeyOf, IsTypedWell, IsActive;
    var reply := QueryReply(asked, Found, true);
    ReachableStep(studio, tab, reply);
    var t1 := Next(tab, studio, reply);
    ReachableStep(studio, t1, StartReply(false, true));
    after := Next(t1, studio, StartReply(false, true));
  }

  ghost predicate HasTwoUnresolved(tab: Tab) {
    exists i, j :: 0 <= i < j < |tab.sent| && tab.sent[i].id !in tab.resolved && tab.sent[j].id !in tab.resolved
  }

  /** The run ends with two unresolved starts, and a query's reply in it cleared a start it was not about. */
  ghost predicate ForgetsAStart(page: Page, studio: bool, events: seq<Event>) {
    && Run(page, studio, events).Some? && HasTwoUnresolved(Run(page, studio, events).value)
    && !NeverClearsAnother(page, studio, events)
  }

  /**
   * Such runs exist: an old query answered late clears the start in flight, which then goes
   * unanswered, and a third start is let through.
   */
  lemma TwoUnresolvedHappens(studio: bool)
    ensures exists page, events :: ForgetsAStart(page, studio, events)
  {
    var tab := TwoUnresolved(studio);
    var page, events :| Run(page, studio, events) == Some(tab);
    if NeverClearsAnother(page, studio, events) {
      NeverTwoUnresolved(page, studio, events);
    }
    assert ForgetsAStart(page, studio, events);
  }

  lemma NeverTwoUnresolved(page: Page, studio: bool, events: seq<Event>)
    requires Run(page, studio, events).Some? && NeverClearsAnother(page, studio, events)
    ensures !HasTwoUnresolved(Run(page, studio, events).value)
  {
    NoSecondStart(page, studio, events, Refresh);
    RunKeeps(page, studio, events);
    var tab := Run(page, studio, events).value;
    hide Run, NeverClearsAnother;
    forall i, j | 0 <= i < j < |tab.sent| ensures tab.sent[i].id in tab.resolved || tab.sent[j].id in tab.resolved {
      assert tab.sent[i] in tab.sent && tab.sent[j] in tab.sent;
    }
  }

  lemma TwoUnresolved(studio: bool) returns (tab: Tab)
    ensures IsReachable(studio, tab) && HasTwoUnresolved(tab)
  {
    var start := PreparedPage(studio);
    hide IsReachable, IsSetUp, IsListed;
    var first, second, third := Identity(0), Identity(1), Identity(2);
    assert !WasSent(start, first);
    var t1, a := StartFromReady(studio, start, first);
    var t2 := AskedAbout(studio, t1, a);
    var t3 := ListedTerminal(studio, t2, a);
    assert !WasSent(t3, second);
    var t4, b := StartFromReady(studio, t3, second);
    assert !IsActive(t4.view.instances);
    var t5 := ClearedByOldQuery(studio, t4, a, b);
    assert !WasSent(t5, third);
    var t6, c := StartFromReady(studio, t5, third);
    assert t6.sent[1] == b && t6.sent[2] == c;
    assert HasTwoUnresolved(t6);
    return t6;
  }

  lemma PreparedPage(studio: bool) returns (tab: Tab)
    ensures IsReachable(studio, tab) && IsReady(tab, studio) && tab.sent == [] && tab.resolved == {}
  {
    var typed := Typed(Name(0, Some(0)), 0, [Some(100.0)], Number(0, Some(1.0)), Number(0, Some(60.0)));
    assert 60.0.Floor == 60;
    var page := Page(0, Some(0), None, typed);
    assert Run(page, studio, []) == Some(Fresh(page));
    var prepared := Prepared(0, Preparation(0, true, true));
    tab := Next(Fresh(page), studio, Prepare(prepared));
    assert IsReachable(studio, Fresh(page));
    ReachableStep(studio, Fresh(page), Prepare(prepared));
  }
}
