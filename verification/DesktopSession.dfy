/**
 * The desktop lifecycle: one process owns a core child, a web server task, the simulation runs and
 * the parent's pipe, and may fall back once to the default workspace. Parent messages, the end of
 * the pipe, shutdown negotiations, the web task and the core interleave freely.
 */
module DesktopSession {
  import opened Wrappers

  // ----- draining research

  datatype Field = Absent | Bool(b: bool) | Int(n: int) | Other

  /** A poll of the owner: its receipt, or a failed call. */
  datatype Poll = Receipt(drained: Field, pending: Field) | Failed

  predicate IsSettled(poll: Poll) { poll == Receipt(Bool(true), Int(0)) }

  /** Some poll before the deadline saw drained true and nothing pending. */
  predicate IsDrained(polls: seq<Poll>) { exists p :: p in polls && IsSettled(p) }

  /** `drain_research`, given the outcomes of the polls that fit before its deadline. */
  method DrainResearch(polls: seq<Poll>) returns (drained: bool)
    ensures drained == IsDrained(polls)
    ensures drained <==> Receipt(Bool(true), Int(0)) in polls
  {
    for i := 0 to |polls|
      invariant !IsDrained(polls[..i])
    {
      var receipt := polls[i];
      if receipt.Receipt? && receipt.drained == Bool(true) && receipt.pending.Int? && receipt.pending.n == 0 {
        assert receipt in polls;
        return true;
      }
      assert polls[..i + 1] == polls[..i] + [receipt];
    }
    assert polls[..|polls|] == polls;
    return false;
  }

  // ----- the state of one workspace session

  datatype Phase = Opening | CoreStarting | Starting | Ready | StoppingPaper | WaitingWeb | Reaping | Ended

  /** How the session is about to leave: normally, with an ordinary exception, or by control flow. */
  datatype Exit = Returned | Raised | Interrupted

  datatype Core = NotSpawned | Alive | Exited(code: int)

  /** How the server's own `serve` ends. */
  datatype ServeEnd = Returns | Raises | RaisesTimeout | ExitsZero | ExitsNonzero | Cancelled

  datatype WebResult = Normal | WebFailure | WebTimeout | Control

  datatype Web = NoTask | Running(started: bool) | Done(started: bool, result: WebResult)

  /**
   * The simulation runs, and what the cleanup made of them: stopped and closed; stopped but not
   * closed; not confirmed stopped; confirmed, then denied by close's own stop; or asked in vain.
   */
  datatype Paper = NeverServed | Served | Stopped | Unclosed | Unconfirmed | Withdrawn | Unanswered

  /** Stopping or closing them raised where the session does not expect it. */
  predicate IsBroken(paper: Paper) { paper == Unclosed || paper == Withdrawn || paper == Unanswered }

  datatype Blocked = ResearchUnconfirmed | PaperUnconfirmed

  datatype Message =
    | ReadyMessage | CloseBlocked(reason: Blocked) | StopUnknown | Closed(code: int) | InterruptedMessage(code: int)

  /** Where the session is, what it owns, and whether its startup counts as finished. */
  datatype Life = Life(phase: Phase, exit: Exit, core: Core, web: Web, shouldExit: bool, paper: Paper, finished: bool,
                       reader: bool)

  /**
   * The exit requests: those created and not yet begun, in order, and those begun and not ended,
   * each saying whether the parent was lost; and what they have established.
   */
  datatype Talk = Talk(waiting: seq<bool>, negotiating: seq<bool>, stopping: bool, drained: bool, parentGone: bool)

  datatype View = View(life: Life, talk: Talk, log: seq<Message>)

  function NewSession(): View {
    View(Life(Opening, Returned, NotSpawned, NoTask, false, NeverServed, false, false),
         Talk([], [], false, false, false), [])
  }

  predicate IsLooping(l: Life) { l.phase == Starting || l.phase == Ready }

  /** The event loop runs other tasks: the session is in its loops or awaits its own cleanup. */
  predicate IsAwaiting(l: Life) { IsLooping(l) || l.phase == StoppingPaper || l.phase == WaitingWeb }

  /** What the wrapper around `serve` hands to the session, and whether it ends the startup. */
  function ServeOutcome(end: ServeEnd, inUse: bool): (WebResult, bool) {
    match end
    case Returns => (Normal, inUse)
    case Raises => (WebFailure, inUse)
    case RaisesTimeout => (WebTimeout, inUse)
    case ExitsZero => (Control, true)
    case ExitsNonzero => if inUse then (Control, true) else (WebFailure, false)
    case Cancelled => (Control, inUse)
  }

  method ServeWeb(end: ServeEnd, started: bool, shouldExit: bool) returns (result: WebResult, finished: bool)
    ensures (result, finished) == ServeOutcome(end, started || shouldExit)
  {
    result, finished := Normal, false;
    match end {
      case Returns =>
      case Raises => result := WebFailure;
      case RaisesTimeout => result := WebTimeout;
      case ExitsZero =>
        finished, result := true, Control;
      case ExitsNonzero =>
        if started || shouldExit {
          finished, result := true, Control;
        } else {
          result := WebFailure;
        }
      case Cancelled => result := Control;
    }
    if started || shouldExit {
      finished := true;
    }
  }

  // ----- the steps of a session

  /** What a call of the simulation's `shutdown` gives; none when it raises. */
  datatype StopAnswer = Yes | No | NoAnswer

  datatype ReapAnswer = Reaped(code: int) | ReapRaises(ordinary: bool)

  datatype Event =
    | OpenFails
    | Spawn
    | CoreFails
    | Serve
    | CoreDies(code: int)
    | WebStarts
    | WebEnds(end: ServeEnd)
    /** The server decides to exit by itself. */
    | ServerStops
    | ParentWrites(eof: bool)
    | ExitBegins
    | ExitEnds(i: nat, polls: seq<Poll>, stopped: bool)
    /** A negotiation whose calls raised. */
    | ExitFails(i: nat)
    /** One turn of the loop that waits for the server to start, or of the one after readiness. */
    | PollStarting
    | PollServing
    /** Cancellation or an interrupt reaches the session where it waits. */
    | Interrupt
    /** The cleanup's stop of the simulation and its close, which stops again before it closes. */
    | PaperAnswers(stop: StopAnswer, again: StopAnswer, closes: bool)
    | WebIsWaited
    | WebTimesOut
    | Reap(reaped: ReapAnswer)

  predicate IsEnabled(v: View, e: Event) {
    var l := v.life;
    match e
    case OpenFails => l.phase == Opening
    case Spawn => l.phase == Opening
    case CoreFails => l.phase == CoreStarting
    case Serve => l.phase == CoreStarting
    case CoreDies(_) => l.core == Alive && l.phase != Ended
    case WebStarts => l.web == Running(false) && IsAwaiting(l)
    case WebEnds(_) => l.web.Running? && IsAwaiting(l)
    case ServerStops => l.web.Running? && IsAwaiting(l)
    case ParentWrites(_) => l.reader && IsLooping(l)
    case ExitBegins => v.talk.waiting != [] && IsAwaiting(l)
    case ExitEnds(i, _, _) => i < |v.talk.negotiating| && IsAwaiting(l)
    case ExitFails(i) => i < |v.talk.negotiating| && IsAwaiting(l)
    case PollStarting => l.phase == Starting
    case PollServing => l.phase == Ready
    case Interrupt => IsAwaiting(l) || l.phase == CoreStarting
    case PaperAnswers(_, _, _) => l.phase == StoppingPaper
    case WebIsWaited => l.phase == WaitingWeb && l.web.Done?
    case WebTimesOut => l.phase == WaitingWeb && l.web.Running?
    case Reap(answer) => l.phase == Reaping && (answer.Reaped? && l.core.Exited? ==> answer.code == l.core.code)
  }

  function Leaving(l: Life, exit: Exit): Life { l.(phase := StoppingPaper, exit := exit, reader := false) }

  function WebEnded(l: Life, end: ServeEnd): Life
    requires l.web.Running?
  {
    var (result, finished) := ServeOutcome(end, l.web.started || l.shouldExit);
    l.(web := Done(l.web.started, result), finished := l.finished || finished)
  }

  predicate IsServing(l: Life) { !l.web.NoTask? && l.web.started }

  function StartupPolled(l: Life, parentGone: bool): Life {
    if IsServing(l) then l.(finished := true, phase := Ready)
    else if l.web.Done? then
      match l.web.result
      case Normal => Leaving(l, Returned).(finished := true)
      case WebFailure => Leaving(l, Raised)
      case WebTimeout => Leaving(l, Raised)
      case Control => Leaving(l, Interrupted)
    else if parentGone then Leaving(l, Returned).(finished := true, shouldExit := true)
    else l
  }

  function ReadyPolled(l: Life, parentGone: bool): Life {
    if l.web.Done? || parentGone then Leaving(l, Returned)
    else if l.core.Exited? then Leaving(l, Raised)
    else l
  }

  function InterruptedAt(l: Life): Life {
    if IsLooping(l) then Leaving(l, Interrupted) else l.(phase := Reaping, exit := Interrupted)
  }

  /** `close` raises unless its own stop is confirmed and the rest of it works. */
  function PaperClosed(l: Life, again: StopAnswer, closes: bool): Life {
    if again == Yes && closes then l.(phase := WaitingWeb, paper := Stopped, shouldExit := true)
    else l.(phase := Reaping, exit := Raised, paper := if again == No then Withdrawn else Unclosed)
  }

  function PaperAnswered(l: Life, stop: StopAnswer, again: StopAnswer, closes: bool): Life {
    match stop
    case Yes => PaperClosed(l, again, closes)
    case No => l.(finished := true, phase := Reaping, exit := Raised, paper := Unconfirmed)
    case NoAnswer => l.(phase := Reaping, exit := Raised, paper := Unanswered)
  }

  /** A timeout of the task's own is taken for one of waiting for it. */
  function WebWaited(l: Life): Life
    requires l.web.Done?
  {
    match l.web.result
    case Normal => l.(phase := Reaping)
    case WebFailure => l.(phase := Reaping, exit := Raised)
    case WebTimeout => l.(phase := Reaping, exit := Raised, finished := true)
    case Control => l.(phase := Reaping, exit := Interrupted)
  }

  function CoreReaped(l: Life, drained: bool, answer: ReapAnswer): Life {
    match answer
    case ReapRaises(ordinary) => l.(phase := Ended, finished := true, exit := if ordinary then Raised else Interrupted)
    case Reaped(code) =>
      if drained && code != 0 then l.(phase := Ended, core := Exited(code), finished := true, exit := Raised)
      else l.(phase := Ended, core := Exited(code))
  }

  function Without(negotiating: seq<bool>, i: nat): seq<bool>
    requires i < |negotiating|
  {
    negotiating[..i] + negotiating[i + 1..]
  }

  /** An explicit negotiation settles whether research is drained; a lost parent asks for no drain. */
  function DrainedBy(t: Talk, i: nat, polls: seq<Poll>): bool
    requires i < |t.negotiating|
  {
    if t.negotiating[i] then t.drained else IsDrained(polls)
  }

  /** The negotiation lets the process go. */
  predicate LetsGo(t: Talk, i: nat, polls: seq<Poll>, stopped: bool)
    requires i < |t.negotiating|
  {
    (t.negotiating[i] || DrainedBy(t, i, polls)) && stopped
  }

  function BlockedMessages(lost: bool, drained: bool): seq<Message> {
    var blocked := CloseBlocked(if drained then PaperUnconfirmed else ResearchUnconfirmed);
    if lost then [blocked, StopUnknown] else [blocked]
  }

  function LastWord(drained: bool, code: int): Message {
    if drained && code == 0 then Closed(code) else InterruptedMessage(code)
  }

  function NextLife(v: View, e: Event): Life
    requires IsEnabled(v, e)
  {
    var l := v.life;
    match e
    case OpenFails => l.(phase := Ended, exit := Raised)
    case Spawn => l.(phase := CoreStarting, core := Alive)
    case CoreFails => l.(phase := Reaping, exit := Raised)
    case Serve => l.(phase := Starting, web := Running(false), reader := true, paper := Served)
    case CoreDies(code) => l.(core := Exited(code))
    case WebStarts => l.(web := Running(true))
    case WebEnds(end) => WebEnded(l, end)
    case ServerStops => l.(shouldExit := true)
    case ParentWrites(eof) => l.(finished := true, reader := !eof)
    case ExitBegins => l
    case ExitEnds(i, polls, stopped) => l.(shouldExit := l.shouldExit || LetsGo(v.talk, i, polls, stopped))
    case ExitFails(_) => l
    case PollStarting => StartupPolled(l, v.talk.parentGone)
    case PollServing => ReadyPolled(l, v.talk.parentGone)
    case Interrupt => InterruptedAt(l)
    case PaperAnswers(stop, again, closes) => PaperAnswered(l, stop, again, closes)
    case WebIsWaited => WebWaited(l)
    case WebTimesOut => l.(phase := Reaping, exit := Raised, finished := true, web := Done(l.web.started, Control))
    case Reap(answer) => CoreReaped(l, v.talk.drained, answer)
  }

  function NextTalk(v: View, e: Event): Talk
    requires IsEnabled(v, e)
  {
    var t := v.talk;
    match e
    case ParentWrites(eof) => t.(waiting := t.waiting + [eof])
    case ExitBegins =>
      if t.stopping then t.(waiting := t.waiting[1..])
      else t.(waiting := t.waiting[1..], stopping := true, negotiating := t.negotiating + [t.waiting[0]])
    case ExitEnds(i, polls, stopped) =>
      t.(negotiating := Without(t.negotiating, i), stopping := false, drained := DrainedBy(t, i, polls),
         parentGone := t.parentGone || LetsGo(t, i, polls, stopped))
    case ExitFails(i) => t.(negotiating := Without(t.negotiating, i), stopping := false)
    case _ => t
  }

  /** What the step prints. */
  function Said(v: View, e: Event): seq<Message>
    requires IsEnabled(v, e)
  {
    match e
    case ExitEnds(i, polls, stopped) =>
      if LetsGo(v.talk, i, polls, stopped) then []
      else BlockedMessages(v.talk.negotiating[i], DrainedBy(v.talk, i, polls))
    case PollStarting => if IsServing(v.life) then [ReadyMessage] else []
    case Reap(answer) => if answer.Reaped? then [LastWord(v.talk.drained, answer.code)] else []
    case _ => []
  }

  function NextView(v: View, e: Event): View
    requires IsEnabled(v, e)
  {
    View(NextLife(v, e), NextTalk(v, e), v.log + Said(v, e))
  }

  /** The variables of one `workspace_session` call and of the closures inside it. */
  class WorkspaceSession {
    var phase: Phase
    var exit: Exit
    var core: Core
    var web: Web
    var shouldExit: bool
    var paper: Paper
    var finished: bool
    var reader: bool
    var waiting: seq<bool>
    var negotiating: seq<bool>
    var stopping: bool
    var drained: bool
    var parentGone: bool
    var log: seq<Message>

    ghost function LifeNow(): Life
      reads this
    {
      Life(phase, exit, core, web, shouldExit, paper, finished, reader)
    }

    ghost function Now(): View
      reads this
    {
      View(LifeNow(), Talk(waiting, negotiating, stopping, drained, parentGone), log)
    }

    constructor ()
      ensures Now() == NewSession()
    {
      phase, exit, core, web, shouldExit, paper := Opening, Returned, NotSpawned, NoTask, false, NeverServed;
      finished, reader, waiting, negotiating := false, false, [], [];
      stopping, drained, parentGone, log := false, false, false, [];
    }

    method Emit(message: Message)
      modifies this`log
      ensures log == old(log) + [message]
    {
      log := log + [message];
    }

    method EmitBlocked(lost: bool)
      modifies this`log
      ensures log == old(log) + BlockedMessages(lost, drained)
    {
      Emit(CloseBlocked(if !drained then ResearchUnconfirmed else PaperUnconfirmed));
      if lost {
        Emit(StopUnknown);
      }
    }

    method EndWeb(end: ServeEnd)
      requires IsEnabled(Now(), WebEnds(end))
      modifies this`web, this`finished
      ensures Now() == NextView(old(Now()), WebEnds(end))
    {
      var result, done := ServeWeb(end, web.started, shouldExit);
      web := Done(web.started, result);
      if done {
        finished := true;
      }
    }

    method ParentMessage(eof: bool)
      requires IsEnabled(Now(), ParentWrites(eof))
      modifies this`finished, this`reader, this`waiting
      ensures Now() == NextView(old(Now()), ParentWrites(eof))
    {
      finished := true;
      if eof {
        reader := false;
      }
      waiting := waiting + [eof];
    }

    /** The start of the oldest waiting `request_exit`. */
    method BeginExit()
      requires IsEnabled(Now(), ExitBegins)
      modifies this`waiting, this`stopping, this`negotiating
      ensures Now() == NextView(old(Now()), ExitBegins)
    {
      var lost := waiting[0];
      waiting := waiting[1..];
      if stopping {
        return;
      }
      stopping := true;
      negotiating := negotiating + [lost];
    }

    /** The rest of `request_exit`, once its awaited calls have answered. */
    method EndExit(i: nat, polls: seq<Poll>, stopped: bool)
      requires IsEnabled(Now(), ExitEnds(i, polls, stopped))
      modifies this`drained, this`parentGone, this`shouldExit, this`log, this`stopping, this`negotiating
      ensures Now() == NextView(old(Now()), ExitEnds(i, polls, stopped))
    {
      hide IsDrained, Without, BlockedMessages;
      var lost := negotiating[i];
      if !lost {
        var settled := DrainResearch(polls);
        drained := settled;
      }
      if (lost || drained) && stopped {
        parentGone := true;
        shouldExit := true;
      } else {
        EmitBlocked(lost);
      }
      stopping := false;
      ForgetNegotiation(i);
    }

    method ForgetNegotiation(i: nat)
      requires i < |negotiating|
      modifies this`negotiating
      ensures negotiating == Without(old(negotiating), i)
    {
      negotiating := negotiating[..i] + negotiating[i + 1..];
    }

    method Leave(exit: Exit)
      modifies this`phase, this`exit, this`reader
      ensures LifeNow() == Leaving(old(LifeNow()), exit)
    {
      phase, this.exit, reader := StoppingPaper, exit, false;
    }

    method PollStartup()
      requires IsEnabled(Now(), PollStarting)
      modifies this`phase, this`exit, this`reader, this`finished, this`shouldExit, this`log
      ensures Now() == NextView(old(Now()), PollStarting)
    {
      if !web.NoTask? && web.started {
        finished, phase := true, Ready;
        Emit(ReadyMessage);
        return;
      }
      LeaveStartup();
    }

    /** The turn of that loop for a server that has not started. */
    method LeaveStartup()
      requires !IsServing(LifeNow())
      modifies this`phase, this`exit, this`reader, this`finished, this`shouldExit
      ensures LifeNow() == StartupPolled(old(LifeNow()), parentGone)
    {
      if web.Done? {
        match web.result {
          case WebFailure => Leave(Raised);
          case WebTimeout => Leave(Raised);
          case Control => Leave(Interrupted);
          case Normal =>
            finished := true;
            Leave(Returned);
        }
      } else if parentGone {
        finished, shouldExit := true, true;
        Leave(Returned);
      }
    }

    method PollReady()
      requires IsEnabled(Now(), PollServing)
      modifies this`phase, this`exit, this`reader
      ensures Now() == NextView(old(Now()), PollServing)
    {
      if web.Done? || parentGone {
        Leave(Returned);
      } else if core.Exited? {
        Leave(Raised);
      }
    }

    method StopPaper(stop: StopAnswer, again: StopAnswer, closes: bool)
      requires IsEnabled(Now(), PaperAnswers(stop, again, closes))
      modifies this`phase, this`exit, this`finished, this`paper, this`shouldExit
      ensures Now() == NextView(old(Now()), PaperAnswers(stop, again, closes))
    {
      match stop {
        case No =>
          finished, exit, paper, phase := true, Raised, Unconfirmed, Reaping;
        case NoAnswer =>
          exit, paper, phase := Raised, Unanswered, Reaping;
        case Yes =>
          ClosePaper(again, closes);
      }
    }

    /** The simulation's `close`, and the order to the server after it. */
    method ClosePaper(again: StopAnswer, closes: bool)
      modifies this`phase, this`exit, this`paper, this`shouldExit
      ensures LifeNow() == PaperClosed(old(LifeNow()), again, closes)
    {
      if again != Yes {
        exit, paper, phase := Raised, if again == No then Withdrawn else Unclosed, Reaping;
      } else if !closes {
        exit, paper, phase := Raised, Unclosed, Reaping;
      } else {
        paper, shouldExit, phase := Stopped, true, WaitingWeb;
      }
    }

    /** The outermost cleanup: the core is waited for, killed if need be, and the end is reported. */
    method ReapCore(answer: ReapAnswer)
      requires IsEnabled(Now(), Reap(answer))
      modifies this`phase, this`exit, this`finished, this`core, this`log
      ensures Now() == NextView(old(Now()), Reap(answer))
    {
      phase := Ended;
      match answer {
        case ReapRaises(ordinary) =>
          finished := true;
          exit := if ordinary then Raised else Interrupted;
        case Reaped(code) =>
          core := Exited(code);
          if drained && code == 0 {
            Emit(Closed(code));
          } else {
            Emit(InterruptedMessage(code));
          }
          if drained && code != 0 {
            finished := true;
            exit := Raised;
          }
      }
    }
  }

  // ----- whole runs

  /**
   * A session with what has happened in it: whether the parent ever wrote or closed its pipe, what
   * the latest completed explicit shutdown saw while draining, how the web task ended, whether
   * waiting for it timed out or it raised a timeout then, whether the session began an ordinary
   * return before it was ready, whether reaping its core failed, the latest answer the simulation's
   * shutdown gave, the latest exception in the session itself, how things stood when it left serving,
   * and whether it saw its core gone while it served.
   */
  datatype Attempt = Attempt(view: View, messaged: bool, lastDrain: Option<seq<Poll>>, webEnd: Option<WebEnd>,
                             webTimedOut: bool, returnedEarly: bool, reapFailed: bool, lastStop: Option<bool>,
                             lastThrow: Option<Exit>, left: Option<View>, sawCrash: bool)

  /** How `serve` ended, and whether the server had started or been told to exit by then. */
  datatype WebEnd = WebEnd(end: ServeEnd, inUse: bool)

  /** A server in use, and one that exits as if it had been, ends the startup. */
  predicate EndsStartup(w: WebEnd) { w.inUse || w.end == ExitsZero }

  /** What the end of the web task raises where the task is awaited: an exit before use is a failure to start. */
  function TaskThrows(w: WebEnd): Option<Exit> {
    match w.end
    case Returns => None
    case Raises => Some(Raised)
    case RaisesTimeout => Some(Raised)
    case ExitsNonzero => Some(if w.inUse then Interrupted else Raised)
    case ExitsZero => Some(Interrupted)
    case Cancelled => Some(Interrupted)
  }

  /** The core is seen gone while the server runs and nothing has let the session go. */
  predicate SeesCrash(v: View, e: Event) {
    e.PollServing? && v.life.core.Exited? && !v.life.web.Done? && !v.talk.parentGone
  }

  predicate HasStarted(web: Web) {
    match web
    case NoTask => false
    case Running(started) => started
    case Done(started, _) => started
  }

  /** What the step raises in the session, whichever statement it is at. */
  function Throws(a: Attempt, e: Event): Option<Exit> {
    match e
    case OpenFails => Some(Raised)
    case CoreFails => Some(Raised)
    case Interrupt => Some(Interrupted)
    case PollStarting => 
      if a.webEnd.Some? && !HasStarted(a.view.life.web) then TaskThrows(a.webEnd.value) else None
    case PollServing => if SeesCrash(a.view, e) then Some(Raised) else None
    case PaperAnswers(stop, again, closes) => if stop == Yes && again == Yes && closes then None else Some(Raised)
    case WebIsWaited => if a.webEnd.Some? then TaskThrows(a.webEnd.value) else None
    case WebTimesOut => Some(Raised)
    case Reap(ReapRaises(ordinary)) => Some(if ordinary then Raised else Interrupted)
    case Reap(Reaped(code)) => if a.view.talk.drained && code != 0 then Some(Raised) else None
    case _ => None
  }

  /** The latest answer, after one more call: a call that raises gives none. */
  function LatestStop(before: Option<bool>, answer: StopAnswer): Option<bool> {
    match answer
    case Yes => Some(true)
    case No => Some(false)
    case NoAnswer => before
  }

  /** The process: its sessions so far, the last one current; `selected` is a workspace other than the default. */
  datatype Desktop = Desktop(selected: bool, attempts: seq<Attempt>, over: bool)

  function NextAttempt(a: Attempt, e: Event): Attempt
    requires IsEnabled(a.view, e)
  {
    var next, throws := NextView(a.view, e), Throws(a, e);
    var b := a.(view := next, lastThrow := if throws.Some? then throws else a.lastThrow,
                left := if a.view.life.phase == Ready && next.life.phase != Ready then Some(a.view) else a.left,
                sawCrash := a.sawCrash || SeesCrash(a.view, e));
    match e
    case ParentWrites(_) => b.(messaged := true)
    case ExitEnds(i, polls, stopped) =>
      b.(lastStop := Some(stopped), lastDrain := if a.view.talk.negotiating[i] then a.lastDrain else Some(polls))
    case PaperAnswers(stop, again, _) =>
      var first := LatestStop(a.lastStop, stop);
      b.(lastStop := if stop == Yes then LatestStop(first, again) else first)
    case WebEnds(end) =>
      var inUse := a.view.life.web.started || a.view.life.shouldExit;
      b.(webEnd := Some(WebEnd(end, inUse)))
    case WebTimesOut => b.(webTimedOut := true)
    case WebIsWaited => b.(webTimedOut := a.webTimedOut || a.view.life.web.result == WebTimeout)
    case PollStarting =>
      var returning := b.view.life.phase == StoppingPaper && b.view.life.exit == Returned;
      b.(returnedEarly := a.returnedEarly || returning)
    case Reap(answer) => b.(reapFailed := a.reapFailed || answer.ReapRaises?)
    case _ => b
  }

  function NewAttempt(): Attempt {
    Attempt(NewSession(), false, None, None, false, false, false, None, None, None, false)
  }

  /** A step of the current session, or what `session` does once it has ended. */
  datatype Move = Step(e: Event) | Conclude

  function Current(d: Desktop): Attempt
    requires d.attempts != []
  {
    d.attempts[|d.attempts| - 1]
  }

  predicate CanMove(d: Desktop, m: Move) {
    && !d.over && d.attempts != []
    && (match m case Step(e) => IsEnabled(Current(d).view, e) case Conclude => Current(d).view.life.phase == Ended)
  }

  /** `session` falls back only from its first try, of a selected workspace, that failed before it was usable. */
  predicate FallsBack(d: Desktop) {
    |d.attempts| == 1 && d.selected && Current(d).view.life.exit == Raised && !Current(d).view.life.finished
  }

  function Moved(d: Desktop, m: Move): Desktop
    requires CanMove(d, m)
  {
    match m
    case Step(e) => d.(attempts := d.attempts[|d.attempts| - 1 := NextAttempt(Current(d), e)])
    case Conclude => if FallsBack(d) then d.(attempts := d.attempts + [NewAttempt()]) else d.(over := true)
  }

  ghost function Run(selected: bool, moves: seq<Move>): Option<Desktop> {
    if moves == [] then Some(Desktop(selected, [NewAttempt()], false))
    else
      var before, m := Run(selected, moves[..|moves| - 1]), moves[|moves| - 1];
      if before.Some? && CanMove(before.value, m) then Some(Moved(before.value, m)) else None
  }

  ghost predicate IsReachable(d: Desktop) { exists moves :: Run(d.selected, moves) == Some(d) }

  // ----- what every session keeps

  predicate OneNegotiation(t: Talk) { |t.negotiating| <= 1 && (t.stopping <==> |t.negotiating| == 1) }

  /** Without a word from the parent nothing negotiates and nothing is drained. */
  predicate SilentParent(a: Attempt) {
    !a.messaged ==> a.view.talk == Talk([], [], false, false, false) && a.lastDrain.None?
  }

  predicate DrainedIsLatest(a: Attempt) { a.view.talk.drained <==> a.lastDrain.Some? && IsDrained(a.lastDrain.value) }

  predicate IsTalkGood(a: Attempt) { OneNegotiation(a.view.talk) && SilentParent(a) && DrainedIsLatest(a) }

  /** Everything that ends the startup, and nothing else. */
  predicate EndedStartup(a: Attempt) {
    || ReadyMessage in a.view.log || a.messaged || (a.webEnd.Some? && EndsStartup(a.webEnd.value)) || a.webTimedOut
    || a.returnedEarly || a.view.life.paper == Unconfirmed || a.reapFailed
  }

  predicate FinishedExactly(a: Attempt) { a.view.life.finished <==> EndedStartup(a) }

  predicate CoreIsAccounted(a: Attempt) {
    var l := a.view.life;
    && (l.phase == Opening ==> l.core == NotSpawned)
    && (l.phase != Opening && l.phase != Ended ==> l.core != NotSpawned)
    && (l.phase == Ended && !a.reapFailed ==> l.core != Alive)
    && (a.reapFailed ==> l.phase == Ended)
  }

  predicate HasClosed(log: seq<Message>) { exists m :: m in log && m.Closed? }

  predicate LogIsTruthful(a: Attempt) {
    var v := a.view;
    if v.life.phase == Ended && v.life.core.Exited? && !a.reapFailed
    then
      && v.log != [] && v.log[|v.log| - 1] == LastWord(v.talk.drained, v.life.core.code)
      && !HasClosed(v.log[..|v.log| - 1])
    else !HasClosed(v.log)
  }

  /** An ordinary failure that leaves the startup unfinished was the web task's own, unless stopping broke. */
  predicate FailureIsWebs(l: Life) {
    l.exit == Raised && !l.finished ==>
      || l.paper == NeverServed || IsBroken(l.paper)
      || (l.web == Done(false, WebFailure) && (l.phase == Reaping || l.phase == Ended ==> l.paper == Stopped))
      || (l.web == Done(false, WebTimeout) && (l.phase == StoppingPaper || l.phase == WaitingWeb))
  }

  predicate PaperFollowsPhase(l: Life) {
    && (IsLooping(l) || l.phase == StoppingPaper ==> l.paper == Served)
    && (l.phase == WaitingWeb ==> l.paper == Stopped)
    && (l.phase == Opening || l.phase == CoreStarting ==> l.paper == NeverServed)
    && (l.phase == Opening || l.phase == CoreStarting || IsLooping(l) ==> l.exit == Returned)
    && (l.phase == Ready ==> l.finished)
  }

  /** A server that had started ends the startup when its task ends. */
  predicate WebEndIsSeen(l: Life) { l.web.Done? && l.web.started ==> l.finished }

  predicate IsLifeGood(l: Life) { FailureIsWebs(l) && PaperFollowsPhase(l) && WebEndIsSeen(l) }

  /** The task hands on how `serve` ended: what it raises, and whether that is a timeout. */
  predicate IsResultOf(result: WebResult, w: WebEnd) {
    && (result == Normal <==> TaskThrows(w).None?)
    && (result == Control <==> TaskThrows(w) == Some(Interrupted))
    && (result == WebTimeout <==> w.end == RaisesTimeout)
  }

  predicate TaskIsItsEnd(a: Attempt) {
    var l := a.view.life;
    && (l.phase == Opening || l.phase == CoreStarting ==> l.web.NoTask?)
    && (l.web.Done? || a.webEnd.None?)
    && (IsAwaiting(l) && l.web.Done? ==> a.webEnd.Some? && IsResultOf(l.web.result, a.webEnd.value))
  }

  predicate IsGood(a: Attempt) {
    && TaskIsItsEnd(a) && IsTalkGood(a) && FinishedExactly(a) && CoreIsAccounted(a) && LogIsTruthful(a)
    && IsLifeGood(a.view.life)
  }

  lemma NewIsGood()
    ensures IsGood(NewAttempt())
  {
  }

  predicate IsTalking(e: Event) { e.ParentWrites? || e.ExitBegins? || e.ExitEnds? || e.ExitFails? }

  lemma NegotiationKept(v: View, e: Event)
    requires OneNegotiation(v.talk) && IsEnabled(v, e) && IsTalking(e)
    ensures OneNegotiation(NextTalk(v, e))
  {
    hide DrainedBy, LetsGo;
  }

  lemma SilenceKept(a: Attempt, e: Event)
    requires SilentParent(a) && IsEnabled(a.view, e) && IsTalking(e)
    ensures SilentParent(NextAttempt(a, e))
  {
    hide IsDrained, NextLife, NextTalk, Said;
  }

  lemma DrainedKeptByTalking(a: Attempt, e: Event)
    requires DrainedIsLatest(a) && IsEnabled(a.view, e) && IsTalking(e)
    ensures DrainedIsLatest(NextAttempt(a, e))
  {
    DrainedStep(a.view, e);
    LastDrainStep(a, e);
    hide IsDrained, NextAttempt, IsEnabled;
  }

  lemma LastDrainStep(a: Attempt, e: Event)
    requires IsEnabled(a.view, e)
    ensures NextAttempt(a, e).view.talk.drained == NextTalk(a.view, e).drained
    ensures NextAttempt(a, e).lastDrain ==
      if e.ExitEnds? && !a.view.talk.negotiating[e.i] then Some(e.polls) else a.lastDrain
  {
    hide NextLife, NextTalk, Said, ServeOutcome;
  }

  lemma DrainedStep(v: View, e: Event)
    requires IsEnabled(v, e)
    ensures NextTalk(v, e).drained == if e.ExitEnds? then DrainedBy(v.talk, e.i, e.polls) else v.talk.drained
  {
    hide DrainedBy, LetsGo, Without;
  }

  lemma TalkKept(a: Attempt, e: Event)
    requires IsTalkGood(a) && IsEnabled(a.view, e)
    ensures IsTalkGood(NextAttempt(a, e))
  {
    if IsTalking(e) {
      NegotiationKept(a.view, e);
      assert NextAttempt(a, e).view.talk == NextTalk(a.view, e);
      SilenceKept(a, e);
      DrainedKeptByTalking(a, e);
      hide NextAttempt, NextTalk, OneNegotiation, SilentParent, DrainedIsLatest;
    } else {
      hide IsDrained, NextLife, Said, ServeOutcome;
    }
  }

  lemma SaidWhat(v: View, e: Event)
    requires IsEnabled(v, e)
    ensures ReadyMessage in v.log + Said(v, e) <==> ReadyMessage in v.log || (e.PollStarting? && IsServing(v.life))
    ensures !e.Reap? ==> (HasClosed(v.log + Said(v, e)) <==> HasClosed(v.log))
  {
    hide IsDrained;
    var said := Said(v, e);
    assert forall m :: m in v.log + said <==> m in v.log || m in said;
    if !e.Reap? {
      assert forall m :: m in said ==> !m.Closed?;
      hide Said;
    }
  }

  /** The loop that waits for the server leaves by an ordinary return. */
  predicate ReturnsEarly(l: Life, parentGone: bool) {
    !IsServing(l) && (if l.web.Done? then l.web.result == Normal else parentGone)
  }

  predicate Finishes(v: View, e: Event)
    requires IsEnabled(v, e)
  {
    match e
    case WebEnds(end) => EndsStartup(WebEnd(end, v.life.web.started || v.life.shouldExit))
    case ParentWrites(_) => true
    case PollStarting => IsServing(v.life) || ReturnsEarly(v.life, v.talk.parentGone)
    case PaperAnswers(stop, _, _) => stop == No
    case WebTimesOut => true
    case WebIsWaited => v.life.web.result == WebTimeout
    case Reap(answer) => answer.ReapRaises? || (v.talk.drained && answer.code != 0)
    case _ => false
  }

  predicate IsReturning(l: Life) { l.phase == StoppingPaper && l.exit == Returned }

  lemma FinishedStep(v: View, e: Event)
    requires IsEnabled(v, e) && PaperFollowsPhase(v.life)
    ensures NextLife(v, e).finished <==> v.life.finished || Finishes(v, e)
    ensures NextLife(v, e).paper == Unconfirmed <==> v.life.paper == Unconfirmed || (e.PaperAnswers? && e.stop == No)
    ensures e.PollStarting? ==> (IsReturning(NextLife(v, e)) <==> ReturnsEarly(v.life, v.talk.parentGone))
  {
    hide IsDrained, LetsGo;
  }

  lemma OutcomeIsEnd(end: ServeEnd, inUse: bool)
    ensures IsResultOf(ServeOutcome(end, inUse).0, WebEnd(end, inUse))
    ensures ServeOutcome(end, inUse).1 <==> EndsStartup(WebEnd(end, inUse))
  {
  }

  /** The web task is started once, told to end once, and stays as it ended. */
  lemma WebFrame(v: View, e: Event)
    requires IsEnabled(v, e)
    ensures !e.Serve? && !e.WebStarts? && !e.WebEnds? && !e.WebTimesOut? ==> NextLife(v, e).web == v.life.web
    ensures e.Serve? ==> v.life.phase == CoreStarting && NextLife(v, e).web == Running(false)
    ensures e.WebStarts? ==> v.life.web == Running(false) && NextLife(v, e).web == Running(true)
    ensures e.WebTimesOut? ==> v.life.web.Running? && NextLife(v, e).web.Done? && !IsAwaiting(NextLife(v, e))
    ensures IsAwaiting(NextLife(v, e)) ==> IsAwaiting(v.life) || e.Serve?
    ensures NextLife(v, e).phase == Opening || NextLife(v, e).phase == CoreStarting ==>
      && (v.life.phase == Opening || v.life.phase == CoreStarting)
      && !e.Serve? && !e.WebStarts? && !e.WebEnds? && !e.WebTimesOut?
  {
    hide IsDrained, LetsGo, ServeOutcome;
  }

  /** What the run notes of the session besides its view. */
  lemma NotedStep(a: Attempt, e: Event)
    requires IsEnabled(a.view, e)
    ensures NextAttempt(a, e).view.life == NextLife(a.view, e)
    ensures NextAttempt(a, e).webEnd ==
      if e.WebEnds? then Some(WebEnd(e.end, a.view.life.web.started || a.view.life.shouldExit)) else a.webEnd
  {
    hide NextLife, NextTalk, Said, ServeOutcome, Throws, SeesCrash, LatestStop;
  }

  lemma NotedExit(a: Attempt, e: Event)
    requires IsEnabled(a.view, e)
    ensures NextAttempt(a, e).lastThrow == if Throws(a, e).Some? then Throws(a, e) else a.lastThrow
    ensures NextAttempt(a, e).sawCrash == (a.sawCrash || SeesCrash(a.view, e))
  {
    hide NextView, ServeOutcome, Throws, SeesCrash, LatestStop;
  }

  lemma NotedLeave(a: Attempt, e: Event)
    requires IsEnabled(a.view, e)
    ensures NextAttempt(a, e).left ==
      if a.view.life.phase == Ready && NextLife(a.view, e).phase != Ready then Some(a.view) else a.left
  {
    hide NextLife, NextTalk, Said, ServeOutcome, Throws, SeesCrash, LatestStop;
  }

  lemma EndedWeb(v: View, e: Event)
    requires IsEnabled(v, e) && e.WebEnds?
    ensures NextLife(v, e).web
      == Done(v.life.web.started, ServeOutcome(e.end, v.life.web.started || v.life.shouldExit).0)
    ensures NextLife(v, e).phase == v.life.phase
  {
    hide ServeOutcome;
  }

  lemma TaskKept(a: Attempt, e: Event)
    requires TaskIsItsEnd(a) && IsEnabled(a.view, e)
    ensures TaskIsItsEnd(NextAttempt(a, e))
  {
    WebFrame(a.view, e);
    NotedStep(a, e);
    if e.WebEnds? {
      EndedWeb(a.view, e);
      OutcomeIsEnd(e.end, a.view.life.web.started || a.view.life.shouldExit);
    }
    hide IsResultOf, NextAttempt, NextLife, ServeOutcome, IsEnabled, EndsStartup, Throws, SeesCrash;
  }

  lemma FinishedKept(a: Attempt, e: Event)
    requires TaskIsItsEnd(a) && FinishedExactly(a) && IsTalkGood(a) && PaperFollowsPhase(a.view.life)
    requires IsEnabled(a.view, e)
    ensures FinishedExactly(NextAttempt(a, e))
  {
    SaidWhat(a.view, e);
    FinishedStep(a.view, e);
    hide IsDrained, NextTalk, NextLife, Said, HasClosed, LetsGo, IsServing, ReturnsEarly, ServeOutcome;
  }

  predicate TouchesCore(e: Event) { e.OpenFails? || e.Spawn? || e.CoreDies? || e.Reap? }

  /** The core and the ends of a session change by four steps only. */
  lemma CoreFrame(v: View, e: Event)
    requires IsEnabled(v, e) && !TouchesCore(e)
    ensures NextLife(v, e).core == v.life.core
    ensures v.life.phase != Opening && v.life.phase != Ended
    ensures NextLife(v, e).phase != Opening && NextLife(v, e).phase != Ended
  {
    hide IsDrained, LetsGo;
  }

  lemma CoreKept(a: Attempt, e: Event)
    requires CoreIsAccounted(a) && IsEnabled(a.view, e)
    ensures CoreIsAccounted(NextAttempt(a, e))
  {
    hide IsDrained, NextTalk, Said, LetsGo, WebEnded, StartupPolled, ReadyPolled, InterruptedAt, PaperAnswered,
         WebWaited;
    if !TouchesCore(e) {
      CoreFrame(a.view, e);
      hide NextLife, IsEnabled;
    }
  }

  lemma LogKeptByReap(a: Attempt, e: Event)
    requires !HasClosed(a.view.log) && !a.reapFailed && IsEnabled(a.view, e) && e.Reap?
    ensures LogIsTruthful(NextAttempt(a, e))
  {
    hide IsDrained, HasClosed, LastWord;
    var log := a.view.log + Said(a.view, e);
    if e.reaped.Reaped? {
      assert log[..|log| - 1] == a.view.log;
    } else {
      assert log == a.view.log;
    }
  }

  lemma LogKeptByWorld(a: Attempt, e: Event)
    requires !HasClosed(a.view.log) && CoreIsAccounted(a) && IsEnabled(a.view, e) && TouchesCore(e) && !e.Reap?
    ensures LogIsTruthful(NextAttempt(a, e))
  {
    hide HasClosed, LastWord;
    assert a.view.log + Said(a.view, e) == a.view.log;
  }

  lemma LogKeptByOthers(a: Attempt, e: Event)
    requires !HasClosed(a.view.log) && IsEnabled(a.view, e) && !TouchesCore(e)
    ensures LogIsTruthful(NextAttempt(a, e))
  {
    SaidWhat(a.view, e);
    CoreFrame(a.view, e);
    hide HasClosed, LastWord, NextLife, Said, NextTalk, ServeOutcome, IsEnabled;
  }

  lemma LogKept(a: Attempt, e: Event)
    requires LogIsTruthful(a) && CoreIsAccounted(a) && IsEnabled(a.view, e)
    ensures LogIsTruthful(NextAttempt(a, e))
  {
    hide HasClosed, LastWord, NextAttempt;
    assert a.view.life.phase != Ended;
    if e.Reap? {
      LogKeptByReap(a, e);
    } else if TouchesCore(e) {
      LogKeptByWorld(a, e);
    } else {
      LogKeptByOthers(a, e);
    }
  }

  predicate IsLeaving(e: Event) { e.PollStarting? || e.PollServing? || e.Interrupt? || e.PaperAnswers? }

  predicate IsEnding(e: Event) { e.WebIsWaited? || e.WebTimesOut? || e.Reap? }

  lemma LeavingKeepsLife(v: View, e: Event)
    requires IsLifeGood(v.life) && IsEnabled(v, e) && IsLeaving(e)
    ensures IsLifeGood(NextLife(v, e))
  {
    hide IsDrained, LetsGo, WebEnded, WebWaited, CoreReaped;
  }

  lemma EndingKeepsLife(v: View, e: Event)
    requires IsLifeGood(v.life) && IsEnabled(v, e) && IsEnding(e)
    ensures IsLifeGood(NextLife(v, e))
  {
    hide IsDrained, LetsGo, WebEnded, StartupPolled, ReadyPolled, InterruptedAt, PaperAnswered;
  }

  lemma WorldKeepsLife(v: View, e: Event)
    requires IsLifeGood(v.life) && IsEnabled(v, e) && !IsLeaving(e) && !IsEnding(e)
    ensures IsLifeGood(NextLife(v, e))
  {
    hide IsDrained, LetsGo, StartupPolled, ReadyPolled, InterruptedAt, PaperAnswered, WebWaited, CoreReaped;
  }

  lemma LifeKept(v: View, e: Event)
    requires IsLifeGood(v.life) && IsEnabled(v, e)
    ensures IsLifeGood(NextLife(v, e))
  {
    hide IsLifeGood, NextLife, IsEnabled;
    if IsLeaving(e) {
      LeavingKeepsLife(v, e);
    } else if IsEnding(e) {
      EndingKeepsLife(v, e);
    } else {
      WorldKeepsLife(v, e);
    }
  }

  lemma StepKeeps(a: Attempt, e: Event)
    requires IsGood(a) && IsEnabled(a.view, e)
    ensures IsGood(NextAttempt(a, e))
  {
    TaskKept(a, e);
    TalkKept(a, e);
    assert PaperFollowsPhase(a.view.life);
    FinishedKept(a, e);
    CoreKept(a, e);
    LogKept(a, e);
    LifeKept(a.view, e);
    assert NextAttempt(a, e).view.life == NextLife(a.view, e);
    hide TaskIsItsEnd, IsTalkGood, FinishedExactly, CoreIsAccounted, LogIsTruthful, IsLifeGood, NextAttempt, NextLife;
  }

  // ----- what every run keeps

  /**
   * The session failed before it was ever usable: nothing reached the parent or came from it, no
   * shutdown was negotiated, its core is gone, nothing timed out, and its web task failed to start
   * after the simulation was stopped, unless it never served or stopping it raised.
   */
  predicate WasUnused(a: Attempt) {
    && a.view.life.phase == Ended && a.view.life.exit == Raised
    && ReadyMessage !in a.view.log && !HasClosed(a.view.log)
    && !a.messaged && a.view.talk == Talk([], [], false, false, false)
    && a.view.life.core != Alive && !a.webTimedOut && !a.reapFailed
    && (a.view.life.paper == NeverServed || IsBroken(a.view.life.paper)
        || (a.view.life.paper == Stopped && a.view.life.web == Done(false, WebFailure)))
  }

  ghost predicate IsGoodProcess(d: Desktop) {
    && 1 <= |d.attempts| <= 2
    && (forall a :: a in d.attempts ==> IsGood(a))
    && (|d.attempts| == 2 ==> d.selected && WasUnused(d.attempts[0]))
  }

  lemma FallbackIsUnused(a: Attempt)
    requires IsGood(a) && a.view.life.phase == Ended && a.view.life.exit == Raised && !a.view.life.finished
    ensures WasUnused(a)
  {
    hide IsDrained;
    if a.view.life.core.Exited? {
      assert a.view.log[..|a.view.log| - 1] + [a.view.log[|a.view.log| - 1]] == a.view.log;
    }
  }

  lemma MoveKeeps(d: Desktop, m: Move)
    requires IsGoodProcess(d) && CanMove(d, m)
    ensures IsGoodProcess(Moved(d, m))
  {
    hide IsGood, WasUnused, IsEnabled, NextAttempt;
    match m {
      case Step(e) =>
        StepKeeps(Current(d), e);
      case Conclude =>
        NewIsGood();
        if FallsBack(d) {
          FallbackIsUnused(d.attempts[0]);
        }
    }
  }

  lemma {:induction false} RunKeeps(selected: bool, moves: seq<Move>)
    requires Run(selected, moves).Some?
    ensures IsGoodProcess(Run(selected, moves).value) && Run(selected, moves).value.selected == selected
    decreases |moves|
  {
    hide CanMove;
    if moves == [] {
      NewIsGood();
      hide IsGood;
    } else {
      hide IsGoodProcess;
      RunKeeps(selected, moves[..|moves| - 1]);
      MoveKeeps(Run(selected, moves[..|moves| - 1]).value, moves[|moves| - 1]);
    }
  }

  lemma ReachableIsGood(d: Desktop)
    requires IsReachable(d)
    ensures IsGoodProcess(d)
  {
    hide IsGoodProcess;
    var moves :| Run(d.selected, moves) == Some(d);
    RunKeeps(d.selected, moves);
  }

  // ----- the promises

  predicate IsLive(a: Attempt) { a.view.life.core == Alive }

  /**
   * On every run there are at most two sessions and one live core, and a second session means that
   * a selected workspace's session came before and was never used.
   */
  lemma FallbackIsSafe(d: Desktop)
    requires IsReachable(d)
    ensures 1 <= |d.attempts| <= 2
    ensures |d.attempts| == 2 ==> d.selected && WasUnused(d.attempts[0])
    ensures forall i, j :: 0 <= i < j < |d.attempts| ==> !(IsLive(d.attempts[i]) && IsLive(d.attempts[j]))
  {
    ReachableIsGood(d);
  }

  /** When the first session has ended, exactly this lets a second one start. */
  lemma FallbackExactly(d: Desktop)
    requires IsReachable(d) && |d.attempts| == 1 && CanMove(d, Conclude)
    ensures |Moved(d, Conclude).attempts| == 2 <==>
      d.selected && d.attempts[0].view.life.exit == Raised && !EndedStartup(d.attempts[0])
  {
    ReachableIsGood(d);
    hide EndedStartup;
    assert d.attempts[0] in d.attempts;
  }

  /**
   * A session whose core was reaped reports "closed" exactly when its latest completed explicit
   * shutdown saw a receipt with drained true and nothing pending, and the core exited with zero;
   * before that, and when reaping failed, it never reports it.
   */
  lemma ClosedIsTruthful(d: Desktop, a: Attempt)
    requires IsReachable(d) && a in d.attempts
    ensures HasClosed(a.view.log) ==> a.view.life.phase == Ended && !a.reapFailed
    ensures a.view.life.phase == Ended && a.view.life.core.Exited? && !a.reapFailed ==> SaysClosedExactly(a)
  {
    ReachableIsGood(d);
    hide IsReachable, DrainedIsLatest, LogIsTruthful, FinishedExactly, CoreIsAccounted, TaskIsItsEnd, SaysClosedExactly,
         HasClosed, IsLifeGood;
    assert DrainedIsLatest(a) && LogIsTruthful(a);
    GoodLogSaysClosed(a);
  }

  lemma GoodLogSaysClosed(a: Attempt)
    requires DrainedIsLatest(a) && LogIsTruthful(a)
    ensures HasClosed(a.view.log) ==> a.view.life.phase == Ended && !a.reapFailed
    ensures a.view.life.phase == Ended && a.view.life.core.Exited? && !a.reapFailed ==> SaysClosedExactly(a)
  {
    hide IsDrained;
    var log := a.view.log;
    if a.view.life.phase == Ended && a.view.life.core.Exited? && !a.reapFailed {
      assert log == log[..|log| - 1] + [log[|log| - 1]];
    }
  }

  predicate SaysClosedExactly(a: Attempt)
    requires a.view.life.core.Exited?
  {
    HasClosed(a.view.log) <==> a.view.life.core.code == 0 && a.lastDrain.Some? && IsDrained(a.lastDrain.value)
  }

  /** On every run a session negotiates at most one exit at a time, and its flag says whether it does. */
  lemma OneNegotiationAtATime(d: Desktop, a: Attempt)
    requires IsReachable(d) && a in d.attempts
    ensures |a.view.talk.negotiating| <= 1 && (a.view.talk.stopping <==> a.view.talk.negotiating != [])
  {
    ReachableIsGood(d);
    hide IsDrained;
  }

  /** The step ends a negotiation that lets the process go. */
  predicate LetsParentGo(v: View, e: Event) {
    && e.ExitEnds? && e.i < |v.talk.negotiating|
    && e.stopped && (v.talk.negotiating[e.i] || IsDrained(e.polls))
  }

  lemma GoneStep(v: View, e: Event)
    requires IsEnabled(v, e)
    ensures NextView(v, e).talk.parentGone <==> v.talk.parentGone || LetsParentGo(v, e)
  {
    hide IsDrained, NextLife, Said;
  }

  predicate IsGone(d: Desktop, n: nat) { n < |d.attempts| && d.attempts[n].view.talk.parentGone }

  /** Move `k` of the run ends such a negotiation of session `n`. */
  ghost predicate LetsGoAt(selected: bool, moves: seq<Move>, k: nat, n: nat) {
    && k < |moves| && moves[k].Step? && Run(selected, moves[..k]).Some?
    && |Run(selected, moves[..k]).value.attempts| == n + 1
    && LetsParentGo(Run(selected, moves[..k]).value.attempts[n].view, moves[k].e)
  }

  ghost predicate IsLetGo(selected: bool, moves: seq<Move>, n: nat) { exists k :: LetsGoAt(selected, moves, k, n) }

  lemma LetGoMore(selected: bool, moves: seq<Move>, m: Move, n: nat)
    requires Run(selected, moves).Some?
    ensures IsLetGo(selected, moves + [m], n)
      <==> IsLetGo(selected, moves, n) || LetsGoAt(selected, moves + [m], |moves|, n)
  {
    hide Run, LetsParentGo;
    var more := moves + [m];
    assert forall k :: 0 <= k < |moves| ==> more[..k] == moves[..k];
    if k: nat :| LetsGoAt(selected, more, k, n) {
      assert k < |moves| ==> LetsGoAt(selected, moves, k, n);
    }
    if k: nat :| LetsGoAt(selected, moves, k, n) {
      assert LetsGoAt(selected, more, k, n);
    }
  }

  /** Sessions are only added. */
  lemma {:induction false} SessionsStay(selected: bool, moves: seq<Move>, k: nat)
    requires Run(selected, moves).Some? && k <= |moves|
    ensures Run(selected, moves[..k]).Some?
    ensures |Run(selected, moves[..k]).value.attempts| <= |Run(selected, moves).value.attempts|
    decreases |moves|
  {
    hide IsEnabled, NextAttempt;
    if k == |moves| {
      assert moves[..k] == moves;
    } else {
      var start := moves[..|moves| - 1];
      SessionsStay(selected, start, k);
      assert start[..k] == moves[..k];
    }
  }

  /**
   * On every run the parent of a session counts as gone exactly when a negotiation of that session
   * ended with the simulation's stop confirmed, and was for a lost parent or saw research drained.
   */
  lemma {:induction false} GoneExactly(selected: bool, moves: seq<Move>, n: nat)
    requires Run(selected, moves).Some? && n < |Run(selected, moves).value.attempts|
    ensures IsGone(Run(selected, moves).value, n) <==> IsLetGo(selected, moves, n)
    decreases |moves|
  {
    hide LetsParentGo, IsLetGo, IsEnabled, NextAttempt, LetsGoAt, IsGone;
    if moves == [] {
      NobodyGone(selected, n);
    } else {
      var start, m := moves[..|moves| - 1], moves[|moves| - 1];
      var d := Run(selected, start).value;
      assert moves == start + [m] && moves[..|start|] == start;
      LetGoMore(selected, start, m, n);
      if n == |d.attempts| {
        NoneLetGoYet(selected, start, m, n);
        AddedIsNotGone(d, m);
      } else {
        GoneExactly(selected, start, n);
        GoneByMove(selected, start, m, n);
      }
    }
  }

  lemma NobodyGone(selected: bool, n: nat)
    ensures !IsGone(Desktop(selected, [NewAttempt()], false), n) && !IsLetGo(selected, [], n)
  {
  }

  /** A session that has just been added is not gone. */
  lemma AddedIsNotGone(d: Desktop, m: Move)
    requires CanMove(d, m) && |d.attempts| < |Moved(d, m).attempts|
    ensures !IsGone(Moved(d, m), |d.attempts|)
  {
    hide IsEnabled, NextAttempt;
  }

  lemma GoneByStep(d: Desktop, e: Event, n: nat)
    requires CanMove(d, Step(e)) && n < |d.attempts|
    ensures IsGone(Moved(d, Step(e)), n)
      <==> IsGone(d, n) || (n + 1 == |d.attempts| && LetsParentGo(d.attempts[n].view, e))
  {
    GoneStep(Current(d).view, e);
    assert NextAttempt(Current(d), e).view == NextView(Current(d).view, e);
    hide IsEnabled, NextView, NextAttempt, LetsParentGo;
  }

  lemma GoneByMove(selected: bool, start: seq<Move>, m: Move, n: nat)
    requires Run(selected, start).Some? && CanMove(Run(selected, start).value, m)
    requires n < |Run(selected, start).value.attempts|
    ensures IsGone(Moved(Run(selected, start).value, m), n)
      <==> IsGone(Run(selected, start).value, n) || LetsGoAt(selected, start + [m], |start|, n)
  {
    hide IsEnabled, NextAttempt, LetsParentGo, Run;
    var d := Run(selected, start).value;
    assert (start + [m])[..|start|] == start;
    if m.Step? {
      GoneByStep(d, m.e, n);
      hide IsGone, Moved, CanMove;
    }
  }

  lemma NoneLetGoYet(selected: bool, start: seq<Move>, m: Move, n: nat)
    requires Run(selected, start).Some? && n == |Run(selected, start).value.attempts|
    ensures !IsLetGo(selected, start, n) && !LetsGoAt(selected, start + [m], |start|, n)
  {
    hide LetsParentGo;
    assert (start + [m])[..|start|] == start;
    forall k | 0 <= k < |start| ensures !LetsGoAt(selected, start, k, n) {
      SessionsStay(selected, start, k);
    }
  }

  // ----- how a session ends

  /** The turn of a loop that ends it: the server is done or the parent gone, or the core is seen gone. */
  predicate IsLastTurn(v: View, e: Event) {
    || (e.PollStarting? && !HasStarted(v.life.web) && (v.life.web.Done? || v.talk.parentGone))
    || (e.PollServing? && (v.life.web.Done? || v.talk.parentGone || v.life.core.Exited?))
  }

  predicate PaperIsDone(e: Event) { e.PaperAnswers? && e.stop == Yes && e.again == Yes && e.closes }

  /** Which step takes a session where: the phases in order, each with every way into it. */
  lemma PhaseExactly(v: View, e: Event)
    requires IsEnabled(v, e)
    ensures var l, n := v.life, NextLife(v, e).phase;
      && (n == Opening <==> l.phase == Opening && !e.OpenFails? && !e.Spawn?)
      && (n == CoreStarting <==> e.Spawn? || (l.phase == CoreStarting && !e.CoreFails? && !e.Serve? && !e.Interrupt?))
      && (n == Ready <==> (e.PollStarting? && HasStarted(l.web))
                          || (l.phase == Ready && !e.Interrupt? && !IsLastTurn(v, e)))
    ensures var l, n := v.life, NextLife(v, e).phase;
      && (n == StoppingPaper <==> (IsLooping(l) && (e.Interrupt? || IsLastTurn(v, e)))
                                  || (l.phase == StoppingPaper && !e.Interrupt? && !e.PaperAnswers?))
      && (n == WaitingWeb <==> PaperIsDone(e)
                               || (l.phase == WaitingWeb && !e.Interrupt? && !e.WebIsWaited? && !e.WebTimesOut?))
      && (n == Ended <==> e.OpenFails? || e.Reap?)
  {
    EarlyPhaseExactly(v, e);
    LatePhaseExactly(v, e);
    hide NextLife, IsEnabled, IsLastTurn;
  }

  lemma EarlyPhaseExactly(v: View, e: Event)
    requires IsEnabled(v, e)
    ensures var l, n := v.life, NextLife(v, e).phase;
      && (n == Opening <==> l.phase == Opening && !e.OpenFails? && !e.Spawn?)
      && (n == CoreStarting <==> e.Spawn? || (l.phase == CoreStarting && !e.CoreFails? && !e.Serve? && !e.Interrupt?))
      && (n == Ready <==> (e.PollStarting? && HasStarted(l.web))
                          || (l.phase == Ready && !e.Interrupt? && !IsLastTurn(v, e)))
  {
    hide IsDrained, LetsGo, ServeOutcome;
  }

  lemma LatePhaseExactly(v: View, e: Event)
    requires IsEnabled(v, e)
    ensures var l, n := v.life, NextLife(v, e).phase;
      && (n == StoppingPaper <==> (IsLooping(l) && (e.Interrupt? || IsLastTurn(v, e)))
                                  || (l.phase == StoppingPaper && !e.Interrupt? && !e.PaperAnswers?))
      && (n == WaitingWeb <==> PaperIsDone(e)
                               || (l.phase == WaitingWeb && !e.Interrupt? && !e.WebIsWaited? && !e.WebTimesOut?))
      && (n == Ended <==> e.OpenFails? || e.Reap?)
  {
    hide IsDrained, LetsGo, ServeOutcome;
  }

  /** The server is told to exit, and the pipe is listened to, exactly from these steps on. */
  lemma OrdersExactly(v: View, e: Event)
    requires IsEnabled(v, e)
    ensures NextLife(v, e).shouldExit <==>
      || v.life.shouldExit || e.ServerStops? || LetsParentGo(v, e) || PaperIsDone(e)
      || (e.PollStarting? && !v.life.web.Done? && !HasStarted(v.life.web) && v.talk.parentGone)
    ensures NextLife(v, e).reader <==>
      || e.Serve?
      || (v.life.reader && !(e.ParentWrites? && e.eof) && !(IsLooping(v.life) && (e.Interrupt? || IsLastTurn(v, e))))
  {
    hide IsDrained, ServeOutcome;
  }

  /** What the two stops of the cleanup make of the simulation. */
  lemma PaperExactly(v: View, e: Event)
    requires IsEnabled(v, e)
    ensures var paper := NextLife(v, e).paper;
      && (paper == NeverServed <==> v.life.paper == NeverServed && !e.Serve? && !e.PaperAnswers?)
      && (e.Serve? ==> paper == Served)
      && (!e.Serve? && !e.PaperAnswers? ==> paper == v.life.paper)
      && (e.PaperAnswers? ==>
            && (paper == Stopped <==> PaperIsDone(e))
            && (paper == Unconfirmed <==> e.stop == No) && (paper == Unanswered <==> e.stop == NoAnswer)
            && (paper == Withdrawn <==> e.stop == Yes && e.again == No) && paper != Served)
  {
    hide IsDrained, LetsGo, ServeOutcome;
  }

  /** The core lives from its spawn until it dies or is reaped, and is known by the code it ended with. */
  lemma CoreExactly(v: View, e: Event, code: int)
    requires IsEnabled(v, e)
    ensures NextLife(v, e).core == Alive <==>
      e.Spawn? || (v.life.core == Alive && !e.CoreDies? && !(e.Reap? && e.reaped.Reaped?))
    ensures NextLife(v, e).core == Exited(code) <==>
      || e == CoreDies(code) || e == Reap(Reaped(code))
      || (v.life.core == Exited(code) && !e.Spawn? && !e.CoreDies? && !(e.Reap? && e.reaped.Reaped?))
  {
    hide IsDrained, LetsGo, ServeOutcome;
  }

  /** A negotiation begins with the oldest request, only when none is under way, and then ends or fails. */
  lemma TalkExactly(v: View, e: Event)
    requires IsEnabled(v, e) && OneNegotiation(v.talk)
    ensures NextTalk(v, e).waiting ==
      if e.ParentWrites? then v.talk.waiting + [e.eof]
      else if e.ExitBegins? then v.talk.waiting[1..]
      else v.talk.waiting
    ensures NextTalk(v, e).negotiating ==
      if e.ExitEnds? || e.ExitFails? then []
      else if e.ExitBegins? && v.talk.negotiating == [] then [v.talk.waiting[0]]
      else v.talk.negotiating
  {
    hide IsDrained, LetsGo;
  }

  /** When each message is printed. */
  ghost predicate IsSaid(v: View, e: Event, m: Message) {
    match m
    case ReadyMessage => e.PollStarting? && HasStarted(v.life.web)
    case CloseBlocked(reason) =>
      && e.ExitEnds? && e.i < |v.talk.negotiating| && !LetsParentGo(v, e)
      && (reason == PaperUnconfirmed <==> if v.talk.negotiating[e.i] then v.talk.drained else IsDrained(e.polls))
    case StopUnknown => e.ExitEnds? && e.i < |v.talk.negotiating| && v.talk.negotiating[e.i] && !e.stopped
    case Closed(code) => e == Reap(Reaped(code)) && v.talk.drained && code == 0
    case InterruptedMessage(code) => e == Reap(Reaped(code)) && !(v.talk.drained && code == 0)
  }

  /** Each message is printed exactly then, once, and what is unknown after what is blocked. */
  lemma SaidExactly(v: View, e: Event)
    requires IsEnabled(v, e)
    ensures forall m :: m in Said(v, e) <==> IsSaid(v, e, m)
    ensures |Said(v, e)| <= 1 || (|Said(v, e)| == 2 && Said(v, e)[1] == StopUnknown)
  {
    hide IsDrained;
  }

  predicate IsEnd(exit: Exit, lastThrow: Option<Exit>) {
    exit == if lastThrow.Some? then lastThrow.value else Returned
  }

  /** An exit changes by exceptions alone. */
  lemma ExitStep(a: Attempt, e: Event)
    requires IsGood(a) && IsEnabled(a.view, e)
    ensures NextLife(a.view, e).exit == if Throws(a, e).Some? then Throws(a, e).value else a.view.life.exit
  {
    hide IsTalkGood, FinishedExactly, CoreIsAccounted, LogIsTruthful, FailureIsWebs, WebEndIsSeen, IsDrained, LetsGo,
         ServeOutcome;
    if e.PollStarting? {
      hide TaskThrows;
    }
  }

  /** What stays true of the ways a session is left. */
  predicate EndsTruthfully(a: Attempt) {
    var l := a.view.life;
    && IsEnd(l.exit, a.lastThrow) && a.lastThrow != Some(Returned)
    && (ReadyMessage in a.view.log <==> l.phase == Ready || a.left.Some?)
    && (a.left.Some? ==> (a.left.value.talk.parentGone ==> a.view.talk.parentGone))
    && (a.left.Some? && a.lastThrow.None? ==> a.left.value.life.web.Done? || a.left.value.talk.parentGone)
    && (a.sawCrash ==> a.lastThrow.Some?)
    && ((l.phase == Reaping || l.phase == Ended) && a.lastThrow.None? ==> EndedCleanly(a))
  }

  /** Everything was stopped in order: the simulation, then the server by an ordinary return. */
  predicate EndedCleanly(a: Attempt) {
    && a.view.life.paper == Stopped && a.webEnd.Some? && a.webEnd.value.end == Returns && !a.reapFailed
    && (a.view.life.phase == Ended ==>
          a.view.life.core.Exited? && (a.view.talk.drained ==> a.view.life.core.code == 0))
  }

  lemma ThrowsAreExits(a: Attempt, e: Event)
    ensures Throws(a, e) != Some(Returned)
    ensures SeesCrash(a.view, e) ==> Throws(a, e).Some?
  {
  }

  lemma LeavingReady(a: Attempt, e: Event)
    requires IsEnabled(a.view, e) && a.view.life.phase == Ready && NextLife(a.view, e).phase != Ready
    requires Throws(a, e).None?
    ensures a.view.life.web.Done? || a.view.talk.parentGone
  {
    PhaseExactly(a.view, e);
    hide NextLife, TaskThrows;
  }

  lemma ReadyIsSaid(v: View, e: Event)
    requires IsEnabled(v, e)
    ensures ReadyMessage in v.log + Said(v, e) <==>
      ReadyMessage in v.log || (v.life.phase != Ready && NextLife(v, e).phase == Ready)
  {
    SaidWhat(v, e);
    PhaseExactly(v, e);
    hide NextLife, Said, NextTalk;
  }

  lemma LeftKept(a: Attempt, e: Event)
    requires EndsTruthfully(a) && IsEnabled(a.view, e)
    ensures var b := NextAttempt(a, e);
      && (ReadyMessage in b.view.log <==> b.view.life.phase == Ready || b.left.Some?)
      && (b.left.Some? ==> (b.left.value.talk.parentGone ==> b.view.talk.parentGone))
      && (b.left.Some? && b.lastThrow.None? ==> b.left.value.life.web.Done? || b.left.value.talk.parentGone)
  {
    NotedLeave(a, e);
    NotedExit(a, e);
    ReadyIsSaid(a.view, e);
    GoneStep(a.view, e);
    assert NextAttempt(a, e).view == NextView(a.view, e);
    hide NextAttempt, NextLife, NextTalk, Said, LetsParentGo, EndedCleanly, Throws, SeesCrash, IsEnabled;
    if a.view.life.phase == Ready && NextLife(a.view, e).phase != Ready && Throws(a, e).None? {
      LeavingReady(a, e);
    }
  }

  lemma PaperIsStopped(a: Attempt, e: Event)
    requires PaperFollowsPhase(a.view.life) && TaskIsItsEnd(a) && IsEnabled(a.view, e) && Throws(a, e).None?
    requires a.view.life.phase != Reaping && NextLife(a.view, e).phase == Reaping
    ensures NextLife(a.view, e).paper == Stopped && a.webEnd.Some? && TaskThrows(a.webEnd.value).None? && e.WebIsWaited?
  {
    hide IsDrained, LetsGo, ServeOutcome, TaskThrows;
  }

  /** While the core is waited for nothing else changes. */
  lemma ReapingFrame(v: View, e: Event)
    requires IsEnabled(v, e) && v.life.phase == Reaping && !e.Reap?
    ensures NextLife(v, e).paper == v.life.paper && NextLife(v, e).phase == Reaping && e.CoreDies?
  {
  }

  lemma ReapedCleanly(a: Attempt, e: Event)
    requires IsEnabled(a.view, e) && e.Reap? && Throws(a, e).None? && !a.reapFailed
    ensures var l := NextLife(a.view, e);
      && l.paper == a.view.life.paper && !NextAttempt(a, e).reapFailed
      && l.core.Exited? && (a.view.talk.drained ==> l.core.code == 0)
    ensures NextAttempt(a, e).view.talk == a.view.talk
  {
  }

  lemma ReapFailsAtEnd(a: Attempt, e: Event)
    requires IsEnabled(a.view, e) && !e.Reap?
    ensures NextAttempt(a, e).reapFailed == a.reapFailed
  {
    hide NextView, Throws, SeesCrash;
  }

  lemma CleanKept(a: Attempt, e: Event)
    requires IsGood(a) && EndsTruthfully(a) && IsEnabled(a.view, e) && NextAttempt(a, e).lastThrow.None?
    requires NextLife(a.view, e).phase == Reaping || NextLife(a.view, e).phase == Ended
    ensures EndedCleanly(NextAttempt(a, e))
  {
    NotedStep(a, e);
    NotedExit(a, e);
    assert a.view.life.phase != Ended && !a.reapFailed;
    PhaseExactly(a.view, e);
    if e.Reap? {
      ReapedCleanly(a, e);
    } else {
      ReapFailsAtEnd(a, e);
      hide IsLifeGood, IsTalkGood;
      assert PaperFollowsPhase(a.view.life) by {
        assert IsLifeGood(a.view.life);
      }
      if a.view.life.phase == Reaping {
        ReapingFrame(a.view, e);
      } else if !e.OpenFails? {
        PaperIsStopped(a, e);
      }
    }
    hide NextAttempt, NextLife, IsGood, IsEnabled, LogIsTruthful;
  }

  lemma EndsKept(a: Attempt, e: Event)
    requires IsGood(a) && EndsTruthfully(a) && IsEnabled(a.view, e)
    ensures EndsTruthfully(NextAttempt(a, e))
  {
    ExitStep(a, e);
    NotedStep(a, e);
    NotedExit(a, e);
    ThrowsAreExits(a, e);
    LeftKept(a, e);
    var next := NextLife(a.view, e).phase;
    if NextAttempt(a, e).lastThrow.None? && (next == Reaping || next == Ended) {
      CleanKept(a, e);
    }
    hide NextAttempt, NextLife, Throws, SeesCrash, IsGood, EndedCleanly;
  }

  lemma NewEnds()
    ensures EndsTruthfully(NewAttempt())
  {
  }

  lemma MoveEnds(d: Desktop, m: Move)
    requires IsGoodProcess(d) && CanMove(d, m) && forall a :: a in d.attempts ==> EndsTruthfully(a)
    ensures forall a :: a in Moved(d, m).attempts ==> EndsTruthfully(a)
  {
    hide IsGood, IsEnabled, NextAttempt, EndsTruthfully, WasUnused;
    assert Current(d) in d.attempts;
    NewEnds();
    if m.Step? {
      EndsKept(Current(d), m.e);
    }
  }

  lemma {:induction false} RunEnds(selected: bool, moves: seq<Move>)
    requires Run(selected, moves).Some?
    ensures forall a :: a in Run(selected, moves).value.attempts ==> EndsTruthfully(a)
    decreases |moves|
  {
    hide CanMove, EndsTruthfully, IsGoodProcess;
    if moves == [] {
      NewEnds();
    } else {
      var start, m := moves[..|moves| - 1], moves[|moves| - 1];
      RunKeeps(selected, start);
      RunEnds(selected, start);
      MoveEnds(Run(selected, start).value, m);
    }
  }

  /**
   * On every run a session's exit is the latest exception raised in it, whichever statement raised it, and
   * an ordinary return when there was none. A session that ended so was stopped in order: its simulation
   * confirmed, its server returned, its core reaped and, after a completed drain, exited with zero.
   */
  lemma ExitIsLastThrow(d: Desktop, a: Attempt)
    requires IsReachable(d) && a in d.attempts
    ensures a.view.life.exit == match a.lastThrow case Some(exit) => exit case None => Returned
    ensures a.view.life.phase == Ended && a.lastThrow.None? ==> EndedCleanly(a)
  {
    hide Run, EndedCleanly;
    var moves :| Run(d.selected, moves) == Some(d);
    RunEnds(d.selected, moves);
  }

  /**
   * A session that reported itself ready and ended by an ordinary return had left serving because its server
   * was done, or because a negotiation of its own had let the parent go.
   */
  lemma ReadyReturnsOnlyWhen(selected: bool, moves: seq<Move>, n: nat)
    requires Run(selected, moves).Some? && n < |Run(selected, moves).value.attempts|
    requires var a := Run(selected, moves).value.attempts[n];
      ReadyMessage in a.view.log && a.view.life.phase == Ended && a.lastThrow.None?
    ensures var a := Run(selected, moves).value.attempts[n];
      a.left.Some? && (a.left.value.life.web.Done? || (a.left.value.talk.parentGone && IsLetGo(selected, moves, n)))
  {
    hide Run, IsLetGo, EndedCleanly, IsEnd;
    RunEnds(selected, moves);
    assert Run(selected, moves).value.attempts[n] in Run(selected, moves).value.attempts;
    GoneExactly(selected, moves, n);
  }

  /** A session that saw its core gone while its server ran and its parent was there never returns ordinarily. */
  lemma CrashIsFatal(d: Desktop, a: Attempt)
    requires IsReachable(d) && a in d.attempts && a.sawCrash
    ensures a.view.life.exit != Returned
  {
    hide Run;
    var moves :| Run(d.selected, moves) == Some(d);
    RunEnds(d.selected, moves);
  }

  // ----- a fallback without a confirmed stop

  function AloneWith(a: Attempt): Desktop { Desktop(true, [a], false) }

  lemma RunMore(moves: seq<Move>, m: Move)
    requires Run(true, moves).Some? && CanMove(Run(true, moves).value, m)
    ensures Run(true, moves + [m]) == Some(Moved(Run(true, moves).value, m))
  {
    hide CanMove, Moved;
    assert (moves + [m])[..|moves|] == moves;
  }

  lemma AloneMore(moves: seq<Move>, a: Attempt, e: Event)
    requires Run(true, moves) == Some(AloneWith(a)) && IsEnabled(a.view, e)
    ensures Run(true, moves + [Step(e)]) == Some(AloneWith(NextAttempt(a, e)))
  {
    hide IsEnabled, NextAttempt;
    assert CanMove(AloneWith(a), Step(e));
    hide Run;
    RunMore(moves, Step(e));
    assert Moved(AloneWith(a), Step(e)) == AloneWith(NextAttempt(a, e));
  }

  /** The latest answer given was that the simulation is stopped, or it never served. */
  predicate IsStopConfirmed(a: Attempt) { a.view.life.paper == NeverServed || a.lastStop == Some(true) }

  predicate FellBackUnstopped(d: Desktop) { |d.attempts| == 2 && !IsStopConfirmed(d.attempts[0]) }

  /**
   * In this cleanup no confirmed stop is left, and the startup is not finished by it: the stop
   * raises, or it is confirmed and then denied by the stop inside `close`.
   */
  predicate LosesStop(m: Move) {
    m.Step? && m.e.PaperAnswers? && (m.e.stop == NoAnswer || (m.e.stop == Yes && m.e.again == No))
  }

  function ServingRun(): seq<Move> { [Step(Spawn)] + [Step(Serve)] }

  /** The web server of a selected workspace exits before it started. */
  function FailingRun(): seq<Move> { ServingRun() + [Step(WebEnds(ExitsNonzero))] + [Step(PollStarting)] }

  /** Then the simulation gives these answers, and the process goes on from the failed session. */
  function UnstoppedRun(stop: StopAnswer, again: StopAnswer, closes: bool): seq<Move> {
    FailingRun() + [Step(PaperAnswers(stop, again, closes))] + [Step(Reap(Reaped(0)))] + [Conclude]
  }

  /**
   * A confirmed stop is not needed for the fallback: when the web server of a selected workspace
   * fails to start and the simulation's stop then raises, or is denied after it was confirmed, the
   * second session starts all the same.
   */
  lemma UnstoppedFallsBack(stop: StopAnswer, again: StopAnswer, closes: bool)
    requires LosesStop(Step(PaperAnswers(stop, again, closes)))
    ensures Run(true, UnstoppedRun(stop, again, closes)).Some?
    ensures FellBackUnstopped(Run(true, UnstoppedRun(stop, again, closes)).value)
  {
    var failed := FailedStart();
    var last := CleanedUp(failed, stop, again, closes);
    hide Run, NextAttempt, FailingRun;
    assert CanMove(AloneWith(last), Conclude);
    RunMore(FailingRun() + [Step(PaperAnswers(stop, again, closes))] + [Step(Reap(Reaped(0)))], Conclude);
    assert FellBackUnstopped(Moved(AloneWith(last), Conclude));
  }

  function LifeAfterFailedStart(): Life {
    Life(StoppingPaper, Raised, Alive, Done(false, WebFailure), false, Served, false, false)
  }

  lemma CleanedUp(failed: Attempt, stop: StopAnswer, again: StopAnswer, closes: bool) returns (last: Attempt)
    requires LosesStop(Step(PaperAnswers(stop, again, closes)))
    requires Run(true, FailingRun()) == Some(AloneWith(failed)) && failed.lastStop.None?
    requires failed.view.life == LifeAfterFailedStart() && !failed.view.talk.drained
    ensures Run(true, FailingRun() + [Step(PaperAnswers(stop, again, closes))] + [Step(Reap(Reaped(0)))])
            == Some(AloneWith(last))
    ensures !IsStopConfirmed(last)
    ensures last.view.life.phase == Ended && last.view.life.exit == Raised && !last.view.life.finished
  {
    hide Run, AloneWith, IsDrained, FailingRun;
    AloneMore(FailingRun(), failed, PaperAnswers(stop, again, closes));
    var broke := NextAttempt(failed, PaperAnswers(stop, again, closes));
    AloneMore(FailingRun() + [Step(PaperAnswers(stop, again, closes))], broke, Reap(Reaped(0)));
    last := NextAttempt(broke, Reap(Reaped(0)));
  }

  lemma FailedStart() returns (failed: Attempt)
    ensures Run(true, FailingRun()) == Some(AloneWith(failed)) && failed.lastStop.None? && !failed.view.talk.drained
    ensures failed.view.life == LifeAfterFailedStart()
  {
    var served := ServedSession();
    hide Run, AloneWith, IsDrained, ServingRun;
    AloneMore(ServingRun(), served, WebEnds(ExitsNonzero));
    var ended := NextAttempt(served, WebEnds(ExitsNonzero));
    AloneMore(ServingRun() + [Step(WebEnds(ExitsNonzero))], ended, PollStarting);
    failed := NextAttempt(ended, PollStarting);
  }

  lemma ServedSession() returns (served: Attempt)
    ensures Run(true, ServingRun()) == Some(AloneWith(served)) && served.lastStop.None? && !served.view.talk.drained
    ensures served.view.life == Life(Starting, Returned, Alive, Running(false), false, Served, false, true)
  {
    var first := NewAttempt();
    assert Run(true, []) == Some(AloneWith(first));
    hide Run, AloneWith, IsDrained;
    AloneMore([], first, Spawn);
    assert [] + [Step(Spawn)] == [Step(Spawn)];
    var spawned := NextAttempt(first, Spawn);
    AloneMore([Step(Spawn)], spawned, Serve);
    served := NextAttempt(spawned, Serve);
  }

  // ----- when a fallback has its stop

  /** What the latest answer was follows from the cleanup's outcome, as long as nothing was negotiated. */
  predicate StopFollowsPaper(a: Attempt) {
    !a.messaged ==>
      match a.view.life.paper
      case Stopped => a.lastStop == Some(true)
      case Unclosed => a.lastStop == Some(true)
      case Unconfirmed => a.lastStop == Some(false)
      case Withdrawn => a.lastStop == Some(false)
      case _ => a.lastStop == None
  }

  lemma PaperStaysElsewhere(v: View, e: Event)
    requires IsEnabled(v, e) && PaperFollowsPhase(v.life) && !e.PaperAnswers?
    ensures NextLife(v, e).paper == (if e.Serve? then Served else v.life.paper)
    ensures e.Serve? ==> v.life.paper == NeverServed
  {
    hide IsDrained, LetsGo, ServeOutcome;
  }

  lemma StopFollowsAnswer(a: Attempt, e: Event)
    requires StopFollowsPaper(a) && PaperFollowsPhase(a.view.life) && IsEnabled(a.view, e) && e.PaperAnswers?
    ensures StopFollowsPaper(NextAttempt(a, e))
  {
    hide NextTalk, Said;
    assert a.view.life.paper == Served;
  }

  lemma StopFollowsStep(a: Attempt, e: Event)
    requires StopFollowsPaper(a) && SilentParent(a) && PaperFollowsPhase(a.view.life) && IsEnabled(a.view, e)
    ensures StopFollowsPaper(NextAttempt(a, e))
  {
    hide NextAttempt, StopFollowsPaper, SilentParent, PaperFollowsPhase, IsEnabled;
    if e.PaperAnswers? {
      StopFollowsAnswer(a, e);
    } else {
      StopStaysElsewhere(a, e);
    }
  }

  lemma StopStaysElsewhere(a: Attempt, e: Event)
    requires StopFollowsPaper(a) && SilentParent(a) && PaperFollowsPhase(a.view.life) && IsEnabled(a.view, e)
    requires !e.PaperAnswers?
    ensures StopFollowsPaper(NextAttempt(a, e))
  {
    PaperStaysElsewhere(a.view, e);
    LastStopStep(a, e);
    hide NextAttempt, PaperFollowsPhase, IsEnabled, NextLife;
  }

  lemma LastStopStep(a: Attempt, e: Event)
    requires SilentParent(a) && IsEnabled(a.view, e) && !e.PaperAnswers?
    ensures NextAttempt(a, e).view.life == NextLife(a.view, e)
    ensures !NextAttempt(a, e).messaged ==> !a.messaged && NextAttempt(a, e).lastStop == a.lastStop
  {
    hide IsDrained, NextLife, NextTalk, Said, ServeOutcome;
  }

  ghost predicate LostAStop(moves: seq<Move>) { exists m :: m in moves && LosesStop(m) }

  lemma LostSnoc(moves: seq<Move>, m: Move)
    ensures LostAStop(moves + [m]) <==> LostAStop(moves) || LosesStop(m)
  {
    assert m in moves + [m];
    assert forall x :: x in moves + [m] <==> x in moves || x == m;
  }

  /** The only session so far was left without a confirmed stop. */
  predicate HasLostStop(d: Desktop) { |d.attempts| == 1 && IsLost(d.attempts[0].view.life.paper) }

  predicate IsLost(paper: Paper) { paper == Withdrawn || paper == Unanswered }

  lemma LosesExactly(v: View, e: Event)
    requires IsEnabled(v, e) && PaperFollowsPhase(v.life)
    ensures IsLost(NextLife(v, e).paper) <==> IsLost(v.life.paper) || LosesStop(Step(e))
  {
    hide IsDrained, LetsGo;
  }

  lemma StepLosesExactly(d: Desktop, e: Event)
    requires IsGoodProcess(d) && CanMove(d, Step(e)) && |d.attempts| == 1
    ensures HasLostStop(Moved(d, Step(e))) <==> HasLostStop(d) || LosesStop(Step(e))
  {
    assert d.attempts[0] in d.attempts;
    assert PaperFollowsPhase(d.attempts[0].view.life);
    LosesExactly(d.attempts[0].view, e);
    assert NextAttempt(d.attempts[0], e).view.life == NextLife(d.attempts[0].view, e);
    hide IsGoodProcess, IsEnabled, NextLife, NextAttempt, IsLost, LosesStop;
  }

  lemma MoveLosesExactly(d: Desktop, m: Move)
    requires IsGoodProcess(d) && CanMove(d, m) && |Moved(d, m).attempts| == 1
    ensures |d.attempts| == 1 && (HasLostStop(Moved(d, m)) <==> HasLostStop(d) || LosesStop(m))
  {
    hide IsGoodProcess, IsEnabled, NextAttempt, IsLost;
    if m.Step? {
      StepLosesExactly(d, m.e);
      hide HasLostStop, LosesStop;
    }
  }

  lemma MoveKeepsStop(d: Desktop, m: Move)
    requires IsGoodProcess(d) && CanMove(d, m) && |Moved(d, m).attempts| == 1 && StopFollowsPaper(d.attempts[0])
    ensures |d.attempts| == 1 && StopFollowsPaper(Moved(d, m).attempts[0])
  {
    assert d.attempts[0] in d.attempts;
    hide IsEnabled, StopFollowsPaper, NextAttempt, IsGoodProcess;
    if m.Step? {
      StopFollowsStep(d.attempts[0], m.e);
    }
  }

  lemma NothingLost(selected: bool)
    ensures !HasLostStop(Desktop(selected, [NewAttempt()], false)) && !LostAStop([]) && StopFollowsPaper(NewAttempt())
  {
  }

  lemma {:induction false} LostExactly(selected: bool, moves: seq<Move>)
    requires Run(selected, moves).Some? && |Run(selected, moves).value.attempts| == 1
    ensures HasLostStop(Run(selected, moves).value) <==> LostAStop(moves)
    ensures StopFollowsPaper(Run(selected, moves).value.attempts[0])
    decreases |moves|
  {
    hide Moved, CanMove, LosesStop, HasLostStop, LostAStop, IsGoodProcess, NewAttempt, StopFollowsPaper;
    NothingLost(selected);
    if moves != [] {
      var start, m := moves[..|moves| - 1], moves[|moves| - 1];
      RunKeeps(selected, start);
      MoveLosesExactly(Run(selected, start).value, m);
      LostExactly(selected, start);
      MoveKeepsStop(Run(selected, start).value, m);
      assert moves == start + [m];
      LostSnoc(start, m);
    }
  }

  /**
   * A fallback finds the simulation confirmed stopped, or never served, exactly when in no step of
   * the run its stop raised or was denied after it was confirmed; a close that fails otherwise
   * leaves the confirmed stop as it is.
   */
  lemma FallbackStopExactly(selected: bool, moves: seq<Move>)
    requires Run(selected, moves).Some?
    requires CanMove(Run(selected, moves).value, Conclude) && FallsBack(Run(selected, moves).value)
    ensures IsStopConfirmed(Run(selected, moves).value.attempts[0]) <==> !LostAStop(moves)
  {
    RunKeeps(selected, moves);
    LostExactly(selected, moves);
    var d := Run(selected, moves).value;
    assert d.attempts[0] in d.attempts;
    FallbackIsUnused(d.attempts[0]);
    hide Run, LostAStop, IsGood;
  }
}
