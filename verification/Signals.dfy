/**
 * Stopping a process group: the deadline watcher, the context's hook, the escalation it starts and the
 * runner that waits for the command, interleaved step by step.
 */
module Signals {
  import opened Wrappers

  datatype Signal = Term | Kill

  /** One delivery: the signal, the group and when. */
  datatype Sent = Sent(signal: Signal, group: nat, at: nat)

  /** Where Run is. Stop1 is the stop after Wait, Stop2 the deferred one. */
  datatype RunPc =
    | Preparing | Started | Grouped | Waiting | Reaped
    | Stop1 | Stop1Wait | AwaitWatcher | Stop2 | Stop2Close | Stop2Wait | Returned

  datatype WatcherPc = Unborn | Selecting | Firing | Quit

  datatype HookPc = Idle | Calling | Called

  /** Inside the once of fire, by one caller. */
  datatype Caller = Watcher | Hook
  datatype FirePc = Entered | Announced | Targeting(group: nat) | Sending(group: nat)
  datatype Once = Free | Held(holder: Caller, at: FirePc) | Complete

  datatype KillerPc = Absent | Arming(group: nat) | Pending(group: nat, due: nat) | Killing(group: nat) | Finished

  datatype State = State(
    run: RunPc, watcher: WatcherPc, hook: HookPc, once: Once, killer: KillerPc,
    fired: bool, done: bool, exited: bool, group: nat,
    cancelled: bool, ended: bool, timedOut: bool, early: bool,
    now: nat, sent: seq<Sent>)

  /** What stays fixed for one command. */
  datatype Setting = Setting(pid: nat, deadline: nat, grace: nat)

  ghost predicate Sound(c: Setting) { c.pid > 0 }

  datatype RunStep =
    | StartFails | StartWorks | SetGroup | Watch | WaitReturns | CloseDone | LookFired | SeeExited
    | WatcherGone | CloseAgain | LookAgain | SeeExitedAgain

  datatype Action =
    // the world
    | Tick | EndContext | EndProcess
    | Run(step: RunStep)
    // the deadline watcher, and exec's Cancel
    | DeadlineHits | WatcherQuits | HookCalls
    // fire
    | Enter(who: Caller) | Announce | Load | SendTerm | Spawn
    // escalate
    | Arm | GraceOver | Disarm | SendKill

  ghost predicate InFire(s: State, who: Caller) {
    match who case Watcher => s.watcher == Firing case Hook => s.hook == Calling
  }

  function Leave(s: State, who: Caller): State {
    s.(watcher := if who == Watcher then Quit else s.watcher, hook := if who == Hook then Called else s.hook)
  }

  ghost predicate Alive(s: State) { s.run == Started || s.run == Grouped || s.run == Waiting }

  /** Wait returns after its own call of Cancel has, and starts none after. */
  ghost predicate RunCan(s: State, step: RunStep) {
    match step
    case StartFails => s.run == Preparing
    case StartWorks => s.run == Preparing
    case SetGroup => s.run == Started
    case Watch => s.run == Grouped
    case WaitReturns => s.run == Waiting && s.ended && s.hook != Calling
    case CloseDone => s.run == Reaped
    case LookFired => s.run == Stop1
    case SeeExited => s.run == Stop1Wait && s.exited
    case WatcherGone => s.run == AwaitWatcher && s.watcher == Quit
    case CloseAgain => s.run == Stop2
    case LookAgain => s.run == Stop2Close
    case SeeExitedAgain => s.run == Stop2Wait && s.exited
  }

  /** When a step can be taken. */
  ghost predicate Enabled(c: Setting, s: State, a: Action) {
    match a
    case Tick => true
    case EndContext => !s.cancelled
    case EndProcess => Alive(s) && !s.ended
    case Run(step) => RunCan(s, step)
    case DeadlineHits => s.watcher == Selecting && s.now >= c.deadline
    case WatcherQuits => s.watcher == Selecting && s.done
    case HookCalls => s.cancelled && s.hook == Idle && Alive(s)
    case Enter(who) => InFire(s, who) && (s.once == Free || s.once == Complete)
    case Announce => s.once.Held? && s.once.at == Entered
    case Load => s.once.Held? && s.once.at == Announced
    case SendTerm => s.once.Held? && s.once.at.Targeting?
    case Spawn => s.once.Held? && s.once.at.Sending?
    case Arm => s.killer.Arming?
    case GraceOver => s.killer.Pending? && s.now >= s.killer.due
    case Disarm => s.killer.Pending? && s.done
    case SendKill => s.killer.Killing?
  }

  function RunGoes(s: State, step: RunStep): RunPc {
    match step
    case StartFails => Stop2
    case StartWorks => Started
    case SetGroup => Grouped
    case Watch => Waiting
    case WaitReturns => Reaped
    case CloseDone => Stop1
    case LookFired => if s.fired then Stop1Wait else AwaitWatcher
    case SeeExited => AwaitWatcher
    case WatcherGone => Stop2
    case CloseAgain => Stop2Close
    case LookAgain => if s.fired then Stop2Wait else Returned
    case SeeExitedAgain => Returned
  }

  /** Run records the group, starts the watcher and closes done on its way. */
  function AfterRun(c: Setting, s: State, step: RunStep): State {
    s.(run := RunGoes(s, step),
       group := if step == SetGroup then c.pid else s.group,
       watcher := if step == Watch then Selecting else s.watcher,
       done := s.done || step == CloseDone || step == CloseAgain)
  }

  function Next(c: Setting, s: State, a: Action): State {
    match a
    case Tick => s.(now := s.now + 1)
    case EndContext => s.(cancelled := true)
    case EndProcess => s.(ended := true)
    case Run(step) => AfterRun(c, s, step)
    case DeadlineHits => s.(watcher := Firing, timedOut := true)
    case WatcherQuits => s.(watcher := Quit)
    case HookCalls => s.(hook := Calling)
    case Enter(who) => if s.once == Complete then Leave(s, who) else s.(once := Held(who, Entered))
    case Announce => if s.once.Held? then s.(once := s.once.(at := Announced), fired := true) else s
    case Load =>
      if !s.once.Held? then s
      else if s.group == 0 then Leave(s, s.once.holder).(exited := true, once := Complete, early := true)
      else s.(once := s.once.(at := Targeting(s.group)))
    case SendTerm =>
      if s.once.Held? && s.once.at.Targeting? then
        s.(once := s.once.(at := Sending(s.once.at.group)), sent := s.sent + [Sent(Term, s.once.at.group, s.now)])
      else s
    case Spawn =>
      if s.once.Held? && s.once.at.Sending? then Leave(s, s.once.holder).(once := Complete, killer := Arming(s.once.at.group)) else s
    case Arm => if s.killer.Arming? then s.(killer := Pending(s.killer.group, s.now + c.grace)) else s
    case GraceOver => if s.killer.Pending? then s.(killer := Killing(s.killer.group)) else s
    case Disarm => s.(killer := Finished, exited := true)
    case SendKill =>
      if s.killer.Killing? then s.(killer := Finished, exited := true, sent := s.sent + [Sent(Kill, s.killer.group, s.now)]) else s
  }

  const INITIAL := State(Preparing, Unborn, Idle, Free, Absent, false, false, false, 0, false, false, false, false, 0, [])

  ghost function After(c: Setting, actions: seq<Action>): Option<State> {
    if |actions| == 0 then Some(INITIAL)
    else
      match After(c, actions[..|actions| - 1])
      case None => None
      case Some(s) => if Enabled(c, s, actions[|actions| - 1]) then Some(Next(c, s, actions[|actions| - 1])) else None
  }

  ghost predicate Reachable(c: Setting, actions: seq<Action>, s: State) { After(c, actions) == Some(s) }

  // ----- what every step keeps -----

  ghost predicate OneTerm(c: Setting, s: State) { |s.sent| == 1 && s.sent[0] == Sent(Term, c.pid, s.sent[0].at) && s.sent[0].at <= s.now }

  ghost predicate Both(c: Setting, s: State) {
    && |s.sent| == 2 && s.sent[0] == Sent(Term, c.pid, s.sent[0].at)
    && s.sent[1] == Sent(Kill, c.pid, s.sent[1].at) && s.sent[0].at + c.grace <= s.sent[1].at <= s.now
  }

  /** fire and escalate: how far they are, and what has been sent. */
  ghost predicate FireOk(c: Setting, s: State) {
    match s.once
    case Free => !s.fired && !s.exited && !s.early && s.sent == [] && s.killer == Absent
    case Held(holder, at) =>
      && InFire(s, holder) && !s.exited && !s.early && s.killer == Absent && (s.fired <==> at != Entered)
      && (match at
          case Targeting(g) => g == c.pid && s.sent == []
          case Sending(g) => g == c.pid && OneTerm(c, s)
          case _ => s.sent == [])
    case Complete =>
      && s.fired
      && match s.killer
         case Absent => s.early && s.exited && s.sent == []
         case Arming(g) => g == c.pid && !s.early && !s.exited && OneTerm(c, s)
         case Pending(g, due) => g == c.pid && !s.early && !s.exited && OneTerm(c, s) && s.sent[0].at + c.grace <= due
         case Killing(g) => g == c.pid && !s.early && !s.exited && OneTerm(c, s) && s.sent[0].at + c.grace <= s.now
         case Finished => !s.early && s.exited && (OneTerm(c, s) || Both(c, s))
  }

  /** Run, the watcher and the hook. */
  ghost predicate RunOk(c: Setting, s: State) {
    && (s.group == 0 || s.group == c.pid)
    && (s.group == 0 ==> s.watcher == Unborn)
    && (s.early ==> s.cancelled)
    && (s.timedOut ==> s.now >= c.deadline) && (s.watcher == Firing ==> s.timedOut)
    && (s.hook != Idle ==> s.cancelled)
    && match s.run
       case Preparing => s.group == 0 && s.hook == Idle && s.once == Free && !s.done
       case Started => s.group == 0 && !s.done
       case Grouped => s.group == c.pid && s.watcher == Unborn && !s.done
       case Waiting => s.watcher != Unborn && !s.done
       case Reaped => s.watcher != Unborn && s.hook != Calling && !s.done
       case Stop1 => s.watcher != Unborn && s.hook != Calling && s.done
       case Stop1Wait => s.watcher != Unborn && s.hook != Calling && s.done && s.fired
       case AwaitWatcher => s.watcher != Unborn && s.hook != Calling && s.done
       case Stop2 => (s.watcher == Quit || (s.watcher == Unborn && s.once == Free)) && s.hook != Calling
       case Stop2Close => (s.watcher == Quit || (s.watcher == Unborn && s.once == Free)) && s.hook != Calling && s.done
       case Stop2Wait => s.watcher == Quit && s.hook != Calling && s.done && s.fired
       case Returned => (s.watcher == Quit || (s.watcher == Unborn && s.once == Free)) && s.hook != Calling && s.done && (s.fired ==> s.exited)
  }

  /** While the command runs the escalation is not disarmed: it ends with the KILL. */
  ghost predicate Pressed(c: Setting, s: State) { !s.done && s.killer == Finished ==> Both(c, s) }

  ghost predicate Ok(c: Setting, s: State) { FireOk(c, s) && RunOk(c, s) && Pressed(c, s) }

  ghost predicate OfFire(a: Action) { a.Enter? || a.Announce? || a.Load? || a.SendTerm? || a.Spawn? }

  ghost predicate OfKiller(a: Action) { a.Arm? || a.GraceOver? || a.Disarm? || a.SendKill? }

  /** Nothing the escalation is made of changes, but time may pass. */
  ghost predicate Idles(s: State, t: State) {
    && t.once == s.once && t.killer == s.killer && t.fired == s.fired && t.exited == s.exited && t.early == s.early
    && t.sent == s.sent && t.now >= s.now && (s.once.Held? ==> InFire(t, s.once.holder))
  }

  lemma IdleKeeps(c: Setting, s: State, t: State)
    requires FireOk(c, s) && Idles(s, t)
    ensures FireOk(c, t)
  {
    hide InFire;
  }

  ghost predicate OfHelper(a: Action) { a.DeadlineHits? || a.WatcherQuits? || a.HookCalls? }

  lemma HelperIdles(c: Setting, s: State, a: Action)
    requires Enabled(c, s, a) && OfHelper(a) && (s.once.Held? ==> InFire(s, s.once.holder))
    ensures Idles(s, Next(c, s, a))
  {
    match a
    case DeadlineHits =>
    case WatcherQuits =>
    case HookCalls =>
  }

  lemma RunIdles(c: Setting, s: State, step: RunStep)
    requires (s.once.Held? ==> InFire(s, s.once.holder)) && (step == Watch ==> s.watcher == Unborn)
    ensures Idles(s, AfterRun(c, s, step))
  {
    hide RunGoes;
  }

  lemma WorldIdles(c: Setting, s: State, a: Action)
    requires (a.Tick? || a.EndContext? || a.EndProcess?) && (s.once.Held? ==> InFire(s, s.once.holder))
    ensures Idles(s, Next(c, s, a))
  {
  }

  lemma OthersIdle(c: Setting, s: State, a: Action)
    requires Enabled(c, s, a) && !OfFire(a) && !OfKiller(a) && (s.once.Held? ==> InFire(s, s.once.holder))
    requires s.run == Grouped ==> s.watcher == Unborn
    ensures Idles(s, Next(c, s, a))
  {
    if a.Run? {
      hide Idles, InFire, AfterRun;
      RunIdles(c, s, a.step);
    } else {
      hide Idles, InFire, Next, Enabled;
      if OfHelper(a) { HelperIdles(c, s, a); } else { WorldIdles(c, s, a); }
    }
  }

  lemma KillerKeeps(c: Setting, s: State, a: Action)
    requires FireOk(c, s) && Enabled(c, s, a) && OfKiller(a)
    ensures FireOk(c, Next(c, s, a))
  {
    assert s.once == Complete;
  }

  lemma EnterKeeps(c: Setting, s: State, who: Caller)
    requires FireOk(c, s) && InFire(s, who) && (s.once == Free || s.once == Complete)
    ensures FireOk(c, Next(c, s, Enter(who)))
  {
    hide OneTerm, Both;
    var t := Next(c, s, Enter(who));
    if s.once == Complete {
      assert t == Leave(s, who);
      hide Next;
      SameNow(c, s, t);
    } else {
      assert t == s.(once := Held(who, Entered));
    }
  }

  lemma SameNow(c: Setting, s: State, t: State)
    requires s.sent == t.sent && s.now == t.now
    ensures OneTerm(c, s) == OneTerm(c, t) && Both(c, s) == Both(c, t)
  {
  }

  lemma OnceKeeps(c: Setting, s: State, a: Action)
    requires FireOk(c, s) && Enabled(c, s, a) && (a.Announce? || a.Load? || a.SendTerm? || a.Spawn?)
    requires s.group == 0 || s.group == c.pid
    ensures FireOk(c, Next(c, s, a))
  {
    assert s.once.Held?;
    match a
    case Announce =>
    case Load =>
    case SendTerm =>
    case Spawn =>
  }

  lemma FireKeeps(c: Setting, s: State, a: Action)
    requires Sound(c) && Ok(c, s) && Enabled(c, s, a)
    ensures FireOk(c, Next(c, s, a))
  {
    assert s.once.Held? ==> InFire(s, s.once.holder);
    assert s.run == Grouped ==> s.watcher == Unborn;
    assert s.group == 0 || s.group == c.pid;
    hide FireOk, RunOk, Pressed, Next, InFire;
    if a.Enter? {
      EnterKeeps(c, s, a.who);
    } else if OfFire(a) {
      OnceKeeps(c, s, a);
    } else if OfKiller(a) {
      KillerKeeps(c, s, a);
    } else {
      OthersIdle(c, s, a);
      IdleKeeps(c, s, Next(c, s, a));
    }
  }

  lemma RunKeeps(c: Setting, s: State, a: Action)
    requires Sound(c) && Ok(c, s) && Enabled(c, s, a)
    ensures RunOk(c, Next(c, s, a))
  {
    hide OneTerm, Both, Pressed, RunOk;
    if OfFire(a) {
      FireKeepsRun(c, s, a);
    } else if a.Run? {
      RunStepKeepsRun(c, s, a.step);
    } else {
      RestKeepsRun(c, s, a);
    }
  }

  lemma FireKeepsRun(c: Setting, s: State, a: Action)
    requires FireOk(c, s) && RunOk(c, s) && Enabled(c, s, a) && OfFire(a)
    ensures RunOk(c, Next(c, s, a))
  {
    hide OneTerm, Both;
    match a
    case Enter(_) =>
    case Load =>
    case Spawn =>
    case _ =>
  }

  lemma RunStepKeepsRun(c: Setting, s: State, step: RunStep)
    requires Sound(c) && FireOk(c, s) && RunOk(c, s) && RunCan(s, step)
    ensures RunOk(c, AfterRun(c, s, step))
  {
    hide OneTerm, Both;
  }

  lemma RestKeepsRun(c: Setting, s: State, a: Action)
    requires FireOk(c, s) && RunOk(c, s) && Enabled(c, s, a) && !OfFire(a) && !a.Run?
    ensures RunOk(c, Next(c, s, a))
  {
    hide OneTerm, Both;
  }

  lemma PressKeeps(c: Setting, s: State, a: Action)
    requires Sound(c) && Ok(c, s) && Enabled(c, s, a)
    ensures Pressed(c, Next(c, s, a))
  {
    hide RunOk, InFire, FireOk;
    if OfKiller(a) {
      if a.SendKill? { KillSent(c, s); }
    } else {
      Unfinished(c, s, a);
    }
  }

  lemma KillSent(c: Setting, s: State)
    requires FireOk(c, s) && s.killer.Killing?
    ensures Both(c, Next(c, s, SendKill))
  {
    hide InFire;
  }

  lemma Unfinished(c: Setting, s: State, a: Action)
    requires FireOk(c, s) && Enabled(c, s, a) && !OfKiller(a)
    ensures var t := Next(c, s, a);
      (t.killer == Finished ==> s.killer == Finished) && (!t.done ==> !s.done) && (s.killer == Finished ==> t.sent == s.sent) && t.now >= s.now
  {
    hide InFire, OneTerm, Both;
    assert s.killer == Finished ==> s.once == Complete;
  }

  lemma {:induction false} ReachableOk(c: Setting, actions: seq<Action>, s: State)
    requires Sound(c) && Reachable(c, actions, s)
    ensures Ok(c, s)
    decreases |actions|
  {
    if |actions| > 0 {
      var a := actions[|actions| - 1];
      var before := After(c, actions[..|actions| - 1]).value;
      hide FireOk, RunOk, Pressed, Enabled, Next;
      ReachableOk(c, actions[..|actions| - 1], before);
      FireKeeps(c, before, a);
      RunKeeps(c, before, a);
      PressKeeps(c, before, a);
    }
  }

  /** Each flag is up exactly when what raises it has happened. */
  lemma {:induction false} FlagsExactly(c: Setting, actions: seq<Action>, s: State)
    requires Reachable(c, actions, s)
    ensures s.cancelled <==> EndContext in actions
    ensures s.ended <==> EndProcess in actions
    ensures s.timedOut <==> DeadlineHits in actions
    ensures s.fired <==> Announce in actions
    ensures s.done <==> Run(CloseDone) in actions || Run(CloseAgain) in actions
    decreases |actions|
  {
    if |actions| > 0 {
      var before, a := actions[..|actions| - 1], actions[|actions| - 1];
      assert actions == before + [a];
      hide Enabled, Next;
      FlagsExactly(c, before, After(c, before).value);
      FlagsRaised(c, After(c, before).value, a);
      hide After;
    }
  }

  ghost predicate Raised(s: State, a: Action, t: State) {
    && (t.cancelled <==> s.cancelled || a == EndContext) && (t.ended <==> s.ended || a == EndProcess)
    && (t.timedOut <==> s.timedOut || a == DeadlineHits) && (t.fired <==> s.fired || a == Announce)
    && (t.done <==> s.done || a == Run(CloseDone) || a == Run(CloseAgain))
  }

  /** The flags and where Run is are as they were. */
  ghost predicate Same(s: State, t: State) {
    t.cancelled == s.cancelled && t.ended == s.ended && t.timedOut == s.timedOut && t.fired == s.fired && t.done == s.done && t.run == s.run
  }

  lemma FlagsRaised(c: Setting, s: State, a: Action)
    requires Enabled(c, s, a)
    ensures Raised(s, a, Next(c, s, a))
  {
    hide RunGoes, RunCan, Enabled, InFire, Leave, Next;
    match a
    case Run(step) => RunRaises(c, s, step);
    case Enter(who) => EnterSame(c, s, who);
    case Load => LoadSame(c, s);
    case SendTerm => SendTermSame(c, s);
    case Spawn => SpawnSame(c, s);
    case Arm => KillerSame(c, s, a);
    case GraceOver => KillerSame(c, s, a);
    case Disarm => KillerSame(c, s, a);
    case SendKill => KillerSame(c, s, a);
    case Announce => AnnounceRaises(c, s);
    case _ => RestRaises(c, s, a);
  }

  lemma RunRaises(c: Setting, s: State, step: RunStep)
    ensures Raised(s, Run(step), Next(c, s, Run(step)))
  {
    hide RunGoes;
  }

  lemma EnterSame(c: Setting, s: State, who: Caller)
    ensures Same(s, Next(c, s, Enter(who)))
  {
    LeaveSame(s, who);
    hide Leave;
  }

  lemma LeaveSame(s: State, who: Caller)
    ensures Same(s, Leave(s, who))
  {
  }

  lemma LoadSame(c: Setting, s: State)
    ensures Same(s, Next(c, s, Load))
  {
    hide Leave;
    if s.once.Held? { LeaveSame(s, s.once.holder); }
  }

  lemma SendTermSame(c: Setting, s: State)
    ensures Same(s, Next(c, s, SendTerm))
  {
  }

  lemma SpawnSame(c: Setting, s: State)
    ensures Same(s, Next(c, s, Spawn))
  {
    hide Leave;
    if s.once.Held? { LeaveSame(s, s.once.holder); }
  }

  lemma KillerSame(c: Setting, s: State, a: Action)
    requires a == Arm || a == GraceOver || a == Disarm || a == SendKill
    ensures Same(s, Next(c, s, a))
  {
  }

  lemma AnnounceRaises(c: Setting, s: State)
    requires Enabled(c, s, Announce)
    ensures Next(c, s, Announce).fired && Same(s, Next(c, s, Announce).(fired := s.fired))
  {
  }

  lemma RestRaises(c: Setting, s: State, a: Action)
    requires a == Tick || a == EndContext || a == EndProcess || a == DeadlineHits || a == WatcherQuits || a == HookCalls
    ensures Raised(s, a, Next(c, s, a)) && Next(c, s, a).run == s.run
  {
  }

  /** Nothing of the runner but Run itself has started. */
  ghost predicate Blank(s: State) {
    s.sent == [] && s.group == 0 && s.watcher == Unborn && s.hook == Idle && s.once == Free && s.killer == Absent && !s.fired
  }

  ghost predicate Leaving(s: State) { s.run == Stop2 || s.run == Stop2Close || s.run == Stop2Wait || s.run == Returned }

  lemma BlankStays(c: Setting, s: State, a: Action)
    requires Blank(s) && Enabled(c, s, a) && (s.run == Preparing || Leaving(s))
    ensures var t := Next(c, s, a);
      && (Leaving(s) ==> Blank(t) && Leaving(t))
      && (s.run == Preparing ==> Blank(t) && (a == Run(StartFails) ==> Leaving(t)) && (t.run == Preparing || a.Run?))
  {
  }

  lemma PreparingBefore(c: Setting, s: State, a: Action)
    requires Enabled(c, s, a) && Next(c, s, a).run == Preparing
    ensures s.run == Preparing
  {
    hide Next;
    if a.Run? { RunFrom(c, s, a.step); } else { OnlyRunMoves(c, s, a); }
  }

  lemma RunFrom(c: Setting, s: State, step: RunStep)
    ensures Next(c, s, Run(step)).run != Preparing
  {
  }

  lemma OnlyRunMoves(c: Setting, s: State, a: Action)
    requires !a.Run? && Enabled(c, s, a)
    ensures Next(c, s, a).run == s.run
  {
    hide Enabled, InFire, Leave, Next;
    match a
    case Enter(who) => EnterSame(c, s, who);
    case Load => LoadSame(c, s);
    case SendTerm => SendTermSame(c, s);
    case Spawn => SpawnSame(c, s);
    case Announce => AnnounceRaises(c, s);
    case Arm => KillerSame(c, s, a);
    case GraceOver => KillerSame(c, s, a);
    case Disarm => KillerSame(c, s, a);
    case SendKill => KillerSame(c, s, a);
    case _ => RestRaises(c, s, a);
  }

  lemma {:induction false} PreparingIsBlank(c: Setting, actions: seq<Action>, s: State)
    requires Reachable(c, actions, s) && s.run == Preparing
    ensures Blank(s)
    decreases |actions|
  {
    if |actions| > 0 {
      var before, a := actions[..|actions| - 1], actions[|actions| - 1];
      var u := After(c, before).value;
      hide Enabled, Next, Blank;
      PreparingBefore(c, u, a);
      PreparingIsBlank(c, before, u);
      BlankStays(c, u, a);
    }
  }

  /** A command that could not be started is sent nothing, however things go on. */
  lemma {:induction false} FailedStartIsQuiet(c: Setting, actions: seq<Action>, s: State)
    requires Reachable(c, actions, s) && Run(StartFails) in actions
    ensures s.sent == [] && Blank(s) && Leaving(s)
    decreases |actions|
  {
    var before, a := actions[..|actions| - 1], actions[|actions| - 1];
    assert actions == before + [a];
    var u := After(c, before).value;
    hide Next, Leaving;
    if Run(StartFails) in before {
      FailedStartIsQuiet(c, before, u);
    } else {
      PreparingIsBlank(c, before, u);
    }
    BlankStays(c, u, a);
    hide Enabled;
  }

  /**
   * At most one TERM and at most one KILL, both to the command's own group, the KILL after the TERM and no
   * sooner than the grace allows.
   */
  lemma AtMostOneOfEach(c: Setting, actions: seq<Action>, s: State)
    requires Sound(c) && Reachable(c, actions, s)
    ensures s.sent == [] || OneTerm(c, s) || Both(c, s)
  {
    ReachableOk(c, actions, s);
  }

  /** The last action of a run that went on from s. */
  lemma Onward(c: Setting, before: seq<Action>, after: seq<Action>, t: State) returns (u: State)
    requires Reachable(c, before + after, t) && |after| > 0
    ensures Reachable(c, before + after[..|after| - 1], u) && Enabled(c, u, after[|after| - 1])
    ensures t == Next(c, u, after[|after| - 1])
  {
    hide Enabled, Next;
    var all := before + after;
    assert all[..|all| - 1] == before + after[..|after| - 1] && all[|all| - 1] == after[|after| - 1];
    u := After(c, all[..|all| - 1]).value;
  }

  /**
   * Once Run has returned nothing of it is left to act: however things go on, only the world moves, and no
   * signal is sent any more.
   */
  lemma {:induction false} NothingAfterReturn(c: Setting, before: seq<Action>, s: State, after: seq<Action>, t: State)
    requires Sound(c) && Reachable(c, before, s) && s.run == Returned && Reachable(c, before + after, t)
    ensures t.run == Returned && t.sent == s.sent && forall i :: 0 <= i < |after| ==> after[i] == Tick || after[i] == EndContext
    decreases |after|
  {
    if |after| == 0 {
      assert before + after == before;
    } else {
      var u := Onward(c, before, after, t);
      NothingAfterReturn(c, before, s, after[..|after| - 1], u);
      ReachableOk(c, before + after[..|after| - 1], u);
      hide Reachable;
      ReturnedRests(c, u, after[|after| - 1]);
    }
  }

  lemma ReturnedRests(c: Setting, s: State, a: Action)
    requires Ok(c, s) && Enabled(c, s, a) && s.run == Returned
    ensures a == Tick || a == EndContext
    ensures Next(c, s, a).run == Returned && Next(c, s, a).sent == s.sent
  {
  }

  /** A returned Run sent no signal exactly when nothing fired, or it fired before the group was known. */
  lemma SilentExactlyWhen(c: Setting, actions: seq<Action>, s: State)
    requires Sound(c) && Reachable(c, actions, s) && s.run == Returned
    ensures s.sent == [] <==> !s.fired || s.early
    ensures s.early ==> s.cancelled
  {
    ReachableOk(c, actions, s);
  }

  /** A sequence that fired too early is spent: however things go on, not even the deadline sends a signal. */
  lemma {:induction false} EarlyIsSpent(c: Setting, before: seq<Action>, s: State, after: seq<Action>, t: State)
    requires Sound(c) && Reachable(c, before, s) && s.early && Reachable(c, before + after, t)
    ensures t.early && t.sent == []
    decreases |after|
  {
    if |after| == 0 {
      assert before + after == before;
      ReachableOk(c, before, s);
    } else {
      var u := Onward(c, before, after, t);
      EarlyIsSpent(c, before, s, after[..|after| - 1], u);
      ReachableOk(c, before + after[..|after| - 1], u);
      hide Reachable;
      EarlyStays(c, u, after[|after| - 1]);
    }
  }

  lemma EarlyStays(c: Setting, s: State, a: Action)
    requires Ok(c, s) && Enabled(c, s, a) && s.early
    ensures Next(c, s, a).early && Next(c, s, a).sent == []
  {
  }

  /**
   * A command that ignores the TERM is not let off: as long as Run waits for it, the sequence that reached
   * its group has sent the KILL, or is on its way to it, held up by nothing but the grace.
   */
  lemma StubbornIsKilled(c: Setting, actions: seq<Action>, s: State)
    requires Sound(c) && Reachable(c, actions, s) && s.run == Waiting && s.once == Complete && !s.early
    ensures Both(c, s) || Enabled(c, s, Arm) || Enabled(c, s, SendKill)
         || (s.killer.Pending? && (s.now >= s.killer.due ==> Enabled(c, s, GraceOver)))
    ensures !Enabled(c, s, Disarm)
  {
    ReachableOk(c, actions, s);
  }

  // ----- Run comes back -----

  function RunLeft(r: RunPc): nat {
    match r
    case Preparing => 12 case Started => 11 case Grouped => 10 case Waiting => 9 case Reaped => 8 case Stop1 => 7
    case Stop1Wait => 6 case AwaitWatcher => 5 case Stop2 => 4 case Stop2Close => 3 case Stop2Wait => 2 case Returned => 0
  }

  function FireLeft(o: Once): nat {
    match o
    case Free => 6
    case Held(_, at) => (match at case Entered => 5 case Announced => 4 case Targeting(_) => 3 case Sending(_) => 2)
    case Complete => 0
  }

  function KillerLeft(k: KillerPc): nat {
    match k
    case Absent => 4 case Arming(_) => 3 case Pending(_, _) => 2 case Killing(_) => 1 case Finished => 0
  }

  function WatcherLeft(w: WatcherPc): nat { match w case Unborn => 3 case Selecting => 3 case Firing => 2 case Quit => 0 }

  function HookLeft(h: HookPc): nat { match h case Idle => 2 case Calling => 1 case Called => 0 }

  /** Steps of its own that Run and its helpers still have before them. */
  function Left(s: State): nat {
    RunLeft(s.run) + FireLeft(s.once) + KillerLeft(s.killer) + WatcherLeft(s.watcher) + HookLeft(s.hook)
  }

  ghost predicate Own(a: Action) { a != Tick && a != EndContext && a != EndProcess }

  ghost predicate Placed(s: State) {
    (s.once.Held? ==> InFire(s, s.once.holder) && s.killer == Absent) && (s.run == Grouped ==> s.watcher == Unborn)
  }

  lemma OkIsPlaced(c: Setting, s: State)
    requires Ok(c, s)
    ensures Placed(s)
  {
  }

  /** No part further from its end, and one nearer. */
  ghost predicate Nearer(t: State, s: State) {
    && RunLeft(t.run) <= RunLeft(s.run) && FireLeft(t.once) <= FireLeft(s.once) && KillerLeft(t.killer) <= KillerLeft(s.killer)
    && WatcherLeft(t.watcher) <= WatcherLeft(s.watcher) && HookLeft(t.hook) <= HookLeft(s.hook)
    && (RunLeft(t.run) < RunLeft(s.run) || FireLeft(t.once) < FireLeft(s.once) || KillerLeft(t.killer) < KillerLeft(s.killer)
        || WatcherLeft(t.watcher) < WatcherLeft(s.watcher) || HookLeft(t.hook) < HookLeft(s.hook))
  }

  lemma NearerIsLess(t: State, s: State)
    requires Nearer(t, s)
    ensures Left(t) < Left(s)
  {
    hide RunLeft, FireLeft, KillerLeft, WatcherLeft, HookLeft;
  }

  ghost predicate OfHelpers(a: Action) {
    a.DeadlineHits? || a.WatcherQuits? || a.HookCalls? || a.Arm? || a.GraceOver? || a.Disarm? || a.SendKill?
  }

  lemma EnterIsNearer(c: Setting, s: State, who: Caller)
    requires InFire(s, who) && (s.once == Free || s.once == Complete)
    ensures Nearer(Next(c, s, Enter(who)), s)
  {
    hide RunLeft;
    var t := Next(c, s, Enter(who));
    if s.once == Complete {
      assert t == Leave(s, who);
    } else {
      assert t == s.(once := Held(who, Entered));
    }
  }

  lemma LoadIsNearer(c: Setting, s: State)
    requires Placed(s) && s.once.Held? && s.once.at == Announced
    ensures Nearer(Next(c, s, Load), s)
  {
    hide RunLeft;
    var t, who := Next(c, s, Load), s.once.holder;
    if s.group == 0 {
      assert t == Leave(s, who).(exited := true, once := Complete, early := true);
    } else {
      assert t == s.(once := Held(who, Targeting(s.group)));
    }
  }

  lemma SpawnIsNearer(c: Setting, s: State)
    requires Placed(s) && s.once.Held? && s.once.at.Sending?
    ensures Nearer(Next(c, s, Spawn), s)
  {
    hide RunLeft;
    var t, who := Next(c, s, Spawn), s.once.holder;
    assert t == Leave(s, who).(once := Complete, killer := Arming(s.once.at.group));
  }

  lemma FireIsNearer(c: Setting, s: State, a: Action)
    requires Placed(s) && Enabled(c, s, a) && OfFire(a)
    ensures Nearer(Next(c, s, a), s)
  {
    hide Placed, Nearer, InFire;
    match a
    case Enter(who) => EnterIsNearer(c, s, who);
    case Load => LoadIsNearer(c, s);
    case Spawn => SpawnIsNearer(c, s);
    case _ => SayIsNearer(c, s, a);
  }

  lemma SayIsNearer(c: Setting, s: State, a: Action)
    requires Enabled(c, s, a) && (a.Announce? || a.SendTerm?)
    ensures Nearer(Next(c, s, a), s)
  {
    hide RunLeft;
  }

  lemma HelperIsNearer(c: Setting, s: State, a: Action)
    requires Enabled(c, s, a) && OfHelpers(a)
    ensures Nearer(Next(c, s, a), s)
  {
    hide RunLeft, FireLeft;
  }

  lemma RunIsNearer(c: Setting, s: State, a: Action)
    requires Placed(s) && Enabled(c, s, a) && Own(a) && !OfFire(a) && !OfHelpers(a)
    ensures Nearer(Next(c, s, a), s)
  {
    hide FireLeft, KillerLeft, HookLeft;
  }

  lemma StepIsNearer(c: Setting, s: State, a: Action)
    requires Placed(s) && Enabled(c, s, a) && Own(a)
    ensures Nearer(Next(c, s, a), s)
  {
    hide Next, Enabled, Placed, Nearer, Own;
    if OfFire(a) {
      FireIsNearer(c, s, a);
    } else if OfHelpers(a) {
      HelperIsNearer(c, s, a);
    } else {
      RunIsNearer(c, s, a);
    }
  }

  /** Every step of Run's own brings its end nearer, and the world cannot push it away. */
  lemma OwnStepsRunOut(c: Setting, actions: seq<Action>, s: State, a: Action)
    requires Sound(c) && Reachable(c, actions, s) && Enabled(c, s, a)
    ensures if Own(a) then Left(Next(c, s, a)) < Left(s) else Left(Next(c, s, a)) == Left(s)
  {
    ReachableOk(c, actions, s);
    OkIsPlaced(c, s);
    if Own(a) {
      hide Next, Enabled, Placed, Left, Own, Ok, Reachable;
      StepIsNearer(c, s, a);
      NearerIsLess(Next(c, s, a), s);
    }
  }

  /**
   * Once the command has ended, or was never started, Run always has a step of its own to take: stopping
   * waits for no clock, not even for a grace that is still running.
   */
  lemma NeverStuck(c: Setting, actions: seq<Action>, s: State) returns (a: Action)
    requires Sound(c) && Reachable(c, actions, s)
    requires s.run != Returned && (s.ended || !Alive(s))
    ensures Own(a) && Enabled(c, s, a)
  {
    ReachableOk(c, actions, s);
    a := OwnStep(c, s);
  }

  function FireStep(s: State): Action {
    match s.once
    case Held(_, Entered) => Announce
    case Held(_, Announced) => Load
    case Held(_, Targeting(_)) => SendTerm
    case Held(_, Sending(_)) => Spawn
    case _ => Enter(if s.watcher == Firing then Watcher else Hook)
  }

  function KillerStep(s: State): Action {
    match s.killer case Arming(_) => Arm case Killing(_) => SendKill case _ => Disarm
  }

  function OwnStep(c: Setting, s: State): Action {
    match s.run
    case Preparing => Run(StartWorks)
    case Started => Run(SetGroup)
    case Grouped => Run(Watch)
    case Waiting => if s.hook == Calling then FireStep(s) else Run(WaitReturns)
    case Reaped => Run(CloseDone)
    case Stop1 => Run(LookFired)
    case Stop1Wait => if s.exited then Run(SeeExited) else if s.once == Complete then KillerStep(s) else FireStep(s)
    case AwaitWatcher =>
      if s.watcher == Quit then Run(WatcherGone) else if s.watcher == Selecting then WatcherQuits else FireStep(s)
    case Stop2 => Run(CloseAgain)
    case Stop2Close => Run(LookAgain)
    case Stop2Wait => if s.exited then Run(SeeExitedAgain) else KillerStep(s)
    case Returned => Tick
  }
}
