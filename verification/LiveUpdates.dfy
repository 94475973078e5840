/**
 The live-update connection of the workflow page: an event source that is renewed with back-off, kept
 closed while the page is hidden, suspended or disposed, and backed by polling while it is down.
 The class is the code; `Next` is its step relation over the events of the page, the stream and the timers.
 */
module LiveUpdates {

  import opened Wrappers

  /** The events that the page listens for on a stream. */
  datatype Kind = Snapshot | FlowChanged | LogGrew | LogReset | Resync | StreamError

  /** The caller's callbacks, with the data that they are given. */
  datatype Call = OnFlow(data: string) | OnLog(data: string) | OnResync | OnError(data: string)

  /** A callback made for an event of a stream. */
  datatype Delivery = Delivery(stream: nat, call: Call)

  /** `unclosed`, `urls` and `timers` are the browser's side: streams not closed yet, their addresses, armed retries. */
  datatype State = State(source: Option<nat>, retry: Option<nat>, polling: bool, attempts: nat, disposed: bool,
                         suspended: bool, busy: bool, hidden: bool, available: bool, page: string,
                         unclosed: set<nat>, urls: seq<string>, timers: map<nat, nat>, nextTimer: nat,
                         delivered: seq<Delivery>, fallbacks: nat)

  datatype Event =
    | Opened(stream: nat)
    | Message(stream: nat, kind: Kind, data: string)
    | Failed(stream: nat)
    | RetryFires(timer: nat)
    | PollFires
    | FallbackEnds
    | Visibility(nowHidden: bool)
    | PageHide
    | PageShow
    | Navigate(to: string)
    | Reconnect
    | Dispose

  function Delay(attempts: nat): nat {
    var doubled := 5000 * (if attempts == 0 then 1 else if attempts == 1 then 2 else if attempts == 2 then 4 else if attempts == 3 then 8 else 16);
    if doubled < 60000 then doubled else 60000
  }

  predicate Active(s: State) { !s.disposed && !s.suspended && !s.hidden }

  function Disconnected(s: State): State {
    s.(source := None, retry := None, polling := false,
       unclosed := if s.source.Some? then s.unclosed - {s.source.value} else s.unclosed,
       timers := if s.retry.Some? then s.timers - {s.retry.value} else s.timers)
  }

  function Connected(s: State): State {
    if !Active(s) || s.source.Some? then s
    else if !s.available then s.(polling := true)
    else s.(source := Some(|s.urls|), unclosed := s.unclosed + {|s.urls|}, urls := s.urls + [s.page])
  }

  function FallbackRun(s: State): State {
    if s.busy || !Active(s) then s else s.(busy := true, fallbacks := s.fallbacks + 1)
  }

  /** What a message makes the observer call; a resync makes it start a fallback instead. */
  function Answers(kind: Kind, data: string): seq<Call> {
    match kind
    case Snapshot => [OnFlow(data), OnResync]
    case FlowChanged => [OnFlow(data)]
    case LogGrew => [OnLog(data)]
    case LogReset => [OnResync]
    case Resync => []
    case StreamError => [OnError(data)]
  }

  function Deliveries(c: nat, calls: seq<Call>): seq<Delivery> {
    seq(|calls|, i requires 0 <= i < |calls| => Delivery(c, calls[i]))
  }

  /** Events the environment can deliver: from streams ever created, armed timers, a running fallback. */
  predicate Possible(s: State, e: Event) {
    match e
    case Opened(c) => c < |s.urls|
    case Message(c, _, _) => c < |s.urls|
    case Failed(c) => c < |s.urls|
    case RetryFires(t) => t in s.timers
    case PollFires => s.polling
    case FallbackEnds => s.busy
    case _ => true
  }

  function Next(s: State, e: Event): State {
    match e
    case Opened(c) => if s.source != Some(c) then s else s.(attempts := 0, polling := false)
    case Message(c, kind, data) =>
      if s.source != Some(c) then s
      else if kind == Resync then FallbackRun(s)
      else s.(delivered := s.delivered + Deliveries(c, Answers(kind, data)))
    case Failed(c) =>
      if s.source != Some(c) then s
      else s.(source := None, unclosed := s.unclosed - {c}, polling := true,
              retry := Some(s.nextTimer), timers := s.timers[s.nextTimer := Delay(s.attempts)],
              nextTimer := s.nextTimer + 1, attempts := s.attempts + 1)
    case RetryFires(t) => Connected(s.(timers := s.timers - {t}, retry := None))
    case PollFires => FallbackRun(s)
    case FallbackEnds => s.(busy := false)
    case Visibility(h) =>
      var seen := s.(hidden := h);
      if s.disposed then seen else if h then Disconnected(seen) else Connected(seen)
    case PageHide => if s.disposed then s else Disconnected(s.(suspended := true))
    case PageShow => if s.disposed then s else Connected(s.(suspended := false))
    case Navigate(to) => s.(page := to)
    case Reconnect =>
      if s.source.Some? && s.source.value < |s.urls| && s.urls[s.source.value] == s.page then s
      else Connected(Disconnected(s).(attempts := 0))
    case Dispose => Disconnected(s.(disposed := true))
  }

  function Initial(hidden: bool, available: bool, page: string): State {
    Connected(State(None, None, false, 0, false, false, false, hidden, available, page, {}, [], map[], 0, [], 0))
  }

  // What holds at every moment

  /** The current stream is the only one not closed. */
  ghost predicate StreamOk(s: State) {
    && s.unclosed == (if s.source.Some? then {s.source.value} else {})
    && (s.source.Some? ==> s.source.value < |s.urls| && s.available)
    && (forall t :: t in s.timers ==> t < s.nextTimer)
  }

  /** Nothing is open, and nothing polls, while the page is hidden, suspended or disposed. */
  ghost predicate QuietOk(s: State) { s.source.Some? || s.polling ==> Active(s) }

  /** While the page is active and has no stream, it polls, and a retry is armed if there are streams at all. */
  ghost predicate AliveOk(s: State) {
    Active(s) && s.source == None ==> s.polling && (s.available ==> s.retry.Some? && s.retry.value in s.timers)
  }

  ghost predicate Inv(s: State) { StreamOk(s) && QuietOk(s) && AliveOk(s) }

  lemma ConnectedInv(s: State)
    requires StreamOk(s) && QuietOk(s)
    ensures Inv(Connected(s))
  {
  }

  lemma DisconnectedInv(s: State)
    requires StreamOk(s)
    ensures StreamOk(Disconnected(s)) && QuietOk(Disconnected(s)) && (!Active(s) ==> AliveOk(Disconnected(s)))
  {
  }

  lemma FallbackInv(s: State)
    requires Inv(s)
    ensures Inv(FallbackRun(s))
  {
  }

  lemma SourceIsListed(s: State)
    requires Inv(s)
    ensures s.source.Some? ==> s.source.value < |s.urls|
  {
  }

  lemma InitialInv(hidden: bool, available: bool, page: string)
    ensures Inv(Initial(hidden, available, page))
  {
  }

  lemma NextKeepsInv(s: State, e: Event)
    requires Inv(s) && Possible(s, e)
    ensures Inv(Next(s, e))
  {
    match e
    case Failed(c) => FailedKeepsInv(s, c);
    case _ =>
      hide Inv;
      QuietKeepsInv(s, e);
  }

  lemma FailedKeepsInv(s: State, c: nat)
    requires Inv(s)
    ensures Inv(Next(s, Failed(c)))
  {
  }

  lemma QuietKeepsInv(s: State, e: Event)
    requires Inv(s) && Possible(s, e) && !e.Failed?
    ensures Inv(Next(s, e))
  {
    match e
    case Visibility(h) =>
      var seen := s.(hidden := h);
      DisconnectedInv(seen);
      if s.disposed { DisposedStaysInv(s, seen); } else if !h { ConnectedInv(seen); }
    case PageHide => DisconnectedInv(s.(suspended := true));
    case PageShow => ConnectedInv(s.(suspended := false));
    case _ =>
      hide Inv;
      PlainKeepsInv(s, e);
  }

  lemma PlainKeepsInv(s: State, e: Event)
    requires Inv(s) && Possible(s, e) && !e.Failed? && !e.Visibility? && !e.PageHide? && !e.PageShow?
    ensures Inv(Next(s, e))
  {
    hide Connected, Disconnected, FallbackRun;
    FallbackInv(s);
    match e
    case Message(c, kind, data) =>
      assert Inv(s.(delivered := s.delivered + Deliveries(c, Answers(kind, data))));
    case RetryFires(t) => ConnectedInv(s.(timers := s.timers - {t}, retry := None));
    case Reconnect =>
      DisconnectedInv(s);
      ConnectedInv(Disconnected(s).(attempts := 0));
    case Dispose => DisconnectedInv(s.(disposed := true));
    case _ =>
  }

  lemma DisposedStaysInv(s: State, seen: State)
    requires Inv(s) && s.disposed && seen == s.(hidden := seen.hidden)
    ensures Inv(seen)
  {
  }

  function Run(s: State, events: seq<Event>): State
    decreases |events|
  {
    if events == [] then s else Run(Next(s, events[0]), events[1..])
  }

  ghost predicate AllPossible(s: State, events: seq<Event>)
    decreases |events|
  {
    events == [] || (Possible(s, events[0]) && AllPossible(Next(s, events[0]), events[1..]))
  }

  /** The invariant holds after any interleaving of stream, timer, page and caller events. */
  lemma {:induction false} RunKeepsInv(s: State, events: seq<Event>)
    requires Inv(s) && AllPossible(s, events)
    ensures Inv(Run(s, events))
    decreases |events|
  {
    hide Inv, Next, Possible;
    if events != [] {
      NextKeepsInv(s, events[0]);
      RunKeepsInv(Next(s, events[0]), events[1..]);
    }
  }

  /** At most one stream is unclosed, in the words of a caller. */
  lemma AtMostOneStream(s: State, events: seq<Event>, c: nat, d: nat)
    requires Inv(s) && AllPossible(s, events)
    ensures var r := Run(s, events);
            && (c in r.unclosed && d in r.unclosed ==> c == d)
            && (c in r.unclosed ==> !r.hidden && !r.suspended && !r.disposed)
  {
    RunKeepsInv(s, events);
  }

  /** The calls made for events of stream `c`. */
  ghost function CallsFor(log: seq<Delivery>, c: nat): seq<Call> {
    if log == [] then []
    else CallsFor(log[..|log| - 1], c) + if log[|log| - 1].stream == c then [log[|log| - 1].call] else []
  }

  lemma {:induction false} CallsForOthers(log: seq<Delivery>, more: seq<Delivery>, c: nat)
    requires forall i :: 0 <= i < |more| ==> more[i].stream != c
    ensures CallsFor(log + more, c) == CallsFor(log, c)
  {
    if more == [] {
      assert log + more == log;
    } else {
      var n := |more| - 1;
      CallsForOthers(log, more[..n], c);
      assert (log + more)[..|log + more| - 1] == log + more[..n];
    }
  }

  /** A stream that was closed is never opened again and delivers nothing more, whatever happens later. */
  lemma {:induction false} ClosedStaysSilent(s: State, events: seq<Event>, c: nat)
    requires Inv(s) && AllPossible(s, events) && Gone(s, c)
    ensures Gone(Run(s, events), c) && CallsFor(Run(s, events).delivered, c) == CallsFor(s.delivered, c)
    decreases |events|
  {
    if events != [] {
      ClosedStepsSilent(s, events[0], c);
      hide Inv, Next, Possible, CallsFor;
      NextKeepsInv(s, events[0]);
      ClosedStaysSilent(Next(s, events[0]), events[1..], c);
    }
  }

  /** The stream was opened and has been closed. */
  ghost predicate Gone(s: State, c: nat) { c < |s.urls| && c !in s.unclosed }

  lemma HelpersKeepGone(s: State, c: nat)
    requires Gone(s, c)
    ensures Gone(Connected(s), c) && Gone(Disconnected(s), c) && Gone(FallbackRun(s), c)
    ensures Connected(s).delivered == Disconnected(s).delivered == FallbackRun(s).delivered == s.delivered
  {
  }

  lemma ClosedStepsSilent(s: State, e: Event, c: nat)
    requires Inv(s) && Possible(s, e) && Gone(s, c)
    ensures Gone(Next(s, e), c) && CallsFor(Next(s, e).delivered, c) == CallsFor(s.delivered, c)
  {
    hide Inv, CallsFor, Next, Gone, Possible;
    if e.Message? {
      MessageOfAnother(s, e, c);
    } else if e.RetryFires? || e.Reconnect? || e.PollFires? {
      RenewalKeepsGone(s, e, c);
    } else if e.PageHide? || e.PageShow? || e.Dispose? || e.Visibility? {
      PageStepKeepsGone(s, e, c);
    } else {
      OwnStepKeepsGone(s, e, c);
    }
  }

  lemma RenewalKeepsGone(s: State, e: Event, c: nat)
    requires Gone(s, c) && (e.RetryFires? || e.Reconnect? || e.PollFires?)
    ensures Gone(Next(s, e), c) && Next(s, e).delivered == s.delivered
  {
    hide Connected, Disconnected, FallbackRun;
    HelpersKeepGone(s, c);
    HelpersKeepGone(s.(timers := if e.RetryFires? then s.timers - {e.timer} else s.timers, retry := None), c);
    HelpersKeepGone(Disconnected(s).(attempts := 0), c);
  }

  lemma MessageOfAnother(s: State, e: Event, c: nat)
    requires Inv(s) && e.Message? && Gone(s, c)
    ensures Gone(Next(s, e), c) && CallsFor(Next(s, e).delivered, c) == CallsFor(s.delivered, c)
  {
    hide CallsFor;
    if s.source == Some(e.stream) {
      CallsForOthers(s.delivered, Deliveries(e.stream, Answers(e.kind, e.data)), c);
    }
  }

  lemma PageStepKeepsGone(s: State, e: Event, c: nat)
    requires Gone(s, c) && (e.PageHide? || e.PageShow? || e.Dispose? || e.Visibility?)
    ensures Gone(Next(s, e), c) && Next(s, e).delivered == s.delivered
  {
    hide Connected, Disconnected, FallbackRun;
    if e.Visibility? {
      HelpersKeepGone(s.(hidden := e.nowHidden), c);
    } else if e.PageHide? {
      HelpersKeepGone(s.(suspended := true), c);
    } else if e.PageShow? {
      HelpersKeepGone(s.(suspended := false), c);
    } else {
      HelpersKeepGone(s.(disposed := true), c);
    }
  }

  lemma OwnStepKeepsGone(s: State, e: Event, c: nat)
    requires Gone(s, c) && (e.Opened? || e.Failed? || e.FallbackEnds? || e.Navigate?)
    ensures Gone(Next(s, e), c) && Next(s, e).delivered == s.delivered
  {
    hide Delay;
  }

  /** After the caller asks to reconnect, an active page listens to the address of the current page. */
  lemma ReconnectFollowsPage(s: State)
    requires Inv(s) && Active(s) && s.available
    ensures var r := Next(s, Reconnect);
            && r.source.Some? && r.source.value < |r.urls| && r.urls[r.source.value] == s.page
            && (if s.source.Some? && s.urls[s.source.value] == s.page then r == s
                else r.attempts == 0 && (s.source.Some? ==> s.source.value !in r.unclosed))
  {
  }

  /** The retry that replaces a failed stream waits longer each time, up to a minute, until a stream opens. */
  lemma BackOff(s: State, c: nat)
    requires Inv(s) && s.source == Some(c)
    ensures var r := Next(s, Failed(c));
            && c !in r.unclosed && r.polling && r.retry.Some? && r.retry.value in r.timers
            && r.timers[r.retry.value] == Delay(s.attempts)
            && 5000 <= Delay(s.attempts) <= 60000
            && r.attempts == s.attempts + 1
            && Delay(s.attempts) <= Delay(r.attempts)
            && (Delay(r.attempts) == Delay(s.attempts) <==> Delay(s.attempts) == 60000)
  {
  }

  /** The wait is five seconds after an open, and doubles up to a minute. */
  lemma DelayDoubles(attempts: nat)
    ensures Delay(0) == 5000
    ensures Delay(attempts + 1) == if 2 * Delay(attempts) < 60000 then 2 * Delay(attempts) else 60000
  {
  }

  /** So does the first failure of a new page. */
  lemma FirstFailureWaitsFive(page: string)
    ensures var s := Initial(false, true, page); var f := Next(s, Failed(0));
            && s.unclosed == {0} && s.urls == [page] && s.delivered == [] && s.fallbacks == 0
            && f.retry.Some? && f.retry.value in f.timers && f.timers[f.retry.value] == 5000
  {
  }

  /** Hiding, leaving and disposing close the stream, stop polling and cancel the retry. */
  lemma DisconnectingCancels(s: State, e: Event)
    requires Inv(s) && !s.disposed && (e == Visibility(true) || e.PageHide? || e.Dispose?)
    ensures var r := Next(s, e);
            && r.source == None && r.unclosed == {} && !r.polling && r.retry == None
            && r.timers == if s.retry.Some? then s.timers - {s.retry.value} else s.timers
  {
  }

  const TWO_RETRIES := [Failed(0), PageShow, Failed(1), RetryFires(0), Visibility(true)]

  /**
   The page's "show" event connects at once, although a retry is armed. If that stream fails too, two retries are armed,
   and when the first of them has fired, hiding the page does not cancel the second.
   */
  lemma RetryCanOutliveHiding(page: string)
    ensures AllPossible(Initial(false, true, page), TWO_RETRIES)
    ensures var s := Run(Initial(false, true, page), TWO_RETRIES); s.hidden && 1 in s.timers
  {
    hide Delay, Run, AllPossible;
    var a := Initial(false, true, page);
    var b := Next(a, Failed(0));
    var c := Next(b, PageShow);
    var d := Next(c, Failed(1));
    var e := Next(d, RetryFires(0));
    var f := Next(e, Visibility(true));
    RunsNothing(f);
    RunsStep(e, TWO_RETRIES[4..]);
    RunsStep(d, TWO_RETRIES[3..]);
    RunsStep(c, TWO_RETRIES[2..]);
    RunsStep(b, TWO_RETRIES[1..]);
    RunsStep(a, TWO_RETRIES);
  }

  lemma RunsNothing(s: State)
    ensures AllPossible(s, []) && Run(s, []) == s
  {
  }

  lemma RunsStep(s: State, events: seq<Event>)
    requires events != [] && Possible(s, events[0]) && AllPossible(Next(s, events[0]), events[1..])
    ensures AllPossible(s, events) && Run(s, events) == Run(Next(s, events[0]), events[1..])
  {
  }

  /** That does no harm: a retry that fires while the page is not active, or has a stream, opens none. */
  lemma StrayRetryIsHarmless(s: State, timer: nat)
    requires Inv(s) && timer in s.timers && (!Active(s) || s.source.Some?)
    ensures Next(s, RetryFires(timer)) == s.(timers := s.timers - {timer}, retry := None)
  {
  }

  /** An open of the current stream ends polling, and the next failure waits five seconds only. */
  lemma OpenEndsBackOff(s: State, c: nat)
    requires Inv(s) && c in s.unclosed
    ensures var r := Next(s, Opened(c));
            && !r.polling && c in r.unclosed
            && var f := Next(r, Failed(c)); f.retry.Some? && f.retry.value in f.timers && f.timers[f.retry.value] == 5000
  {
  }

  ghost predicate SamePage(s: State, t: State) {
    s.hidden == t.hidden && s.suspended == t.suspended && s.disposed == t.disposed && s.page == t.page && s.available == t.available
  }

  lemma HelpersKeepPage(s: State)
    ensures SamePage(Connected(s), s) && SamePage(Disconnected(s), s) && SamePage(FallbackRun(s), s)
  {
  }

  /** The page's own state follows the page's events, and nothing else changes it. */
  lemma StateFollowsPage(s: State, e: Event)
    requires Possible(s, e)
    ensures Next(s, e).hidden == if e.Visibility? then e.nowHidden else s.hidden
    ensures Next(s, e).suspended == if s.disposed then s.suspended else if e.PageHide? then true else if e.PageShow? then false else s.suspended
    ensures Next(s, e).disposed == (s.disposed || e.Dispose?)
    ensures Next(s, e).page == if e.Navigate? then e.to else s.page
    ensures Next(s, e).available == s.available
  {
    hide Delay, Answers, Deliveries, Connected, Disconnected, FallbackRun, Next;
    if e.Visibility? || e.PageHide? || e.PageShow? || e.Dispose? || e.Navigate? {
      PageStepFollows(s, e);
    } else {
      OtherStepKeepsPage(s, e);
    }
  }

  lemma PageStepFollows(s: State, e: Event)
    requires e.Visibility? || e.PageHide? || e.PageShow? || e.Dispose? || e.Navigate?
    ensures var t := if e.Visibility? then s.(hidden := e.nowHidden)
                     else if e.Dispose? then s.(disposed := true)
                     else if e.Navigate? then s.(page := e.to)
                     else if s.disposed then s else s.(suspended := e.PageHide?);
            SamePage(Next(s, e), t)
  {
    hide Connected, Disconnected;
    HelpersKeepPage(s.(hidden := if e.Visibility? then e.nowHidden else s.hidden));
    HelpersKeepPage(s.(suspended := e.PageHide?));
    HelpersKeepPage(s.(disposed := true));
  }

  lemma OtherStepKeepsPage(s: State, e: Event)
    requires !(e.Visibility? || e.PageHide? || e.PageShow? || e.Dispose? || e.Navigate?)
    ensures SamePage(Next(s, e), s)
  {
    hide Delay, Answers, Deliveries, Connected, Disconnected, FallbackRun;
    if e.Reconnect? || e.RetryFires? {
      hide SamePage;
      RenewalKeepsPage(s, e);
    } else {
      HelpersKeepPage(s);
    }
  }

  lemma RenewalKeepsPage(s: State, e: Event)
    requires e.Reconnect? || e.RetryFires?
    ensures SamePage(Next(s, e), s)
  {
    hide Connected, Disconnected;
    HelpersKeepPage(s);
    HelpersKeepPage(Disconnected(s).(attempts := 0));
    HelpersKeepPage(s.(timers := if e.RetryFires? then s.timers - {e.timer} else s.timers, retry := None));
  }

  // What is delivered

  /** What a message of an open stream makes the observer do. */
  lemma MessagesAreAnswered(s: State, c: nat, data: string)
    requires Inv(s) && c in s.unclosed
    ensures Next(s, Message(c, Snapshot, data)).delivered == s.delivered + [Delivery(c, OnFlow(data)), Delivery(c, OnResync)]
    ensures Next(s, Message(c, FlowChanged, data)).delivered == s.delivered + [Delivery(c, OnFlow(data))]
    ensures Next(s, Message(c, LogGrew, data)).delivered == s.delivered + [Delivery(c, OnLog(data))]
    ensures Next(s, Message(c, LogReset, data)).delivered == s.delivered + [Delivery(c, OnResync)]
    ensures Next(s, Message(c, StreamError, data)).delivered == s.delivered + [Delivery(c, Call.OnError(data))]
    ensures Next(s, Message(c, Resync, data)).delivered == s.delivered
    ensures !s.busy ==> Next(s, Message(c, Resync, data)).fallbacks == s.fallbacks + 1
  {
  }

  /** The answers to all messages that come from a stream while it is open, in order. */
  ghost function Answered(s: State, events: seq<Event>): seq<Delivery>
    decreases |events|
  {
    if events == [] then []
    else
      var e := events[0];
      (if e.Message? && e.stream in s.unclosed then Deliveries(e.stream, Answers(e.kind, e.data)) else [])
      + Answered(Next(s, e), events[1..])
  }

  lemma StepDelivers(s: State, e: Event)
    requires Inv(s) && Possible(s, e)
    ensures Next(s, e).delivered ==
              s.delivered + if e.Message? && e.stream in s.unclosed then Deliveries(e.stream, Answers(e.kind, e.data)) else []
  {
    hide Delay, Answers, Deliveries;
    if e.Message? {
      assert s.source == Some(e.stream) <==> e.stream in s.unclosed;
      if e.stream in s.unclosed && e.kind == Resync { NoAnswers(e.stream, e.data); }
    }
  }

  lemma NoAnswers(c: nat, data: string)
    ensures Deliveries(c, Answers(Resync, data)) == []
  {
  }

  /** Over a whole run, exactly the messages that come from a stream while it is open are answered, in order. */
  lemma {:induction false} DeliversExactly(s: State, events: seq<Event>)
    requires Inv(s) && AllPossible(s, events)
    ensures Run(s, events).delivered == s.delivered + Answered(s, events)
    decreases |events|
  {
    hide Inv, Next, Possible, Answers, Deliveries;
    if events != [] {
      NextKeepsInv(s, events[0]);
      StepDelivers(s, events[0]);
      DeliversExactly(Next(s, events[0]), events[1..]);
    }
  }

  /** A resync of an open stream, or a poll, starts a fallback exactly when the page is active and none is running. */
  lemma FallbackStartsExactly(s: State, e: Event)
    requires Inv(s) && Possible(s, e)
    ensures var asked := e.PollFires? || (e.Message? && e.kind == Resync && e.stream in s.unclosed);
            var starts := asked && !s.hidden && !s.suspended && !s.disposed && !s.busy;
            && Next(s, e).fallbacks == s.fallbacks + (if starts then 1 else 0)
            && Next(s, e).busy == (starts || (s.busy && !e.FallbackEnds?))
  {
    hide Delay, Answers, Deliveries;
    if e.Message? { assert s.source == Some(e.stream) <==> e.stream in s.unclosed; }
  }

  ghost function Ends(events: seq<Event>): nat
    decreases |events|
  {
    if events == [] then 0 else (if events[0].FallbackEnds? then 1 else 0) + Ends(events[1..])
  }

  /** So fallbacks never overlap: those started are those ended and at most one that is running. */
  lemma {:induction false} FallbacksDoNotOverlap(s: State, events: seq<Event>)
    requires Inv(s) && AllPossible(s, events)
    ensures var r := Run(s, events);
            r.fallbacks + (if s.busy then 1 else 0) == s.fallbacks + Ends(events) + (if r.busy then 1 else 0)
    decreases |events|
  {
    if events != [] {
      assert events[0].FallbackEnds? ==> s.busy;
      hide Inv, Next, Possible;
      NextKeepsInv(s, events[0]);
      FallbackStartsExactly(s, events[0]);
      FallbacksDoNotOverlap(Next(s, events[0]), events[1..]);
    }
  }

  /** Firing every armed retry while the page stays active brings a stream back. */
  lemma RetryBringsStream(s: State)
    requires Inv(s) && Active(s) && s.available && s.source == None
    ensures s.retry.Some? && Possible(s, RetryFires(s.retry.value))
    ensures Next(s, RetryFires(s.retry.value)).source.Some?
  {
  }

  /** A disposed observer stays silent: no stream, no polling, no fallback is started. */
  lemma {:induction false} DisposedIsFinal(s: State, events: seq<Event>)
    requires Inv(s) && s.disposed && AllPossible(s, events)
    ensures var r := Run(s, events);
            r.disposed && r.unclosed == {} && !r.polling && r.delivered == s.delivered && r.fallbacks == s.fallbacks
    decreases |events|
  {
    if events != [] {
      NextKeepsInv(s, events[0]);
      hide Inv;
      DisposedStep(s, events[0]);
      DisposedIsFinal(Next(s, events[0]), events[1..]);
    } else {
      assert Active(s) == false;
    }
  }

  lemma DisposedStep(s: State, e: Event)
    requires Inv(s) && s.disposed && Possible(s, e)
    ensures var r := Next(s, e); r.disposed && r.delivered == s.delivered && r.fallbacks == s.fallbacks
  {
  }

  // The observer

  class Observer {
    var source: Option<nat>
    var retry: Option<nat>
    var polling: bool
    var attempts: nat
    var disposed: bool
    var suspended: bool
    var fallbackBusy: bool
    // the browser
    var hidden: bool
    const available: bool
    var page: string
    var unclosed: set<nat>
    var urls: seq<string>
    var timers: map<nat, nat>
    var nextTimer: nat
    ghost var delivered: seq<Delivery>
    ghost var fallbacks: nat

    ghost function Snap(): State
      reads this
    {
      State(source, retry, polling, attempts, disposed, suspended, fallbackBusy, hidden, available, page,
            unclosed, urls, timers, nextTimer, delivered, fallbacks)
    }

    constructor (isHidden: bool, hasStreams: bool, address: string)
      ensures Snap() == Initial(isHidden, hasStreams, address) && Inv(Snap())
    {
      source, retry, polling, attempts, disposed, suspended, fallbackBusy := None, None, false, 0, false, false, false;
      hidden, available, page := isHidden, hasStreams, address;
      unclosed, urls, timers, nextTimer, delivered, fallbacks := {}, [], map[], 0, [], 0;
      new;
      Connect();
      InitialInv(isHidden, hasStreams, address);
    }

    method RunFallback()
      modifies this
      ensures Snap() == FallbackRun(old(Snap()))
    {
      if fallbackBusy || disposed || suspended || hidden { return; }
      fallbackBusy := true;
      fallbacks := fallbacks + 1;
    }

    method Disconnect()
      modifies this
      ensures Snap() == Disconnected(old(Snap()))
    {
      if source.Some? { unclosed := unclosed - {source.value}; }
      source := None;
      if retry.Some? { timers := timers - {retry.value}; }
      retry := None;
      polling := false;
    }

    method Backup()
      modifies this`polling
      ensures polling
    {
      if !polling { polling := true; }
    }

    method Connect()
      modifies this
      ensures Snap() == Connected(old(Snap()))
    {
      if disposed || suspended || hidden || source.Some? { return; }
      if !available {
        Backup();
        return;
      }
      var connection := |urls|;
      urls := urls + [page];
      unclosed := unclosed + {connection};
      source := Some(connection);
    }

    method OnOpen(connection: nat)
      requires Inv(Snap()) && Possible(Snap(), Opened(connection))
      modifies this
      ensures Snap() == Next(old(Snap()), Opened(connection)) && Inv(Snap())
    {
      NextKeepsInv(Snap(), Opened(connection));
      if source != Some(connection) { return; }
      attempts := 0;
      polling := false;
    }

    method OnMessage(connection: nat, kind: Kind, data: string)
      requires Inv(Snap()) && Possible(Snap(), Message(connection, kind, data))
      modifies this
      ensures Snap() == Next(old(Snap()), Message(connection, kind, data)) && Inv(Snap())
    {
      NextKeepsInv(Snap(), Message(connection, kind, data));
      if source != Some(connection) { return; }
      match kind
      case Snapshot => delivered := delivered + [Delivery(connection, OnFlow(data)), Delivery(connection, OnResync)];
      case FlowChanged => delivered := delivered + [Delivery(connection, OnFlow(data))];
      case LogGrew => delivered := delivered + [Delivery(connection, OnLog(data))];
      case LogReset => delivered := delivered + [Delivery(connection, OnResync)];
      case Resync => RunFallback();
      case StreamError => delivered := delivered + [Delivery(connection, Call.OnError(data))];
    }

    method OnError(connection: nat)
      requires Inv(Snap()) && Possible(Snap(), Failed(connection))
      modifies this
      ensures Snap() == Next(old(Snap()), Failed(connection)) && Inv(Snap())
    {
      NextKeepsInv(Snap(), Failed(connection));
      if source != Some(connection) { return; }
      unclosed := unclosed - {connection};
      source := None;
      Backup();
      retry := Some(nextTimer);
      timers := timers[nextTimer := Delay(attempts)];
      nextTimer := nextTimer + 1;
      attempts := attempts + 1;
    }

    method OnRetry(timer: nat)
      requires Inv(Snap()) && Possible(Snap(), RetryFires(timer))
      modifies this
      ensures Snap() == Next(old(Snap()), RetryFires(timer)) && Inv(Snap())
    {
      NextKeepsInv(Snap(), RetryFires(timer));
      timers := timers - {timer};
      retry := None;
      Connect();
    }

    method OnPoll()
      requires Inv(Snap()) && Possible(Snap(), PollFires)
      modifies this
      ensures Snap() == Next(old(Snap()), PollFires) && Inv(Snap())
    {
      NextKeepsInv(Snap(), PollFires);
      RunFallback();
    }

    method OnFallbackEnd()
      requires Inv(Snap()) && Possible(Snap(), FallbackEnds)
      modifies this
      ensures Snap() == Next(old(Snap()), FallbackEnds) && Inv(Snap())
    {
      NextKeepsInv(Snap(), FallbackEnds);
      fallbackBusy := false;
    }

    method OnVisibility(nowHidden: bool)
      requires Inv(Snap())
      modifies this
      ensures Snap() == Next(old(Snap()), Visibility(nowHidden)) && Inv(Snap())
    {
      NextKeepsInv(Snap(), Visibility(nowHidden));
      hidden := nowHidden;
      if disposed { return; }
      if hidden { Disconnect(); } else { Connect(); }
    }

    method OnPageHide()
      requires Inv(Snap())
      modifies this
      ensures Snap() == Next(old(Snap()), PageHide) && Inv(Snap())
    {
      NextKeepsInv(Snap(), PageHide);
      if disposed { return; }
      suspended := true;
      Disconnect();
    }

    method OnPageShow()
      requires Inv(Snap())
      modifies this
      ensures Snap() == Next(old(Snap()), PageShow) && Inv(Snap())
    {
      NextKeepsInv(Snap(), PageShow);
      if disposed { return; }
      suspended := false;
      Connect();
    }

    method ReconnectStream()
      requires Inv(Snap())
      modifies this
      ensures Snap() == Next(old(Snap()), Reconnect) && Inv(Snap())
    {
      NextKeepsInv(Snap(), Reconnect);
      SourceIsListed(Snap());
      hide Inv, Connected, Disconnected;
      if source.Some? && urls[source.value] == page { return; }
      Disconnect();
      attempts := 0;
      Connect();
    }

    method DisposeAll()
      requires Inv(Snap())
      modifies this
      ensures Snap() == Next(old(Snap()), Dispose) && Inv(Snap())
    {
      NextKeepsInv(Snap(), Dispose);
      disposed := true;
      Disconnect();
    }
  }
}
