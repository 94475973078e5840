/**
 The page-change guard: a repeated request for the page that is still mounting joins that mount; every
 other request registers its component and then changes the page. Requests interleave at the one `await`.
 */
module PageChangeGuard {

  import opened Wrappers

  /** An element under the page root: its identity and its tag name. */
  datatype Element = Element(id: nat, name: string)

  /** The `entry` object of a page change; `maker` is the request that made it. */
  datatype Entry = Entry(name: string, dataless: bool, element: Option<Element>, settled: bool, maker: nat)

  datatype Phase = Registering | Called | Joined | Failed

  datatype Ask = Ask(name: string, dataless: bool, preserveHash: bool)

  /** A join: the joining request, the number of page changes made before it, and the request it joined. */
  datatype Join = Join(request: nat, calls: nat, joined: nat)

  datatype State = State(asks: seq<Ask>, phases: seq<Phase>, registering: int, pending: Option<Entry>,
                         root: Option<Element>, presented: set<nat>, calls: seq<nat>, joins: seq<Join>)

  datatype Event =
    | Request(ask: Ask)
    | Registered(request: nat, mounted: Option<Element>)
    | RegistrationFails(request: nat)
    | Settles(request: nat)
    | RootChanges(root: Option<Element>)
    | Presented(element: nat)

  predicate CanJoin(s: State, ask: Ask) {
    && s.registering == 0
    && ask.preserveHash && ask.dataless
    && s.pending.Some? && !s.pending.value.settled
    && s.pending.value.name == ask.name && s.pending.value.dataless
    && s.pending.value.element.Some?
    && s.root == s.pending.value.element
    && s.root.value.id !in s.presented
  }

  /** A request that is registering can go on whatever the others do: nothing here asks about them. */
  predicate Possible(s: State, e: Event) {
    match e
    case Registered(r, _) => r < |s.phases| && r < |s.asks| && s.phases[r] == Registering
    case RegistrationFails(r) => r < |s.phases| && s.phases[r] == Registering
    case Settles(r) => r < |s.phases| && s.phases[r] == Called
    case _ => true
  }

  function Next(s: State, e: Event): State
    requires Possible(s, e)
  {
    match e
    case Request(ask) =>
      if CanJoin(s, ask)
      then s.(asks := s.asks + [ask], phases := s.phases + [Joined],
              joins := s.joins + [Join(|s.phases|, |s.calls|, s.pending.value.maker)])
      else s.(asks := s.asks + [ask], phases := s.phases + [Registering], registering := s.registering + 1)
    case Registered(r, mounted) =>
      var element := if mounted.Some? && mounted.value.name == s.asks[r].name then mounted else None;
      s.(phases := s.phases[r := Called], registering := s.registering - 1, root := mounted, calls := s.calls + [r],
         pending := Some(Entry(s.asks[r].name, s.asks[r].dataless, element, false, r)))
    case RegistrationFails(r) => s.(phases := s.phases[r := Failed], registering := s.registering - 1)
    case Settles(r) =>
      if s.pending.Some? && s.pending.value.maker == r then s.(pending := Some(s.pending.value.(settled := true))) else s
    case RootChanges(root) => s.(root := root)
    case Presented(e) => s.(presented := s.presented + {e})
  }

  const START := State([], [], 0, None, None, {}, [], [])

  // What holds at every moment

  function CountRegistering(phases: seq<Phase>): nat {
    if phases == [] then 0 else (if phases[0] == Registering then 1 else 0) + CountRegistering(phases[1..])
  }

  /** Nobody who started before the join is still on the way, and whoever called since then started after it. */
  ghost predicate JoinOk(s: State, j: Join) {
    && j.request < |s.phases| && s.phases[j.request] == Joined
    && 0 < j.calls <= |s.calls| && s.calls[j.calls - 1] == j.joined
    && (forall r :: 0 <= r <= j.request ==> s.phases[r] != Registering)
    && (forall k :: j.calls <= k < |s.calls| ==> s.calls[k] > j.request)
  }

  /** An entry describes the request that made it, and its element belongs to the component asked for. */
  ghost predicate EntryOk(s: State, e: Entry) {
    && e.maker < |s.asks| && e.name == s.asks[e.maker].name && e.dataless == s.asks[e.maker].dataless
    && (e.element.Some? ==> e.element.value.name == e.name)
  }

  ghost predicate Inv(s: State) {
    && |s.asks| == |s.phases|
    && s.registering == CountRegistering(s.phases)
    && (s.pending.Some? ==> s.calls != [] && s.pending.value.maker == s.calls[|s.calls| - 1] && EntryOk(s, s.pending.value))
    && (forall k :: 0 <= k < |s.calls| ==> s.calls[k] < |s.phases| && s.phases[s.calls[k]] == Called)
    && (forall i :: 0 <= i < |s.joins| ==> JoinOk(s, s.joins[i]))
  }

  lemma {:induction false} CountAfterAppend(phases: seq<Phase>, p: Phase)
    ensures CountRegistering(phases + [p]) == CountRegistering(phases) + if p == Registering then 1 else 0
  {
    if phases == [] {
      assert [p][1..] == [];
    } else {
      CountAfterAppend(phases[1..], p);
      assert (phases + [p])[1..] == phases[1..] + [p];
    }
  }

  lemma {:induction false} CountAfterLeaving(phases: seq<Phase>, r: nat, p: Phase)
    requires r < |phases| && phases[r] == Registering && p != Registering
    ensures CountRegistering(phases[r := p]) == CountRegistering(phases) - 1
  {
    if r == 0 {
      assert phases[0 := p][1..] == phases[1..];
    } else {
      CountAfterLeaving(phases[1..], r - 1, p);
      assert phases[r := p][1..] == phases[1..][r - 1 := p];
    }
  }

  lemma {:induction false} NoneRegistering(phases: seq<Phase>)
    requires CountRegistering(phases) == 0
    ensures forall r :: 0 <= r < |phases| ==> phases[r] != Registering
  {
    if phases != [] {
      NoneRegistering(phases[1..]);
      forall r | 0 < r < |phases| ensures phases[r] != Registering { assert phases[r] == phases[1..][r - 1]; }
    }
  }

  lemma RequestKeepsInv(s: State, ask: Ask)
    requires Inv(s)
    ensures Inv(Next(s, Request(ask)))
  {
    var t := Next(s, Request(ask));
    CountAfterAppend(s.phases, Joined);
    CountAfterAppend(s.phases, Registering);
    if CanJoin(s, ask) { NoneRegistering(s.phases); }
    forall i | 0 <= i < |t.joins| ensures JoinOk(t, t.joins[i]) {
      if i < |s.joins| { assert JoinOk(s, s.joins[i]); }
    }
  }

  lemma RegisteredKeepsInv(s: State, r: nat, mounted: Option<Element>)
    requires Inv(s) && Possible(s, Registered(r, mounted))
    ensures Inv(Next(s, Registered(r, mounted)))
  {
    var t := Next(s, Registered(r, mounted));
    CountAfterLeaving(s.phases, r, Called);
    forall i | 0 <= i < |t.joins| ensures JoinOk(t, t.joins[i]) { assert JoinOk(s, s.joins[i]); }
  }

  lemma FailureKeepsInv(s: State, r: nat)
    requires Inv(s) && Possible(s, RegistrationFails(r))
    ensures Inv(Next(s, RegistrationFails(r)))
  {
    var t := Next(s, RegistrationFails(r));
    CountAfterLeaving(s.phases, r, Failed);
    forall i | 0 <= i < |t.joins| ensures JoinOk(t, t.joins[i]) { assert JoinOk(s, s.joins[i]); }
  }

  lemma NextKeepsInv(s: State, e: Event)
    requires Inv(s) && Possible(s, e)
    ensures Inv(Next(s, e))
  {
    match e
    case Request(ask) => RequestKeepsInv(s, ask);
    case Registered(r, mounted) => RegisteredKeepsInv(s, r, mounted);
    case RegistrationFails(r) => FailureKeepsInv(s, r);
    case _ =>
      var t := Next(s, e);
      forall i | 0 <= i < |t.joins| ensures JoinOk(t, t.joins[i]) { assert JoinOk(s, s.joins[i]); }
  }

  // Runs

  ghost predicate AllPossible(s: State, events: seq<Event>)
    decreases |events|
  {
    events == [] || (Possible(s, events[0]) && AllPossible(Next(s, events[0]), events[1..]))
  }

  ghost function Run(s: State, events: seq<Event>): State
    requires AllPossible(s, events)
    decreases |events|
  {
    if events == [] then s else Run(Next(s, events[0]), events[1..])
  }

  lemma {:induction false} RunKeepsInv(s: State, events: seq<Event>)
    requires Inv(s) && AllPossible(s, events)
    ensures Inv(Run(s, events))
    decreases |events|
  {
    hide Inv, Next, Possible;
    if events != [] {
      NextKeepsInv(s, events[0]);
      RunKeepsInv(Next(s, events[0]), events[1..]);
    }
  }

  /**
   In any interleaving, the mount that a request joined was the latest page change, and every later page
   change belongs to a request that started after the one that joined.
   */
  lemma JoinIsNotOverridden(events: seq<Event>, i: nat, k: nat)
    requires AllPossible(START, events)
    ensures var s := Run(START, events);
            i < |s.joins| ==>
              && s.joins[i].calls > 0 && s.joins[i].calls <= |s.calls| && s.calls[s.joins[i].calls - 1] == s.joins[i].joined
              && (s.joins[i].calls <= k < |s.calls| ==> s.calls[k] > s.joins[i].request)
  {
    RunKeepsInv(START, events);
    var s := Run(START, events);
    if i < |s.joins| { assert JoinOk(s, s.joins[i]); }
  }

  /**
   A request joins only the latest page change, made for the same component without page data, whose element is
   still the one on the page and has no presenter yet; the page is left as it is.
   */
  lemma JoinedMountIsShown(events: seq<Event>, ask: Ask)
    requires AllPossible(START, events)
    ensures var s := Run(START, events); var t := Next(s, Request(ask));
            if CanJoin(s, ask) then
              && t.calls == s.calls != [] && t.registering == s.registering && t.root == s.root
              && var maker := s.calls[|s.calls| - 1];
                 && maker < |s.asks| && s.asks[maker].name == ask.name && s.asks[maker].dataless && ask.dataless
                 && s.root.Some? && s.root.value.name == ask.name && s.root.value.id !in s.presented
                 && t.joins == s.joins + [Join(|s.phases|, |s.calls|, maker)]
            else t.joins == s.joins && t.registering == s.registering + 1
  {
    RunKeepsInv(START, events);
    hide Run, AllPossible;
  }

  // When a request joins, in terms of what has happened

  lemma {:induction false} RunSnoc(s: State, events: seq<Event>, e: Event)
    requires AllPossible(s, events) && Possible(Run(s, events), e)
    ensures AllPossible(s, events + [e]) && Run(s, events + [e]) == Next(Run(s, events), e)
    decreases |events|
  {
    hide Next, Possible;
    var more := events + [e];
    if events == [] {
      assert more[1..] == [];
    } else {
      assert more[1..] == events[1..] + [e];
      RunSnoc(Next(s, events[0]), events[1..], e);
    }
  }

  lemma {:induction false} RunPrefix(s: State, events: seq<Event>, n: nat)
    requires AllPossible(s, events) && n < |events|
    ensures AllPossible(s, events[..n]) && Possible(Run(s, events[..n]), events[n])
    decreases |events|
  {
    hide Next, Possible;
    if n > 0 {
      assert events[..n][1..] == events[1..][..n - 1];
      RunPrefix(Next(s, events[0]), events[1..], n - 1);
    }
  }

  /** The `i`-th event is the last page change: that of request `r`, after which `mounted` was on the page. */
  ghost predicate LastChange(events: seq<Event>, i: int, r: nat, mounted: Option<Element>) {
    && 0 <= i < |events| && events[i] == Registered(r, mounted)
    && forall j :: i < j < |events| ==> !events[j].Registered?
  }

  /** The page change of `r` has settled since. */
  ghost predicate SettledSince(events: seq<Event>, i: int, r: nat) {
    exists j :: 0 <= i < j < |events| && events[j] == Settles(r)
  }

  ghost predicate DescribesChange(s: State, events: seq<Event>, i: int, r: nat, mounted: Option<Element>) {
    && LastChange(events, i, r, mounted) && r < |s.asks|
    && s.pending.Some? && s.pending.value.maker == r
    && s.pending.value.name == s.asks[r].name && s.pending.value.dataless == s.asks[r].dataless
    && s.pending.value.element == (if mounted.Some? && mounted.value.name == s.asks[r].name then mounted else None)
    && (s.pending.value.settled <==> SettledSince(events, i, r))
  }

  /** The pending entry describes the last page change. */
  ghost predicate PendingIsLast(s: State, events: seq<Event>) {
    if s.pending == None then forall j :: 0 <= j < |events| ==> !events[j].Registered?
    else exists i, r: nat, mounted :: DescribesChange(s, events, i, r, mounted)
  }

  lemma PendingStep(s: State, events: seq<Event>, e: Event)
    requires PendingIsLast(s, events) && Inv(s) && Possible(s, e)
    ensures PendingIsLast(Next(s, e), events + [e])
  {
    var t, more := Next(s, e), events + [e];
    if e.Registered? {
      assert DescribesChange(t, more, |events|, e.request, e.mounted);
    } else if s.pending.Some? {
      var i, r: nat, mounted :| DescribesChange(s, events, i, r, mounted);
      assert LastChange(more, i, r, mounted);
      assert SettledSince(more, i, r) <==> SettledSince(events, i, r) || e == Settles(r) by {
        assert more[|events|] == e && forall j :: 0 <= j < |events| ==> more[j] == events[j];
      }
      assert DescribesChange(t, more, i, r, mounted);
    }
  }

  lemma {:induction false} PendingOverRuns(events: seq<Event>)
    requires AllPossible(START, events)
    ensures PendingIsLast(Run(START, events), events)
    decreases |events|
  {
    hide Next, Possible, PendingIsLast;
    if events == [] {
      NothingPending();
    } else {
      var n := |events| - 1;
      var before := events[..n];
      RunPrefix(START, events, n);
      PendingOverRuns(before);
      RunKeepsInv(START, before);
      PendingStep(Run(START, before), before, events[n]);
      RunSnoc(START, before, events[n]);
      assert before + [events[n]] == events;
    }
  }

  lemma NothingPending()
    ensures PendingIsLast(START, [])
  {
  }

  /** The last page change of a run, at `i`, is still mounting what `ask` asks for, on the page and without a presenter. */
  ghost predicate Mounting(s: State, events: seq<Event>, ask: Ask, i: int, r: nat, mounted: Option<Element>) {
    && LastChange(events, i, r, mounted) && !SettledSince(events, i, r)
    && r < |s.asks| && s.asks[r].name == ask.name && s.asks[r].dataless
    && mounted.Some? && mounted.value.name == ask.name && s.root == mounted && mounted.value.id !in s.presented
  }

  ghost predicate StillMounting(s: State, events: seq<Event>, ask: Ask) {
    exists i, r: nat, mounted :: Mounting(s, events, ask, i, r, mounted)
  }

  lemma LastIsUnique(events: seq<Event>, i: int, r: nat, mounted: Option<Element>, j: int, q: nat, other: Option<Element>)
    requires LastChange(events, i, r, mounted) && LastChange(events, j, q, other)
    ensures i == j && r == q && mounted == other
  {
  }

  /**
   In any interleaving, a request joins exactly when it asks without page data and with the hash preserved, no
   request is between its registration and its page change, and the last page change is still mounting what it asks for.
   */
  lemma JoinsExactly(events: seq<Event>, ask: Ask)
    requires AllPossible(START, events)
    ensures var s := Run(START, events);
            |Next(s, Request(ask)).joins| == |s.joins| + 1 <==>
              && ask.preserveHash && ask.dataless
              && (forall r :: 0 <= r < |s.phases| ==> s.phases[r] != Registering)
              && StillMounting(s, events, ask)
    ensures var s := Run(START, events); |Next(s, Request(ask)).joins| == |s.joins| <==> |Next(s, Request(ask)).joins| != |s.joins| + 1
  {
    var s := Run(START, events);
    PendingOverRuns(events);
    CounterIsExact(events);
    hide Run, AllPossible, LastChange, SettledSince;
    if s.pending.Some? {
      var i, r: nat, mounted :| DescribesChange(s, events, i, r, mounted);
      if StillMounting(s, events, ask) {
        var j, q: nat, other :| Mounting(s, events, ask, j, q, other);
        LastIsUnique(events, i, r, mounted, j, q, other);
      }
      if CanJoin(s, ask) { assert Mounting(s, events, ask, i, r, mounted); }
    } else {
      NoChange(events);
    }
  }

  lemma NoChange(events: seq<Event>)
    requires forall j :: 0 <= j < |events| ==> !events[j].Registered?
    ensures forall i, r, mounted :: !LastChange(events, i, r, mounted)
  {
  }

  predicate Concerns(e: Event, r: nat) {
    (e.Registered? || e.RegistrationFails?) && e.request == r
  }

  lemma OthersLeaveAlone(s: State, e: Event, r: nat)
    requires Inv(s) && Possible(s, e) && r < |s.phases| && !Concerns(e, r)
    ensures |s.phases| <= |Next(s, e).phases| && Next(s, e).phases[r] == s.phases[r]
    ensures |s.asks| <= |Next(s, e).asks| && s.asks[r] == Next(s, e).asks[r]
  {
  }

  /** Every request is counted from its registration until it is called or fails, and the page follows its own events. */
  lemma RequestsFollowEvents(s: State, e: Event, r: nat)
    requires Inv(s) && Possible(s, e)
    ensures r < |s.phases| ==>
              && r < |Next(s, e).phases|
              && Next(s, e).phases[r] == if e.Registered? && e.request == r then Called
                                         else if e == RegistrationFails(r) then Failed else s.phases[r]
    ensures Next(s, e).asks == s.asks + if e.Request? then [e.ask] else []
    ensures Next(s, e).registering - s.registering ==
              if e.Registered? || e.RegistrationFails? then -1 else if e.Request? && |Next(s, e).joins| == |s.joins| then 1 else 0
    ensures Next(s, e).root == if e.RootChanges? then e.root else if e.Registered? then e.mounted else s.root
    ensures Next(s, e).presented == s.presented + if e.Presented? then {e.element} else {}
  {
  }

  /**
   No request waits for another. A registration completes by itself, so `Possible` asks for its phase only; what is
   proved is that no event of another request touches that phase or what was asked for, so that the completion,
   whenever it comes, counts the request, changes the page to its component and makes its entry the pending one.
   */
  lemma {:induction false} NobodyWaits(s: State, events: seq<Event>, r: nat, mounted: Option<Element>)
    requires Inv(s) && AllPossible(s, events) && r < |s.phases| && s.phases[r] == Registering
    requires forall i :: 0 <= i < |events| ==> !Concerns(events[i], r)
    ensures var now := Run(s, events);
            && Possible(now, Registered(r, mounted)) && now.asks[r] == s.asks[r]
            && var t := Next(now, Registered(r, mounted));
               && t.phases[r] == Called && t.registering == now.registering - 1 && t.calls == now.calls + [r]
               && t.root == mounted && t.pending.Some? && t.pending.value.maker == r && !t.pending.value.settled
               && t.pending.value.name == s.asks[r].name && t.pending.value.dataless == s.asks[r].dataless
    decreases |events|
  {
    if events == [] {
    } else {
      hide Next, Inv;
      assert !Concerns(events[0], r);
      OthersLeaveAlone(s, events[0], r);
      NextKeepsInv(s, events[0]);
      forall i | 0 <= i < |events[1..]| ensures !Concerns(events[1..][i], r) { assert !Concerns(events[i + 1], r); }
      PhasesAndAsks(s);
      NobodyWaits(Next(s, events[0]), events[1..], r, mounted);
    }
  }

  lemma PhasesAndAsks(s: State)
    requires Inv(s)
    ensures |s.asks| == |s.phases|
  {
  }

  /** The counter is the number of requests between registration and page change, failed registrations included. */
  lemma CounterIsExact(events: seq<Event>)
    requires AllPossible(START, events)
    ensures var s := Run(START, events);
            && s.registering == CountRegistering(s.phases)
            && (s.registering == 0 <==> forall r :: 0 <= r < |s.phases| ==> s.phases[r] != Registering)
  {
    RunKeepsInv(START, events);
    var s := Run(START, events);
    if s.registering == 0 { NoneRegistering(s.phases); } else { SomeRegistering(s.phases); }
  }

  lemma {:induction false} SomeRegistering(phases: seq<Phase>)
    requires CountRegistering(phases) > 0
    ensures exists r :: 0 <= r < |phases| && phases[r] == Registering
  {
    if phases[0] != Registering {
      SomeRegistering(phases[1..]);
      var r :| 0 <= r < |phases[1..]| && phases[1..][r] == Registering;
      assert phases[r + 1] == Registering;
    }
  }

  // The guard

  class Guard {
    var pending: Option<Entry>
    var registering: int
    // the page, and what has happened so far
    var root: Option<Element>
    var presented: set<nat>
    var asks: seq<Ask>
    ghost var phases: seq<Phase>
    ghost var calls: seq<nat>
    ghost var joins: seq<Join>

    ghost function Snap(): State
      reads this
    {
      State(asks, phases, registering, pending, root, presented, calls, joins)
    }

    constructor ()
      ensures Snap() == START && Inv(Snap())
    {
      pending, registering, root, presented, asks, phases, calls, joins := None, 0, None, {}, [], [], [], [];
    }

    /** The part of `changeToDynamicPage` up to its await. */
    method ChangeToDynamicPage(ask: Ask) returns (joined: bool)
      requires Inv(Snap())
      modifies this
      ensures Inv(Snap()) && Snap() == Next(old(Snap()), Request(ask)) && joined == CanJoin(old(Snap()), ask)
    {
      hide Inv;
      RequestKeepsInv(Snap(), ask);
      if registering == 0 && ask.preserveHash && ask.dataless
         && pending.Some? && !pending.value.settled && pending.value.name == ask.name && pending.value.dataless
         && pending.value.element.Some? && root == pending.value.element && root.value.id !in presented
      {
        joins := joins + [Join(|phases|, |calls|, pending.value.maker)];
        phases, asks := phases + [Joined], asks + [ask];
        return true;
      }
      registering := registering + 1;
      phases, asks := phases + [Registering], asks + [ask];
      return false;
    }

    /** What follows the await when registration succeeded: WebSkel changes the page and `mounted` is there. */
    method AfterRegistration(request: nat, mounted: Option<Element>)
      requires Inv(Snap()) && Possible(Snap(), Registered(request, mounted))
      modifies this
      ensures Inv(Snap()) && Snap() == Next(old(Snap()), Registered(request, mounted))
    {
      hide Inv;
      RegisteredKeepsInv(Snap(), request, mounted);
      registering := registering - 1;
      root := mounted;
      var element := if mounted.Some? && mounted.value.name == asks[request].name then mounted else None;
      pending := Some(Entry(asks[request].name, asks[request].dataless, element, false, request));
      phases, calls := phases[request := Called], calls + [request];
    }

    method RegistrationFailed(request: nat)
      requires Inv(Snap()) && Possible(Snap(), RegistrationFails(request))
      modifies this
      ensures Inv(Snap()) && Snap() == Next(old(Snap()), RegistrationFails(request))
    {
      hide Inv;
      FailureKeepsInv(Snap(), request);
      registering := registering - 1;
      phases := phases[request := Failed];
    }

    method Settle(request: nat)
      requires Inv(Snap()) && Possible(Snap(), Settles(request))
      modifies this
      ensures Inv(Snap()) && Snap() == Next(old(Snap()), Settles(request))
    {
      hide Inv;
      NextKeepsInv(Snap(), Settles(request));
      if pending.Some? && pending.value.maker == request {
        pending := Some(pending.value.(settled := true));
      }
    }
  }
}
