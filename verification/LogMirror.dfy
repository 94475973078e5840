/**
 The mirrored invocation log of the workflow page: fetches and live events race to update a cached copy
 of a log that only grows on the server. Each `await` of the code is the boundary between two steps; the
 environment decides how far the server's log has grown and when a fetch completes or fails.
 */
module LogMirror {

  import opened Wrappers

  type Byte = bv8
  type Log = seq<Byte>

  /** One `logRequest` object. `issued` is ghost knowledge: the server's length when the pending fetch was sent. */
  datatype Request = Request(key: string, log: Option<Log>, error: bool, pending: bool, dirty: bool, attempted: bool, issued: nat)

  /**
   `requests` are all request objects made so far, `current` the one the page refers to, `view` the key of
   the invocation shown, if the log view is shown. `heard` is the greatest end offset of the log events
   received for a key while it was shown. `missed` are the keys for which a forced reload was due but could
   not be made: the page was hidden, the log element was missing, or another view had been selected.
   */
  datatype State = State(requests: seq<Request>, current: Option<nat>, view: Option<string>, hidden: bool, container: bool,
                         revision: Option<nat>, server: map<string, Log>, heard: map<string, nat>, missed: set<string>)

  datatype Event =
    | Show(key: string, skip: bool)
    | ShowOther
    | Hide(nowHidden: bool)
    | Element(present: bool)
    | Grow(key: string, more: Log)
    | LogEvent(start: nat, end: nat)
    | Refresh(skip: bool)
    | Poll
    | Fetched(request: nat, length: nat)
    | FetchFails(request: nat)
    | Flow(mine: bool, flowRevision: nat)

  function Server(s: State, key: string): Log { if key in s.server then s.server[key] else [] }
  function Heard(s: State, key: string): nat { if key in s.heard then s.heard[key] else 0 }
  function Max(a: nat, b: nat): nat { if a < b then b else a }

  predicate HasCurrent(s: State, key: string) {
    s.current.Some? && s.current.value < |s.requests| && s.requests[s.current.value].key == key
  }

  /** `loadLog`: an unforced load may be skipped when the request was attempted before. */
  function Load(s: State, key: string, force: bool, skip: bool): State {
    if s.hidden || !s.container then (if force then s.(missed := s.missed + {key}) else s)
    else
      var t := if HasCurrent(s, key) then s
               else s.(requests := s.requests + [Request(key, None, false, false, false, false, 0)], current := Some(|s.requests|));
      var c := t.current.value;
      var r := t.requests[c];
      if r.pending then (if force then t.(requests := t.requests[c := r.(dirty := true)]) else t)
      else if !force && skip && r.attempted then t
      else t.(requests := t.requests[c := r.(pending := true, attempted := true, issued := |Server(t, key)|)],
              missed := t.missed - {key})
  }

  /** The `finally` part of a fetch: a dirty current request reloads what is shown now. */
  function Settle(s: State, id: nat): State
    requires id < |s.requests|
  {
    var r := s.requests[id];
    var done := s.(requests := s.requests[id := r.(pending := false)]);
    if !r.dirty || s.current != Some(id) then done
    else
      var clean := done.(requests := done.requests[id := r.(pending := false, dirty := false)], missed := done.missed + {r.key});
      if clean.view == None then clean else Load(clean, clean.view.value, true, false)
  }

  predicate Possible(s: State, e: Event) {
    match e
    case LogEvent(start, end) => s.view.Some? ==> start <= end <= |Server(s, s.view.value)|
    case Fetched(id, n) => id < |s.requests| && s.requests[id].pending && s.requests[id].issued <= n <= |Server(s, s.requests[id].key)|
    case FetchFails(id) => id < |s.requests| && s.requests[id].pending
    case _ => true
  }

  function Appended(s: State, start: nat, end: nat): State
    requires s.view.Some? && start <= end <= |Server(s, s.view.value)|
  {
    var key := s.view.value;
    var t := s.(heard := s.heard[key := Max(Heard(s, key), end)]);
    if HasCurrent(t, key) then
      var c := t.current.value;
      var r := t.requests[c];
      var bytes := if r.log.Some? then |r.log.value| else -1;
      if !r.pending && !r.error && bytes >= end then t
      else if !r.pending && !r.error && bytes == start
      then t.(requests := t.requests[c := r.(log := Some(r.log.value + Server(s, key)[start..end]))])
      else Load(t, key, true, false)
    else Load(t, key, true, false)
  }

  function Next(s: State, e: Event): State
    requires Possible(s, e)
  {
    match e
    case Show(key, skip) => Load(s.(view := Some(key)), key, false, skip)
    case ShowOther => s.(view := None)
    case Hide(h) => s.(hidden := h)
    case Element(p) => s.(container := p)
    case Grow(key, more) => s.(server := s.server[key := Server(s, key) + more])
    case LogEvent(start, end) => if s.view == None then s else Appended(s, start, end)
    case Refresh(skip) => if s.view == None then s else Load(s, s.view.value, false, skip)
    case Poll => if s.view == None then s else Load(s, s.view.value, true, false)
    case Fetched(id, n) =>
      var r := s.requests[id];
      Settle(s.(requests := s.requests[id := r.(log := Some(Server(s, r.key)[..n]), error := false)]), id)
    case FetchFails(id) => Settle(s.(requests := s.requests[id := s.requests[id].(error := true)]), id)
    case Flow(mine, revision) =>
      if !mine || (s.revision.Some? && revision < s.revision.value) then s else s.(revision := Some(revision))
  }

  // What holds at every moment

  /** A cached log is a prefix of the server's; a fetch was sent when the server had at most its present log. */
  ghost predicate RequestOk(s: State, r: Request) {
    && (r.log.Some? ==> r.log.value <= Server(s, r.key))
    && (r.pending ==> r.issued <= |Server(s, r.key)|)
    && (!r.pending && !r.error ==> r.log.Some?)
    && r.attempted
  }

  /** The current request covers what was heard, or will: by the pending fetch or by the reload after it. */
  ghost predicate CoverOk(s: State, r: Request) {
    && (!r.pending ==> !r.dirty)
    && (r.key !in s.missed ==>
          && (r.pending ==> r.dirty || Heard(s, r.key) <= r.issued)
          && (!r.pending && !r.error ==> r.log.Some? && Heard(s, r.key) <= |r.log.value|))
  }

  ghost predicate RequestsOk(s: State) {
    forall i :: 0 <= i < |s.requests| ==> RequestOk(s, s.requests[i])
  }

  /** The invariant without the promise about the current request. */
  ghost predicate Base(s: State) {
    && (s.current.Some? ==> s.current.value < |s.requests|)
    && RequestsOk(s)
    && forall key :: Heard(s, key) <= |Server(s, key)|
  }

  ghost predicate Inv(s: State) {
    Base(s) && (s.current.Some? ==> CoverOk(s, s.requests[s.current.value]))
  }

  function Initial(hidden: bool): State { State([], None, None, hidden, false, None, map[], map[], {}) }

  lemma InitialInv(hidden: bool)
    ensures Inv(Initial(hidden))
  {
  }

  /** A forced load makes good whatever was just heard for its key. */
  lemma ForcedLoadRestores(s: State, key: string, skip: bool)
    requires Base(s)
    requires s.current.Some? ==> var r := s.requests[s.current.value]; (r.pending || !r.dirty) && (r.key != key ==> CoverOk(s, r))
    ensures Inv(Load(s, key, true, skip))
    ensures HasCurrent(Load(s, key, true, skip), key) || key in Load(s, key, true, skip).missed
  {
    LoadKeepsBase(s, key, true, skip);
  }

  lemma LoadKeepsServer(s: State, key: string, force: bool, skip: bool)
    ensures var t := Load(s, key, force, skip); t.server == s.server && t.heard == s.heard
  {
  }

  lemma LoadKeepsRequests(s: State, key: string, force: bool, skip: bool)
    requires Base(s)
    ensures var t := Load(s, key, force, skip); RequestsOk(t) && (t.current.Some? ==> t.current.value < |t.requests|)
  {
    LoadKeepsServer(s, key, force, skip);
    var t := Load(s, key, force, skip);
    forall i | 0 <= i < |t.requests| ensures RequestOk(t, t.requests[i]) {
      if i < |s.requests| { assert RequestOk(s, s.requests[i]); }
    }
  }

  lemma LoadKeepsBase(s: State, key: string, force: bool, skip: bool)
    requires Base(s)
    ensures Base(Load(s, key, force, skip))
  {
    hide Load, RequestsOk;
    LoadKeepsServer(s, key, force, skip);
    LoadKeepsRequests(s, key, force, skip);
    var t := Load(s, key, force, skip);
    forall k ensures Heard(t, k) <= |Server(t, k)| { assert Heard(s, k) <= |Server(s, k)|; }
  }

  lemma UnforcedLoadKeepsInv(s: State, key: string, skip: bool)
    requires Inv(s)
    ensures Inv(Load(s, key, false, skip))
  {
    LoadKeepsBase(s, key, false, skip);
  }

  /** A completed fetch: the cached log reaches at least as far as the server did when the fetch was sent. */
  lemma SettleKeepsInv(s: State, id: nat)
    requires Base(s) && id < |s.requests|
    requires var r := s.requests[id]; r.attempted && (r.error || (r.log.Some? && r.issued <= |r.log.value|))
    requires s.requests[id].pending && (s.current.Some? ==> CoverOk(s, s.requests[s.current.value]))
    ensures Inv(Settle(s, id))
  {
    hide Load;
    var r := s.requests[id];
    var done := s.(requests := s.requests[id := r.(pending := false)]);
    forall i | 0 <= i < |done.requests| ensures RequestOk(done, done.requests[i]) {
      assert RequestOk(s, s.requests[i]);
    }
    forall k ensures Heard(done, k) <= |Server(done, k)| { assert Heard(s, k) <= |Server(s, k)|; }
    if r.dirty && s.current == Some(id) {
      var clean := done.(requests := done.requests[id := r.(pending := false, dirty := false)], missed := done.missed + {r.key});
      forall i | 0 <= i < |clean.requests| ensures RequestOk(clean, clean.requests[i]) {
        assert RequestOk(done, done.requests[i]);
      }
      forall k ensures Heard(clean, k) <= |Server(clean, k)| { assert Heard(s, k) <= |Server(s, k)|; }
      if clean.view.Some? { ForcedLoadRestores(clean, clean.view.value, false); }
    }
  }

  lemma AppendKeepsInv(s: State, start: nat, end: nat)
    requires Inv(s) && s.view.Some? && start <= end <= |Server(s, s.view.value)|
    ensures Inv(Appended(s, start, end))
  {
    hide Load;
    var key := s.view.value;
    var t := s.(heard := s.heard[key := Max(Heard(s, key), end)]);
    HearingKeepsBase(s, key, end);
    ForcedLoadRestores(t, key, false);
    if HasCurrent(t, key) {
      var r := t.requests[t.current.value];
      if !r.pending && !r.error && r.log.Some? && |r.log.value| == start < end { AppendingKeepsInv(s, t, start, end); }
    }
  }

  lemma HearingKeepsBase(s: State, key: string, end: nat)
    requires Base(s) && end <= |Server(s, key)|
    ensures Base(s.(heard := s.heard[key := Max(Heard(s, key), end)]))
  {
    var t := s.(heard := s.heard[key := Max(Heard(s, key), end)]);
    forall i | 0 <= i < |t.requests| ensures RequestOk(t, t.requests[i]) { assert RequestOk(s, s.requests[i]); }
    forall k ensures Heard(t, k) <= |Server(t, k)| { assert Heard(s, k) <= |Server(s, k)|; }
  }

  /** A live event that continues the cached log extends it to a longer prefix of the server's. */
  lemma AppendingKeepsInv(s: State, t: State, start: nat, end: nat)
    requires Inv(s) && s.view.Some? && start < end <= |Server(s, s.view.value)|
    requires t == s.(heard := s.heard[s.view.value := Max(Heard(s, s.view.value), end)]) && Base(t)
    requires HasCurrent(t, s.view.value)
    requires var r := t.requests[t.current.value]; !r.pending && !r.error && r.log.Some? && |r.log.value| == start
    ensures Inv(Appended(s, start, end))
  {
    hide Load;
    var after := Appended(s, start, end);
    var r, log := t.requests[t.current.value], Server(s, s.view.value);
    assert RequestOk(s, r);
    assert r.log.value + log[start..end] == log[..end];
    forall i | 0 <= i < |after.requests| ensures RequestOk(after, after.requests[i]) { assert RequestOk(t, t.requests[i]); }
    forall k ensures Heard(after, k) <= |Server(after, k)| { assert Heard(t, k) <= |Server(t, k)|; }
  }

  lemma GrowKeepsInv(s: State, key: string, more: Log)
    requires Inv(s)
    ensures Inv(Next(s, Grow(key, more)))
  {
    var t := Next(s, Grow(key, more));
    forall i | 0 <= i < |t.requests| ensures RequestOk(t, t.requests[i]) {
      assert RequestOk(s, s.requests[i]);
    }
    forall k ensures Heard(t, k) <= |Server(t, k)| { assert Heard(s, k) <= |Server(s, k)|; }
  }

  /** The request after its answer has been stored, before the end of the fetch is dealt with. */
  function Answered(s: State, e: Event): State
    requires (e.Fetched? || e.FetchFails?) && Possible(s, e)
  {
    var r := s.requests[e.request];
    s.(requests := s.requests[e.request :=
      if e.Fetched? then r.(log := Some(Server(s, r.key)[..e.length]), error := false) else r.(error := true)])
  }

  lemma AnswerKeepsBase(s: State, e: Event)
    requires Inv(s) && (e.Fetched? || e.FetchFails?) && Possible(s, e)
    ensures var t := Answered(s, e);
            Base(t) && (t.current.Some? ==> CoverOk(t, t.requests[t.current.value])) && t.requests[e.request].attempted
  {
    var t := Answered(s, e);
    assert RequestOk(s, s.requests[e.request]);
    forall i | 0 <= i < |t.requests| ensures RequestOk(t, t.requests[i]) { assert RequestOk(s, s.requests[i]); }
    forall k ensures Heard(t, k) <= |Server(t, k)| { assert Heard(s, k) <= |Server(s, k)|; }
  }

  lemma FetchKeepsInv(s: State, e: Event)
    requires Inv(s) && Possible(s, e) && (e.Fetched? || e.FetchFails?)
    ensures Inv(Next(s, e))
  {
    hide Settle, Load, Base, CoverOk;
    AnswerKeepsBase(s, e);
    SettleKeepsInv(Answered(s, e), e.request);
  }

  lemma ViewKeepsInv(s: State, view: Option<string>, hidden: bool, container: bool, revision: Option<nat>)
    requires Inv(s)
    ensures Inv(s.(view := view, hidden := hidden, container := container, revision := revision))
  {
    var t := s.(view := view, hidden := hidden, container := container, revision := revision);
    forall i | 0 <= i < |t.requests| ensures RequestOk(t, t.requests[i]) { assert RequestOk(s, s.requests[i]); }
    forall k ensures Heard(t, k) <= |Server(t, k)| { assert Heard(s, k) <= |Server(s, k)|; }
  }

  lemma NextKeepsInv(s: State, e: Event)
    requires Inv(s) && Possible(s, e)
    ensures Inv(Next(s, e))
  {
    hide Inv, Load, Settle, Appended;
    if e.Fetched? || e.FetchFails? {
      FetchKeepsInv(s, e);
    } else if e.LogEvent? {
      if s.view.Some? { AppendKeepsInv(s, e.start, e.end); }
    } else if e.Grow? {
      GrowKeepsInv(s, e.key, e.more);
    } else {
      PageStepKeepsInv(s, e);
    }
  }

  lemma PageStepKeepsInv(s: State, e: Event)
    requires Inv(s) && !e.Fetched? && !e.FetchFails? && !e.LogEvent? && !e.Grow?
    ensures Inv(Next(s, e))
  {
    hide Inv, Load, Settle, Appended;
    if e.Show? {
      ViewKeepsInv(s, Some(e.key), s.hidden, s.container, s.revision);
      UnforcedLoadKeepsInv(s.(view := Some(e.key)), e.key, e.skip);
    } else if e.Refresh? {
      if s.view.Some? { UnforcedLoadKeepsInv(s, s.view.value, e.skip); }
    } else if e.Poll? {
      if s.view.Some? { PollKeepsInv(s); }
    } else {
      ViewKeepsInv(s, if e.ShowOther? then None else s.view, if e.Hide? then e.nowHidden else s.hidden,
                   if e.Element? then e.present else s.container,
                   if e.Flow? && e.mine && (s.revision == None || e.flowRevision >= s.revision.value) then Some(e.flowRevision) else s.revision);
    }
  }

  lemma PollKeepsInv(s: State)
    requires Inv(s) && s.view.Some?
    ensures Inv(Load(s, s.view.value, true, false))
  {
    hide Load;
    ForcedLoadRestores(s, s.view.value, false);
  }

  // Runs

  ghost predicate AllPossible(s: State, events: seq<Event>)
    decreases |events|
  {
    events == [] || (Possible(s, events[0]) && AllPossible(Next(s, events[0]), events[1..]))
  }

  ghost function Run(s: State, events: seq<Event>): State
    requires AllPossible(s, events)
    decreases |events|
  {
    if events == [] then s else Run(Next(s, events[0]), events[1..])
  }

  lemma {:induction false} RunKeepsInv(s: State, events: seq<Event>)
    requires Inv(s) && AllPossible(s, events)
    ensures Inv(Run(s, events))
    decreases |events|
  {
    hide Inv, Next, Possible;
    if events != [] {
      NextKeepsInv(s, events[0]);
      RunKeepsInv(Next(s, events[0]), events[1..]);
    }
  }

  /**
   After any interleaving of events, fetches and page changes, every cached log is a prefix of the server's;
   and once nothing is pending and no error is shown, the shown log covers every event received for it,
   unless a reload that was due could not be made.
   */
  lemma MirrorIsFaithful(hidden: bool, events: seq<Event>)
    requires AllPossible(Initial(hidden), events)
    ensures var s := Run(Initial(hidden), events);
            && (forall i :: 0 <= i < |s.requests| && s.requests[i].log.Some? ==> s.requests[i].log.value <= Server(s, s.requests[i].key))
            && (s.view.Some? && HasCurrent(s, s.view.value) && s.view.value !in s.missed ==>
                  var r := s.requests[s.current.value];
                  !r.pending && !r.error ==> r.log.Some? && Heard(s, s.view.value) <= |r.log.value|)
  {
    InitialInv(hidden);
    RunKeepsInv(Initial(hidden), events);
    var s := Run(Initial(hidden), events);
    forall i | 0 <= i < |s.requests| && s.requests[i].log.Some? ensures s.requests[i].log.value <= Server(s, s.requests[i].key) {
      assert RequestOk(s, s.requests[i]);
    }
  }

  // When a fetch is made

  /** A fetch of the log of `key` is under way. */
  predicate Fetching(s: State, key: string) { HasCurrent(s, key) && s.requests[s.current.value].pending }

  /**
   A load starts a fetch exactly when the page can load, none is under way, and the load is forced, is not to be
   skipped, or is the first for its key. Otherwise it changes nothing, but that a forced one is remembered.
   */
  lemma LoadExactly(s: State, key: string, force: bool, skip: bool)
    requires Base(s)
    ensures var t := Load(s, key, force, skip);
            var able := !s.hidden && s.container;
            var starts := able && !Fetching(s, key) && (force || !skip || !HasCurrent(s, key));
            && (Fetching(t, key) <==> starts || Fetching(s, key))
            && (starts ==> var r := t.requests[t.current.value]; r.issued == |Server(s, key)| && key !in t.missed)
            && (!starts && !force ==> t == s)
            && (!starts && force && able ==> t == s.(requests := s.requests[s.current.value := s.requests[s.current.value].(dirty := true)]))
            && (!starts && force && !able ==> t == s.(missed := s.missed + {key}))
  {
    if HasCurrent(s, key) { assert RequestOk(s, s.requests[s.current.value]); }
  }

  /** Showing a log, a refresh of the page and a poll all ask for it; a poll is not skipped. */
  lemma AskedForLoads(s: State, key: string)
    requires Inv(s) && !s.hidden && s.container
    ensures Fetching(Next(s, Show(key, false)), key)
    ensures !HasCurrent(s, key) ==> Fetching(Next(s, Show(key, true)), key)
    ensures s.view == Some(key) ==> Fetching(Next(s, Refresh(false)), key) && Fetching(Next(s, Poll), key)
    ensures s.view == Some(key) && HasCurrent(s, key) && !Fetching(s, key) ==> Next(s, Refresh(true)) == s
  {
    var shown := s.(view := Some(key));
    ViewKeepsInv(s, Some(key), s.hidden, s.container, s.revision);
    LoadExactly(shown, key, false, false);
    LoadExactly(shown, key, false, true);
    LoadExactly(s, key, false, false);
    LoadExactly(s, key, false, true);
    LoadExactly(s, key, true, false);
    hide Load, Inv;
  }

  /**
   An event of the shown log that the cache has already changes nothing, one that continues it is appended without a
   fetch, and any other starts a fetch or makes a reload due.
   */
  lemma EventExactly(s: State, start: nat, end: nat)
    requires Inv(s) && s.view.Some? && start <= end <= |Server(s, s.view.value)| && !s.hidden && s.container
    ensures var key := s.view.value; var t := Next(s, LogEvent(start, end));
            && HasCurrent(t, key)
            && var r := t.requests[t.current.value];
               if HasCurrent(s, key) && !s.requests[s.current.value].pending && !s.requests[s.current.value].error
                  && (end <= Known(s.requests[s.current.value]) || Known(s.requests[s.current.value]) == start)
               then
                 && t.current == s.current && !r.pending
                 && r.log == Some(Server(s, key)[..Max(end, Known(s.requests[s.current.value]))])
               else r.pending && (Fetching(s, key) ==> r.dirty)
  {
    if HasCurrent(s, s.view.value) {
      var r, log := s.requests[s.current.value], Server(s, s.view.value);
      assert RequestOk(s, r);
      if r.log.Some? {
        assert r.log.value == log[..|r.log.value|];
        if |r.log.value| == start { assert r.log.value + log[start..end] == log[..end]; }
      }
    }
  }

  /** A missed reload is made good by the next poll of a visible page once its fetch completes undisturbed. */
  lemma PollCatchesUp(s: State)
    requires Inv(s) && s.view.Some? && !s.hidden && s.container
    requires !HasCurrent(s, s.view.value) || !s.requests[s.current.value].pending
    ensures var polled := Next(s, Poll); var full := Server(s, s.view.value);
            && polled.current.Some? && Possible(polled, Fetched(polled.current.value, |full|))
            && var t := Next(polled, Fetched(polled.current.value, |full|));
               && HasCurrent(t, s.view.value) && s.view.value !in t.missed
               && t.requests[t.current.value].log == Some(full) && !t.requests[t.current.value].pending
  {
    var key := s.view.value;
    assert Server(s, key)[..|Server(s, key)|] == Server(s, key);
  }

  /** A poll that finds a fetch pending reloads after it, whether that fetch succeeds or fails. */
  lemma PollCatchesUpAfterFetch(s: State, first: Event)
    requires Inv(s) && s.view.Some? && !s.hidden && s.container
    requires HasCurrent(s, s.view.value) && s.requests[s.current.value].pending
    requires (first.Fetched? || first.FetchFails?) && first.request == s.current.value && Possible(s, first)
    ensures var c := s.current.value; var full := Server(s, s.view.value);
            && Possible(Next(s, Poll), first)
            && var second := Next(Next(s, Poll), first);
               && second.current == Some(c) && second.requests[c].pending && Possible(second, Fetched(c, |full|))
               && var t := Next(second, Fetched(c, |full|));
                  && HasCurrent(t, s.view.value) && s.view.value !in t.missed
                  && t.requests[c].log == Some(full) && !t.requests[c].pending && !t.requests[c].error
  {
    var key, c := s.view.value, s.current.value;
    var polled := Next(s, Poll);
    assert polled == s.(requests := s.requests[c := s.requests[c].(dirty := true)]);
    var second := Next(polled, first);
    assert second.requests[c].pending && !second.requests[c].dirty && second.requests[c].key == key && key !in second.missed;
    assert Server(s, key)[..|Server(s, key)|] == Server(s, key);
  }

  /** A reload is missed only while the page is hidden, has no log element, or shows something else. */
  lemma MissedOnlyWhenAway(s: State, e: Event, key: string)
    requires Inv(s) && Possible(s, e) && key !in s.missed && key in Next(s, e).missed
    ensures s.hidden || !s.container || s.view != Some(key)
  {
    hide Inv;
  }

  /** What was heard for `key` is cached, or a fetch that will bring it is under way or due, or an error is shown. */
  predicate Noticed(s: State, key: string) {
    HasCurrent(s, key) &&
    var r := s.requests[s.current.value];
    if r.pending then r.dirty || Heard(s, key) <= r.issued
    else r.error || (r.log.Some? && Heard(s, key) <= |r.log.value|)
  }

  /** How much of the log the current request has, or is sure to bring. */
  function Known(r: Request): nat {
    if r.pending then r.issued else if r.log.Some? then |r.log.value| else 0
  }

  /** An event of the shown log is lost exactly when the page cannot load and the cache is neither up to date nor extended. */
  lemma EventIsNoticedExactly(s: State, start: nat, end: nat)
    requires Inv(s) && s.view.Some? && start <= end <= |Server(s, s.view.value)| && Noticed(s, s.view.value)
    ensures var r := s.requests[s.current.value];
            Noticed(Next(s, LogEvent(start, end)), s.view.value) <==>
              || (!s.hidden && s.container)
              || end <= Known(r)
              || (if r.pending then r.dirty else r.error || Known(r) == start)
  {
    assert RequestOk(s, s.requests[s.current.value]);
    assert Heard(s, s.view.value) <= |Server(s, s.view.value)|;
  }

  /** A fetch of the shown log settles what was heard unless a reload was due and the page cannot load. */
  lemma FetchIsNoticedExactly(s: State, n: nat)
    requires Inv(s) && s.view.Some? && Noticed(s, s.view.value) && Possible(s, Fetched(s.current.value, n))
    ensures var r := s.requests[s.current.value];
            Noticed(Next(s, Fetched(s.current.value, n)), s.view.value) <==>
              !r.dirty || (!s.hidden && s.container) || Heard(s, s.view.value) <= n
  {
    assert RequestOk(s, s.requests[s.current.value]);
    assert Heard(s, s.view.value) <= |Server(s, s.view.value)|;
  }

  /** Log events come over a stream that is closed while the page is hidden, and the shown log has its element. */
  predicate Received(s: State, e: Event) {
    e.LogEvent? ==> !s.hidden && s.container
  }

  /** The request that the page refers to, whatever is shown, takes care of all that was heard for its key. */
  predicate Kept(s: State)
    requires s.current.Some? ==> s.current.value < |s.requests|
  {
    s.current.Some? ==> Noticed(s, s.requests[s.current.value].key)
  }

  /** A fetch that a reload was to follow completes, without all that was heard, while no log can be loaded. */
  predicate Drops(s: State, e: Event)
    requires s.current.Some? ==> s.current.value < |s.requests|
  {
    && e.Fetched? && s.current == Some(e.request) && s.requests[e.request].dirty
    && (s.hidden || !s.container || s.view == None)
    && Heard(s, s.requests[e.request].key) > e.length
  }

  /** With the events that the page can receive, something is lost in exactly one way, whatever is or will be shown. */
  lemma OnlyDroppedReloadsLose(s: State, e: Event)
    requires Inv(s) && Possible(s, e) && Received(s, e) && Kept(s)
    ensures Inv(Next(s, e)) && (Kept(Next(s, e)) <==> !Drops(s, e))
  {
    NextKeepsInv(s, e);
    if e.LogEvent? {
      ReceivedIsKept(s, e);
    } else if e.Fetched? || e.FetchFails? {
      hide Next;
      FetchIsKept(s, e);
    } else {
      PageStepIsKept(s, e);
    }
  }

  lemma LoadIsKept(s: State, key: string, force: bool, skip: bool)
    requires Base(s)
    ensures Base(Load(s, key, force, skip))
    ensures Kept(s) || (force && !s.hidden && s.container) ==> Kept(Load(s, key, force, skip))
    ensures s.hidden || !s.container ==> Kept(Load(s, key, force, skip)) == Kept(s)
  {
    LoadKeepsBase(s, key, force, skip);
    assert Heard(s, key) <= |Server(s, key)|;
  }

  lemma ReceivedIsKept(s: State, e: Event)
    requires Inv(s) && Possible(s, e) && Received(s, e) && e.LogEvent? && Kept(s)
    ensures Inv(Next(s, e)) && Kept(Next(s, e))
  {
    NextKeepsInv(s, e);
    if s.view.Some? {
      hide Load;
      var key := s.view.value;
      var t := s.(heard := s.heard[key := Max(Heard(s, key), e.end)]);
      HearingKeepsBase(s, key, e.end);
      LoadIsKept(t, key, true, false);
    }
  }

  /** The end of a fetch of the current request: a reload that was due is made, or forgotten if no log can be loaded. */
  lemma SettledIsKept(s: State, id: nat)
    requires Base(s) && s.current == Some(id) && CoverOk(s, s.requests[id])
    requires var r := s.requests[id]; r.pending && r.attempted && (r.error || (r.log.Some? && r.issued <= |r.log.value|))
    ensures Inv(Settle(s, id))
    ensures var r := s.requests[id];
            Kept(Settle(s, id)) <==>
              || r.error || Heard(s, r.key) <= |r.log.value|
              || (r.dirty && !s.hidden && s.container && s.view.Some?)
  {
    SettleKeepsInv(s, id);
    hide Load, Inv, CoverOk;
    if s.requests[id].dirty { ReloadIsKept(s, id); }
  }

  lemma ReloadIsKept(s: State, id: nat)
    requires Base(s) && s.current == Some(id)
    requires var r := s.requests[id]; r.dirty && (r.error || r.log.Some?)
    ensures Base(Settle(s, id))
    ensures var r := s.requests[id];
            Kept(Settle(s, id)) <==> || r.error || Heard(s, r.key) <= |r.log.value| || (!s.hidden && s.container && s.view.Some?)
  {
    hide Load, RequestsOk;
    var r := s.requests[id];
    var clean := s.(requests := s.requests[id := r.(pending := false, dirty := false)], missed := s.missed + {r.key});
    StillBase(s, id);
    assert s.requests[id := r.(pending := false)][id := r.(pending := false, dirty := false)] == clean.requests;
    assert Settle(s, id) == if s.view == None then clean else Load(clean, s.view.value, true, false);
    if s.view.Some? { LoadIsKept(clean, s.view.value, true, false); }
  }

  lemma OtherSettledIsKept(s: State, id: nat)
    requires (s.current.Some? ==> s.current.value < |s.requests|) && id < |s.requests| && s.current != Some(id)
    ensures Settle(s, id).current == s.current && |Settle(s, id).requests| == |s.requests|
    ensures Kept(Settle(s, id)) == Kept(s)
  {
  }

  lemma FetchIsKept(s: State, e: Event)
    requires Inv(s) && Possible(s, e) && (e.Fetched? || e.FetchFails?) && Kept(s)
    ensures Inv(Next(s, e)) && (Kept(Next(s, e)) <==> !Drops(s, e))
  {
    hide Settle, Load, CoverOk;
    FetchKeepsInv(s, e);
    AnswerKeepsBase(s, e);
    var t := Answered(s, e);
    assert Next(s, e) == Settle(t, e.request);
    if s.current == Some(e.request) {
      if !s.requests[e.request].dirty { DueWithoutReload(s, e.request); }
      SettledIsKept(t, e.request);
    } else {
      OtherSettledIsKept(t, e.request);
    }
  }

  lemma DueWithoutReload(s: State, id: nat)
    requires Inv(s) && s.current == Some(id) && Kept(s) && s.requests[id].pending && !s.requests[id].dirty
    ensures Heard(s, s.requests[id].key) <= s.requests[id].issued
  {
  }

  lemma PageStepIsKept(s: State, e: Event)
    requires Inv(s) && Possible(s, e) && !e.FetchFails? && !e.Fetched? && !e.LogEvent? && Kept(s)
    ensures Inv(Next(s, e)) && Kept(Next(s, e))
  {
    NextKeepsInv(s, e);
    hide Load;
    if e.Show? {
      ViewKeepsInv(s, Some(e.key), s.hidden, s.container, s.revision);
      LoadIsKept(s.(view := Some(e.key)), e.key, false, e.skip);
    } else if e.Refresh? {
      if s.view.Some? { LoadIsKept(s, s.view.value, false, e.skip); }
    } else if e.Poll? {
      if s.view.Some? { LoadIsKept(s, s.view.value, true, false); }
    }
  }

  ghost predicate AllReceived(s: State, events: seq<Event>)
    requires AllPossible(s, events)
    decreases |events|
  {
    events == [] || (Received(s, events[0]) && AllReceived(Next(s, events[0]), events[1..]))
  }

  ghost predicate AlwaysKept(s: State, events: seq<Event>)
    requires Inv(s) && AllPossible(s, events)
    decreases |events|
  {
    Kept(s) && (events == [] || (Inv(Next(s, events[0])) && AlwaysKept(Next(s, events[0]), events[1..])))
  }

  ghost predicate NeverDrops(s: State, events: seq<Event>)
    requires Inv(s) && AllPossible(s, events)
    decreases |events|
  {
    events == [] || (!Drops(s, events[0]) && Inv(Next(s, events[0])) && NeverDrops(Next(s, events[0]), events[1..]))
  }

  /** Over a whole run of events that the page can receive: nothing is ever lost if and only if no due reload is dropped. */
  lemma {:induction false} LosesOnlyByDropping(s: State, events: seq<Event>)
    requires Inv(s) && AllPossible(s, events) && AllReceived(s, events) && Kept(s)
    ensures AlwaysKept(s, events) <==> NeverDrops(s, events)
    decreases |events|
  {
    hide RequestsOk, CoverOk, Next, Possible, Received, Drops, Noticed;
    if events != [] {
      var t := Next(s, events[0]);
      OnlyDroppedReloadsLose(s, events[0]);
      if Kept(t) { LosesOnlyByDropping(t, events[1..]); }
    }
  }

  /** A settled view: the log of `key` is shown on a visible page, nothing is pending, no error is shown. */
  predicate Settled(s: State, key: string) {
    s.view == Some(key) && !s.hidden && s.container && HasCurrent(s, key)
    && !s.requests[s.current.value].pending && !s.requests[s.current.value].error
  }

  const HIDDEN_MEANWHILE := [Element(true), Show("run", false), Grow("run", [1, 2]), LogEvent(0, 2), Hide(true), Fetched(0, 0), Hide(false)]

  const AWAY_MEANWHILE := [Element(true), Show("run", false), Grow("run", [1, 2]), LogEvent(0, 2), ShowOther, Fetched(0, 0), Show("run", true)]

  /**
   An event arrives while the log is being fetched, so that a reload is due; the page is hidden when the fetch
   completes, and nothing reloads when it is shown again.
   */
  lemma EventCanBeLost()
    ensures AllPossible(Initial(false), HIDDEN_MEANWHILE) && AllReceived(Initial(false), HIDDEN_MEANWHILE)
    ensures var t := Run(Initial(false), HIDDEN_MEANWHILE); Settled(t, "run") && !Noticed(t, "run")
  {
    LossBegins(HIDDEN_MEANWHILE);
  }

  /**
   The same without hiding the page: no log is shown when the fetch completes, and showing the log again soon
   after, or when its phase is over, makes an unforced load, which is skipped.
   */
  lemma EventCanBeLostInSight()
    ensures AllPossible(Initial(false), AWAY_MEANWHILE) && AllReceived(Initial(false), AWAY_MEANWHILE)
    ensures var t := Run(Initial(false), AWAY_MEANWHILE); Settled(t, "run") && !Noticed(t, "run")
  {
    LossBegins(AWAY_MEANWHILE);
  }

  lemma LossBegins(events: seq<Event>)
    requires events == HIDDEN_MEANWHILE || events == AWAY_MEANWHILE
    ensures AllPossible(Initial(false), events) && AllReceived(Initial(false), events)
    ensures var t := Run(Initial(false), events); Settled(t, "run") && !Noticed(t, "run")
  {
    hide Run, AllPossible, AllReceived;
    var a := Initial(false);
    var b := Next(a, events[0]);
    var c := Next(b, events[1]);
    assert c.requests == [Request("run", None, false, true, false, true, 0)] && c.current == Some(0);
    var d := Next(c, events[2]);
    assert Server(d, "run") == [1, 2];
    LossEnds(d, events[3..]);
    RunsStep(c, events[2..]);
    RunsStep(b, events[1..]);
    RunsStep(a, events);
  }

  lemma LossEnds(d: State, events: seq<Event>)
    requires d.requests == [Request("run", None, false, true, false, true, 0)] && d.current == Some(0)
    requires d.view == Some("run") && !d.hidden && d.container && Server(d, "run") == [1, 2] && d.heard == map[]
    requires events == HIDDEN_MEANWHILE[3..] || events == AWAY_MEANWHILE[3..]
    ensures AllPossible(d, events) && AllReceived(d, events)
    ensures var t := Run(d, events); Settled(t, "run") && !Noticed(t, "run")
  {
    hide Run, AllPossible, AllReceived, Load;
    var e := d.(heard := map["run" := 2], requests := [Request("run", None, false, true, true, true, 0)]);
    HeardDuringFetch(d);
    var f := Next(e, events[1]);
    DropAndReturn(f, events[2..]);
    RunsStep(e, events[1..]);
    RunsStep(d, events);
  }

  lemma HeardDuringFetch(d: State)
    requires d.requests == [Request("run", None, false, true, false, true, 0)] && d.current == Some(0)
    requires d.view == Some("run") && !d.hidden && d.container && Server(d, "run") == [1, 2] && d.heard == map[]
    ensures Possible(d, LogEvent(0, 2))
    ensures Next(d, LogEvent(0, 2)) == d.(heard := map["run" := 2], requests := [Request("run", None, false, true, true, true, 0)])
  {
  }

  lemma DropAndReturn(f: State, events: seq<Event>)
    requires f.requests == [Request("run", None, false, true, true, true, 0)] && f.current == Some(0) && f.container
    requires Server(f, "run") == [1, 2] && f.heard == map["run" := 2]
    requires || (f.view == Some("run") && f.hidden && events == HIDDEN_MEANWHILE[5..])
             || (f.view == None && !f.hidden && events == AWAY_MEANWHILE[5..])
    ensures AllPossible(f, events) && AllReceived(f, events)
    ensures var t := Run(f, events); Settled(t, "run") && !Noticed(t, "run")
  {
    hide Run, AllPossible, AllReceived;
    var g := Next(f, events[0]);
    assert g.requests == [Request("run", Some([]), false, false, false, true, 0)];
    var h := Next(g, events[1]);
    RunsEmpty(h);
    RunsStep(g, events[1..]);
    RunsStep(f, events);
  }

  lemma RunsEmpty(s: State)
    ensures AllPossible(s, []) && AllReceived(s, []) && Run(s, []) == s
  {
  }

  lemma RunsStep(s: State, events: seq<Event>)
    requires events != [] && Possible(s, events[0]) && AllPossible(Next(s, events[0]), events[1..])
    requires Received(s, events[0]) && AllReceived(Next(s, events[0]), events[1..])
    ensures AllPossible(s, events) && AllReceived(s, events) && Run(s, events) == Run(Next(s, events[0]), events[1..])
  {
  }

  /** The applied flow revision never decreases. */
  lemma RevisionNeverDecreases(s: State, events: seq<Event>)
    requires AllPossible(s, events) && s.revision.Some?
    ensures var r := Run(s, events); r.revision.Some? && s.revision.value <= r.revision.value
  {
    RevisionIsGreatest(s, events);
  }

  /** The revisions of the selected flow that arrive in a run. */
  ghost predicate Arrives(events: seq<Event>, i: int, revision: nat) {
    0 <= i < |events| && events[i] == Flow(true, revision)
  }

  /** The applied revision is the greatest that has arrived for the selected flow, counting the one applied before. */
  lemma {:induction false} RevisionIsGreatest(s: State, events: seq<Event>)
    requires AllPossible(s, events)
    ensures var r := Run(s, events).revision;
            && (r.Some? <==> s.revision.Some? || exists i, n: nat :: Arrives(events, i, n))
            && (r.Some? ==> r == s.revision || exists i :: Arrives(events, i, r.value))
            && (r.Some? && s.revision.Some? ==> s.revision.value <= r.value)
            && (forall i, n: nat :: Arrives(events, i, n) ==> r.Some? && n <= r.value)
    decreases |events|
  {
    if events != [] {
      var e, rest := events[0], events[1..];
      var t := Next(s, e);
      StateFollowsEvents(s, e);
      hide Next, Possible;
      RevisionIsGreatest(t, rest);
      forall i, n: nat | Arrives(rest, i, n) ensures Arrives(events, i + 1, n) {}
      forall i, n: nat | Arrives(events, i, n) ensures if i == 0 then e == Flow(true, n) else Arrives(rest, i - 1, n) {}
      if e.Flow? && e.mine { assert Arrives(events, 0, e.flowRevision); }
    }
  }

  /** The page, the server and what was heard are the same. */
  ghost predicate SamePage(s: State, t: State) {
    && s.view == t.view && s.hidden == t.hidden && s.container == t.container && s.revision == t.revision
    && s.server == t.server && s.heard == t.heard
  }

  lemma LoadKeepsPage(s: State, key: string, force: bool, skip: bool)
    ensures SamePage(Load(s, key, force, skip), s)
  {
  }

  lemma SettleKeepsPage(s: State, id: nat)
    requires id < |s.requests|
    ensures SamePage(Settle(s, id), s)
  {
    hide Load;
    forall t: State, key, force, skip ensures SamePage(Load(t, key, force, skip), t) { LoadKeepsPage(t, key, force, skip); }
  }

  lemma AppendKeepsPage(s: State, start: nat, end: nat)
    requires s.view.Some? && start <= end <= |Server(s, s.view.value)|
    ensures SamePage(Appended(s, start, end), s.(heard := s.heard[s.view.value := Max(Heard(s, s.view.value), end)]))
  {
    hide Load;
    forall t: State, key, force, skip ensures SamePage(Load(t, key, force, skip), t) { LoadKeepsPage(t, key, force, skip); }
  }

  /** The page and the server follow their own events; what was heard of a shown log grows with its events only. */
  lemma StateFollowsEvents(s: State, e: Event)
    requires Possible(s, e)
    ensures Next(s, e).view == if e.Show? then Some(e.key) else if e.ShowOther? then None else s.view
    ensures Next(s, e).hidden == if e.Hide? then e.nowHidden else s.hidden
    ensures Next(s, e).container == if e.Element? then e.present else s.container
    ensures Next(s, e).server == if e.Grow? then s.server[e.key := Server(s, e.key) + e.more] else s.server
    ensures Next(s, e).heard ==
              if e.LogEvent? && s.view.Some? then s.heard[s.view.value := Max(Heard(s, s.view.value), e.end)] else s.heard
    ensures Next(s, e).revision ==
              if e.Flow? && e.mine && (s.revision.Some? ==> s.revision.value <= e.flowRevision) then Some(e.flowRevision) else s.revision
  {
    hide Load, Settle, Appended, Max, Heard;
    if e.Fetched? || e.FetchFails? {
      SettleKeepsPage(Answered(s, e), e.request);
    } else if e.LogEvent? {
      if s.view.Some? { AppendKeepsPage(s, e.start, e.end); }
    } else if e.Show? {
      LoadKeepsPage(s.(view := Some(e.key)), e.key, false, e.skip);
    } else if e.Refresh? {
      if s.view.Some? { LoadKeepsPage(s, s.view.value, false, e.skip); }
    } else if e.Poll? {
      if s.view.Some? { LoadKeepsPage(s, s.view.value, true, false); }
    }
  }

  // The page

  class LogView {
    var requests: seq<Request>
    var logRequest: Option<nat>
    var view: Option<string>
    var hidden: bool
    var container: bool
    var revision: Option<nat>
    // bookkeeping about the environment, which the code does not have
    var server: map<string, Log>
    var heard: map<string, nat>
    var missed: set<string>

    ghost function Snap(): State
      reads this
    {
      State(requests, logRequest, view, hidden, container, revision, server, heard, missed)
    }

    ghost predicate Ok()
      reads this
    {
      Inv(Snap())
    }

    constructor (isHidden: bool)
      ensures Ok() && Snap() == Initial(isHidden)
    {
      requests, logRequest, view, hidden, container, revision := [], None, None, isHidden, false, None;
      server, heard, missed := map[], map[], {};
      new;
      InitialInv(isHidden);
    }

    /** `skip` is the verdict of the checks that apply to an unforced load of a request attempted before. */
    method LoadLog(key: string, force: bool, skip: bool)
      requires Base(Snap())
      modifies this
      ensures Snap() == Load(old(Snap()), key, force, skip)
    {
      if hidden || !container {
        if force { missed := missed + {key}; }
        return;
      }
      if logRequest == None || requests[logRequest.value].key != key {
        logRequest := Some(|requests|);
        requests := requests + [Request(key, None, false, false, false, false, 0)];
      }
      var c := logRequest.value;
      if requests[c].pending {
        if force { requests := requests[c := requests[c].(dirty := true)]; }
        return;
      }
      if !force && skip && requests[c].attempted { return; }
      var sent := if key in server then |server[key]| else 0;
      requests := requests[c := Sent(requests[c], sent)];
      missed := missed - {key};
    }

    /** The end of a fetch, whether it succeeded or failed. */
    method Finish(id: nat)
      requires Base(Snap()) && id < |requests| && requests[id].attempted
      requires requests[id].error || requests[id].log.Some?
      modifies this
      ensures Snap() == Settle(old(Snap()), id)
    {
      hide Load;
      requests := requests[id := requests[id].(pending := false)];
      if requests[id].dirty && logRequest == Some(id) {
        missed := missed + {requests[id].key};
        requests := requests[id := requests[id].(dirty := false)];
        ghost var was := old(Snap());
        StillBase(was, id);
        assert Snap() == was.(requests := was.requests[id := was.requests[id].(pending := false, dirty := false)],
                              missed := was.missed + {was.requests[id].key});
        if view.Some? { LoadLog(view.value, true, false); }
      }
    }

    method FetchSucceeded(id: nat, log: Log)
      requires Ok() && Possible(Snap(), Fetched(id, |log|)) && log == Server(Snap(), requests[id].key)[..|log|]
      modifies this
      ensures Ok() && Snap() == Next(old(Snap()), Fetched(id, |log|))
    {
      NextKeepsInv(Snap(), Fetched(id, |log|));
      AnswerKeepsBase(Snap(), Fetched(id, |log|));
      hide Inv, Settle, Load;
      requests := requests[id := requests[id].(log := Some(log), error := false)];
      Finish(id);
    }

    method FetchFailed(id: nat)
      requires Ok() && Possible(Snap(), FetchFails(id))
      modifies this
      ensures Ok() && Snap() == Next(old(Snap()), FetchFails(id))
    {
      NextKeepsInv(Snap(), FetchFails(id));
      AnswerKeepsBase(Snap(), FetchFails(id));
      hide Inv, Settle, Load;
      requests := requests[id := requests[id].(error := true)];
      Finish(id);
    }

    method AppendLiveLog(start: nat, end: nat, chunk: Log)
      requires Ok() && Possible(Snap(), LogEvent(start, end))
      requires view.Some? ==> chunk == Server(Snap(), view.value)[start..end]
      modifies this
      ensures Ok() && Snap() == Next(old(Snap()), LogEvent(start, end))
    {
      NextKeepsInv(Snap(), LogEvent(start, end));
      if view == None { return; }
      HearingKeepsBase(Snap(), view.value, end);
      hide Inv, Load, Base, Max;
      var key := view.value;
      heard := heard[key := Max(if key in heard then heard[key] else 0, end)];
      if logRequest.Some? && requests[logRequest.value].key == key {
        var request := requests[logRequest.value];
        var bytes := if request.log.Some? then |request.log.value| else -1;
        if !request.pending && !request.error && bytes >= end { return; }
        if !request.pending && !request.error && bytes == start {
          requests := requests[logRequest.value := request.(log := Some(request.log.value + chunk))];
          return;
        }
      }
      LoadLog(key, true, false);
    }

    method PollLog()
      requires Ok()
      modifies this
      ensures Ok() && Snap() == Next(old(Snap()), Poll)
    {
      hide Load;
      NextKeepsInv(Snap(), Poll);
      if view == None { return; }
      LoadLog(view.value, true, false);
    }

    method SelectPhase(key: string, skip: bool)
      requires Ok()
      modifies this
      ensures Ok() && Snap() == Next(old(Snap()), Show(key, skip))
    {
      hide Load;
      NextKeepsInv(Snap(), Show(key, skip));
      ViewKeepsInv(Snap(), Some(key), hidden, container, revision);
      view := Some(key);
      LoadLog(key, false, skip);
    }

    method ApplyFlow(mine: bool, flowRevision: nat)
      requires Ok()
      modifies this
      ensures Ok() && Snap() == Next(old(Snap()), Flow(mine, flowRevision))
    {
      NextKeepsInv(Snap(), Flow(mine, flowRevision));
      if !mine || (revision.Some? && flowRevision < revision.value) { return; }
      revision := Some(flowRevision);
    }
  }

  /** The request once its fetch has been sent. */
  function Sent(r: Request, length: nat): Request { r.(pending := true, attempted := true, issued := length) }

  lemma StillBase(s: State, id: nat)
    requires Base(s) && id < |s.requests| && (s.requests[id].error || s.requests[id].log.Some?)
    ensures Base(s.(requests := s.requests[id := s.requests[id].(pending := false, dirty := false)], missed := s.missed + {s.requests[id].key}))
  {
    var t := s.(requests := s.requests[id := s.requests[id].(pending := false, dirty := false)], missed := s.missed + {s.requests[id].key});
    forall i | 0 <= i < |t.requests| ensures RequestOk(t, t.requests[i]) { assert RequestOk(s, s.requests[i]); }
    forall k ensures Heard(t, k) <= |Server(t, k)| { assert Heard(s, k) <= |Server(s, k)|; }
  }
}
