/**
 The host of an OnlyOffice editor: renders, clears, script loads, editor callbacks and the status image
 interleave, and the generation counters decide which of them still count.
 */
module OnlyOfficeHost {

  import opened Wrappers

  /**
   What is under way or over: the destroyed editors; the renders waiting for the script, with their keys; the
   status images on the way to `catch` and to `finally`; the key of the newest generation if a render started it.
   */
  datatype Past = Past(destroyed: set<nat>, loading: map<nat, string>, images: set<nat>, caught: set<nat>,
                       requested: Option<string>)

  /**
   The runtime and the page: `inactive` is `inactiveRenderGeneration`, `asset` the generation whose
   `statusAssetPromise` is set, `contained` whether the host holds an editor container, and editor k was created
   for generation `editors[k]`.
   */
  datatype State = State(
    generation: nat, inactive: nat, configKey: string, editor: Option<nat>, asset: Option<nat>, assetError: bool,
    connected: bool, contained: bool,
    editors: seq<nat>, past: Past)

  datatype Event =
    | Render(key: string)
    | ScriptLoads(generation: nat, constructs: bool)
    | ScriptFails(generation: nat)
    | EditorError(k: nat)
    | EditorWarning(k: nat, code: int)
    | ImageLoads(generation: nat)
    | ImageFails(generation: nat)
    | ImageSettles(generation: nat)
    | Clear
    | PageChanges(connected: bool, contained: bool)

  const INACTIVE_EDITOR_WARNINGS := {-100, -101, -104, -120, -121, -122}

  predicate Active(s: State, key: string) {
    && s.editor.Some?
    && s.inactive != s.generation
    && s.connected
    && key != "" && s.configKey == key && s.contained
  }

  predicate Retired(s: State) {
    s.inactive == s.generation
  }

  function Destroyed(s: State): State {
    if s.editor.Some? then s.(editor := None, past := s.past.(destroyed := s.past.destroyed + {s.editor.value})) else s
  }

  function Rendered(s: State, key: string): State {
    if Active(s, key) || (Retired(s) && s.configKey == key) then s
    else
      var d := Destroyed(s);
      d.(generation := s.generation + 1, inactive := 0, asset := None, assetError := false,
         past := d.past.(loading := s.past.loading[s.generation + 1 := key], requested := Some(key)))
  }

  function Loaded(s: State, g: nat, constructs: bool): State
    requires g in s.past.loading
  {
    var t := s.(past := s.past.(loading := s.past.loading - {g}));
    if s.generation != g || !s.connected then t
    else if !constructs then t.(configKey := s.past.loading[g], contained := true)
    else t.(configKey := s.past.loading[g], contained := true, editor := Some(|s.editors|), editors := s.editors + [g],
            asset := Some(g), past := t.past.(images := s.past.images + {g}))
  }

  function Retire(s: State, g: nat): State {
    if s.generation == g then s.(inactive := g) else s
  }

  function ImageFailed(s: State, g: nat): State {
    var t := s.(past := s.past.(images := s.past.images - {g}, caught := s.past.caught + {g}));
    if s.generation != g || !s.connected then t else Destroyed(t).(inactive := g, assetError := true)
  }

  function ImageSettled(s: State, g: nat): State {
    var t := s.(past := s.past.(caught := s.past.caught - {g}));
    if s.generation == g then t.(asset := None) else t
  }

  function Cleared(s: State): State {
    var d := Destroyed(s);
    d.(generation := s.generation + 1, contained := false, configKey := "", inactive := 0, assetError := false,
       asset := None, past := d.past.(requested := None))
  }

  predicate Possible(s: State, e: Event) {
    match e
    case ScriptLoads(g, _) => g in s.past.loading
    case ScriptFails(g) => g in s.past.loading
    case EditorError(k) => k < |s.editors|
    case EditorWarning(k, _) => k < |s.editors|
    case ImageLoads(g) => g in s.past.images
    case ImageFails(g) => g in s.past.images
    case ImageSettles(g) => g in s.past.caught
    case _ => true
  }

  function Next(s: State, e: Event): State
    requires Possible(s, e)
  {
    match e
    case Render(key) => Rendered(s, key)
    case ScriptLoads(g, constructs) => Loaded(s, g, constructs)
    case ScriptFails(g) => s.(past := s.past.(loading := s.past.loading - {g}))
    case EditorError(k) => Retire(s, s.editors[k])
    case EditorWarning(k, code) => if code in INACTIVE_EDITOR_WARNINGS then Retire(s, s.editors[k]) else s
    case ImageLoads(g) => s.(past := s.past.(images := s.past.images - {g}, caught := s.past.caught + {g}))
    case ImageFails(g) => ImageFailed(s, g)
    case ImageSettles(g) => ImageSettled(s, g)
    case Clear => Cleared(s)
    case PageChanges(connected, contained) => s.(connected := connected, contained := contained)
  }

  const START := State(0, 0, "", None, None, false, true, false, [], Past({}, map[], {}, {}, None))

  // What holds at every moment

  /** The newest generation got as far as storing its key. */
  predicate Keyed(s: State) {
    s.past.requested == Some(s.configKey) && s.generation !in s.past.loading
  }

  /** An editor is destroyed unless it is the current one, and only the newest generation has a current one. */
  ghost predicate EditorOk(s: State, k: nat)
    requires k < |s.editors|
  {
    && 0 < s.editors[k] <= s.generation
    && s.editors[k] !in s.past.loading
    && (s.editor != Some(k) <==> k in s.past.destroyed)
    && (s.editors[k] == s.generation ==> Keyed(s))
  }

  ghost predicate ImageOk(s: State, g: nat) {
    0 < g <= s.generation && g !in s.past.loading && (g == s.generation ==> Keyed(s))
  }

  ghost predicate LoadOk(s: State, g: nat)
    requires g in s.past.loading
  {
    0 < g <= s.generation && (g == s.generation ==> s.past.requested == Some(s.past.loading[g]))
  }

  ghost predicate CountersOk(s: State) {
    && (s.inactive == 0 || s.inactive == s.generation)
    && (Retired(s) && s.generation > 0 ==> Keyed(s))
    && (s.asset.Some? ==> s.asset.value == s.generation)
    && (s.assetError ==> Retired(s) && s.generation > 0)
    && (s.editor.Some? ==> s.editor.value < |s.editors| && s.editors[s.editor.value] == s.generation)
  }

  ghost predicate Inv(s: State) {
    && CountersOk(s)
    && (forall k :: k in s.past.destroyed ==> k < |s.editors|)
    && (forall k :: 0 <= k < |s.editors| ==> EditorOk(s, k))
    && (forall i, j :: 0 <= i < j < |s.editors| ==> s.editors[i] < s.editors[j])
    && (forall g :: g in s.past.images ==> ImageOk(s, g))
    && (forall g :: g in s.past.loading ==> LoadOk(s, g))
  }

  lemma RequestsKeepInv(s: State, e: Event)
    requires Inv(s) && Possible(s, e) && (e.Render? || e.Clear?)
    ensures Inv(Next(s, e))
  {
    var t := Next(s, e);
    forall k | 0 <= k < |t.editors| ensures EditorOk(t, k) { assert EditorOk(s, k); }
    forall g | g in t.past.images ensures ImageOk(t, g) { assert ImageOk(s, g); }
    forall g | g in t.past.loading ensures LoadOk(t, g) { assert g in s.past.loading ==> LoadOk(s, g); }
  }

  lemma LoadsKeepInv(s: State, e: Event)
    requires Inv(s) && Possible(s, e) && (e.ScriptLoads? || e.ScriptFails?)
    ensures Inv(Next(s, e))
  {
    var t := Next(s, e);
    if s.editor.Some? { assert EditorOk(s, s.editor.value); }
    assert LoadOk(s, e.generation);
    forall k | 0 <= k < |t.editors| ensures EditorOk(t, k) { assert k < |s.editors| ==> EditorOk(s, k); }
    forall i, j | 0 <= i < j < |t.editors| ensures t.editors[i] < t.editors[j] { assert EditorOk(s, i); }
    forall g | g in t.past.images ensures ImageOk(t, g) { assert g in s.past.images ==> ImageOk(s, g); }
    forall g | g in t.past.loading ensures LoadOk(t, g) { assert LoadOk(s, g); }
  }

  lemma CallbacksKeepInv(s: State, e: Event)
    requires Inv(s) && Possible(s, e) && (e.EditorError? || e.EditorWarning? || e.PageChanges?)
    ensures Inv(Next(s, e))
  {
    if !e.PageChanges? { assert EditorOk(s, e.k); }
    var t := Next(s, e);
    forall k | 0 <= k < |t.editors| ensures EditorOk(t, k) { assert EditorOk(s, k); }
    forall g | g in t.past.images ensures ImageOk(t, g) { assert ImageOk(s, g); }
    forall g | g in t.past.loading ensures LoadOk(t, g) { assert LoadOk(s, g); }
  }

  lemma ImagesKeepInv(s: State, e: Event)
    requires Inv(s) && Possible(s, e) && (e.ImageLoads? || e.ImageSettles?)
    ensures Inv(Next(s, e))
  {
    var t := Next(s, e);
    forall k | 0 <= k < |t.editors| ensures EditorOk(t, k) { assert EditorOk(s, k); }
    forall g | g in t.past.images ensures ImageOk(t, g) { assert ImageOk(s, g); }
    forall g | g in t.past.loading ensures LoadOk(t, g) { assert LoadOk(s, g); }
  }

  lemma ImageFailureKeepsInv(s: State, g: nat)
    requires Inv(s) && g in s.past.images
    ensures Inv(ImageFailed(s, g))
  {
    var t := ImageFailed(s, g);
    assert ImageOk(s, g);
    if s.editor.Some? { assert EditorOk(s, s.editor.value); }
    forall k | 0 <= k < |t.editors| ensures EditorOk(t, k) { assert EditorOk(s, k); }
    forall h | h in t.past.images ensures ImageOk(t, h) { assert ImageOk(s, h); }
    forall h | h in t.past.loading ensures LoadOk(t, h) { assert LoadOk(s, h); }
  }

  lemma NextKeepsInv(s: State, e: Event)
    requires Inv(s) && Possible(s, e)
    ensures Inv(Next(s, e))
  {
    hide Inv, Rendered, Loaded, ImageFailed, ImageSettled, Cleared, Retire;
    if e.Render? || e.Clear? { RequestsKeepInv(s, e); }
    else if e.ScriptLoads? || e.ScriptFails? { LoadsKeepInv(s, e); }
    else if e.ImageLoads? || e.ImageSettles? { ImagesKeepInv(s, e); }
    else if e.ImageFails? { ImageFailureKeepsInv(s, e.generation); }
    else { CallbacksKeepInv(s, e); }
  }

  // Runs

  ghost predicate AllPossible(s: State, events: seq<Event>)
    decreases |events|
  {
    events == [] || (Possible(s, events[0]) && AllPossible(Next(s, events[0]), events[1..]))
  }

  ghost function Run(s: State, events: seq<Event>): State
    requires AllPossible(s, events)
    decreases |events|
  {
    if events == [] then s else Run(Next(s, events[0]), events[1..])
  }

  lemma {:induction false} RunKeepsInv(s: State, events: seq<Event>)
    requires Inv(s) && AllPossible(s, events)
    ensures Inv(Run(s, events))
    decreases |events|
  {
    hide Inv, Next, Possible;
    if events != [] {
      NextKeepsInv(s, events[0]);
      RunKeepsInv(Next(s, events[0]), events[1..]);
    }
  }

  /**
   After any run, every created editor but the current one has been destroyed, the current one has not, no
   generation has two editors, and the current one belongs to the newest generation and to the key it asked for.
   */
  lemma OneLiveEditor(events: seq<Event>)
    requires AllPossible(START, events)
    ensures var s := Run(START, events);
            && (forall k :: 0 <= k < |s.editors| ==> (k in s.past.destroyed <==> s.editor != Some(k)))
            && (forall i, j :: 0 <= i < j < |s.editors| ==> s.editors[i] != s.editors[j])
            && (s.editor.Some? ==>
                  && s.editor.value < |s.editors|
                  && s.editors[s.editor.value] == s.generation
                  && s.past.requested == Some(s.configKey))
  {
    RunKeepsInv(START, events);
    var s := Run(START, events);
    forall k | 0 <= k < |s.editors| ensures k in s.past.destroyed <==> s.editor != Some(k) { assert EditorOk(s, k); }
    if s.editor.Some? { assert EditorOk(s, s.editor.value); }
  }

  /** A script load mounts an editor exactly for the newest generation in a connected host, over no other editor. */
  lemma OnlyNewestMounts(s: State, g: nat)
    requires Inv(s) && g in s.past.loading
    ensures var t := Next(s, ScriptLoads(g, true));
            && (t.editors != s.editors <==> g == s.generation && s.connected)
            && (t.editors != s.editors ==> s.editor == None && t.editor.Some? && t.editors[t.editor.value] == g)
            && (t.editors == s.editors ==> t.editor == s.editor && t.past.destroyed == s.past.destroyed)
  {
    assert LoadOk(s, g);
    if s.editor.Some? { assert EditorOk(s, s.editor.value); }
    assert |s.editors + [g]| == |s.editors| + 1;
  }

  /**
   Active means, in any interleaving: the host is on the page and has a container, the key is the one asked for last, and
   the newest generation has an editor that has not been destroyed and has not been retired.
   */
  lemma ActiveExactly(events: seq<Event>, key: string)
    requires AllPossible(START, events)
    ensures var s := Run(START, events);
            Active(s, key) <==>
              && key != "" && s.connected && s.contained && s.past.requested == Some(key) && !RetiredMount(s)
              && exists k :: 0 <= k < |s.editors| && k !in s.past.destroyed && s.editors[k] == s.generation
  {
    RunKeepsInv(START, events);
    OneLiveEditor(events);
    var s := Run(START, events);
    hide Run, AllPossible;
    if Active(s, key) { assert EditorOk(s, s.editor.value); }
    forall k | 0 <= k < |s.editors| && k !in s.past.destroyed && s.editors[k] == s.generation
      ensures s.editor == Some(k) && s.past.requested == Some(s.configKey) && s.generation > 0
    {
      assert EditorOk(s, k);
    }
  }

  /** The page's own events decide whether the host is connected; what the host contains changes with mounts and clears too. */
  lemma HostFollowsPage(s: State, e: Event)
    requires Inv(s) && Possible(s, e)
    ensures Next(s, e).connected == if e.PageChanges? then e.connected else s.connected
    ensures Next(s, e).contained == if e.PageChanges? then e.contained
                                    else if e.Clear? then false
                                    else s.contained || (e.ScriptLoads? && e.generation == s.generation && s.connected)
  {
  }

  /** A render that neither an active session nor a retired one with the same key keeps from starting. */
  predicate Starts(s: State, e: Event) {
    e.Render? && !Active(s, e.key) && !(Retired(s) && s.configKey == e.key)
  }

  /** Every such render starts the next generation, and so does every clear; nothing else does. */
  lemma GenerationsFollow(s: State, e: Event)
    requires Inv(s) && Possible(s, e)
    ensures var t := Next(s, e);
            && t.generation == s.generation + (if e.Clear? || Starts(s, e) then 1 else 0)
            && t.past.requested == (if e.Clear? then None else if Starts(s, e) then Some(e.key) else s.past.requested)
            && (e.Clear? ==> t.configKey == "" && t.editor == None && t.asset == None && !t.assetError)
            && (Starts(s, e) ==> t.editor == None)
  {
    hide Active;
  }

  /** A generation waits for the script from its render until the script has loaded or failed. */
  lemma LoadsFollow(s: State, e: Event)
    requires Inv(s) && Possible(s, e)
    ensures Next(s, e).past.loading ==
              if Starts(s, e) then s.past.loading[s.generation + 1 := e.key]
              else if e.ScriptLoads? || e.ScriptFails? then s.past.loading - {e.generation} else s.past.loading
  {
    hide Active;
  }

  /** A status image is under way from its mount until it settles. */
  predicate ImagePending(s: State, g: nat) { g in s.past.images || g in s.past.caught }

  lemma ImagesFollow(s: State, e: Event, g: nat)
    requires Inv(s) && Possible(s, e)
    ensures var t := Next(s, e);
            var mounts := e == ScriptLoads(g, true) && g == s.generation && s.connected;
            && (g in t.past.images <==> mounts || (g in s.past.images && e != ImageLoads(g) && e != ImageFails(g)))
            && (g in t.past.caught <==> e == ImageLoads(g) || e == ImageFails(g) || (g in s.past.caught && e != ImageSettles(g)))
  {
    hide Active;
  }

  /** What every render waits for: the promise is kept exactly while the newest generation's image is under way. */
  ghost predicate PromiseOk(s: State) { s.asset == if ImagePending(s, s.generation) then Some(s.generation) else None }

  /** An image is asked for once, and no image is both on the way and caught. */
  ghost predicate ImagesOk(s: State) {
    && (forall g :: g in s.past.images ==> g !in s.past.caught)
    && (forall g :: g in s.past.caught ==> g <= s.generation && g !in s.past.loading)
  }

  lemma PromiseStep(s: State, e: Event)
    requires Inv(s) && Possible(s, e) && PromiseOk(s) && ImagesOk(s)
    ensures PromiseOk(Next(s, e))
  {
    hide Active;
    forall g | g in s.past.images ensures ImageOk(s, g) {}
    forall g | g in s.past.loading ensures LoadOk(s, g) {}
  }

  lemma ImagesStep(s: State, e: Event)
    requires Inv(s) && Possible(s, e) && ImagesOk(s)
    ensures ImagesOk(Next(s, e))
  {
    hide Active;
    forall g | g in s.past.images ensures ImageOk(s, g) {}
    forall g | g in s.past.loading ensures LoadOk(s, g) {}
  }

  /** After any run the promise is set exactly while the newest generation's status image is under way. */
  lemma {:induction false} PromiseIsExact(s: State, events: seq<Event>)
    requires Inv(s) && PromiseOk(s) && ImagesOk(s) && AllPossible(s, events)
    ensures var t := Run(s, events); t.asset == if ImagePending(t, t.generation) then Some(t.generation) else None
    decreases |events|
  {
    if events != [] {
      hide Inv, Next, Possible, PromiseOk, ImagesOk;
      NextKeepsInv(s, events[0]);
      PromiseStep(s, events[0]);
      ImagesStep(s, events[0]);
      PromiseIsExact(Next(s, events[0]), events[1..]);
    }
  }

  lemma StartIsOk()
    ensures Inv(START) && PromiseOk(START) && ImagesOk(START)
  {
  }

  /** A mount of the newest generation in a connected host gives the session that was asked for, with its image under way. */
  lemma MountEstablishes(s: State, constructs: bool)
    requires Inv(s) && s.generation in s.past.loading && s.connected
    ensures var t := Next(s, ScriptLoads(s.generation, constructs));
            && t.configKey == s.past.loading[s.generation] && t.past.requested == Some(t.configKey) && t.contained && !Retired(t)
            && (if constructs then
                  t.editor == Some(|s.editors|) && t.editors == s.editors + [s.generation] && ImagePending(t, s.generation)
                  && (t.configKey != "" ==> Active(t, t.configKey))
                else t.editor == None && t.editors == s.editors)
  {
    assert LoadOk(s, s.generation);
    NotMountedYet(s);
  }

  lemma NotMountedYet(s: State)
    requires Inv(s)
    ensures s.generation in s.past.loading ==> s.editor == None
  {
    if s.editor.Some? { assert EditorOk(s, s.editor.value); }
  }

  /** An error, a retiring warning or a failed status image of generation `g`. */
  predicate SpeaksFor(e: Event, g: nat, editors: seq<nat>) {
    match e
    case EditorError(k) => k < |editors| && editors[k] == g
    case EditorWarning(k, code) => k < |editors| && editors[k] == g && code in INACTIVE_EDITOR_WARNINGS
    case ImageFails(h) => h == g
    case _ => false
  }

  /** The callbacks of a generation other than the newest leave the whole runtime alone. */
  lemma StaleCallbacksAreIgnored(s: State, e: Event, g: nat)
    requires Inv(s) && Possible(s, e) && SpeaksFor(e, g, s.editors)
    ensures var t := Next(s, e);
            && (g != s.generation ==> t.(past := s.past) == s && t.past.destroyed == s.past.destroyed)
            && (g == s.generation && !e.ImageFails? ==> Retired(t))
            && (g == s.generation && e.ImageFails? && s.connected ==> Retired(t) && t.assetError && t.editor == None)
  {
  }

  /** The warnings that retire an editor are those with six codes. */
  lemma RetiringWarnings(s: State, k: nat, code: int)
    requires Inv(s) && k < |s.editors| && s.editors[k] == s.generation
    ensures RetiredMount(Next(s, EditorWarning(k, code))) <==>
              RetiredMount(s) || code == -100 || code == -101 || code == -104 || code == -120 || code == -121 || code == -122
  {
    assert EditorOk(s, k);
  }

  predicate RetiredMount(s: State) {
    Retired(s) && s.generation > 0
  }

  lemma RetiringStep(s: State, e: Event)
    requires Inv(s) && Possible(s, e)
    ensures s.editors <= Next(s, e).editors
    ensures RetiredMount(Next(s, e)) && !RetiredMount(s) ==> SpeaksFor(e, Next(s, e).generation, s.editors)
    ensures RetiredMount(Next(s, e)) ==> Next(s, e).generation == s.generation
  {
  }

  lemma {:induction false} EditorsGrow(s: State, events: seq<Event>)
    requires Inv(s) && AllPossible(s, events)
    ensures s.editors <= Run(s, events).editors
    decreases |events|
  {
    hide Inv, Next, Possible;
    if events != [] {
      RetiringStep(s, events[0]);
      NextKeepsInv(s, events[0]);
      EditorsGrow(Next(s, events[0]), events[1..]);
    }
  }

  /** When a run ends with a retired generation, one of that generation's own callbacks came during the run. */
  lemma {:induction false} OnlyOwnCallbacksRetire(s: State, events: seq<Event>)
    requires Inv(s) && AllPossible(s, events) && RetiredMount(Run(s, events))
    requires !RetiredMount(s) || Run(s, events).generation != s.generation
    ensures var t := Run(s, events);
            exists i :: 0 <= i < |events| && SpeaksFor(events[i], t.generation, t.editors)
    decreases |events|
  {
    hide Inv, Next, Possible, RetiredMount;
    var t := Run(s, events);
    var e, n := events[0], Next(s, events[0]);
    RetiringStep(s, e);
    NextKeepsInv(s, e);
    if RetiredMount(n) && n.generation == t.generation {
      EditorsGrow(s, events);
      assert SpeaksFor(events[0], t.generation, t.editors);
    } else {
      OnlyOwnCallbacksRetire(n, events[1..]);
      var i :| 0 <= i < |events[1..]| && SpeaksFor(events[1..][i], t.generation, t.editors);
      assert SpeaksFor(events[i + 1], t.generation, t.editors);
    }
  }

  /** Nobody clears the host and nobody renders another key. */
  predicate NoRetry(e: Event, key: string) {
    !e.Clear? && (e.Render? ==> e.key == key)
  }

  lemma RetiredStep(s: State, e: Event)
    requires Inv(s) && Possible(s, e) && Retired(s) && NoRetry(e, s.configKey)
    ensures var t := Next(s, e);
            Retired(t) && t.generation == s.generation && t.configKey == s.configKey && t.editors == s.editors
  {
    if s.generation > 0 { assert Keyed(s); }
    if e.ScriptLoads? { assert LoadOk(s, e.generation); }
    if e.ImageFails? { assert ImageOk(s, e.generation); }
  }

  /** A retired session stays down through any run without a clear and without another key. */
  lemma {:induction false} RetiredStaysDown(s: State, events: seq<Event>)
    requires Inv(s) && AllPossible(s, events) && Retired(s)
    requires forall i :: 0 <= i < |events| ==> NoRetry(events[i], s.configKey)
    ensures var t := Run(s, events);
            Retired(t) && t.generation == s.generation && t.configKey == s.configKey && t.editors == s.editors
    decreases |events|
  {
    hide Inv, Next, Possible, Retired, NoRetry;
    if events != [] {
      assert NoRetry(events[0], s.configKey);
      RetiredStep(s, events[0]);
      NextKeepsInv(s, events[0]);
      forall i | 0 <= i < |events[1..]| ensures NoRetry(events[1..][i], s.configKey) {
        assert NoRetry(events[i + 1], s.configKey);
      }
      RetiredStaysDown(Next(s, events[0]), events[1..]);
    }
  }

  /** A clear, or another key, gives a retired session a new editor when the script is there. */
  lemma RetryMounts(s: State, key: string, cleared: bool)
    requires Inv(s) && Retired(s) && s.connected
    requires cleared || key != s.configKey
    ensures var r := Next(if cleared then Next(s, Clear) else s, Render(key));
            && r.generation in r.past.loading
            && var t := Next(r, ScriptLoads(r.generation, true));
            && t.editor == Some(|s.editors|)
            && t.configKey == key
            && (key != "" ==> Active(t, key))
  {
    if cleared { RequestsKeepInv(s, Clear); }
  }

  /** Nothing here ends the session of editor k: no clear, no other key, no failure of k, no change of the page. */
  predicate Harmless(e: Event, k: nat, g: nat, key: string) {
    match e
    case Render(other) => other == key
    case EditorError(j) => j != k
    case EditorWarning(j, code) => j != k || code !in INACTIVE_EDITOR_WARNINGS
    case ImageFails(h) => h != g
    case Clear => false
    case PageChanges(_, _) => false
    case _ => true
  }

  lemma ActiveStep(s: State, e: Event, k: nat, key: string)
    requires Inv(s) && Possible(s, e) && Active(s, key) && s.editor == Some(k)
    requires Harmless(e, k, s.generation, key)
    ensures var t := Next(s, e); Active(t, key) && t.editor == Some(k) && t.generation == s.generation
  {
    assert EditorOk(s, k);
    if (e.EditorError? || e.EditorWarning?) && e.k != k {
      assert s.editors[e.k] != s.editors[k] by {
        if e.k < k { assert s.editors[e.k] < s.editors[k]; } else { assert s.editors[k] < s.editors[e.k]; }
      }
    }
  }

  /** An active session keeps its editor whatever older generations do and however often it is rendered again. */
  lemma {:induction false} ActiveStaysUp(s: State, events: seq<Event>, k: nat, key: string)
    requires Inv(s) && AllPossible(s, events) && Active(s, key) && s.editor == Some(k)
    requires forall i :: 0 <= i < |events| ==> Harmless(events[i], k, s.generation, key)
    ensures var t := Run(s, events); Active(t, key) && t.editor == Some(k) && t.generation == s.generation
    decreases |events|
  {
    hide Inv, Next, Possible, Active, Harmless;
    if events != [] {
      assert Harmless(events[0], k, s.generation, key);
      ActiveStep(s, events[0], k, key);
      NextKeepsInv(s, events[0]);
      forall i | 0 <= i < |events[1..]| ensures Harmless(events[1..][i], k, s.generation, key) {
        assert Harmless(events[i + 1], k, s.generation, key);
      }
      ActiveStaysUp(Next(s, events[0]), events[1..], k, key);
    }
  }

  // The host

  class EditorHost {
    var renderGeneration: nat
    var inactiveRenderGeneration: nat
    var configKey: string
    var editor: Option<nat>
    var statusAssetPromise: Option<nat>
    var statusAssetError: bool
    var isConnected: bool
    var contained: bool
    var editors: seq<nat> // the created editors, by the generation they were made for
    ghost var past: Past

    ghost function Snap(): State
      reads this
    {
      State(renderGeneration, inactiveRenderGeneration, configKey, editor, statusAssetPromise, statusAssetError,
            isConnected, contained, editors, past)
    }

    constructor ()
      ensures Snap() == START && Inv(Snap())
    {
      renderGeneration, inactiveRenderGeneration, configKey, editor := 0, 0, "", None;
      statusAssetPromise, statusAssetError, isConnected, contained := None, false, true, false;
      editors, past := [], Past({}, map[], {}, {}, None);
    }

    method IsOnlyOfficeEditorActive(key: string) returns (active: bool)
      ensures active == Active(Snap(), key)
    {
      if editor == None { return false; }
      if inactiveRenderGeneration == renderGeneration { return false; }
      if !isConnected { return false; }
      return key != "" && configKey == key && contained;
    }

    method DestroyEditor()
      modifies this`editor, this`past
      ensures Snap() == Destroyed(old(Snap()))
    {
      if editor.Some? { past := past.(destroyed := past.destroyed + {editor.value}); }
      editor := None;
    }

    /** `renderOnlyOfficeEditor` up to the script load; `generation` is what it started, if anything. */
    method RenderOnlyOfficeEditor(key: string) returns (generation: Option<nat>)
      requires Inv(Snap())
      modifies this
      ensures Inv(Snap()) && Snap() == Next(old(Snap()), Render(key))
      ensures generation == if Snap().generation == old(Snap()).generation then None else Some(Snap().generation)
    {
      hide Inv, Loaded, ImageFailed, ImageSettled, Cleared, Retire;
      RequestsKeepInv(Snap(), Render(key));
      var active := IsOnlyOfficeEditorActive(key);
      if active { return None; }
      if inactiveRenderGeneration == renderGeneration && configKey == key { return None; }
      renderGeneration := renderGeneration + 1;
      inactiveRenderGeneration := 0;
      statusAssetError := false;
      statusAssetPromise := None;
      DestroyEditor();
      past := past.(loading := past.loading[renderGeneration := key], requested := Some(key));
      return Some(renderGeneration);
    }

    /** What follows the script load; `constructs` says whether the editor constructor returned. */
    method Mount(generation: nat, key: string, constructs: bool)
      requires Inv(Snap()) && Possible(Snap(), ScriptLoads(generation, constructs)) && past.loading[generation] == key
      modifies this
      ensures Inv(Snap()) && Snap() == Next(old(Snap()), ScriptLoads(generation, constructs))
    {
      hide Inv, Rendered, ImageFailed, ImageSettled, Cleared, Retire, Active;
      LoadsKeepInv(Snap(), ScriptLoads(generation, constructs));
      past := past.(loading := past.loading - {generation});
      if renderGeneration != generation || !isConnected { return; }
      contained := true;
      configKey := key;
      if !constructs { return; }
      editor := Some(|editors|);
      editors := editors + [generation];
      statusAssetPromise := Some(generation);
      past := past.(images := past.images + {generation});
    }

    method OnError(k: nat, generation: nat)
      requires Inv(Snap()) && Possible(Snap(), EditorError(k)) && editors[k] == generation
      modifies this
      ensures Inv(Snap()) && Snap() == Next(old(Snap()), EditorError(k))
    {
      hide Inv;
      CallbacksKeepInv(Snap(), EditorError(k));
      if renderGeneration == generation { inactiveRenderGeneration := generation; }
    }

    method OnWarning(k: nat, generation: nat, code: int)
      requires Inv(Snap()) && Possible(Snap(), EditorWarning(k, code)) && editors[k] == generation
      modifies this
      ensures Inv(Snap()) && Snap() == Next(old(Snap()), EditorWarning(k, code))
    {
      hide Inv;
      CallbacksKeepInv(Snap(), EditorWarning(k, code));
      if renderGeneration == generation && code in INACTIVE_EDITOR_WARNINGS {
        inactiveRenderGeneration := generation;
      }
    }

    /** The `catch` of the status image. */
    method OnImageFailure(generation: nat)
      requires Inv(Snap()) && Possible(Snap(), ImageFails(generation))
      modifies this
      ensures Inv(Snap()) && Snap() == Next(old(Snap()), ImageFails(generation))
    {
      hide Inv, Rendered, Loaded, ImageSettled, Cleared, Retire, Active;
      ImageFailureKeepsInv(Snap(), generation);
      past := past.(images := past.images - {generation}, caught := past.caught + {generation});
      if renderGeneration != generation || !isConnected { return; }
      inactiveRenderGeneration := generation;
      statusAssetError := true;
      DestroyEditor();
    }

    /** The `finally` of the status image. */
    method OnImageSettled(generation: nat)
      requires Inv(Snap()) && Possible(Snap(), ImageSettles(generation))
      modifies this
      ensures Inv(Snap()) && Snap() == Next(old(Snap()), ImageSettles(generation))
    {
      hide Inv;
      ImagesKeepInv(Snap(), ImageSettles(generation));
      past := past.(caught := past.caught - {generation});
      if renderGeneration == generation { statusAssetPromise := None; }
    }

    method ClearOnlyOfficeEditor()
      requires Inv(Snap())
      modifies this
      ensures Inv(Snap()) && Snap() == Next(old(Snap()), Clear)
    {
      hide Inv, Active, Rendered, Loaded, ImageFailed, ImageSettled, Retire;
      RequestsKeepInv(Snap(), Clear);
      renderGeneration := renderGeneration + 1;
      DestroyEditor();
      contained := false;
      configKey := "";
      inactiveRenderGeneration := 0;
      statusAssetError := false;
      statusAssetPromise := None;
      past := past.(requested := None);
    }
  }
}
