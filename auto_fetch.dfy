/**
 * The auto-fetch timer of app.js (`startAutoDataFetch`, `stopAutoDataFetch`,
 * the ON/OFF switch) and the lifecycle handlers of index.js (`handleOnline`,
 * `handleOffline`, `handleResume`) that drive it.  The state is the
 * nullable interval handle `autoFetchInterval`, the intervals the runtime
 * holds, the id the next `setInterval` returns, a count of the immediate
 * fetches each start performs, and the string-valued local storage.
 */
module AutoFetch {

  import opened Wrappers

  /** The storage key of the persisted ON/OFF flag. */
  const EnabledKey: string := "extensionEnabled"

  /**
   * The timer side of the state.  `setInterval` hands out positive ids, so a
   * handle is truthy exactly when it is present.
   */
  datatype Timers = Timers(handle: Option<nat>, live: set<nat>, nextId: nat, immediateFetches: nat)

  /** The whole state the handlers read and write. */
  datatype Controller = Controller(timers: Timers, storage: map<string, string>)

  /** The intervals a handle accounts for. */
  function HandleIntervals(h: Option<nat>): set<nat>
  {
    if h.Some? then {h.value} else {}
  }

  /**
   * The intended invariant: the only live interval is the one the handle
   * names (so at most one exists), and every id handed out is positive and
   * below the next one.
   */
  predicate Valid(t: Timers)
  {
    && t.nextId >= 1
    && t.live == HandleIntervals(t.handle)
    && (t.handle.Some? ==> 1 <= t.handle.value < t.nextId)
  }

  /** The timers when the app starts: no handle, no interval. */
  const Initial: Timers := Timers(None, {}, 1, 0)

  /**
   * `startAutoDataFetch`: clear the interval the handle names, fetch once at
   * once, and install a fresh interval as the new handle.
   */
  function Start(t: Timers): (r: Timers)
    ensures r.handle == Some(t.nextId) && r.nextId > t.nextId
    ensures r.immediateFetches == t.immediateFetches + 1
    ensures Valid(t) ==> Valid(r) && r.live == {t.nextId}
  {
    var cleared := if t.handle.Some? then t.live - {t.handle.value} else t.live;
    Timers(Some(t.nextId), cleared + {t.nextId}, t.nextId + 1, t.immediateFetches + 1)
  }

  /** `stopAutoDataFetch`: clear the interval the handle names and null the handle. */
  function Stop(t: Timers): (r: Timers)
    ensures r.handle == None
    ensures r.immediateFetches == t.immediateFetches && r.nextId == t.nextId
    ensures Valid(t) ==> Valid(r) && r.live == {}
    ensures t.handle.None? ==> r == t
  {
    if t.handle.Some? then Timers(None, t.live - {t.handle.value}, t.nextId, t.immediateFetches) else t
  }

  /** The persisted flag: enabled unless stored as the string "false"; a missing key counts as enabled. */
  predicate Enabled(storage: map<string, string>)
  {
    !(EnabledKey in storage && storage[EnabledKey] == "false")
  }

  /** `handleOnline`: restart only if a handle is currently set. */
  function OnOnline(c: Controller): (r: Controller)
    ensures r.storage == c.storage
    ensures c.timers.handle.None? ==> r == c
    ensures c.timers.handle.Some? ==>
      r.timers.handle == Some(c.timers.nextId) && r.timers.immediateFetches == c.timers.immediateFetches + 1
  {
    if c.timers.handle.Some? then c.(timers := Start(c.timers)) else c
  }

  /** `handleOffline`: stop. */
  function OnOffline(c: Controller): (r: Controller)
    ensures r.storage == c.storage && r.timers.handle.None?
    ensures r.timers.immediateFetches == c.timers.immediateFetches
  {
    c.(timers := Stop(c.timers))
  }

  /** `handleResume`: restart if the stored flag is not "false". */
  function OnResume(c: Controller): (r: Controller)
    ensures r.storage == c.storage
    ensures !Enabled(c.storage) ==> r == c
    ensures Enabled(c.storage) ==>
      r.timers.handle == Some(c.timers.nextId) && r.timers.immediateFetches == c.timers.immediateFetches + 1
  {
    if Enabled(c.storage) then c.(timers := Start(c.timers)) else c
  }

  /** The switch's "change" listener: store the flag as "true" / "false", then start or stop. */
  function OnSwitch(c: Controller, checked: bool): (r: Controller)
    ensures Enabled(r.storage) <==> checked
    ensures EnabledKey in r.storage
    ensures forall k :: k != EnabledKey ==> (k in r.storage <==> k in c.storage)
    ensures forall k :: k != EnabledKey && k in c.storage ==> r.storage[k] == c.storage[k]
    ensures r.timers.handle.Some? <==> checked
    ensures r.timers.immediateFetches == c.timers.immediateFetches + (if checked then 1 else 0)
    ensures Valid(c.timers) ==> Valid(r.timers)
  {
    var storage := c.storage[EnabledKey := if checked then "true" else "false"];
    Controller(if checked then Start(c.timers) else Stop(c.timers), storage)
  }

  /** `initToggleSwitch`: start at once if the stored flag allows it. */
  function Boot(storage: map<string, string>): (c: Controller)
    ensures Valid(c.timers) && c.storage == storage
    ensures c.timers.handle.Some? <==> Enabled(storage)
  {
    if Enabled(storage) then Controller(Start(Initial), storage) else Controller(Initial, storage)
  }

  datatype Event = Online | Offline | Resume | Switch(checked: bool)

  function Step(c: Controller, e: Event): Controller
  {
    match e
    case Online => OnOnline(c)
    case Offline => OnOffline(c)
    case Resume => OnResume(c)
    case Switch(checked) => OnSwitch(c, checked)
  }

  /** The state after a sequence of events, earliest first. */
  function Run(c: Controller, events: seq<Event>): Controller
    decreases |events|
  {
    if events == [] then c else Run(Step(c, events[0]), events[1..])
  }

  /** Stopping twice is stopping once, and stopping always leaves no handle. */
  lemma StopIdempotent(t: Timers)
    ensures Stop(Stop(t)) == Stop(t)
    ensures Stop(t).handle.None?
  {
  }

  /** `handleOffline` always leaves the handle null and, from a valid state, no interval. */
  lemma OfflineStops(c: Controller)
    requires Valid(c.timers)
    ensures OnOffline(c).timers.handle.None? && OnOffline(c).timers.live == {}
    ensures OnOffline(OnOffline(c)) == OnOffline(c)
  {
  }

  /** `handleOnline` restarts (one immediate fetch, one fresh interval) exactly when a handle is set. */
  lemma OnlineRestartsOnlyWhenRunning(c: Controller)
    requires Valid(c.timers)
    ensures OnOnline(c).timers.immediateFetches == c.timers.immediateFetches + 1 <==> c.timers.handle.Some?
    ensures c.timers.handle.Some? ==> OnOnline(c).timers.live == {c.timers.nextId}
    ensures c.timers.handle.None? ==> OnOnline(c) == c
  {
  }

  /** `handleResume` restarts exactly when the stored flag is not "false"; a missing flag restarts. */
  lemma ResumeRestartsWhenEnabled(c: Controller)
    ensures OnResume(c).timers.handle.Some? <==> Enabled(c.storage) || c.timers.handle.Some?
    ensures OnResume(c).timers.immediateFetches == c.timers.immediateFetches + 1 <==> Enabled(c.storage)
    ensures EnabledKey !in c.storage ==> OnResume(c).timers.handle.Some?
  {
  }

  /** Every event keeps the timers valid. */
  lemma {:induction false} RunKeepsValid(c: Controller, events: seq<Event>)
    requires Valid(c.timers)
    ensures Valid(Run(c, events).timers)
    ensures |Run(c, events).timers.live| <= 1
    decreases |events|
  {
    if events != [] {
      RunKeepsValid(Step(c, events[0]), events[1..]);
    }
  }

  /**
   * After going offline, "online" events never restart fetching: however many
   * arrive, the handle stays null and no fetch is made.
   */
  lemma {:induction false} OnlineAfterOfflineStaysStopped(c: Controller, events: seq<Event>)
    requires forall i :: 0 <= i < |events| ==> events[i] == Online
    ensures Run(OnOffline(c), events) == OnOffline(c)
    ensures Run(OnOffline(c), events).timers.handle.None?
    ensures Run(OnOffline(c), events).timers.immediateFetches == c.timers.immediateFetches
    decreases |events|
  {
    if events != [] {
      assert Step(OnOffline(c), events[0]) == OnOffline(c);
      OnlineAfterOfflineStaysStopped(c, events[1..]);
    }
  }

  /** A second start replaces the interval of the first: still one interval, two immediate fetches. */
  lemma RestartKeepsOneInterval(t: Timers)
    requires Valid(t)
    ensures Start(Start(t)).live == {t.nextId + 1}
    ensures Start(Start(t)).immediateFetches == t.immediateFetches + 2
  {
  }

  /**
   * The state as the app holds it: the global `autoFetchInterval` and its
   * intervals, and local storage.
   */
  class AutoFetchController {
    var handle: Option<nat>
    var live: set<nat>
    var nextId: nat
    var immediateFetches: nat
    var storage: map<string, string>

    function State(): Controller
      reads this
    {
      Controller(Timers(handle, live, nextId, immediateFetches), storage)
    }

    /** The app's start-up with the given storage, ending in `initToggleSwitch`'s start. */
    constructor (stored: map<string, string>)
      ensures State() == Boot(stored)
      ensures Valid(State().timers)
    {
      handle, live, nextId, immediateFetches := None, {}, 1, 0;
      storage := stored;
      if Enabled(stored) {
        live := {1};
        handle := Some(1);
        nextId := 2;
        immediateFetches := 1;
      }
    }

    method StartAutoDataFetch()
      modifies this
      ensures State() == old(State()).(timers := Start(old(State()).timers))
    {
      if handle.Some? {
        live := live - {handle.value};
      }
      immediateFetches := immediateFetches + 1;
      live := live + {nextId};
      handle := Some(nextId);
      nextId := nextId + 1;
    }

    method StopAutoDataFetch()
      modifies this
      ensures State() == old(State()).(timers := Stop(old(State()).timers))
    {
      if handle.Some? {
        live := live - {handle.value};
        handle := None;
      }
    }

    method HandleOnline()
      modifies this
      ensures State() == OnOnline(old(State()))
    {
      if handle.Some? {
        StartAutoDataFetch();
      }
    }

    method HandleOffline()
      modifies this
      ensures State() == OnOffline(old(State()))
      ensures handle.None?
    {
      StopAutoDataFetch();
    }

    method HandleResume()
      modifies this
      ensures State() == OnResume(old(State()))
    {
      if Enabled(storage) {
        StartAutoDataFetch();
      }
    }

    /** The switch's "change" listener. */
    method SwitchChanged(checked: bool)
      modifies this
      ensures State() == OnSwitch(old(State()), checked)
    {
      storage := storage[EnabledKey := if checked then "true" else "false"];
      if checked {
        StartAutoDataFetch();
      } else {
        StopAutoDataFetch();
      }
    }
  }
}
