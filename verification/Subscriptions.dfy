/**
  The client library's subscriptions.  For each kind of notification the library has a list of
  callbacks, and registers one sink with the plugin while there is somebody to call.  The plugin
  can go away at any moment, which the library learns only later: until then the interface it
  holds is stale, and every call through it fails.

  The kinds do not interact, so the specification follows one of them; the classes have all six.
 */
module Subscriptions {
  import opened PowerTypes

  datatype Kind =
    | ModeChanged
    | ModePreChange
    | DeepSleepTimeout
    | NetworkStandbyModeChanged
    | ThermalModeChanged
    | RebootBegin

  datatype Status = Success | Failure | AlreadyConnected | AlreadyReleased

  /** The library's own sink; all others belong to other clients of the plugin. */
  const SINK: nat := 0

  /** One kind: the library's callbacks and its flag, the plugin's sinks, and the link between them. */
  datatype Topic = Topic(
    up: bool,         // an instance of the plugin is running
    activated: bool,  // the library holds an interface
    stale: bool,      // to an instance that is no more
    callbacks: seq<nat>,
    registered: bool,
    sinks: seq<nat>)
  {
    predicate Live() {
      activated && !stale
    }
  }

  /** The position of the first occurrence, or the length of the list. */
  function Find(list: seq<nat>, x: nat): (r: nat)
    ensures r <= |list|
    ensures r < |list| ==> list[r] == x
    ensures r == |list| <==> x !in list
  {
    if list == [] || list[0] == x then 0 else 1 + Find(list[1..], x)
  }

  /** Erases the first occurrence, if there is one. */
  function Without(list: seq<nat>, x: nat): seq<nat> {
    if list == [] then []
    else if list[0] == x then list[1..]
    else [list[0]] + Without(list[1..], x)
  }

  lemma {:induction false} WithoutErases(list: seq<nat>, x: nat)
    ensures var r := Find(list, x);
            Without(list, x) == if r < |list| then list[..r] + list[r + 1..] else list
  {
    if list != [] && list[0] != x {
      var (tail, r) := (list[1..], Find(list[1..], x));
      assert Find(list, x) == r + 1 && Without(list, x) == [list[0]] + Without(tail, x);
      WithoutErases(tail, x);
      hide Find, Without;
      if r < |tail| {
        ConsErased(list[0], tail, r);
      }
      assert list == [list[0]] + tail;
    }
  }

  lemma ConsErased(head: nat, tail: seq<nat>, r: nat)
    requires r < |tail|
    ensures [head] + (tail[..r] + tail[r + 1..]) == ([head] + tail)[..r + 1] + ([head] + tail)[r + 2..]
  {
  }

  /** `RegisterNotificationInternalLocked`; the plugin refuses a sink it has already. */
  function Subscribed(t: Topic): Topic {
    if !t.registered && t.callbacks != [] && t.activated then
      if t.Live() && SINK !in t.sinks then t.(registered := true, sinks := t.sinks + [SINK]) else t
    else t
  }

  /** `UnregisterNotificationInternalLocked` */
  function Unsubscribed(t: Topic, forced: bool): Topic {
    if t.registered && t.activated && (forced || t.callbacks == []) then
      if t.Live() && SINK in t.sinks then t.(registered := false, sinks := Without(t.sinks, SINK))
      else t.(registered := !forced)
    else t
  }

  datatype Action =
    | Add(callback: nat)
    | Remove(callback: nat)
    | Operational(upAndRunning: bool, granted: bool)  // granted: the interface is handed out
    | PluginStops
    | PluginStarts
    | OtherRegisters(sink: nat)
    | OtherUnregisters(sink: nat)

  function AddStep(t: Topic, callback: nat): Topic {
    if callback in t.callbacks then t else Subscribed(t.(callbacks := t.callbacks + [callback]))
  }

  function RemoveStep(t: Topic, callback: nat): Topic {
    if callback !in t.callbacks then t
    else Unsubscribed(t.(callbacks := Without(t.callbacks, callback)), false)
  }

  function OperationalStep(t: Topic, upAndRunning: bool, granted: bool): Topic {
    if upAndRunning then
      if !t.activated && granted && t.up then Subscribed(t.(activated := true, stale := false)) else t
    else if t.activated then
      Unsubscribed(t, true).(activated := false, stale := false)
    else t
  }

  function Step(t: Topic, a: Action): Topic {
    match a
    case Add(callback) => AddStep(t, callback)
    case Remove(callback) => RemoveStep(t, callback)
    case Operational(upAndRunning, granted) => OperationalStep(t, upAndRunning, granted)
    case PluginStops => t.(up := false, stale := t.activated, sinks := [])
    case PluginStarts => t.(up := true)
    case OtherRegisters(sink) =>
      if t.up && sink != SINK && sink !in t.sinks then t.(sinks := t.sinks + [sink]) else t
    case OtherUnregisters(sink) =>
      if t.up && sink != SINK then t.(sinks := Without(t.sinks, sink)) else t
  }

  function Unlinked(up: bool): Topic {
    Topic(up, false, false, [], false, [])
  }

  function Run(up: bool, actions: seq<Action>): Topic
    decreases |actions|
  {
    if actions == [] then Unlinked(up)
    else Step(Run(up, actions[..|actions| - 1]), actions[|actions| - 1])
  }

  predicate Unique(list: seq<nat>) {
    forall i, j :: 0 <= i < j < |list| ==> list[i] != list[j]
  }

  lemma {:induction false} WithoutKeeps(list: seq<nat>, x: nat)
    requires Unique(list)
    ensures Unique(Without(list, x))
    ensures forall y :: y in Without(list, x) <==> y in list && y != x
  {
    hide Without, Find;
    var (r, shorter) := (Find(list, x), Without(list, x));
    WithoutErases(list, x);
    if r < |list| {
      assert forall i :: 0 <= i < |shorter| ==> shorter[i] == list[if i < r then i else i + 1];
      forall y | y in list && y != x
        ensures y in shorter
      {
        var i :| 0 <= i < |list| && list[i] == y;
        assert shorter[if i < r then i else i - 1] == y;
      }
    }
  }

  ghost predicate Inv(t: Topic) {
    && (t.stale ==> t.activated)
    && (t.Live() ==> t.up)
    && (!t.up ==> t.sinks == [])
    && Unique(t.callbacks) && Unique(t.sinks)
    && (SINK in t.sinks <==> t.Live() && t.callbacks != [])
    && (t.Live() ==> (t.registered <==> t.callbacks != []))
    && (!t.activated ==> !t.registered)
  }

  lemma StepKeeps(t: Topic, a: Action)
    requires Inv(t)
    ensures Inv(Step(t, a))
  {
    hide Without;
    match a
    case Remove(callback) =>
      WithoutKeeps(t.callbacks, callback);
      WithoutKeeps(t.sinks, SINK);
    case Operational(_, _) => WithoutKeeps(t.sinks, SINK);
    case OtherUnregisters(sink) => WithoutKeeps(t.sinks, sink);
    case _ =>
  }

  lemma {:induction false} RunKeeps(up: bool, actions: seq<Action>)
    ensures Inv(Run(up, actions))
    decreases |actions|
  {
    if actions != [] {
      RunKeeps(up, actions[..|actions| - 1]);
      StepKeeps(Run(up, actions[..|actions| - 1]), actions[|actions| - 1]);
    }
  }

  /** The latest call about this callback was to add it. */
  ghost predicate Wants(actions: seq<Action>, callback: nat) {
    exists i :: 0 <= i < |actions| && actions[i] == Add(callback)
                && forall j :: i < j < |actions| ==> actions[j] != Remove(callback)
  }

  lemma WantsExtends(actions: seq<Action>, a: Action, callback: nat)
    ensures Wants(actions + [a], callback) <==>
            a == Add(callback) || (Wants(actions, callback) && a != Remove(callback))
  {
    var longer := actions + [a];
    assert longer[|actions|] == a;
    assert forall j :: 0 <= j < |actions| ==> longer[j] == actions[j];
    if Wants(longer, callback) {
      var i :| 0 <= i < |longer| && longer[i] == Add(callback)
               && forall j :: i < j < |longer| ==> longer[j] != Remove(callback);
      if i < |actions| {
        assert actions[i] == Add(callback);
      }
    }
    if Wants(actions, callback) && a != Remove(callback) {
      var i :| 0 <= i < |actions| && actions[i] == Add(callback)
               && forall j :: i < j < |actions| ==> actions[j] != Remove(callback);
      assert longer[i] == Add(callback);
    }
  }

  lemma StepFollowsWishes(t: Topic, a: Action, callback: nat)
    requires Unique(t.callbacks)
    ensures callback in Step(t, a).callbacks <==>
            a == Add(callback) || (callback in t.callbacks && a != Remove(callback))
  {
    hide Without;
    if a.Remove? {
      WithoutKeeps(t.callbacks, a.callback);
    }
  }

  /** Restarts and lost connections neither lose nor invent a callback. */
  lemma {:induction false} CallbacksAreThoseWanted(up: bool, actions: seq<Action>, callback: nat)
    ensures callback in Run(up, actions).callbacks <==> Wants(actions, callback)
    decreases |actions|
  {
    if actions != [] {
      var n := |actions| - 1;
      CallbacksAreThoseWanted(up, actions[..n], callback);
      RunKeeps(up, actions[..n]);
      StepFollowsWishes(Run(up, actions[..n]), actions[n], callback);
      WantsExtends(actions[..n], actions[n], callback);
      assert actions == actions[..n] + [actions[n]];
    }
  }

  /** The callbacks one event of the plugin runs: all of the library's, each time its sink is called. */
  function Delivered(sinks: seq<nat>, callbacks: seq<nat>): seq<nat> {
    if sinks == [] then []
    else (if sinks[0] == SINK then callbacks else []) + Delivered(sinks[1..], callbacks)
  }

  lemma {:induction false} DeliveredOnce(sinks: seq<nat>, callbacks: seq<nat>)
    requires Unique(sinks)
    ensures Delivered(sinks, callbacks) == if SINK in sinks then callbacks else []
  {
    if sinks != [] {
      DeliveredOnce(sinks[1..], callbacks);
      assert sinks == [sinks[0]] + sinks[1..];
    }
  }

  /**
    In every state of every run: while the interface is live, the flag is set exactly when there
    is a callback, and exactly then the plugin's list, which has no duplicates, holds the sink;
    without an interface the flag is clear; and an event runs every callback that was added and
    not removed since, once, when the interface is live, and none otherwise.
   */
  lemma SubscriptionAgreement(up: bool, actions: seq<Action>)
    ensures var t := Run(up, actions);
            && Unique(t.sinks)
            && (SINK in t.sinks <==> t.Live() && t.callbacks != [])
            && (t.Live() ==> (t.registered <==> t.callbacks != []))
            && (!t.activated ==> !t.registered)
            && Unique(t.callbacks)
            && (forall cb :: cb in t.callbacks <==> Wants(actions, cb))
            && Delivered(t.sinks, t.callbacks) == if t.Live() then t.callbacks else []
  {
    var t := Run(up, actions);
    RunKeeps(up, actions);
    forall cb
      ensures cb in t.callbacks <==> Wants(actions, cb)
    {
      CallbacksAreThoseWanted(up, actions, cb);
    }
    DeliveredOnce(t.sinks, t.callbacks);
  }

  /** Callbacks are kept in the order in which they were added. */
  lemma OrderIsKept(t: Topic, callback: nat)
    requires Unique(t.callbacks)
    ensures var added := Step(t, Add(callback)).callbacks;
            added == if callback in t.callbacks then t.callbacks else t.callbacks + [callback]
    ensures var removed := Step(t, Remove(callback)).callbacks;
            if callback in t.callbacks
            then exists i :: 0 <= i < |t.callbacks| && t.callbacks[i] == callback
                             && removed == t.callbacks[..i] + t.callbacks[i + 1..]
            else removed == t.callbacks
  {
    hide Without;
    WithoutErases(t.callbacks, callback);
    var i := Find(t.callbacks, callback);
    assert i < |t.callbacks| ==> t.callbacks[i] == callback;
  }

  /**
    The library holds a live interface exactly from the moment it hears that the plugin is up, if
    it has none and is given one, until it hears that it is down; what happens to the plugin in
    between makes it stale.
   */
  lemma LinkExactly(up: bool, actions: seq<Action>, a: Action)
    ensures var (t, t') := (Run(up, actions), Run(up, actions + [a]));
            match a
            case Operational(true, granted) =>
              && t'.up == t.up
              && t'.activated == (t.activated || (granted && t.up))
              && t'.stale == t.stale
            case Operational(false, _) => t'.up == t.up && !t'.activated && !t'.stale
            case PluginStops => !t'.up && t'.activated == t'.stale == t.activated
            case PluginStarts => t'.up && (t'.activated, t'.stale) == (t.activated, t.stale)
            case _ => (t'.up, t'.activated, t'.stale) == (t.up, t.activated, t.stale)
  {
    hide Run, Without;
    RunAppend(up, actions, a);
    RunKeeps(up, actions);
  }

  /** Another client's sink comes and goes as that client says, while the plugin is up. */
  lemma OthersExactly(t: Topic, sink: nat)
    requires Inv(t) && sink != SINK
    ensures forall x :: x in Step(t, OtherRegisters(sink)).sinks <==> x in t.sinks || (t.up && x == sink)
    ensures forall x :: x in Step(t, OtherUnregisters(sink)).sinks <==> x in t.sinks && x != sink
  {
    WithoutKeeps(t.sinks, sink);
  }

  // ----- While the interface is stale

  /** There was a callback when the plugin last went away behind the library's back. */
  predicate WantedWhenBroken(up: bool, actions: seq<Action>) {
    if actions == [] then false
    else
      var (earlier, a) := (actions[..|actions| - 1], actions[|actions| - 1]);
      var t := Run(up, earlier);
      if a.PluginStops? && t.Live() then t.callbacks != [] else WantedWhenBroken(up, earlier)
  }

  /** A stale flag is frozen: it says what was wanted when the link broke, whatever was added or removed since. */
  lemma {:induction false} StaleFlagIsFrozen(up: bool, actions: seq<Action>)
    ensures var t := Run(up, actions);
            t.stale ==> (t.registered <==> WantedWhenBroken(up, actions))
    decreases |actions|
  {
    if actions != [] {
      var (earlier, a) := (actions[..|actions| - 1], actions[|actions| - 1]);
      assert Run(up, actions) == Step(Run(up, earlier), a);
      hide Run, Step, Inv;
      StaleFlagIsFrozen(up, earlier);
      RunKeeps(up, earlier);
      StaleStep(Run(up, earlier), a);
    }
  }

  lemma StaleStep(t: Topic, a: Action)
    requires Inv(t)
    ensures var t' := Step(t, a);
            t'.stale ==> if a.PluginStops? && t.Live() then t'.registered <==> t.callbacks != []
                         else t.stale && t'.registered == t.registered
  {
    hide Without;
  }

  /**
    The flag says that the library holds an interface and has a callback, except while the
    interface is stale and there are callbacks now but were none when it broke, or the reverse.
   */
  lemma FlagAgreementExactly(up: bool, actions: seq<Action>)
    ensures var t := Run(up, actions);
            (t.registered <==> t.activated && t.callbacks != [])
            <==> (t.stale ==> (t.callbacks != [] <==> WantedWhenBroken(up, actions)))
  {
    RunKeeps(up, actions);
    StaleFlagIsFrozen(up, actions);
  }

  /**
    After the first callback is added through an interface, the plugin holds the sink exactly if
    the interface is live; the flag is set exactly then, or if it was left set when the link broke.
   */
  lemma FirstAddRegistersExactly(up: bool, actions: seq<Action>, callback: nat)
    requires var t := Run(up, actions); t.activated && t.callbacks == []
    ensures var (t, t') := (Run(up, actions), Run(up, actions + [Add(callback)]));
            && (SINK in t'.sinks <==> !t.stale)
            && (t'.registered <==> !t.stale || WantedWhenBroken(up, actions))
  {
    RunKeeps(up, actions);
    StaleFlagIsFrozen(up, actions);
    assert (actions + [Add(callback)])[..|actions|] == actions;
  }

  lemma NothingRun(up: bool)
    ensures Run(up, []) == Unlinked(up)
  {
  }

  lemma RunAppend(up: bool, actions: seq<Action>, a: Action)
    ensures Run(up, actions + [a]) == Step(Run(up, actions), a)
  {
    assert (actions + [a])[..|actions|] == actions;
  }

  /** Adding through a stale interface succeeds, and leaves the flag clear. */
  lemma StaleAddIsNotRegistered()
    ensures var t := Run(true, [Operational(true, true), PluginStops, Add(1)]);
            t.activated && t.callbacks == [1] && !t.registered
  {
    var broken := [Operational(true, true), PluginStops];
    RunAppend(true, [], broken[0]);
    RunAppend(true, [broken[0]], broken[1]);
    RunAppend(true, broken, Add(1));
    assert [] + [broken[0]] == [broken[0]] && [broken[0]] + [broken[1]] == broken;
    assert broken + [Add(1)] == [Operational(true, true), PluginStops, Add(1)];
  }

  /**
    Removing the last callback through a stale interface leaves the flag set, so that the next
    one to be added is not even tried.
   */
  lemma StaleRemoveKeepsFlag()
    ensures var actions := [Operational(true, true), Add(1), PluginStops, Remove(1)];
            var (t, t') := (Run(true, actions), Run(true, actions + [Add(2)]));
            && t.activated && t.callbacks == [] && t.registered
            && t'.callbacks == [2] && t'.registered && SINK !in t'.sinks
  {
    hide Run;
    var actions := [Operational(true, true), Add(1), PluginStops, Remove(1)];
    NothingRun(true);
    RunAppend(true, actions[..0], actions[0]);
    RunAppend(true, actions[..1], actions[1]);
    RunAppend(true, actions[..2], actions[2]);
    RunAppend(true, actions[..3], actions[3]);
    RunAppend(true, actions[..4], Add(2));
    assert actions[..0] == [] && actions[..4] == actions;
    assert forall i :: 0 <= i < 4 ==> actions[..i] + [actions[i]] == actions[..i + 1];
    assert Run(true, actions[..1]) == Topic(true, true, false, [], false, []);
    assert Run(true, actions[..2]) == Topic(true, true, false, [1], true, [SINK]);
    assert Run(true, actions[..3]) == Topic(false, true, true, [1], true, []);
  }

  /** Whatever went wrong before, losing the interface and getting a new one subscribes to all that is wanted. */
  lemma ReconnectRestores(up: bool, actions: seq<Action>)
    requires Run(up, actions).up
    ensures var t := Run(up, actions + [Operational(false, false)] + [Operational(true, true)]);
            && t.Live()
            && (forall cb :: cb in t.callbacks <==> Wants(actions, cb))
            && Delivered(t.sinks, t.callbacks) == t.callbacks
  {
    var (down, back) := (Operational(false, false), Operational(true, true));
    var lost := actions + [down];
    assert lost[..|actions|] == actions && (lost + [back])[..|lost|] == lost;
    SubscriptionAgreement(up, lost + [back]);
    forall cb
      ensures Wants(lost + [back], cb) <==> Wants(actions, cb)
    {
      WantsExtends(actions, down, cb);
      WantsExtends(lost, back, cb);
    }
  }

  // ----- In place

  /** One of the plugin's notification lists. */
  class NotificationList {
    const kind: Kind
    var sinks: seq<nat>

    constructor (kind: Kind)
      ensures this.kind == kind && sinks == []
    {
      this.kind, sinks := kind, [];
    }

    method Register(notification: nat) returns (status: Status)
      modifies this
      ensures status == if notification in old(sinks) then Failure else Success
      ensures sinks == if status.Success? then old(sinks) + [notification] else old(sinks)
    {
      hide Find, Without;
      status := Failure;
      if Find(sinks, notification) == |sinks| {
        sinks := sinks + [notification];
        status := Success;
      }
    }

    method Unregister(notification: nat) returns (status: Status)
      modifies this
      ensures status == if notification in old(sinks) then Success else Failure
      ensures sinks == if status.Success? then Without(old(sinks), notification) else old(sinks)
    {
      hide Find, Without;
      status := Failure;
      var itr := Find(sinks, notification);
      WithoutErases(sinks, notification);
      if itr != |sinks| {
        sinks := sinks[..itr] + sinks[itr + 1..];
        status := Success;
      }
    }
  }

  /** One instance of the plugin; a call to an instance that is gone fails. */
  class Plugin {
    const modeChanged: NotificationList
    const modePreChange: NotificationList
    const deepSleepTimeout: NotificationList
    const networkStandbyModeChanged: NotificationList
    const thermalModeChanged: NotificationList
    const rebootBegin: NotificationList
    var alive: bool

    constructor ()
      ensures alive && Valid() && forall k :: Of(k).sinks == [] && fresh(Of(k))
    {
      alive := true;
      modeChanged := new NotificationList(ModeChanged);
      modePreChange := new NotificationList(ModePreChange);
      deepSleepTimeout := new NotificationList(DeepSleepTimeout);
      networkStandbyModeChanged := new NotificationList(NetworkStandbyModeChanged);
      thermalModeChanged := new NotificationList(ThermalModeChanged);
      rebootBegin := new NotificationList(RebootBegin);
    }

    function Of(kind: Kind): NotificationList {
      match kind
      case ModeChanged => modeChanged
      case ModePreChange => modePreChange
      case DeepSleepTimeout => deepSleepTimeout
      case NetworkStandbyModeChanged => networkStandbyModeChanged
      case ThermalModeChanged => thermalModeChanged
      case RebootBegin => rebootBegin
    }

    ghost predicate Valid() {
      && modeChanged.kind == ModeChanged
      && modePreChange.kind == ModePreChange
      && deepSleepTimeout.kind == DeepSleepTimeout
      && networkStandbyModeChanged.kind == NetworkStandbyModeChanged
      && thermalModeChanged.kind == ThermalModeChanged
      && rebootBegin.kind == RebootBegin
    }
  }

  /** The callbacks of one kind; `plugin` is the interface its owner holds, if any. */
  class CallbackList {
    const kind: Kind
    var callbacks: seq<nat>
    var registered: bool

    constructor (kind: Kind)
      ensures this.kind == kind && callbacks == [] && !registered
    {
      this.kind, callbacks, registered := kind, [], false;
    }

    /** `server` is the instance that is running, or the last one that was. */
    ghost function View(plugin: Plugin?, server: Plugin): Topic
      reads this, plugin, server, server.Of(kind)
    {
      Topic(server.alive, plugin != null, plugin != null && !plugin.alive,
            callbacks, registered, server.Of(kind).sinks)
    }

    method RegisterNotificationInternal(plugin: Plugin?, ghost server: Plugin)
      requires plugin != null && plugin.alive ==> plugin == server
      modifies this`registered, server.Of(kind)
      ensures View(plugin, server) == Subscribed(old(View(plugin, server)))
    {
      if !registered && callbacks != [] && plugin != null {
        if plugin.alive {
          var status := plugin.Of(kind).Register(SINK);
          registered := status.Success?;
        } else {
          registered := false;
        }
      }
    }

    method UnregisterNotificationInternal(forced: bool, plugin: Plugin?, ghost server: Plugin)
      requires plugin != null && plugin.alive ==> plugin == server
      modifies this`registered, server.Of(kind)
      ensures View(plugin, server) == Unsubscribed(old(View(plugin, server)), forced)
    {
      if registered && plugin != null && (forced || callbacks == []) {
        var unregistered := false;
        if plugin.alive {
          var status := plugin.Of(kind).Unregister(SINK);
          unregistered := status.Success?;
        }
        registered := !forced && !unregistered;
      }
    }

    method AddCallback(callback: nat, plugin: Plugin?, ghost server: Plugin) returns (result: Status)
      requires plugin != null && plugin.alive ==> plugin == server
      modifies this, server.Of(kind)
      ensures View(plugin, server) == AddStep(old(View(plugin, server)), callback)
      ensures result == if callback in old(callbacks) then AlreadyConnected else Success
      ensures callbacks == if result == Success then old(callbacks) + [callback] else old(callbacks)
    {
      hide Find, Without;
      result := AlreadyConnected;
      if Find(callbacks, callback) == |callbacks| {
        callbacks := callbacks + [callback];
        result := Success;
        RegisterNotificationInternal(plugin, server);
      }
    }

    method RemoveCallback(callback: nat, plugin: Plugin?, ghost server: Plugin) returns (result: Status)
      requires plugin != null && plugin.alive ==> plugin == server
      modifies this, server.Of(kind)
      ensures View(plugin, server) == RemoveStep(old(View(plugin, server)), callback)
      ensures result == if callback in old(callbacks) then Success else AlreadyReleased
    {
      hide Find, Without;
      result := AlreadyReleased;
      var it := Find(callbacks, callback);
      WithoutErases(callbacks, callback);
      if it != |callbacks| {
        callbacks := callbacks[..it] + callbacks[it + 1..];
        result := Success;
        UnregisterNotificationInternal(false, plugin, server);
      }
    }
  }

  class ClientLibrary {
    const powerModeChanged: CallbackList
    const powerModePreChange: CallbackList
    const deepSleepTimeout: CallbackList
    const networkStandbyModeChanged: CallbackList
    const thermalModeChanged: CallbackList
    const rebootBegin: CallbackList
    var powerManagerInterface: Plugin?

    ghost predicate Valid(server: Plugin)
      reads this, powerManagerInterface
    {
      && server.Valid()
      && (powerManagerInterface != null && powerManagerInterface.alive ==> powerManagerInterface == server)
      && powerModeChanged.kind == ModeChanged
      && powerModePreChange.kind == ModePreChange
      && deepSleepTimeout.kind == DeepSleepTimeout
      && networkStandbyModeChanged.kind == NetworkStandbyModeChanged
      && thermalModeChanged.kind == ThermalModeChanged
      && rebootBegin.kind == RebootBegin
    }

    constructor (ghost server: Plugin)
      requires server.Valid() && forall k :: server.Of(k).sinks == []
      ensures Valid(server)
      ensures powerModeChanged.View(powerManagerInterface, server) == Unlinked(server.alive)
      ensures powerModePreChange.View(powerManagerInterface, server) == Unlinked(server.alive)
      ensures deepSleepTimeout.View(powerManagerInterface, server) == Unlinked(server.alive)
      ensures networkStandbyModeChanged.View(powerManagerInterface, server) == Unlinked(server.alive)
      ensures thermalModeChanged.View(powerManagerInterface, server) == Unlinked(server.alive)
      ensures rebootBegin.View(powerManagerInterface, server) == Unlinked(server.alive)
    {
      powerModeChanged := new CallbackList(ModeChanged);
      powerModePreChange := new CallbackList(ModePreChange);
      deepSleepTimeout := new CallbackList(DeepSleepTimeout);
      networkStandbyModeChanged := new CallbackList(NetworkStandbyModeChanged);
      thermalModeChanged := new CallbackList(ThermalModeChanged);
      rebootBegin := new CallbackList(RebootBegin);
      powerManagerInterface := null;
    }

    method SubscribePowerNotifications(ghost server: Plugin)
      requires Valid(server)
      modifies powerModeChanged`registered, powerModePreChange`registered, deepSleepTimeout`registered,
               server.modeChanged, server.modePreChange, server.deepSleepTimeout
      ensures powerModeChanged.View(powerManagerInterface, server) == Subscribed(old(powerModeChanged.View(powerManagerInterface, server)))
      ensures powerModePreChange.View(powerManagerInterface, server) == Subscribed(old(powerModePreChange.View(powerManagerInterface, server)))
      ensures deepSleepTimeout.View(powerManagerInterface, server) == Subscribed(old(deepSleepTimeout.View(powerManagerInterface, server)))
    {
      hide Subscribed;
      powerModeChanged.RegisterNotificationInternal(powerManagerInterface, server);
      powerModePreChange.RegisterNotificationInternal(powerManagerInterface, server);
      deepSleepTimeout.RegisterNotificationInternal(powerManagerInterface, server);
    }

    method SubscribeOtherNotifications(ghost server: Plugin)
      requires Valid(server)
      modifies networkStandbyModeChanged`registered, thermalModeChanged`registered, rebootBegin`registered,
               server.networkStandbyModeChanged, server.thermalModeChanged, server.rebootBegin
      ensures networkStandbyModeChanged.View(powerManagerInterface, server) == Subscribed(old(networkStandbyModeChanged.View(powerManagerInterface, server)))
      ensures thermalModeChanged.View(powerManagerInterface, server) == Subscribed(old(thermalModeChanged.View(powerManagerInterface, server)))
      ensures rebootBegin.View(powerManagerInterface, server) == Subscribed(old(rebootBegin.View(powerManagerInterface, server)))
    {
      hide Subscribed;
      networkStandbyModeChanged.RegisterNotificationInternal(powerManagerInterface, server);
      thermalModeChanged.RegisterNotificationInternal(powerManagerInterface, server);
      rebootBegin.RegisterNotificationInternal(powerManagerInterface, server);
    }

    method SubscribeAllNotifications(ghost server: Plugin)
      requires Valid(server)
      modifies powerModeChanged`registered, powerModePreChange`registered, deepSleepTimeout`registered,
               networkStandbyModeChanged`registered, thermalModeChanged`registered, rebootBegin`registered,
               server.modeChanged, server.modePreChange, server.deepSleepTimeout,
               server.networkStandbyModeChanged, server.thermalModeChanged, server.rebootBegin
      ensures powerModeChanged.View(powerManagerInterface, server) == Subscribed(old(powerModeChanged.View(powerManagerInterface, server)))
      ensures powerModePreChange.View(powerManagerInterface, server) == Subscribed(old(powerModePreChange.View(powerManagerInterface, server)))
      ensures deepSleepTimeout.View(powerManagerInterface, server) == Subscribed(old(deepSleepTimeout.View(powerManagerInterface, server)))
      ensures networkStandbyModeChanged.View(powerManagerInterface, server) == Subscribed(old(networkStandbyModeChanged.View(powerManagerInterface, server)))
      ensures thermalModeChanged.View(powerManagerInterface, server) == Subscribed(old(thermalModeChanged.View(powerManagerInterface, server)))
      ensures rebootBegin.View(powerManagerInterface, server) == Subscribed(old(rebootBegin.View(powerManagerInterface, server)))
    {
      hide Subscribed;
      SubscribePowerNotifications(server);
      SubscribeOtherNotifications(server);
    }

    method UnsubscribePowerNotifications(ghost server: Plugin)
      requires Valid(server)
      modifies powerModeChanged`registered, powerModePreChange`registered, deepSleepTimeout`registered,
               server.modeChanged, server.modePreChange, server.deepSleepTimeout
      ensures powerModeChanged.View(powerManagerInterface, server) == Unsubscribed(old(powerModeChanged.View(powerManagerInterface, server)), true)
      ensures powerModePreChange.View(powerManagerInterface, server) == Unsubscribed(old(powerModePreChange.View(powerManagerInterface, server)), true)
      ensures deepSleepTimeout.View(powerManagerInterface, server) == Unsubscribed(old(deepSleepTimeout.View(powerManagerInterface, server)), true)
    {
      hide Unsubscribed;
      powerModeChanged.UnregisterNotificationInternal(true, powerManagerInterface, server);
      powerModePreChange.UnregisterNotificationInternal(true, powerManagerInterface, server);
      deepSleepTimeout.UnregisterNotificationInternal(true, powerManagerInterface, server);
    }

    method UnsubscribeOtherNotifications(ghost server: Plugin)
      requires Valid(server)
      modifies networkStandbyModeChanged`registered, thermalModeChanged`registered, rebootBegin`registered,
               server.networkStandbyModeChanged, server.thermalModeChanged, server.rebootBegin
      ensures networkStandbyModeChanged.View(powerManagerInterface, server) == Unsubscribed(old(networkStandbyModeChanged.View(powerManagerInterface, server)), true)
      ensures thermalModeChanged.View(powerManagerInterface, server) == Unsubscribed(old(thermalModeChanged.View(powerManagerInterface, server)), true)
      ensures rebootBegin.View(powerManagerInterface, server) == Unsubscribed(old(rebootBegin.View(powerManagerInterface, server)), true)
    {
      hide Unsubscribed;
      networkStandbyModeChanged.UnregisterNotificationInternal(true, powerManagerInterface, server);
      thermalModeChanged.UnregisterNotificationInternal(true, powerManagerInterface, server);
      rebootBegin.UnregisterNotificationInternal(true, powerManagerInterface, server);
    }

    method UnsubscribeAllNotifications(ghost server: Plugin)
      requires Valid(server)
      modifies powerModeChanged`registered, powerModePreChange`registered, deepSleepTimeout`registered,
               networkStandbyModeChanged`registered, thermalModeChanged`registered, rebootBegin`registered,
               server.modeChanged, server.modePreChange, server.deepSleepTimeout,
               server.networkStandbyModeChanged, server.thermalModeChanged, server.rebootBegin
      ensures powerModeChanged.View(powerManagerInterface, server) == Unsubscribed(old(powerModeChanged.View(powerManagerInterface, server)), true)
      ensures powerModePreChange.View(powerManagerInterface, server) == Unsubscribed(old(powerModePreChange.View(powerManagerInterface, server)), true)
      ensures deepSleepTimeout.View(powerManagerInterface, server) == Unsubscribed(old(deepSleepTimeout.View(powerManagerInterface, server)), true)
      ensures networkStandbyModeChanged.View(powerManagerInterface, server) == Unsubscribed(old(networkStandbyModeChanged.View(powerManagerInterface, server)), true)
      ensures thermalModeChanged.View(powerManagerInterface, server) == Unsubscribed(old(thermalModeChanged.View(powerManagerInterface, server)), true)
      ensures rebootBegin.View(powerManagerInterface, server) == Unsubscribed(old(rebootBegin.View(powerManagerInterface, server)), true)
    {
      hide Unsubscribed;
      UnsubscribePowerNotifications(server);
      UnsubscribeOtherNotifications(server);
    }

    /** The interface can only be had from an instance that is running, and even then not always. */
    method OperationalChanged(upAndRunning: bool, server: Plugin, granted: bool)
      requires Valid(server)
      modifies this`powerManagerInterface,
               powerModeChanged`registered, powerModePreChange`registered, deepSleepTimeout`registered,
               networkStandbyModeChanged`registered, thermalModeChanged`registered, rebootBegin`registered,
               server.modeChanged, server.modePreChange, server.deepSleepTimeout,
               server.networkStandbyModeChanged, server.thermalModeChanged, server.rebootBegin
      ensures Valid(server)
      ensures powerModeChanged.View(powerManagerInterface, server) == OperationalStep(old(powerModeChanged.View(powerManagerInterface, server)), upAndRunning, granted)
      ensures powerModePreChange.View(powerManagerInterface, server) == OperationalStep(old(powerModePreChange.View(powerManagerInterface, server)), upAndRunning, granted)
      ensures deepSleepTimeout.View(powerManagerInterface, server) == OperationalStep(old(deepSleepTimeout.View(powerManagerInterface, server)), upAndRunning, granted)
      ensures networkStandbyModeChanged.View(powerManagerInterface, server) == OperationalStep(old(networkStandbyModeChanged.View(powerManagerInterface, server)), upAndRunning, granted)
      ensures thermalModeChanged.View(powerManagerInterface, server) == OperationalStep(old(thermalModeChanged.View(powerManagerInterface, server)), upAndRunning, granted)
      ensures rebootBegin.View(powerManagerInterface, server) == OperationalStep(old(rebootBegin.View(powerManagerInterface, server)), upAndRunning, granted)
    {
      hide Subscribed, Unsubscribed;
      if upAndRunning {
        if powerManagerInterface == null {
          powerManagerInterface := if granted && server.alive then server else null;
          if powerManagerInterface != null {
            SubscribeAllNotifications(server);
          }
        }
      } else if powerManagerInterface != null {
        UnsubscribeAllNotifications(server);
        powerManagerInterface := null;
      }
    }
  }
}
