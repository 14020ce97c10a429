/**
 * The three decision rules around the registry: where the manifest is
 * published, which button presses are re-emitted as "setupButtons", and
 * which event bus an event handler is subscribed on.
 */
module Routing {
  import opened Wrappers

  /** The two registration endpoints of the chat platform's REST API. */
  datatype Route =
    | ApplicationCommands(applicationId: string)
    | ApplicationGuildCommands(applicationId: string, guildId: string)

  /** The route chosen on "ready": global in production, otherwise the
      configured guild; missing ids read as "". */
  function PublishRoute(production: bool, userId: Option<string>, guildId: Option<string>): (r: Route)
    ensures r.ApplicationCommands? <==> production
    ensures r.applicationId == userId.GetOr("")
    ensures r.ApplicationGuildCommands? ==> r.guildId == guildId.GetOr("")
  {
    if production then ApplicationCommands(userId.GetOr(""))
    else ApplicationGuildCommands(userId.GetOr(""), guildId.GetOr(""))
  }

  /** The one full-replace request sent on "ready". */
  datatype PutRequest<T> = PutRequest(route: Route, body: seq<T>)

  function ReadyRequest<T>(production: bool, userId: Option<string>, guildId: Option<string>, body: seq<T>): PutRequest<T>
  {
    PutRequest(PublishRoute(production, userId, guildId), body)
  }

  /** Flipping the production flag changes the route's scope and nothing in
      the body sent. */
  lemma ProductionOnlyChangesScope<T>(userId: Option<string>, guildId: Option<string>, body: seq<T>)
    ensures ReadyRequest(true, userId, guildId, body).body == ReadyRequest(false, userId, guildId, body).body == body
    ensures ReadyRequest(true, userId, guildId, body).route == ApplicationCommands(userId.GetOr(""))
    ensures ReadyRequest(false, userId, guildId, body).route == ApplicationGuildCommands(userId.GetOr(""), guildId.GetOr(""))
  {
  }

  /** The parts of an interaction the setup filter reads. */
  datatype Interaction = Interaction(isButton: bool, guildId: string, channelId: string, messageId: string)

  /** A guild's stored setup record: its text channel and player message. */
  datatype SetupRecord = SetupRecord(textId: string, messageId: string)

  /** The "setupButtons" events emitted for one interaction, given the
      setup lookup: the interaction itself, once, when it is a button press
      on the stored setup message in the stored setup channel; else none. */
  function SetupButtons(i: Interaction, getSetup: string -> Option<SetupRecord>): (emitted: seq<Interaction>)
    ensures |emitted| <= 1
    ensures forall e :: e in emitted ==> e == i
    ensures |emitted| == 1 <==>
      i.isButton && getSetup(i.guildId).Some? &&
      i.channelId == getSetup(i.guildId).value.textId &&
      i.messageId == getSetup(i.guildId).value.messageId
  {
    if !i.isButton then []
    else
      var setup := getSetup(i.guildId);
      if setup.Some? && i.channelId == setup.value.textId && i.messageId == setup.value.messageId then [i]
      else []
  }

  /** The two event buses: the platform client's and the audio-node client's. */
  datatype Bus = ClientBus | NodeBus

  /** Handlers from the "player" directory listen on the audio-node bus,
      all others on the client. */
  function BusFor(dir: string): (b: Bus)
    ensures b == NodeBus <==> dir == "player"
  {
    if dir == "player" then NodeBus else ClientBus
  }

  /** An event handler instance: the event it listens for and its file. */
  datatype EventHandler = EventHandler(name: string, file: string)

  /** The handlers of a (directory, handler) listing that land on `bus`, in
      listing order. */
  function Subscriptions(listing: seq<(string, EventHandler)>, bus: Bus): seq<EventHandler>
  {
    if |listing| == 0 then []
    else
      var last := listing[|listing| - 1];
      Subscriptions(listing[..|listing| - 1], bus) + (if BusFor(last.0) == bus then [last.1] else [])
  }

  /** Subscribing a longer listing extends the subscriptions of its prefix. */
  lemma {:induction false} SubscriptionsAppend(a: seq<(string, EventHandler)>, b: seq<(string, EventHandler)>, bus: Bus)
    ensures Subscriptions(a + b, bus) == Subscriptions(a, bus) + Subscriptions(b, bus)
  {
    if |b| > 0 {
      var front := b[..|b| - 1];
      assert (a + b)[..|a + b| - 1] == a + front;
      SubscriptionsAppend(a, front, bus);
    } else {
      assert a + b == a;
    }
  }

  /** The handler instances of a listing, in listing order. */
  function Handlers(listing: seq<(string, EventHandler)>): seq<EventHandler>
  {
    seq(|listing|, k requires 0 <= k < |listing| => listing[k].1)
  }

  /** Every handler of the listing is subscribed on exactly one of the two
      buses: together the two buses hold each listed handler as often as it
      is listed. */
  lemma {:induction false} SubscriptionsPartition(listing: seq<(string, EventHandler)>)
    ensures multiset(Subscriptions(listing, ClientBus)) + multiset(Subscriptions(listing, NodeBus)) ==
      multiset(Handlers(listing))
  {
    if |listing| > 0 {
      var front, last := listing[..|listing| - 1], listing[|listing| - 1];
      SubscriptionsPartition(front);
      assert Handlers(listing) == Handlers(front) + [last.1];
      if BusFor(last.0) == ClientBus {
        assert Subscriptions(listing, ClientBus) == Subscriptions(front, ClientBus) + [last.1];
        assert Subscriptions(listing, NodeBus) == Subscriptions(front, NodeBus);
      } else {
        assert Subscriptions(listing, ClientBus) == Subscriptions(front, ClientBus);
        assert Subscriptions(listing, NodeBus) == Subscriptions(front, NodeBus) + [last.1];
      }
    }
  }

  /** No handler is lost or doubled: the two buses hold as many
      subscriptions as the listing has handlers. */
  lemma {:induction false} SubscriptionsCount(listing: seq<(string, EventHandler)>)
    ensures |Subscriptions(listing, ClientBus)| + |Subscriptions(listing, NodeBus)| == |listing|
  {
    if |listing| > 0 {
      SubscriptionsCount(listing[..|listing| - 1]);
    }
  }

  /** Each listed handler is subscribed on the bus its directory selects. */
  lemma {:induction false} SubscribedOnItsBus(listing: seq<(string, EventHandler)>, k: nat)
    requires k < |listing|
    ensures listing[k].1 in Subscriptions(listing, BusFor(listing[k].0))
  {
    if k < |listing| - 1 {
      var front := listing[..|listing| - 1];
      SubscribedOnItsBus(front, k);
      assert front[k] == listing[k];
    }
  }

  /** The handlers registered for one event name on a bus, in registration
      order: those the emitter runs, all of them, when that event fires. */
  function HandlersFor(listeners: seq<EventHandler>, name: string): (r: seq<EventHandler>)
    ensures forall h :: h in r <==> h in listeners && h.name == name
  {
    if |listeners| == 0 then []
    else
      var last := listeners[|listeners| - 1];
      HandlersFor(listeners[..|listeners| - 1], name) + (if last.name == name then [last] else [])
  }

  /** The handlers of a listing that come from directory `dir` and listen
      for `name`, in listing order. */
  function ListedHandlers(listing: seq<(string, EventHandler)>, dir: string, name: string): seq<EventHandler>
  {
    if |listing| == 0 then []
    else
      var last := listing[|listing| - 1];
      ListedHandlers(listing[..|listing| - 1], dir, name) +
        (if last.0 == dir && last.1.name == name then [last.1] else [])
  }

  /** Fan-out on the audio-node bus: when an event fires there, the handlers
      run are exactly the "player" handlers listening for it, every one of
      them, in the order they were loaded. */
  lemma {:induction false} PlayerFanOut(listing: seq<(string, EventHandler)>, name: string)
    ensures HandlersFor(Subscriptions(listing, NodeBus), name) == ListedHandlers(listing, "player", name)
  {
    if |listing| > 0 {
      var front, last := listing[..|listing| - 1], listing[|listing| - 1];
      PlayerFanOut(front, name);
      HandlersForAppend(Subscriptions(front, NodeBus), if BusFor(last.0) == NodeBus then [last.1] else [], name);
      assert HandlersFor([last.1], name) == if last.1.name == name then [last.1] else [];
    }
  }

  /** The handlers of a listing that come from any directory other than
      `dir` and listen for `name`, in listing order. */
  function HandlersElsewhere(listing: seq<(string, EventHandler)>, dir: string, name: string): seq<EventHandler>
  {
    if |listing| == 0 then []
    else
      var last := listing[|listing| - 1];
      HandlersElsewhere(listing[..|listing| - 1], dir, name) +
        (if last.0 != dir && last.1.name == name then [last.1] else [])
  }

  /** Fan-out on the client bus: when an event fires there, the handlers
      run are exactly the handlers of every directory but "player" that
      listen for it, every one of them, in the order they were loaded. */
  lemma {:induction false} ClientFanOut(listing: seq<(string, EventHandler)>, name: string)
    ensures HandlersFor(Subscriptions(listing, ClientBus), name) == HandlersElsewhere(listing, "player", name)
  {
    if |listing| > 0 {
      var front, last := listing[..|listing| - 1], listing[|listing| - 1];
      ClientFanOut(front, name);
      HandlersForAppend(Subscriptions(front, ClientBus), if BusFor(last.0) == ClientBus then [last.1] else [], name);
      assert HandlersFor([last.1], name) == if last.1.name == name then [last.1] else [];
    }
  }

  lemma {:induction false} HandlersForAppend(a: seq<EventHandler>, b: seq<EventHandler>, name: string)
    ensures HandlersFor(a + b, name) == HandlersFor(a, name) + HandlersFor(b, name)
  {
    if |b| > 0 {
      var front := b[..|b| - 1];
      assert (a + b)[..|a + b| - 1] == a + front;
      HandlersForAppend(a, front, name);
    } else {
      assert a + b == a;
    }
  }
}
