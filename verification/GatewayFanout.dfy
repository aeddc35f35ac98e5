/** One fanout of the gateway: who gets the event, and the caches that save queries meanwhile. */
module GatewayFanout {
  import opened GatewayProtocol
  import opened Gateway
  import opened BigInt
  import opened Permissions
  import opened Wrappers

  datatype Membership = Membership(place: string, user: User)

  /** The tables behind the queries, which do not change during the fanout. `permissions` has what
      the permission service answers for a channel and a user, if it answers. */
  datatype Tables = Tables(
    serverMembers: seq<Membership>,
    dmMembers: seq<Membership>,
    owners: map<string, User>,
    permissions: map<Membership, int>)

  datatype Notice = Notice(
    event: Event,
    userId: Option<User>,
    dmChannelId: Option<string>,
    channelId: Option<string>,
    serverId: Option<string>)

  predicate IsPresence(e: Notice) {
    e.event.name == "PRESENCE_UPDATE"
  }

  // ----- the rule, with no cache -----

  ghost predicate ShareAPlace(rows: seq<Membership>, a: User, b: User) {
    exists place :: Membership(place, a) in rows && Membership(place, b) in rows
  }

  predicate MayView(t: Tables, channel: string, user: User) {
    var m := Membership(channel, user);
    m in t.permissions && (HasFlag(t.permissions[m], VIEW_CHANNEL) || HasFlag(t.permissions[m], ADMINISTRATOR))
  }

  predicate BelongsTo(t: Tables, server: string, user: User) {
    Membership(server, user) in t.serverMembers || (server in t.owners && t.owners[server] == user)
  }

  /** Who may see the event. */
  ghost predicate Visible(t: Tables, e: Notice, user: User) {
    if IsPresence(e) then
      e.userId.Some?
      && (|| user == e.userId.value
          || ShareAPlace(t.serverMembers, user, e.userId.value)
          || ShareAPlace(t.dmMembers, user, e.userId.value))
    else if e.dmChannelId.Some? then Membership(e.dmChannelId.value, user) in t.dmMembers
    else if e.userId.Some? then user == e.userId.value
    else if e.channelId.Some? then MayView(t, e.channelId.value, user)
    else if e.serverId.Some? then BelongsTo(t, e.serverId.value, user)
    else false
  }

  /** What the rule comes to, by the kind of the event: presence goes to the user it is about and to
      those who share a place with it, a direct message to the members of its channel alone, an event
      for one user to that user alone, one for a channel to those who can view it, one for a server to
      its members and its owner, and any other to nobody. */
  lemma VisibleTo(t: Tables, e: Notice, user: User)
    ensures e.event.name == "PRESENCE_UPDATE" && e.userId.Some? ==>
              (Visible(t, e, user) <==>
                 || user == e.userId.value
                 || (exists place :: Membership(place, user) in t.serverMembers
                                     && Membership(place, e.userId.value) in t.serverMembers)
                 || (exists place :: Membership(place, user) in t.dmMembers
                                     && Membership(place, e.userId.value) in t.dmMembers))
    ensures e.event.name != "PRESENCE_UPDATE" && e.dmChannelId.Some? ==>
              (Visible(t, e, user) <==> Membership(e.dmChannelId.value, user) in t.dmMembers)
    ensures e.event.name != "PRESENCE_UPDATE" && e.dmChannelId.None? && e.userId.Some? ==>
              (Visible(t, e, user) <==> user == e.userId.value)
    ensures e.event.name != "PRESENCE_UPDATE" && e.dmChannelId.None? && e.userId.None? && e.channelId.Some? ==>
              (Visible(t, e, user) <==>
                 var m := Membership(e.channelId.value, user);
                 m in t.permissions && (Bit(t.permissions[m], 0) || Bit(t.permissions[m], 62)))
    ensures e.event.name != "PRESENCE_UPDATE" && e.dmChannelId.None? && e.userId.None? && e.channelId.None?
            && e.serverId.Some? ==>
              (Visible(t, e, user) <==>
                 || Membership(e.serverId.value, user) in t.serverMembers
                 || (e.serverId.value, user) in t.owners.Items)
    ensures e.userId.None? && (e.event.name == "PRESENCE_UPDATE"
                               || (e.dmChannelId.None? && e.channelId.None? && e.serverId.None?)) ==>
              !Visible(t, e, user)
  {
    if e.channelId.Some? && Membership(e.channelId.value, user) in t.permissions {
      HasFlagBit(t.permissions[Membership(e.channelId.value, user)], 0);
      HasFlagBit(t.permissions[Membership(e.channelId.value, user)], 62);
    }
  }

  // ----- the precomputed audience -----

  /** Rows of other users at a place where the target is, too. */
  method RowsSharedWith(rows: seq<Membership>, target: User) returns (found: seq<Membership>)
    ensures forall m :: m in found <==> m in rows && m.user != target && Membership(m.place, target) in rows
  {
    found := [];
    for k := 0 to |rows|
      invariant forall m :: m in found <==> m in rows[..k] && m.user != target && Membership(m.place, target) in rows
    {
      if rows[k].user != target && Membership(rows[k].place, target) in rows {
        found := found + [rows[k]];
      }
    }
  }

  method ComputePresenceAudience(t: Tables, target: User) returns (audience: set<User>)
    ensures forall user :: user in audience <==>
              user != target
              && (ShareAPlace(t.serverMembers, user, target) || ShareAPlace(t.dmMembers, user, target))
  {
    var sharedServerMembers := RowsSharedWith(t.serverMembers, target);
    var sharedDmMembers := RowsSharedWith(t.dmMembers, target);
    audience := {};
    for k := 0 to |sharedServerMembers|
      invariant forall user :: user in audience <==> exists i :: 0 <= i < k && sharedServerMembers[i].user == user
    {
      audience := audience + {sharedServerMembers[k].user};
    }
    ghost var first := audience;
    for k := 0 to |sharedDmMembers|
      invariant forall user :: user in audience <==>
                  user in first || exists i :: 0 <= i < k && sharedDmMembers[i].user == user
    {
      audience := audience + {sharedDmMembers[k].user};
    }
    forall user
      ensures user in audience <==>
                user != target
                && (ShareAPlace(t.serverMembers, user, target) || ShareAPlace(t.dmMembers, user, target))
    {
    }
  }

  method Audience(t: Tables, e: Notice) returns (audience: Option<set<User>>)
    ensures AudienceOf(t, e, audience)
  {
    if IsPresence(e) && e.userId.Some? {
      var users := ComputePresenceAudience(t, e.userId.value);
      return Some(users);
    }
    return None;
  }

  // ----- the caches -----

  function CacheKey(place: string, user: User): string {
    place + ":" + user
  }

  /** Keys of one fanout have the same place in front, so that they tell users apart. */
  lemma KeysDiffer(place: string, a: User, b: User)
    requires CacheKey(place, a) == CacheKey(place, b)
    ensures a == b
  {
    assert CacheKey(place, a)[|place| + 1..] == a;
    assert CacheKey(place, b)[|place| + 1..] == b;
  }

  datatype Caches = Caches(channelPerms: map<string, Option<int>>, memberships: map<string, bool>)

  function PermissionsOf(t: Tables, channel: string, user: User): Option<int> {
    var m := Membership(channel, user);
    if m in t.permissions then Some(t.permissions[m]) else None
  }

  /** What a cache holds is what the query would answer. */
  ghost predicate Fresh(t: Tables, e: Notice, caches: Caches) {
    && (e.channelId.Some? ==>
          forall user :: CacheKey(e.channelId.value, user) in caches.channelPerms ==>
            caches.channelPerms[CacheKey(e.channelId.value, user)] == PermissionsOf(t, e.channelId.value, user))
    && (e.serverId.Some? ==>
          forall user :: CacheKey(e.serverId.value, user) in caches.memberships ==>
            caches.memberships[CacheKey(e.serverId.value, user)] == BelongsTo(t, e.serverId.value, user))
  }

  ghost predicate AudienceOf(t: Tables, e: Notice, audience: Option<set<User>>) {
    IsPresence(e) && e.userId.Some? ==>
      audience.Some?
      && forall user :: user in audience.value <==>
           user != e.userId.value
           && (ShareAPlace(t.serverMembers, user, e.userId.value) || ShareAPlace(t.dmMembers, user, e.userId.value))
  }

  method ShouldDeliver(t: Tables, e: Notice, user: User, caches: Caches, audience: Option<set<User>>)
    returns (deliver: bool, after: Caches)
    requires Fresh(t, e, caches) && AudienceOf(t, e, audience)
    ensures deliver <==> Visible(t, e, user)
    ensures Fresh(t, e, after)
  {
    after := caches;
    if IsPresence(e) {
      if e.userId.None? {
        return false, after;
      }
      if e.userId.value == user {
        return true, after;
      }
      return audience.Some? && user in audience.value, after;
    }
    if e.dmChannelId.Some? {
      return Membership(e.dmChannelId.value, user) in t.dmMembers, after;
    }
    if e.userId.Some? {
      return e.userId.value == user, after;
    }
    if e.channelId.Some? {
      var perms;
      perms, after := ChannelPermissions(t, e, user, caches);
      if perms.None? {
        return false, after;
      }
      return HasFlag(perms.value, VIEW_CHANNEL) || HasFlag(perms.value, ADMINISTRATOR), after;
    }
    if e.serverId.Some? {
      deliver, after := ServerMembership(t, e, user, caches);
      return;
    }
    return false, after;
  }

  /** The channel's permissions for the user: from the cache, or by a query that fills it. */
  method ChannelPermissions(t: Tables, e: Notice, user: User, caches: Caches)
    returns (perms: Option<int>, after: Caches)
    requires Fresh(t, e, caches) && e.channelId.Some?
    ensures perms == PermissionsOf(t, e.channelId.value, user)
    ensures Fresh(t, e, after)
  {
    after := caches;
    var cacheKey := CacheKey(e.channelId.value, user);
    if cacheKey in caches.channelPerms {
      return caches.channelPerms[cacheKey], after;
    }
    perms := PermissionsOf(t, e.channelId.value, user);
    after := caches.(channelPerms := caches.channelPerms[cacheKey := perms]);
    forall other | CacheKey(e.channelId.value, other) == cacheKey
      ensures other == user
    {
      KeysDiffer(e.channelId.value, other, user);
    }
  }

  /** Whether the user is on the server: from the cache, or by queries that fill it. */
  method ServerMembership(t: Tables, e: Notice, user: User, caches: Caches) returns (belongs: bool, after: Caches)
    requires Fresh(t, e, caches) && e.serverId.Some?
    ensures belongs <==> BelongsTo(t, e.serverId.value, user)
    ensures Fresh(t, e, after)
  {
    after := caches;
    var cacheKey := CacheKey(e.serverId.value, user);
    if cacheKey in caches.memberships {
      return caches.memberships[cacheKey], after;
    }
    belongs := BelongsTo(t, e.serverId.value, user);
    after := caches.(memberships := caches.memberships[cacheKey := belongs]);
    forall other | CacheKey(e.serverId.value, other) == cacheKey
      ensures other == user
    {
      KeysDiffer(e.serverId.value, other, user);
    }
  }

  // ----- the delivery loop -----

  /** The client is identified, and its user may see the event. */
  ghost predicate Wants(t: Tables, e: Notice, c: Socket) {
    c.identified && c.userId.Some? && Visible(t, e, c.userId.value)
  }

  /** One round of the loop, by the rule with no cache. */
  ghost function Offered(s: State, t: Tables, e: Notice, id: Id, amount: nat): State
    requires WellFormed(s) && id in s.sockets
  {
    if Wants(t, e, s.sockets[id]) then AfterDispatch(s, id, e.event, amount) else s
  }

  lemma OfferedWellFormed(s: State, t: Tables, e: Notice, id: Id, amount: nat)
    requires WellFormed(s) && id in s.sockets
    ensures var u := Offered(s, t, e, id, amount);
            WellFormed(u) && u.sockets.Keys == s.sockets.Keys
  {
    DispatchWellFormed(s, id, e.event, amount);
  }

  ghost predicate AllKnown(s: State, order: seq<Id>) {
    forall id :: id in order ==> id in s.sockets
  }

  /** The state after the clients in `order` were gone through. */
  ghost function Fanned(s: State, t: Tables, e: Notice, order: seq<Id>, amounts: seq<nat>): (u: State)
    requires WellFormed(s) && AllKnown(s, order)
    ensures WellFormed(u) && u.sockets.Keys == s.sockets.Keys
  {
    if order == [] then s
    else
      var n := |order| - 1;
      var u := Fanned(s, t, e, order[..n], amounts);
      assert order[n] in order;
      OfferedWellFormed(u, t, e, order[n], AmountAt(amounts, n));
      Offered(u, t, e, order[n], AmountAt(amounts, n))
  }

  function Ids(clients: seq<Client>): (ids: seq<Id>)
    ensures |ids| == |clients| && forall k :: 0 <= k < |ids| ==> ids[k] == clients[k].id
  {
    seq(|clients|, k requires 0 <= k < |clients| => clients[k].id)
  }

  /** One round of the loop. */
  method Offer(g: Gateway, t: Tables, e: Notice, c: Client, amount: nat, caches: Caches, audience: Option<set<User>>)
    returns (after: Caches)
    requires g.Valid() && WellFormed(g.Abstract()) && g.Knows(c) && c.id in g.Abstract().sockets
    requires Fresh(t, e, caches) && AudienceOf(t, e, audience)
    modifies c, c.buffer
    ensures g.Valid() && Fresh(t, e, after)
    ensures g.Abstract() == Offered(old(g.Abstract()), t, e, c.id, amount)
  {
    hide Fresh, AudienceOf, Visible, AfterDispatch, WellFormed;
    g.LookUp(c);
    after := caches;
    if c.identified && c.userId.Some? {
      var should;
      should, after := ShouldDeliver(t, e, c.userId.value, caches, audience);
      if should {
        g.Dispatch(c, e.event, amount);
      }
    }
  }

  /** The first k clients are done. */
  ghost predicate FannedTo(g: Gateway, s: State, t: Tables, e: Notice, ids: seq<Id>, amounts: seq<nat>, k: nat)
    reads g, g.everyClient, g.everyArray
    requires k <= |ids|
  {
    && g.Valid() && WellFormed(s) && AllKnown(s, ids) && AllKnown(s, ids[..k])
    && g.Abstract() == Fanned(s, t, e, ids[..k], amounts)
  }

  method OfferNext(
    g: Gateway, ghost s: State, t: Tables, e: Notice, ghost ids: seq<Id>, amounts: seq<nat>, k: nat, c: Client,
    caches: Caches, audience: Option<set<User>>)
    returns (after: Caches)
    requires k < |ids| && ids[k] == c.id && FannedTo(g, s, t, e, ids, amounts, k)
    requires g.Knows(c) && Fresh(t, e, caches) && AudienceOf(t, e, audience)
    modifies g.everyClient, g.everyArray
    ensures unchanged(g)
    ensures Fresh(t, e, after) && FannedTo(g, s, t, e, ids, amounts, k + 1)
  {
    hide Fresh, AudienceOf, WellFormed, Offered;
    FannedStep(s, t, e, ids, k, amounts);
    hide Fanned;
    g.LookUp(c);
    after := Offer(g, t, e, c, AmountAt(amounts, k), caches, audience);
  }

  /** The loop over the clients: who is dispatched to is as the rule with no cache says. */
  method Fanout(g: Gateway, t: Tables, e: Notice, order: seq<Client>, amounts: seq<nat>)
    requires g.Valid() && WellFormed(g.Abstract())
    requires AllKnown(g.Abstract(), Ids(order)) && forall c :: c in order ==> g.Knows(c)
    modifies g.everyClient, g.everyArray
    ensures g.Valid()
    ensures g.Abstract() == Fanned(old(g.Abstract()), t, e, Ids(order), amounts)
  {
    hide *;
    ghost var s, ids := g.Abstract(), Ids(order);
    var caches := Caches(map[], map[]);
    FannedStart(g, s, t, e, ids, amounts);
    var audience := Audience(t, e);
    for k := 0 to |order|
      invariant unchanged(g)
      invariant FannedTo(g, s, t, e, ids, amounts, k) && Fresh(t, e, caches)
    {
      assert order[k] in order;
      caches := OfferNext(g, s, t, e, ids, amounts, k, order[k], caches, audience);
    }
    FannedEnd(g, s, t, e, ids, amounts);
  }

  lemma FannedStart(g: Gateway, s: State, t: Tables, e: Notice, ids: seq<Id>, amounts: seq<nat>)
    requires g.Valid() && WellFormed(g.Abstract()) && s == g.Abstract() && AllKnown(s, ids)
    ensures FannedTo(g, s, t, e, ids, amounts, 0) && Fresh(t, e, Caches(map[], map[]))
  {
  }

  lemma FannedEnd(g: Gateway, s: State, t: Tables, e: Notice, ids: seq<Id>, amounts: seq<nat>)
    requires FannedTo(g, s, t, e, ids, amounts, |ids|)
    ensures g.Valid() && WellFormed(s) && AllKnown(s, ids) && g.Abstract() == Fanned(s, t, e, ids, amounts)
  {
    assert ids[..|ids|] == ids;
  }

  lemma FannedStep(s: State, t: Tables, e: Notice, ids: seq<Id>, k: nat, amounts: seq<nat>)
    requires WellFormed(s) && AllKnown(s, ids) && k < |ids|
    ensures AllKnown(s, ids[..k]) && AllKnown(s, ids[..k + 1])
    ensures var u := Fanned(s, t, e, ids[..k], amounts);
            && ids[k] in u.sockets
            && Fanned(s, t, e, ids[..k + 1], amounts) == Offered(u, t, e, ids[k], AmountAt(amounts, k))
  {
    assert ids[..k + 1][..k] == ids[..k];
    assert ids[k] in ids;
  }

  // ----- the pass delivers once to each client that may see the event, and to no other -----

  ghost predicate Distinct(order: seq<Id>) {
    forall i, j :: 0 <= i < j < |order| ==> order[i] != order[j]
  }

  /** Between `s` and `u` the client was dispatched to once, or not at all. */
  ghost predicate Delivered(s: State, u: State, id: Id, event: Event, once: bool)
    requires WellFormed(s) && WellFormed(u) && id in s.sockets && id in u.sockets
  {
    var c, d := s.sockets[id], u.sockets[id];
    && d.userId == c.userId && d.identified == c.identified && d.buffer == c.buffer
    && d.lastNumber == c.lastNumber + (if once then 1 else 0)
    && Pushed(u.logs[d.buffer]) == Pushed(s.logs[c.buffer]) + if once then [NextItem(c, event)] else []
  }

  /** Apart from the connections in `ids` and the arrays they hold nothing differs: not the connection
      `id`, not the array `a`, no orphan, no connection set, no presence call. */
  ghost predicate OnlyTouches(s: State, u: State, ids: set<Id>, id: Id, a: Id) {
    && u.open == s.open && u.orphans == s.orphans && u.userConnections == s.userConnections && u.presence == s.presence
    && (id in s.sockets ==> id in u.sockets && u.sockets[id].buffer == s.sockets[id].buffer)
    && (id in s.sockets && id !in ids ==> u.sockets[id] == s.sockets[id])
    && (a in s.logs && !HeldByAny(s, ids, a) ==> a in u.logs && u.logs[a] == s.logs[a])
  }

  function Visited(order: seq<Id>): set<Id> {
    set k | k in order
  }

  ghost predicate HeldByAny(s: State, ids: set<Id>, a: Id) {
    exists id :: id in ids && id in s.sockets && s.sockets[id].buffer == a
  }

  lemma OfferTouches(s: State, t: Tables, e: Notice, id: Id, amount: nat, other: Id, a: Id)
    requires WellFormed(s) && id in s.sockets
    ensures OnlyTouches(s, Offered(s, t, e, id, amount), {id}, other, a)
  {
    DispatchView(s, id, e.event, amount);
  }

  lemma TouchesTogether(s: State, u: State, w: State, ids: set<Id>, last: Id, id: Id, a: Id)
    requires OnlyTouches(s, u, ids, id, a) && OnlyTouches(s, u, ids, last, a) && OnlyTouches(u, w, {last}, id, a)
    requires last in s.sockets
    ensures OnlyTouches(s, w, ids + {last}, id, a)
  {
  }

  /** The pass touches the clients in `order` and the arrays they hold, and nothing else. */
  lemma {:induction false} PassTouchesItsClients(
    s: State, t: Tables, e: Notice, order: seq<Id>, amounts: seq<nat>, id: Id, a: Id)
    requires WellFormed(s) && AllKnown(s, order)
    ensures OnlyTouches(s, Fanned(s, t, e, order, amounts), Visited(order), id, a)
  {
    hide OnlyTouches, Offered, WellFormed, Fanned;
    FannedLast(s, t, e, order, amounts);
    if order == [] {
      TouchesNothing(s, Visited(order), id, a);
    } else {
      var n := |order| - 1;
      assert order == order[..n] + [order[n]];
      PassTouchesItsClients(s, t, e, order[..n], amounts, id, a);
      PassTouchesItsClients(s, t, e, order[..n], amounts, order[n], a);
      var u := Fanned(s, t, e, order[..n], amounts);
      OfferTouches(u, t, e, order[n], AmountAt(amounts, n), id, a);
      assert order[n] in order;
      TouchesTogether(s, u, Offered(u, t, e, order[n], AmountAt(amounts, n)), Visited(order[..n]), order[n], id, a);
      assert Visited(order) == Visited(order[..n]) + {order[n]};
    }
  }

  lemma TouchesNothing(s: State, ids: set<Id>, id: Id, a: Id)
    ensures OnlyTouches(s, s, ids, id, a)
  {
  }

  /** After the pass an open client whose array is in order has had the event once if it is identified
      and its user may see it, and not at all otherwise. */
  lemma {:induction false} DeliversOnce(s: State, t: Tables, e: Notice, order: seq<Id>, amounts: seq<nat>, id: Id)
    requires WellFormed(s) && Distinct(order) && AllKnown(s, order)
    requires forall other :: other in order ==> other in s.open
    requires id in s.open && id in s.sockets && BlockAt(s, s.sockets[id].buffer)
    ensures var u := Fanned(s, t, e, order, amounts);
            && u.open == s.open && BlockAt(u, s.sockets[id].buffer)
            && Delivered(s, u, id, e.event, id in order && Wants(t, e, s.sockets[id]))
  {
    hide Delivered, BlockAt, Offered, Wants, WellFormed, Fanned;
    FannedLast(s, t, e, order, amounts);
    if order == [] {
      NothingDelivered(s, id, e.event);
    } else {
      var n := |order| - 1;
      assert order[n] in order;
      DeliversOnce(s, t, e, order[..n], amounts, id);
      var u := Fanned(s, t, e, order[..n], amounts);
      var wanted := id in order[..n] && Wants(t, e, s.sockets[id]);
      SameClient(s, u, id, e.event, wanted, t, e);
      assert order == order[..n] + [order[n]];
      OfferDelivers(u, t, e, order[n], AmountAt(amounts, n), id);
      var w := Offered(u, t, e, order[n], AmountAt(amounts, n));
      DeliveredTwice(s, u, w, id, e.event, wanted, id == order[n] && Wants(t, e, u.sockets[order[n]]));
    }
  }

  lemma NothingDelivered(s: State, id: Id, event: Event)
    requires WellFormed(s) && id in s.sockets
    ensures Delivered(s, s, id, event, false)
  {
    var all := Pushed(s.logs[s.sockets[id].buffer]);
    assert all + [] == all;
  }

  lemma FannedLast(s: State, t: Tables, e: Notice, order: seq<Id>, amounts: seq<nat>)
    requires WellFormed(s) && AllKnown(s, order)
    ensures if order == [] then Fanned(s, t, e, order, amounts) == s
            else
              var n := |order| - 1;
              && AllKnown(s, order[..n])
              && var u := Fanned(s, t, e, order[..n], amounts);
                 && WellFormed(u) && order[n] in u.sockets
                 && Fanned(s, t, e, order, amounts) == Offered(u, t, e, order[n], AmountAt(amounts, n))
  {
    if order != [] {
      assert order[|order| - 1] in order;
    }
  }

  lemma DeliveredTwice(s: State, u: State, w: State, id: Id, event: Event, first: bool, second: bool)
    requires WellFormed(s) && WellFormed(u) && WellFormed(w) && id in s.sockets && id in u.sockets && id in w.sockets
    requires Delivered(s, u, id, event, first) && Delivered(u, w, id, event, second) && !(first && second)
    ensures Delivered(s, w, id, event, first || second)
  {
    var all := Pushed(s.logs[s.sockets[id].buffer]);
    assert all + [] == all;
  }

  lemma SameClient(s: State, u: State, id: Id, event: Event, once: bool, t: Tables, e: Notice)
    requires WellFormed(s) && WellFormed(u) && id in s.sockets && id in u.sockets
    requires Delivered(s, u, id, event, once)
    ensures u.sockets[id].buffer == s.sockets[id].buffer
    ensures Wants(t, e, u.sockets[id]) <==> Wants(t, e, s.sockets[id])
  {
  }

  /** One round: the client gets the event once or not at all, and other open clients do not. */
  lemma OfferDelivers(s: State, t: Tables, e: Notice, id: Id, amount: nat, other: Id)
    requires WellFormed(s) && id in s.open && id in s.sockets
    requires other in s.open && other in s.sockets && BlockAt(s, s.sockets[other].buffer)
    ensures var u := Offered(s, t, e, id, amount);
            && WellFormed(u) && u.open == s.open && other in u.sockets && BlockAt(u, s.sockets[other].buffer)
            && Delivered(s, u, other, e.event, other == id && Wants(t, e, s.sockets[id]))
  {
    OfferedWellFormed(s, t, e, id, amount);
    if Wants(t, e, s.sockets[id]) {
      var a := s.sockets[other].buffer;
      assert Holds(s, ClientOf(other)) && Held(s, ClientOf(other)) == SocketView(s.sockets[other]);
      OpenIsUnshared(s, other);
      if s.sockets[id].buffer == a {
        assert Holds(s, ClientOf(id)) && Held(s, ClientOf(id)) == SocketView(s.sockets[id]);
      }
      DispatchBlockIff(s, id, e.event, amount, a);
      DispatchView(s, id, e.event, amount);
      PushedAppended(s.logs[s.sockets[id].buffer], NextItem(s.sockets[id], e.event));
    } else {
      assert Pushed(s.logs[s.sockets[other].buffer]) + [] == Pushed(s.logs[s.sockets[other].buffer]);
    }
  }
}
