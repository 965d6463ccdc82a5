// Who may see a room: the boolean rules of connection.rs, and the durable rooms
// and grants they are decided from, with the in-memory grants cache.
module Access {
  import opened Options

  // Owner marker of rooms that predate ownership; no credential may match it.
  const LEGACY_UNOWNED_OWNER_KEY := "\0cowchat:legacy-unowned"

  predicate MatchesRoomOwner(ownerKey: Option<string>, apiKey: string, authDisabled: bool) {
    if ownerKey == Some(LEGACY_UNOWNED_OWNER_KEY) then false
    else authDisabled || match ownerKey
                         case Some(owner) => apiKey != "" && owner == apiKey
                         case None => apiKey == ""
  }

  predicate CanAccessRoomParts(visibility: string, ownerKey: Option<string>, apiKey: string, authDisabled: bool) {
    authDisabled || visibility == "public" || MatchesRoomOwner(ownerKey, apiKey, authDisabled)
  }

  // A row of `rooms`. `owner` is the SQL column: None is NULL, "" marks a room
  // made by a keyless local connection.
  datatype Row = Row(name: string, visibility: string, owner: Option<string>, createdBy: Option<string>)

  function DecodedOwner(row: Row): Option<string> {
    match row.owner
    case None => Some(LEGACY_UNOWNED_OWNER_KEY)
    case Some(key) => if key == "" then None else Some(key)
  }

  datatype Tables = Tables(rooms: map<string, Row>,
                           grants: set<(string, string)>,
                           cache: map<string, set<string>>)

  // A new store holds the lobby, which nobody owns.
  const NEW_TABLES := Tables(map["lobby" := Row("lobby", "public", None, None)], {}, map[])

  predicate KeyHasGrant(cache: map<string, set<string>>, apiKey: string, room: string) {
    apiKey != "" && apiKey in cache && room in cache[apiKey]
  }

  predicate CanAccess(t: Tables, room: string, apiKey: string, authDisabled: bool)
    requires room in t.rooms
  {
    || CanAccessRoomParts(t.rooms[room].visibility, DecodedOwner(t.rooms[room]), apiKey, authDisabled)
    || KeyHasGrant(t.cache, apiKey, room)
  }

  // The SQL of `list_rooms_for_key` for a present key; comparing with NULL is
  // never true.
  function ListRoomsForKey(t: Tables, apiKey: string): set<string> {
    set r | r in t.rooms && (|| t.rooms[r].visibility == "public"
                             || t.rooms[r].owner == Some(apiKey)
                             || (apiKey, r) in t.grants)
  }

  predicate NameTaken(t: Tables, name: string) {
    exists r :: r in t.rooms && t.rooms[r].name == name
  }

  datatype CreateError = RoomIdTaken | RoomNameTaken

  datatype DestroyError = NotFound | ProtectedRoom | AccessDenied

  function AuthorizeDestroy(t: Tables, room: string, agent: string, apiKey: string, noAuth: bool): Option<DestroyError> {
    if room !in t.rooms then Some(NotFound)
    else if room == "lobby" || t.rooms[room].createdBy.None? then Some(ProtectedRoom)
    else if t.rooms[room].createdBy != Some(agent)
         || !MatchesRoomOwner(DecodedOwner(t.rooms[room]), apiKey, noAuth) then Some(AccessDenied)
    else None
  }

  // Only the creator destroys a room, with the owner's key where keys are asked for;
  // a room without an owner and the lobby are never destroyed.
  lemma DestroyExactly(t: Tables, room: string, agent: string, apiKey: string, noAuth: bool)
    ensures AuthorizeDestroy(t, room, agent, apiKey, noAuth).None? <==>
              && room in t.rooms && room != "lobby" && t.rooms[room].createdBy == Some(agent)
              && t.rooms[room].owner.Some? && t.rooms[room].owner.value != LEGACY_UNOWNED_OWNER_KEY
              && (noAuth || t.rooms[room].owner.value == apiKey)
    ensures AuthorizeDestroy(t, room, agent, apiKey, noAuth) == Some(NotFound) <==> room !in t.rooms
    ensures AuthorizeDestroy(t, room, agent, apiKey, noAuth) == Some(ProtectedRoom) <==>
              room in t.rooms && (room == "lobby" || t.rooms[room].createdBy.None?)
  {}

  function WithGrant(cache: map<string, set<string>>, apiKey: string, room: string): map<string, set<string>> {
    cache[apiKey := (if apiKey in cache then cache[apiKey] else {}) + {room}]
  }

  function WithoutRoom(cache: map<string, set<string>>, room: string): map<string, set<string>> {
    map k | k in cache && cache[k] - {room} != {} :: cache[k] - {room}
  }

  datatype Op =
    | CreateRoom(room: string, name: string, visibility: string, createdBy: Option<string>, ownerKey: Option<string>)
    | AddRoomGrant(apiKey: string, room: string)
    | DestroyRoom(room: string, agent: string, apiKey: string, noAuth: bool)
    | DeleteRoomArtifacts(room: string)
    | Reopen

  // The cache a fresh process builds from the durable grants.
  function Hydrated(grants: set<(string, string)>): map<string, set<string>> {
    map k | k in Grantees(grants) :: RoomsGranted(grants, k)
  }

  function Grantees(grants: set<(string, string)>): set<string> {
    set g | g in grants :: g.0
  }

  function RoomsGranted(grants: set<(string, string)>, apiKey: string): (rooms: set<string>)
    ensures forall r :: r in rooms <==> (apiKey, r) in grants
  {
    set g | g in grants && g.0 == apiKey :: g.1
  }

  function WithoutGrants(grants: set<(string, string)>, room: string): (kept: set<(string, string)>)
    ensures forall k, r :: (k, r) in kept <==> (k, r) in grants && r != room
  {
    set g | g in grants && g.1 != room
  }

  function Apply(t: Tables, op: Op): Tables {
    match op
    case CreateRoom(room, name, visibility, createdBy, ownerKey) =>
      if room in t.rooms || NameTaken(t, name) then t
      else
        var owner := match ownerKey case None => "" case Some(key) => key;
        t.(rooms := t.rooms[room := Row(name, visibility, Some(owner), createdBy)])
    case AddRoomGrant(key, room) =>
      t.(grants := t.grants + {(key, room)}, cache := WithGrant(t.cache, key, room))
    case DestroyRoom(room, agent, key, noAuth) =>
      if AuthorizeDestroy(t, room, agent, key, noAuth).Some? then t
      else Tables(t.rooms - {room}, WithoutGrants(t.grants, room), WithoutRoom(t.cache, room))
    case DeleteRoomArtifacts(room) =>
      t.(grants := WithoutGrants(t.grants, room), cache := WithoutRoom(t.cache, room))
    case Reopen => t.(cache := Hydrated(t.grants))
  }

  function Run(t: Tables, ops: seq<Op>): Tables
    decreases |ops|
  {
    if ops == [] then t else Run(Apply(t, ops[0]), ops[1..])
  }

  // The cache holds exactly the durable grants, and no empty entries.
  ghost predicate CacheAgrees(t: Tables) {
    && (forall k, r :: (k, r) in t.grants <==> k in t.cache && r in t.cache[k])
    && (forall k :: k in t.cache ==> t.cache[k] != {})
  }

  lemma ApplyKeepsAgreement(t: Tables, op: Op)
    requires CacheAgrees(t)
    ensures CacheAgrees(Apply(t, op))
  {
    if op.Reopen? {
      HydratedAgrees(t.grants);
    } else if op.AddRoomGrant? {
      GrantKeepsAgreement(t, op.apiKey, op.room);
    } else if op.DestroyRoom? || op.DeleteRoomArtifacts? {
      WithoutRoomKeepsAgreement(t, op.room);
    }
  }

  lemma HydratedAgrees(grants: set<(string, string)>)
    ensures forall k, r :: (k, r) in grants <==> k in Hydrated(grants) && r in Hydrated(grants)[k]
    ensures forall k :: k in Hydrated(grants) ==> Hydrated(grants)[k] != {}
  {
    forall k, r
      ensures (k, r) in grants <==> k in Hydrated(grants) && r in Hydrated(grants)[k]
    {
      assert (k, r) in grants ==> (k, r).0 in Grantees(grants);
    }
    forall k | k in Hydrated(grants)
      ensures Hydrated(grants)[k] != {}
    {
      var g :| g in grants && g.0 == k;
      assert (k, g.1) in grants;
    }
  }

  lemma GrantKeepsAgreement(t: Tables, apiKey: string, room: string)
    requires CacheAgrees(t)
    ensures CacheAgrees(t.(grants := t.grants + {(apiKey, room)}, cache := WithGrant(t.cache, apiKey, room)))
  {}

  lemma WithoutRoomKeepsAgreement(t: Tables, room: string)
    requires CacheAgrees(t)
    ensures CacheAgrees(t.(grants := WithoutGrants(t.grants, room), cache := WithoutRoom(t.cache, room)))
  {
    var cache := WithoutRoom(t.cache, room);
    forall k, r
      ensures k in cache && r in cache[k] <==> k in t.cache && r in t.cache[k] && r != room
    {
      if k in t.cache { assert r in t.cache[k] - {room} <==> r in t.cache[k] && r != room; }
    }
  }

  // Opening the database makes them agree, whatever the cache held before.
  lemma ReopenAgrees(t: Tables)
    ensures CacheAgrees(Apply(t, Reopen)) && Apply(t, Reopen).grants == t.grants && Apply(t, Reopen).rooms == t.rooms
  {
    HydratedAgrees(t.grants);
  }

  // Over every run of operations the cache equals the durable grants table.
  lemma {:induction false} RunKeepsAgreement(t: Tables, ops: seq<Op>)
    requires CacheAgrees(t)
    ensures CacheAgrees(Run(t, ops))
    decreases |ops|
  {
    if ops != [] {
      ApplyKeepsAgreement(t, ops[0]);
      RunKeepsAgreement(Apply(t, ops[0]), ops[1..]);
    }
  }

  // The two credentials the SQL listing and the access rule treat differently:
  // the reserved marker used as a key, and a grant recorded for the empty key.
  predicate ReservedCredential(t: Tables, room: string, apiKey: string)
    requires room in t.rooms
  {
    && t.rooms[room].visibility != "public"
    && (|| (apiKey == LEGACY_UNOWNED_OWNER_KEY
            && t.rooms[room].owner == Some(LEGACY_UNOWNED_OWNER_KEY) && (apiKey, room) !in t.grants)
        || (apiKey == "" && t.rooms[room].owner != Some("") && ("", room) in t.grants))
  }

  // After any run from tables with an agreeing cache, whatever rooms they hold, the
  // listing for a key and the access rule agree on a room exactly when the
  // credential is not one of those two.
  lemma ListingMatchesAccess(start: Tables, ops: seq<Op>, apiKey: string, room: string)
    requires CacheAgrees(start) && room in Run(start, ops).rooms
    ensures var t := Run(start, ops);
            (room in ListRoomsForKey(t, apiKey) <==> CanAccess(t, room, apiKey, false))
            <==> !ReservedCredential(t, room, apiKey)
  {
    RunKeepsAgreement(start, ops);
  }

  // In particular every ordinary key is listed exactly the rooms it may use.
  lemma OrdinaryKeyListing(start: Tables, ops: seq<Op>, apiKey: string)
    requires CacheAgrees(start) && apiKey != "" && apiKey != LEGACY_UNOWNED_OWNER_KEY
    ensures var t := Run(start, ops);
            ListRoomsForKey(t, apiKey) == set r | r in t.rooms && CanAccess(t, r, apiKey, false)
  {
    var t := Run(start, ops);
    forall r | r in t.rooms
      ensures r in ListRoomsForKey(t, apiKey) <==> CanAccess(t, r, apiKey, false)
    {
      ListingMatchesAccess(start, ops, apiKey, r);
    }
  }

  // A private room without an owner can never be destroyed, and a key may use it
  // exactly while the grants table names that key.
  lemma {:induction false} UnownedRoomNeedsGrant(start: Tables, ops: seq<Op>, room: string, apiKey: string)
    requires CacheAgrees(start) && room in start.rooms
    requires start.rooms[room].owner.None? && start.rooms[room].visibility != "public"
    ensures room in Run(start, ops).rooms
    ensures CanAccess(Run(start, ops), room, apiKey, false) <==> apiKey != "" && (apiKey, room) in Run(start, ops).grants
    decreases |ops|
  {
    if ops != [] {
      ApplyKeepsAgreement(start, ops[0]);
      UnownedRoomNeedsGrant(Apply(start, ops[0]), ops[1..], room, apiKey);
    }
  }

  // This step of the run destroys the room, by its creator.
  ghost predicate DestroyedAt(start: Tables, ops: seq<Op>, i: nat, room: string)
    requires i < |ops|
  {
    var t := Run(start, ops[..i]);
    && ops[i].DestroyRoom? && ops[i].room == room && room in t.rooms && room != "lobby"
    && t.rooms[room].createdBy == Some(ops[i].agent)
    && (ops[i].noAuth || t.rooms[room].owner == Some(ops[i].apiKey))
  }

  // Over every run a room that is gone was destroyed at some step by its creator.
  lemma {:induction false} OnlyCreatorDestroys(start: Tables, ops: seq<Op>, room: string)
    requires room in start.rooms && room !in Run(start, ops).rooms
    ensures exists i :: 0 <= i < |ops| && DestroyedAt(start, ops, i, room)
    decreases |ops|
  {
    if ops != [] {
      var next := Apply(start, ops[0]);
      if room in next.rooms {
        OnlyCreatorDestroys(next, ops[1..], room);
        var i :| 0 <= i < |ops[1..]| && DestroyedAt(next, ops[1..], i, room);
        assert ops[..i + 1][0] == ops[0] && ops[..i + 1][1..] == ops[1..][..i];
        assert DestroyedAt(start, ops, i + 1, room);
      } else {
        DestroyExactly(start, room, ops[0].agent, ops[0].apiKey, ops[0].noAuth);
        assert ops[..0] == [];
        assert DestroyedAt(start, ops, 0, room);
      }
    }
  }

  // No two rooms ever have one name.
  ghost predicate NamesUnique(t: Tables) {
    forall r, q :: r in t.rooms && q in t.rooms && t.rooms[r].name == t.rooms[q].name ==> r == q
  }

  lemma {:induction false} RunKeepsNamesUnique(t: Tables, ops: seq<Op>)
    requires NamesUnique(t)
    ensures NamesUnique(Run(t, ops))
    decreases |ops|
  {
    if ops != [] {
      RunKeepsNamesUnique(Apply(t, ops[0]), ops[1..]);
    }
  }

  // The reserved marker does show the difference: a room created under it is
  // listed for it and yet not accessible.
  lemma ReservedKeyIsListedButDenied()
    ensures var t := Run(NEW_TABLES, [CreateRoom("r", "name", "private", Some("a"), Some(LEGACY_UNOWNED_OWNER_KEY))]);
            "r" in ListRoomsForKey(t, LEGACY_UNOWNED_OWNER_KEY) && !CanAccess(t, "r", LEGACY_UNOWNED_OWNER_KEY, false)
  {
    var op := CreateRoom("r", "name", "private", Some("a"), Some(LEGACY_UNOWNED_OWNER_KEY));
    var ops := [op];
    assert "lobby"[0] != "name"[0];
    assert Run(NEW_TABLES, ops) == Run(Apply(NEW_TABLES, op), ops[1..]) == Apply(NEW_TABLES, op);
  }

  // A destroyed room leaves no grant behind, in the table or in the cache.
  lemma DestroyRemovesGrants(t: Tables, room: string, agent: string, apiKey: string, noAuth: bool, key: string)
    requires CacheAgrees(t) && AuthorizeDestroy(t, room, agent, apiKey, noAuth).None?
    ensures var after := Apply(t, DestroyRoom(room, agent, apiKey, noAuth));
            room !in after.rooms && (key, room) !in after.grants && !KeyHasGrant(after.cache, key, room)
  {}

  // The store's rooms and grants, updated in place.
  class GrantStore {
    var rooms: map<string, Row>
    var grants: set<(string, string)>
    var cache: map<string, set<string>>

    ghost function View(): Tables
      reads this
    {
      Tables(rooms, grants, cache)
    }

    constructor ()
      ensures View() == NEW_TABLES
    {
      rooms, grants, cache := NEW_TABLES.rooms, {}, map[];
    }

    method CreateRoom(room: string, name: string, visibility: string, createdBy: Option<string>, ownerKey: Option<string>)
      returns (error: Option<CreateError>)
      modifies this
      ensures error.None? <==> room !in old(rooms) && !NameTaken(old(View()), name)
      ensures error == Some(RoomNameTaken) <==> room !in old(rooms) && NameTaken(old(View()), name)
      ensures View() == Apply(old(View()), Op.CreateRoom(room, name, visibility, createdBy, ownerKey))
    {
      if room in rooms {
        return Some(RoomIdTaken);
      }
      if exists r :: r in rooms && rooms[r].name == name {
        return Some(RoomNameTaken);
      }
      var owner := match ownerKey case None => "" case Some(key) => key;
      rooms := rooms[room := Row(name, visibility, Some(owner), createdBy)];
      error := None;
    }

    method AddRoomGrant(apiKey: string, room: string)
      modifies this
      ensures View() == Apply(old(View()), Op.AddRoomGrant(apiKey, room))
    {
      grants := grants + {(apiKey, room)};
      if apiKey !in cache {
        cache := cache[apiKey := {}];
      }
      cache := cache[apiKey := cache[apiKey] + {room}];
    }

    method PurgeRoomGrantsFromCache(room: string)
      modifies this`cache
      ensures cache == WithoutRoom(old(cache), room)
    {
      var todo := cache.Keys;
      ghost var before := cache;
      while todo != {}
        invariant todo <= before.Keys && todo <= cache.Keys
        invariant forall k :: k in todo ==> cache[k] == before[k]
        invariant forall k :: k in before && k !in todo ==>
                    (k in cache <==> before[k] - {room} != {}) && (k in cache ==> cache[k] == before[k] - {room})
        invariant cache.Keys <= before.Keys
        decreases todo
      {
        var k :| k in todo;
        todo := todo - {k};
        if cache[k] - {room} == {} {
          cache := cache - {k};
        } else {
          cache := cache[k := cache[k] - {room}];
        }
      }
    }

    method DestroyRoomAuthorized(room: string, agent: string, apiKey: string, noAuth: bool)
      returns (error: Option<DestroyError>)
      modifies this
      ensures error == AuthorizeDestroy(old(View()), room, agent, apiKey, noAuth)
      ensures rooms == if error.None? then old(rooms) - {room} else old(rooms)
      ensures View() == Apply(old(View()), DestroyRoom(room, agent, apiKey, noAuth))
    {
      error := AuthorizeDestroy(Tables(rooms, grants, cache), room, agent, apiKey, noAuth);
      if error.None? {
        grants := WithoutGrants(grants, room);
        rooms := rooms - {room};
        PurgeRoomGrantsFromCache(room);
      }
    }

    // All keys holding a grant for the room, by scanning the cache.
    method GrantedKeysForRoom(room: string) returns (keys: set<string>)
      requires CacheAgrees(View())
      ensures forall k :: k in keys <==> (k, room) in grants
    {
      keys := set k | k in cache && room in cache[k];
    }
  }
}
