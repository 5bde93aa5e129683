/**
 * A recipient: the wrapper around a user or a channel object of the chat
 * platform's entity cache.
 */
module Communicator {
  import opened Wrappers

  /**
   * The parts of a platform entity the core reads. `kind` is the entity's
   * `type` property: absent (None) on users, "dm" on direct-message channels,
   * another name on guild channels. `username` is a user's name,
   * `dmRecipient` the name of a DM channel's other party, `channelName` a
   * guild channel's name, `mention` the entity's own string form.
   */
  datatype Entity = Entity(
    id: string,
    kind: Option<string>,
    username: string,
    dmRecipient: string,
    channelName: string,
    mention: string)

  /** The two lookup tables of the platform's cache, by id. */
  datatype Cache = Cache(users: map<string, Entity>, channels: map<string, Entity>)

  /** A wrapped entity; `None` is the `undefined` that a cache miss yields. */
  datatype Communicator = Communicator(entity: Option<Entity>)

  /** A message handed to a cached user or channel (its `send`). */
  datatype Delivery = Delivery(to: Entity, data: string)

  /** Sending to an id the cache does not hold. */
  const NO_SEND := "TypeError: Cannot read properties of undefined (reading 'send')"

  /** The TypeError for reading the property `prop` of `undefined`. */
  function ReadingUndefined(prop: string): string {
    "TypeError: Cannot read properties of undefined (reading '" + prop + "')"
  }

  predicate EntityIsUser(e: Entity) { e.kind.None? }

  predicate EntityIsDm(e: Entity) { e.kind == Some("dm") }

  /** `isUser`: true exactly when the entity has no type. */
  function IsUser(c: Communicator): (r: Result<bool>)
    ensures r.Ok? <==> c.entity.Some?
    ensures r.Ok? ==> (r.value <==> c.entity.value.kind.None?)
  {
    match c.entity
    case None => Err(ReadingUndefined("type"))
    case Some(e) => Ok(EntityIsUser(e))
  }

  /** `isDm`: true exactly when the entity's type is "dm". */
  function IsDm(c: Communicator): (r: Result<bool>)
    ensures r.Ok? <==> c.entity.Some?
    ensures r.Ok? ==> (r.value <==> c.entity.value.kind == Some("dm"))
  {
    match c.entity
    case None => Err(ReadingUndefined("type"))
    case Some(e) => Ok(EntityIsDm(e))
  }

  function Id(c: Communicator): (r: Result<string>)
    ensures r.Ok? <==> c.entity.Some?
    ensures r.Ok? ==> r.value == c.entity.value.id
  {
    match c.entity
    case None => Err(ReadingUndefined("id"))
    case Some(e) => Ok(e.id)
  }

  /** `mention`: the entity's own string form. */
  function Mention(c: Communicator): (r: Result<string>)
    ensures r.Ok? <==> c.entity.Some?
    ensures r.Ok? ==> r.value == c.entity.value.mention
  {
    match c.entity
    case None => Err(ReadingUndefined("toString"))
    case Some(e) => Ok(e.mention)
  }

  /** `code`: 'u' for a user, 'c' for any channel. */
  function Code(c: Communicator): (r: Result<char>)
    ensures r.Ok? <==> c.entity.Some?
    ensures r.Ok? ==> (r.value == 'u' <==> IsUser(c) == Ok(true))
    ensures r.Ok? ==> (r.value == 'c' <==> IsUser(c) == Ok(false))
  {
    match c.entity
    case None => Err(ReadingUndefined("type"))
    case Some(e) => Ok(if EntityIsUser(e) then 'u' else 'c')
  }

  /** `preposition`: "for" a user, "in" a channel. */
  function Preposition(c: Communicator): (r: Result<string>)
    ensures r.Ok? <==> c.entity.Some?
    ensures r.Ok? ==> (r.value == "for" <==> IsUser(c) == Ok(true))
    ensures r.Ok? ==> (r.value == "in" <==> IsUser(c) == Ok(false))
  {
    match c.entity
    case None => Err(ReadingUndefined("type"))
    case Some(e) => Ok(if EntityIsUser(e) then "for" else "in")
  }

  /** `name`: a user's username, a DM channel's other party, otherwise the channel's name. */
  function Name(c: Communicator): (r: Result<string>)
    ensures r.Ok? <==> c.entity.Some?
    ensures IsUser(c) == Ok(true) ==> r == Ok(c.entity.value.username)
    ensures IsDm(c) == Ok(true) ==> r == Ok(c.entity.value.dmRecipient)
    ensures IsUser(c) == Ok(false) && IsDm(c) == Ok(false) ==> r == Ok(c.entity.value.channelName)
  {
    match c.entity
    case None => Err(ReadingUndefined("type"))
    case Some(e) =>
      if EntityIsUser(e) then Ok(e.username)
      else if EntityIsDm(e) then Ok(e.dmRecipient)
      else Ok(e.channelName)
  }

  /**
   * `byId`: null for an absent or empty id; otherwise the wrapper of the
   * entity found in the users (isUser) or channels table, which wraps
   * `undefined` when the id is not cached.
   */
  function ById(id: Option<string>, isUser: bool, cache: Cache): (r: Option<Communicator>)
    ensures r.None? <==> (id.None? || id.value == "")
    ensures r.Some? && isUser ==>
      r.value.entity == (if id.value in cache.users then Some(cache.users[id.value]) else None)
    ensures r.Some? && !isUser ==>
      r.value.entity == (if id.value in cache.channels then Some(cache.channels[id.value]) else None)
  {
    match id
    case None => None
    case Some(k) =>
      if k == "" then None
      else
        var table := if isUser then cache.users else cache.channels;
        Some(Communicator(if k in table then Some(table[k]) else None))
  }
}
