/**
 One browser tab of the shared access token: the closure state of `createAuthShare`
 and the handlers that update it. The handlers are written twice, as functions on
 the tab's state (used by the many-tab protocol in `AuthRefresh`) and as methods of
 a class that updates its fields in place, proved equal to those functions.
 */
module AuthShare {
  import opened Options

  datatype Access = Access(value: string, expiresAtMs: int)

  datatype Message =
    | Ask
    | Offer(sub: Option<string>, accessToken: string, expiresAtMs: int)

  /** What the `refresh` callback resolves to when it succeeds. */
  datatype Reply = Reply(sub: Option<string>, accessToken: string, expiresAtMs: int)

  /** `channel` is false when `makeChannel` gave none, `locks` when there is no lock service. */
  datatype Tab = Tab(sub: Option<string>, standing: Option<Access>, channel: bool, locks: bool)

  /** What a handler leaves behind: the tab, the access it adopted and the message it posted. */
  datatype Effect = Effect(tab: Tab, adopted: Option<Access>, posted: Option<Message>)

  datatype Entry = Ensure | RefreshAhead | Renew(rejected: Option<string>)

  const LOCK_PREFIX := "hyoui.auth.refresh:"

  function LockName(endpoint: string, sub: Option<string>): string {
    if sub.None? then LOCK_PREFIX + endpoint else LOCK_PREFIX + endpoint + ":" + sub.value
  }

  predicate IsLive(access: Option<Access>, now: int) {
    access.Some? && access.value.expiresAtMs > now
  }

  function LiveOrNone(access: Option<Access>, now: int): Option<Access> {
    if IsLive(access, now) then access else None
  }

  function OfferOf(tab: Tab, access: Access): Message {
    Offer(tab.sub, access.value, access.expiresAtMs)
  }

  function Adopt(tab: Tab, access: Access, now: int): Effect {
    if IsLive(Some(access), now)
    then Effect(tab.(standing := Some(access)), Some(access), None)
    else Effect(tab, None, None)
  }

  function OnMessage(tab: Tab, message: Message, now: int): Effect {
    match message
    case Ask =>
      Effect(tab, None, if IsLive(tab.standing, now) then Some(OfferOf(tab, tab.standing.value)) else None)
    case Offer(sub, value, expires) =>
      var offered := Access(value, expires);
      if tab.sub.Some? && sub != tab.sub then Effect(tab, None, None)
      else if !IsLive(Some(offered), now) then Effect(tab, None, None)
      else Adopt(if tab.sub.None? then tab.(sub := sub) else tab, offered, now)
  }

  /** Adopt a token that came from the server or from a login, and offer it to the other tabs. */
  function Announce(tab: Tab, reply: Reply, now: int): Effect {
    var named := if reply.sub.Some? then tab.(sub := reply.sub) else tab;
    var effect := Adopt(named, Access(reply.accessToken, reply.expiresAtMs), now);
    if effect.adopted.Some? then effect.(posted := Some(OfferOf(effect.tab, effect.adopted.value))) else effect
  }

  /** What an entry point drops before it starts: a rejected value, or any value. */
  function Entering(tab: Tab, entry: Entry): Tab {
    match entry
    case Ensure => tab
    case RefreshAhead => tab.(standing := None)
    case Renew(rejected) =>
      if tab.standing.Some? && rejected.Some? && tab.standing.value.value == rejected.value
      then tab.(standing := None) else tab
  }

  // ---- What the handlers promise ----

  /** Within one endpoint, two tabs wait on the same lock exactly when they have the same sub. */
  lemma LockNameSeparatesSubs(endpoint: string, a: Option<string>, b: Option<string>)
    ensures LockName(endpoint, a) == LockName(endpoint, b) <==> a == b
  {
    var p := LOCK_PREFIX + endpoint;
    if a.Some? {
      assert LockName(endpoint, a)[|p| + 1..] == a.value;
    }
    if b.Some? {
      assert LockName(endpoint, b)[|p| + 1..] == b.value;
    }
  }

  /** `owner` says for whom a token value was issued; a tab is sound if it only holds its own. */
  ghost predicate Sound(tab: Tab, owner: string -> string) {
    tab.standing.Some? ==> tab.sub == Some(owner(tab.standing.value.value))
  }

  ghost predicate SoundMessage(message: Message, owner: string -> string) {
    message.Offer? ==> message.sub == Some(owner(message.accessToken))
  }

  /** A token whose sub is stated and true, and which is still live when it arrives. */
  ghost predicate Dependable(reply: Reply, now: int, owner: string -> string) {
    && reply.sub == Some(owner(reply.accessToken))
    && reply.expiresAtMs > now
  }

  /** Whatever arrives on the channel: only live tokens of the tab's own sub are taken in. */
  lemma OnMessageIsSelective(tab: Tab, message: Message, now: int)
    ensures var e := OnMessage(tab, message, now);
      && (e.adopted.Some? ==> IsLive(e.adopted, now) && e.tab.standing == e.adopted)
      && (e.adopted.None? ==> e.tab == tab)
      && (e.adopted.Some? <==>
            message.Offer? && message.expiresAtMs > now && (tab.sub.None? || tab.sub == message.sub))
      && (e.adopted.Some? ==>
            && e.adopted.value == Access(message.accessToken, message.expiresAtMs)
            && e.tab == tab.(sub := message.sub, standing := e.adopted))
      && (e.posted.Some? <==> message.Ask? && IsLive(tab.standing, now))
      && (tab.sub.Some? ==> e.tab.sub == tab.sub)
      && (tab.sub.Some? && message.Offer? && message.sub != tab.sub ==> e == Effect(tab, None, None))
      && (e.posted.Some? ==>
            message.Ask? && IsLive(tab.standing, now) && e.posted == Some(OfferOf(tab, tab.standing.value)))
  {
  }

  /** Exactly which server or login replies leave a sound tab sound, given that the named sub is true. */
  lemma AnnounceStaysSoundIff(tab: Tab, reply: Reply, now: int, owner: string -> string)
    requires Sound(tab, owner)
    requires reply.sub.Some? ==> reply.sub.value == owner(reply.accessToken)
    ensures Sound(Announce(tab, reply, now).tab, owner) <==>
      if reply.expiresAtMs > now
      then reply.sub.Some? || tab.sub == Some(owner(reply.accessToken))
      else reply.sub.None? || reply.sub == tab.sub || tab.standing.None?
  {
  }

  /** The tab as the page holds it: fields that the handlers overwrite, and what they posted. */
  class TabObject {
    var sub: Option<string>
    var standing: Option<Access>
    var channel: bool
    var locks: bool
    var posted: seq<Message>
    /** Accesses handed to the `onAccess` listeners, oldest first. */
    var heard: seq<Access>

    ghost function State(): Tab
      reads this
    {
      Tab(sub, standing, channel, locks)
    }

    constructor (sub: Option<string>, channel: bool, locks: bool)
      ensures State() == Tab(sub, None, channel, locks) && posted == [] && heard == []
    {
      this.sub, this.standing, this.channel, this.locks := sub, None, channel, locks;
      posted, heard := [], [];
    }

    /** The state and the two logs after an effect computed from `before`. */
    twostate predicate Performed(effect: Effect)
      reads this
    {
      && State() == effect.tab
      && heard == old(heard) + (if effect.adopted.Some? then [effect.adopted.value] else [])
      && posted == old(posted) + (if channel && effect.posted.Some? then [effect.posted.value] else [])
    }

    method Post(message: Message)
      modifies this`posted
      ensures posted == old(posted) + if channel then [message] else []
    {
      if channel {
        posted := posted + [message];
      }
    }

    method TakeIn(access: Access, now: int) returns (adopted: Option<Access>)
      modifies this`standing, this`heard
      ensures Performed(Adopt(old(State()), access, now))
      ensures adopted == Adopt(old(State()), access, now).adopted
    {
      if !IsLive(Some(access), now) {
        return None;
      }
      standing := Some(access);
      heard := heard + [access];
      return Some(access);
    }

    method Receive(message: Message, now: int)
      modifies this
      ensures Performed(OnMessage(old(State()), message, now))
      ensures message.Ask? ==>
        && State() == old(State()) && heard == old(heard)
        && posted == old(posted) + if channel && IsLive(standing, now) then [OfferOf(State(), standing.value)] else []
      ensures message.Offer? ==> posted == old(posted)
      ensures message.Offer? ==>
        if message.expiresAtMs > now && (old(sub).None? || old(sub) == message.sub)
        then sub == message.sub && standing == Some(Access(message.accessToken, message.expiresAtMs))
             && heard == old(heard) + [standing.value]
        else State() == old(State()) && heard == old(heard)
    {
      match message {
        case Ask =>
          if IsLive(standing, now) {
            Post(Offer(sub, standing.value.value, standing.value.expiresAtMs));
          }
        case Offer(from, value, expires) =>
          if sub.Some? && from != sub {
            return;
          }
          var offered := Access(value, expires);
          if !IsLive(Some(offered), now) {
            return;
          }
          if sub.None? && from.Some? {
            sub := from;
          }
          var _ := TakeIn(offered, now);
      }
    }

    /** `refreshNow` after the server answered, and the public `adopt` after a login. */
    method TakeReply(reply: Reply, now: int) returns (adopted: Option<Access>)
      modifies this
      ensures Performed(Announce(old(State()), reply, now))
      ensures sub == if reply.sub.Some? then reply.sub else old(sub)
      ensures reply.expiresAtMs > now ==>
        && standing == Some(Access(reply.accessToken, reply.expiresAtMs)) && adopted == standing
        && heard == old(heard) + [standing.value]
        && posted == old(posted) + if channel then [Offer(sub, reply.accessToken, reply.expiresAtMs)] else []
      ensures reply.expiresAtMs <= now ==>
        adopted == None && standing == old(standing) && heard == old(heard) && posted == old(posted)
      ensures adopted == Announce(old(State()), reply, now).adopted
    {
      if reply.sub.Some? {
        sub := reply.sub;
      }
      adopted := TakeIn(Access(reply.accessToken, reply.expiresAtMs), now);
      if adopted.Some? {
        Post(Offer(sub, adopted.value.value, adopted.value.expiresAtMs));
      }
    }

    method Enter(entry: Entry)
      modifies this`standing
      ensures State() == Entering(old(State()), entry)
      ensures standing == if entry.RefreshAhead? then None
        else if entry.Renew? && old(standing).Some? && entry.rejected == Some(old(standing).value.value) then None
        else old(standing)
    {
      match entry {
        case Ensure =>
        case RefreshAhead =>
          standing := None;
        case Renew(rejected) =>
          if standing.Some? && rejected.Some? && standing.value.value == rejected.value {
            standing := None;
          }
      }
    }
  }
}
