/**
 Messages, cards and replies of the relay: idempotency rows, the message and card rows they
 name, reply windows and the replies stored against them.
 */
module RelayMessages {
  import opened Wrappers

  const REPLY_RETENTION_MS: int := 86_400_000

  datatype Owner = Owner(token: string, key: string)
  datatype Named = MessageNamed | CardNamed
  datatype Idem = Idem(hash: string, kind: Named, resource: string)

  datatype MessageStatus = Sending | Sent
  /** `window` is `reply_expires_at`. */
  datatype Message = Message(owner: Owner, hash: string, kind: string, status: MessageStatus,
                             messageId: Option<string>, window: Option<int>)

  datatype CardStatus = CardSending | CardPending | CardFailed | Actioned | Closed | CardExpired
  datatype Card = Card(owner: Owner, nonce: string, actions: seq<string>, status: CardStatus,
                       actionId: Option<string>, closeReason: Option<string>,
                       messageId: Option<string>, expiresAt: int)

  datatype Reply = Reply(token: string, messageId: string, text: string, createdAt: int, purged: bool)

  /** What the matcher reads of a token: whose it is, and whether it is still good. */
  datatype Token = Token(actor: string, active: bool)

  datatype Db = Db(idem: map<Owner, Idem>, messages: map<string, Message>, cards: map<string, Card>,
                   replies: map<string, Reply>, tokens: map<string, Token>)

  const EMPTY := Db(map[], map[], map[], map[], map[])

  /**
   The lock-atomic calls; `id` and `nonce` are fresh random draws. Replies and clicks carry the
   tokens that an earlier look-up found for the actor.
   */
  datatype Call =
    | ReserveMessage(owner: Owner, hash: string, window: Option<int>, kind: string, id: string)
    | FinishMessage(id: string, messageId: string)
    | ReserveCard(owner: Owner, hash: string, actions: seq<string>, expiresAt: int, id: string, nonce: string)
    | RegisterCardMessage(owner: Owner, messageId: string, expiresAt: int, id: string)
    | FinishCard(id: string, messageId: string)
    | FailCard(id: string)
    | LookAtCard(token: string, id: string, now: int)
    | ActionCard(tokens: set<string>, id: string, nonce: string, messageId: string, action: string, now: int)
    | CloseCard(token: string, id: string, reason: string, now: int)
    | CloseReplyWindow(token: string, messageId: string, now: int)
    | AssignReply(event: string, tokens: set<string>, text: string, parent: Option<string>, now: int)
    | Prune(now: int)
    | IssueToken(token: string, actor: string)
    | RevokeToken(token: string)

  /** `Refused` is the error of an insert under a taken key. */
  datatype Answer =
    | Nothing
    | Ok(yes: bool)
    | Matched(yes: bool, ambiguous: bool)
    | Refused
    | Conflict
    | Resource(id: string, created: bool)

  /** Random draws are new; `create_card` registers a text fallback only for its own card, until it expires. */
  predicate Enabled(db: Db, c: Call) {
    match c
    case ReserveMessage(_, _, _, _, id) => id !in db.messages
    case ReserveCard(_, _, _, _, id, _) => id !in db.cards
    case RegisterCardMessage(owner, _, expiresAt, id) =>
      && id !in db.messages && owner in db.idem && db.idem[owner].kind == CardNamed
      && db.idem[owner].resource in db.cards && expiresAt == db.cards[db.idem[owner].resource].expiresAt
    case IssueToken(token, _) => token !in db.tokens
    case _ => true
  }

  predicate IsActor(actor: string) {
    |actor| >= 3 && actor[..3] == "ou_"
  }

  /** `_token_ids_for_actor` */
  function ActiveTokens(tokens: map<string, Token>, actor: string): set<string> {
    if !IsActor(actor) then {} else set t | t in tokens && tokens[t] == Token(actor, true)
  }

  predicate OwnerTaken(messages: map<string, Message>, owner: Owner) {
    exists id :: id in messages && messages[id].owner == owner
  }

  /** `INSERT OR IGNORE` under the primary key and the unique (token, key) pair. */
  function InsertMessage(messages: map<string, Message>, id: string, m: Message): map<string, Message> {
    if id in messages || OwnerTaken(messages, m.owner) then messages else messages[id := m]
  }

  predicate OpenFor(m: Message, tokens: set<string>, parent: Option<string>, now: int) {
    && m.owner.token in tokens && m.status == Sent && m.messageId.Some?
    && (parent.Some? ==> m.messageId == parent)
    && m.window.Some? && m.window.value > now
  }

  function OpenMessages(db: Db, tokens: set<string>, parent: Option<string>, now: int): set<string> {
    set id | id in db.messages && OpenFor(db.messages[id], tokens, parent, now)
  }

  predicate WindowOver(db: Db, r: Reply, now: int) {
    exists id :: id in db.messages && db.messages[id].owner.token == r.token
      && db.messages[id].messageId == Some(r.messageId)
      && db.messages[id].window.Some? && db.messages[id].window.value + REPLY_RETENTION_MS <= now
  }

  predicate Clickable(c: Card, tokens: set<string>, nonce: string, messageId: string, action: string, now: int) {
    && c.owner.token in tokens && c.status == CardPending && c.expiresAt > now && c.nonce == nonce
    && c.messageId == Some(messageId) && action in c.actions
  }

  predicate Shuts(m: Message, token: string, messageId: string, now: int) {
    && m.owner.token == token && m.messageId == Some(messageId) && m.status == Sent
    && m.window.Some? && m.window.value > now
  }

  function Reserve(db: Db, owner: Owner, hash: string, kind: Named): Answer
    requires owner in db.idem
  {
    var i := db.idem[owner];
    if i.hash != hash || i.kind != kind then Conflict else Resource(i.resource, false)
  }

  /** A card row in a given status, replaced; any other row is left alone. */
  function SetCard(db: Db, id: string, c: Card): Db {
    db.(cards := db.cards[id := c])
  }

  predicate CardIs(db: Db, id: string, s: CardStatus) {
    id in db.cards && db.cards[id].status == s
  }

  lemma OneElement(ids: set<string>)
    requires |ids| == 1
    ensures ids != {} && forall x, y :: x in ids && y in ids ==> x == y
  {
    var x :| x in ids;
    assert |ids - {x}| == 0;
    assert forall y :: y in ids && y != x ==> y in ids - {x};
  }

  function Only(ids: set<string>): (id: string)
    requires |ids| == 1
    ensures id in ids
  {
    OneElement(ids);
    var id :| id in ids;
    id
  }

  /** A reply goes to the one open message it can mean; a known event is not stored again. */
  function Assign(db: Db, event: string, ids: set<string>, text: string, parent: Option<string>, now: int): (Db, Answer)
    requires forall id :: id in ids ==> id in db.messages && db.messages[id].messageId.Some?
  {
    if |ids| != 1 then (db, Matched(false, parent.None? && |ids| > 1))
    else if event in db.replies then (db, Matched(true, false))
    else
      var m := db.messages[Only(ids)];
      (db.(replies := db.replies[event := Reply(m.owner.token, m.messageId.value, text, now, false)]),
       Matched(true, false))
  }

  function PruneCards(cards: map<string, Card>, now: int): map<string, Card> {
    map id | id in cards :: if cards[id].status == CardPending && cards[id].expiresAt <= now
                            then cards[id].(status := CardExpired) else cards[id]
  }

  function PruneReplies(db: Db, now: int): map<string, Reply> {
    map e | e in db.replies :: if !db.replies[e].purged && WindowOver(db, db.replies[e], now)
                               then db.replies[e].(text := "", purged := true) else db.replies[e]
  }

  function ShutWindows(messages: map<string, Message>, token: string, messageId: string, now: int): map<string, Message> {
    map id | id in messages :: if Shuts(messages[id], token, messageId, now)
                               then messages[id].(window := Some(now)) else messages[id]
  }

  /** One lock-atomic call. */
  function Step(db: Db, c: Call): (Db, Answer) {
    match c
    case ReserveMessage(owner, hash, window, kind, id) =>
      if owner in db.idem then (db, Reserve(db, owner, hash, MessageNamed))
      else
        (db.(idem := db.idem[owner := Idem(hash, MessageNamed, id)],
             messages := InsertMessage(db.messages, id, Message(owner, hash, kind, Sending, None, window))),
         Resource(id, true))
    case FinishMessage(id, messageId) =>
      if id in db.messages && db.messages[id].status == Sending
      then (db.(messages := db.messages[id := db.messages[id].(status := Sent, messageId := Some(messageId))]), Nothing)
      else (db, Nothing)
    case ReserveCard(owner, hash, actions, expiresAt, id, nonce) =>
      if owner in db.idem then (db, Reserve(db, owner, hash, CardNamed))
      else
        (db.(idem := db.idem[owner := Idem(hash, CardNamed, id)],
             cards := db.cards[id := Card(owner, nonce, actions, CardSending, None, None, None, expiresAt)]),
         Resource(id, true))
    case RegisterCardMessage(owner, messageId, expiresAt, id) =>
      (db.(messages := InsertMessage(db.messages, id,
             Message(owner, "", "card", Sent, Some(messageId), Some(expiresAt)))),
       if id in db.messages || OwnerTaken(db.messages, owner) then Refused else Nothing)
    case FinishCard(id, messageId) =>
      if !CardIs(db, id, CardSending) then (db, Nothing)
      else (SetCard(db, id, db.cards[id].(status := CardPending, messageId := Some(messageId))), Nothing)
    case FailCard(id) =>
      if !CardIs(db, id, CardSending) then (db, Nothing)
      else (SetCard(db, id, db.cards[id].(status := CardFailed)), Nothing)
    case LookAtCard(token, id, now) =>
      if !CardIs(db, id, CardPending) || db.cards[id].owner.token != token || db.cards[id].expiresAt > now
      then (db, Nothing)
      else (SetCard(db, id, db.cards[id].(status := CardExpired)), Nothing)
    case ActionCard(tokens, id, nonce, messageId, action, now) =>
      if id !in db.cards || !Clickable(db.cards[id], tokens, nonce, messageId, action, now) then (db, Ok(false))
      else (SetCard(db, id, db.cards[id].(status := Actioned, actionId := Some(action))), Ok(true))
    case CloseCard(token, id, reason, now) =>
      if !CardIs(db, id, CardPending) || db.cards[id].owner.token != token || db.cards[id].expiresAt <= now
      then (db, Ok(false))
      else (SetCard(db, id, db.cards[id].(status := Closed, closeReason := Some(reason))), Ok(true))
    case CloseReplyWindow(token, messageId, now) =>
      (db.(messages := ShutWindows(db.messages, token, messageId, now)),
       Ok(|set id | id in db.messages && Shuts(db.messages[id], token, messageId, now)| == 1))
    case AssignReply(event, tokens, text, parent, now) =>
      Assign(db, event, OpenMessages(db, tokens, parent, now), text, parent, now)
    case Prune(now) =>
      (db.(cards := PruneCards(db.cards, now), replies := PruneReplies(db, now)), Nothing)
    case IssueToken(token, actor) => (db.(tokens := db.tokens[token := Token(actor, true)]), Nothing)
    case RevokeToken(token) =>
      if token in db.tokens && db.tokens[token].active
      then (db.(tokens := db.tokens[token := db.tokens[token].(active := false)]), Ok(true))
      else (db, Ok(false))
  }

  // ----- what every call keeps -----

  type Idems = map<Owner, Idem>
  type Messages = map<string, Message>
  type Cards = map<string, Card>
  type Replies = map<string, Reply>

  predicate MessageOk(idem: Idems, cards: Cards, id: string, m: Message) {
    && m.owner in idem && (m.status == Sent <==> m.messageId.Some?)
    && match idem[m.owner].kind
       case MessageNamed => idem[m.owner].resource == id
       case CardNamed =>
         && idem[m.owner].resource in cards && m.status == Sent
         && m.window.Some? && m.window.value <= cards[idem[m.owner].resource].expiresAt
  }

  predicate CardOk(idem: Idems, id: string, c: Card) {
    && c.owner in idem && idem[c.owner].kind == CardNamed && idem[c.owner].resource == id
    && (c.actionId.Some? <==> c.status == Actioned)
    && (c.closeReason.Some? <==> c.status == Closed)
  }

  predicate IdemOk(messages: Messages, cards: Cards, owner: Owner, i: Idem) {
    match i.kind
    case MessageNamed => i.resource in messages && messages[i.resource].owner == owner
    case CardNamed => i.resource in cards && cards[i.resource].owner == owner
  }

  /** The message a reply was stored against. */
  predicate AnsweredBy(m: Message, r: Reply) {
    m.owner.token == r.token && m.messageId == Some(r.messageId) && m.status == Sent && m.window.Some?
  }

  ghost predicate MessagesOk(idem: Idems, cards: Cards, messages: Messages) {
    forall id :: id in messages ==> MessageOk(idem, cards, id, messages[id])
  }

  ghost predicate OneMessageEach(messages: Messages) {
    forall id, id' :: id in messages && id' in messages && messages[id].owner == messages[id'].owner ==> id == id'
  }

  ghost predicate CardsOk(idem: Idems, cards: Cards) {
    forall id :: id in cards ==> CardOk(idem, id, cards[id])
  }

  ghost predicate IdemsOk(idem: Idems, messages: Messages, cards: Cards) {
    forall o :: o in idem ==> IdemOk(messages, cards, o, idem[o])
  }

  ghost predicate Answered(messages: Messages, r: Reply) {
    exists id :: id in messages && AnsweredBy(messages[id], r)
  }

  ghost predicate RepliesOk(messages: Messages, replies: Replies) {
    forall e :: e in replies ==> Answered(messages, replies[e])
  }

  ghost predicate Inv(db: Db) {
    && MessagesOk(db.idem, db.cards, db.messages) && OneMessageEach(db.messages)
    && CardsOk(db.idem, db.cards) && IdemsOk(db.idem, db.messages, db.cards)
    && RepliesOk(db.messages, db.replies)
  }

  // ----- how rows may change -----

  /** Owner and content are fixed; once sent, so is the message id; a window only shrinks. */
  predicate MessageMoves(a: Message, b: Message) {
    && b.owner == a.owner && b.hash == a.hash && b.kind == a.kind
    && (a.status == Sent ==> b.status == Sent && b.messageId == a.messageId)
    && (a.window.Some? <==> b.window.Some?)
    && (a.window.Some? ==> b.window.value <= a.window.value)
  }

  predicate Terminal(s: CardStatus) {
    s in {CardFailed, Actioned, Closed, CardExpired}
  }

  predicate CardMoves(a: Card, b: Card) {
    && b.owner == a.owner && b.nonce == a.nonce && b.actions == a.actions && b.expiresAt == a.expiresAt
    && (Terminal(a.status) ==> b == a)
    && (a.status == CardPending ==> b.status != CardSending && b.status != CardFailed && b.messageId == a.messageId)
  }

  predicate ReplyMoves(a: Reply, b: Reply) {
    && b.token == a.token && b.messageId == a.messageId && b.createdAt == a.createdAt
    && (b == a || (b.purged && b.text == ""))
    && (a.purged ==> b.purged)
  }

  ghost predicate IdemsKept(a: Idems, b: Idems) {
    forall o :: o in a ==> o in b && b[o] == a[o]
  }

  ghost predicate MessagesKept(a: Messages, b: Messages) {
    forall id :: id in a ==> id in b && MessageMoves(a[id], b[id])
  }

  ghost predicate CardsKept(a: Cards, b: Cards) {
    forall id :: id in a ==> id in b && CardMoves(a[id], b[id])
  }

  ghost predicate RepliesKept(a: Replies, b: Replies) {
    forall e :: e in a ==> e in b && ReplyMoves(a[e], b[e])
  }

  /** A token stays its actor's, and once revoked it stays so. */
  ghost predicate TokensKept(a: map<string, Token>, b: map<string, Token>) {
    forall t :: t in a ==> t in b && b[t].actor == a[t].actor && (b[t].active ==> a[t].active)
  }

  /** Rows are never removed, and change only as they may. */
  ghost predicate Evolves(a: Db, b: Db) {
    && IdemsKept(a.idem, b.idem) && MessagesKept(a.messages, b.messages)
    && CardsKept(a.cards, b.cards) && RepliesKept(a.replies, b.replies) && TokensKept(a.tokens, b.tokens)
  }

  lemma EvolvesTransitive(a: Db, b: Db, c: Db)
    requires Evolves(a, b) && Evolves(b, c)
    ensures Evolves(a, c)
  {
  }

  // ----- the calls, by the table they change -----

  lemma CardsChange(db: Db, cards: Cards)
    requires Inv(db) && cards.Keys == db.cards.Keys
    requires CardsKept(db.cards, cards) && CardsOk(db.idem, cards)
    ensures Inv(db.(cards := cards)) && Evolves(db, db.(cards := cards))
  {
    hide RepliesOk;
    hide OneMessageEach;
    assert MessagesOk(db.idem, cards, db.messages);
    assert IdemsOk(db.idem, db.messages, cards);
  }

  lemma RepliesFollow(a: Messages, b: Messages, replies: Replies)
    requires RepliesOk(a, replies) && MessagesKept(a, b)
    ensures RepliesOk(b, replies)
  {
    forall e | e in replies ensures Answered(b, replies[e]) {
      var id :| id in a && AnsweredBy(a[id], replies[e]);
      assert AnsweredBy(b[id], replies[e]);
    }
  }

  lemma IdemsFollow(idem: Idems, a: Messages, b: Messages, cards: Cards)
    requires IdemsOk(idem, a, cards) && MessagesKept(a, b)
    ensures IdemsOk(idem, b, cards)
  {
  }

  lemma MessagesChange(db: Db, messages: Messages)
    requires Inv(db) && messages.Keys == db.messages.Keys
    requires MessagesKept(db.messages, messages)
    requires forall id :: id in messages ==> (messages[id].status == Sent <==> messages[id].messageId.Some?)
    ensures Inv(db.(messages := messages)) && Evolves(db, db.(messages := messages))
  {
    hide RepliesOk;
    hide IdemsOk;
    hide CardsOk;
    RepliesFollow(db.messages, messages, db.replies);
    IdemsFollow(db.idem, db.messages, messages, db.cards);
    forall id | id in messages ensures MessageOk(db.idem, db.cards, id, messages[id]) {
      assert MessageOk(db.idem, db.cards, id, db.messages[id]);
    }
    forall id, id' | id in messages && id' in messages && messages[id].owner == messages[id'].owner
      ensures id == id'
    {
      assert db.messages[id].owner == db.messages[id'].owner;
    }
  }

  lemma RepliesChange(db: Db, replies: Replies)
    requires Inv(db) && RepliesKept(db.replies, replies)
    requires forall e :: e in replies && e !in db.replies ==> Answered(db.messages, replies[e])
    ensures Inv(db.(replies := replies)) && Evolves(db, db.(replies := replies))
  {
    hide MessagesOk;
    hide OneMessageEach;
    hide CardsOk;
    hide IdemsOk;
    forall e | e in replies ensures Answered(db.messages, replies[e]) {
      if e in db.replies {
        assert Answered(db.messages, db.replies[e]);
        var id :| id in db.messages && AnsweredBy(db.messages[id], db.replies[e]);
        assert AnsweredBy(db.messages[id], replies[e]);
      }
    }
  }

  lemma IdemGrows(a: Idems, b: Idems, cards: Cards, messages: Messages)
    requires IdemsKept(a, b) && CardsOk(a, cards) && MessagesOk(a, cards, messages)
    ensures CardsOk(b, cards) && MessagesOk(b, cards, messages)
  {
    forall i | i in cards ensures CardOk(b, i, cards[i]) {
      assert CardOk(a, i, cards[i]);
    }
    forall i | i in messages ensures MessageOk(b, cards, i, messages[i]) {
      assert MessageOk(a, cards, i, messages[i]);
    }
  }

  lemma IdemsFollowNew(old': Idems, idem: Idems, messages: Messages, cards: Cards)
    requires IdemsKept(old', idem) && IdemsOk(old', messages, cards)
    requires forall o :: o in idem && o !in old' ==> IdemOk(messages, cards, o, idem[o])
    ensures IdemsOk(idem, messages, cards)
  {
    forall o | o in idem ensures IdemOk(messages, cards, o, idem[o]) {
      if o in old' {
        assert IdemOk(messages, cards, o, old'[o]);
      }
    }
  }

  lemma OneMore(messages: Messages, id: string, m: Message)
    requires OneMessageEach(messages) && id !in messages && !OwnerTaken(messages, m.owner)
    ensures OneMessageEach(messages[id := m]) && MessagesKept(messages, messages[id := m])
  {
  }

  /** A new message row for an owner that has none. */
  lemma MessageAdded(db: Db, idem: Idems, id: string, m: Message)
    requires Inv(db) && id !in db.messages && !OwnerTaken(db.messages, m.owner)
    requires IdemsKept(db.idem, idem) && MessageOk(idem, db.cards, id, m)
    requires forall o :: o in idem && o !in db.idem ==> IdemOk(db.messages[id := m], db.cards, o, idem[o])
    ensures var b := db.(idem := idem, messages := db.messages[id := m]); Inv(b) && Evolves(db, b)
  {
    hide RepliesOk;
    hide IdemsOk;
    hide CardsOk;
    hide OneMessageEach;
    hide IdemsKept;
    hide MessagesKept;
    var messages := db.messages[id := m];
    OneMore(db.messages, id, m);
    RepliesFollow(db.messages, messages, db.replies);
    IdemsFollow(db.idem, db.messages, messages, db.cards);
    IdemsFollowNew(db.idem, idem, messages, db.cards);
    IdemGrows(db.idem, idem, db.cards, db.messages);
  }

  lemma CardsFollow(idem: Idems, a: Cards, b: Cards, messages: Messages)
    requires MessagesOk(idem, a, messages) && IdemsOk(idem, messages, a) && CardsKept(a, b)
    ensures MessagesOk(idem, b, messages) && IdemsOk(idem, messages, b)
  {
    forall i | i in messages ensures MessageOk(idem, b, i, messages[i]) {
      assert MessageOk(idem, a, i, messages[i]);
    }
    forall o | o in idem ensures IdemOk(messages, b, o, idem[o]) {
      assert IdemOk(messages, a, o, idem[o]);
    }
  }

  /** A new card row under a new idempotency row. */
  lemma CardAdded(db: Db, owner: Owner, hash: string, id: string, c: Card)
    requires Inv(db) && owner !in db.idem && id !in db.cards && c.owner == owner
    requires c.actionId.None? && c.closeReason.None? && c.status == CardSending
    ensures var b := db.(idem := db.idem[owner := Idem(hash, CardNamed, id)], cards := db.cards[id := c]);
      Inv(b) && Evolves(db, b)
  {
    hide RepliesOk;
    hide IdemsOk;
    hide OneMessageEach;
    hide MessagesOk;
    var idem, cards := db.idem[owner := Idem(hash, CardNamed, id)], db.cards[id := c];
    CardsFollow(db.idem, db.cards, cards, db.messages);
    IdemsFollowNew(db.idem, idem, db.messages, cards);
    IdemGrows(db.idem, idem, db.cards, db.messages);
    assert CardsOk(idem, cards);
    MessagesFollowCards(idem, db.cards, cards, db.messages);
  }

  lemma MessagesFollowCards(idem: Idems, a: Cards, b: Cards, messages: Messages)
    requires MessagesOk(idem, a, messages) && CardsKept(a, b)
    ensures MessagesOk(idem, b, messages)
  {
    forall i | i in messages ensures MessageOk(idem, b, i, messages[i]) {
      assert MessageOk(idem, a, i, messages[i]);
    }
  }

  /** No idempotency row means no message row, so the insert below is never ignored. */
  lemma UnnamedOwnerIsFree(db: Db, owner: Owner)
    requires Inv(db) && owner !in db.idem
    ensures !OwnerTaken(db.messages, owner)
  {
    forall id | id in db.messages ensures db.messages[id].owner != owner {
      assert MessageOk(db.idem, db.cards, id, db.messages[id]);
    }
  }

  lemma ReserveMessageKeeps(db: Db, c: Call)
    requires Inv(db) && c.ReserveMessage? && Enabled(db, c) && c.owner !in db.idem
    ensures Inv(Step(db, c).0) && Evolves(db, Step(db, c).0)
  {
    hide Inv;
    hide Evolves;
    UnnamedOwnerIsFree(db, c.owner);
    var idem := db.idem[c.owner := Idem(c.hash, MessageNamed, c.id)];
    var m := Message(c.owner, c.hash, c.kind, Sending, None, c.window);
    MessageAdded(db, idem, c.id, m);
  }

  lemma RegisterKeeps(db: Db, c: Call)
    requires Inv(db) && c.RegisterCardMessage? && Enabled(db, c)
    ensures Inv(Step(db, c).0) && Evolves(db, Step(db, c).0)
  {
    hide Inv;
    hide Evolves;
    if OwnerTaken(db.messages, c.owner) {
      Unchanged(db);
    } else {
      var m := Message(c.owner, "", "card", Sent, Some(c.messageId), Some(c.expiresAt));
      MessageAdded(db, db.idem, c.id, m);
    }
  }

  lemma Unchanged(db: Db)
    ensures Evolves(db, db)
  {
  }

  lemma FinishMessageKeeps(db: Db, c: Call)
    requires Inv(db) && c.FinishMessage? && c.id in db.messages && db.messages[c.id].status == Sending
    ensures Inv(Step(db, c).0) && Evolves(db, Step(db, c).0)
  {
    hide CardsOk;
    hide IdemsOk;
    hide RepliesOk;
    hide OneMessageEach;
    var messages := db.messages[c.id := db.messages[c.id].(status := Sent, messageId := Some(c.messageId))];
    forall id | id in messages ensures messages[id].status == Sent <==> messages[id].messageId.Some? {
      assert MessageOk(db.idem, db.cards, id, db.messages[id]);
    }
    MessagesChange(db, messages);
  }

  lemma CloseWindowKeeps(db: Db, c: Call)
    requires Inv(db) && c.CloseReplyWindow?
    ensures Inv(Step(db, c).0) && Evolves(db, Step(db, c).0)
  {
    hide CardsOk;
    hide IdemsOk;
    hide RepliesOk;
    hide OneMessageEach;
    var messages := ShutWindows(db.messages, c.token, c.messageId, c.now);
    forall id | id in messages ensures messages[id].status == Sent <==> messages[id].messageId.Some? {
      assert MessageOk(db.idem, db.cards, id, db.messages[id]);
    }
    MessagesChange(db, messages);
  }

  lemma OneCardKeeps(db: Db, id: string, c: Card)
    requires Inv(db) && id in db.cards && CardMoves(db.cards[id], c) && CardOk(db.idem, id, c)
    ensures Inv(SetCard(db, id, c)) && Evolves(db, SetCard(db, id, c))
  {
    hide MessagesOk;
    hide IdemsOk;
    hide RepliesOk;
    hide OneMessageEach;
    CardsChange(db, db.cards[id := c]);
  }

  predicate IsCardCall(c: Call) {
    c.FinishCard? || c.FailCard? || c.LookAtCard? || c.ActionCard? || c.CloseCard?
  }

  /** A card call leaves everything alone, or moves one card on. */
  lemma CardStep(db: Db, c: Call)
    requires IsCardCall(c) && (c.id in db.cards ==> CardOk(db.idem, c.id, db.cards[c.id]))
    ensures Step(db, c).0 == db ||
      (c.id in db.cards && c.id in Step(db, c).0.cards
       && var k := Step(db, c).0.cards[c.id];
          && CardMoves(db.cards[c.id], k) && CardOk(db.idem, c.id, k)
          && Step(db, c).0 == SetCard(db, c.id, k))
  {
  }

  lemma CardCallKeeps(db: Db, c: Call)
    requires Inv(db) && IsCardCall(c)
    ensures Inv(Step(db, c).0) && Evolves(db, Step(db, c).0)
  {
    hide MessagesOk;
    hide IdemsOk;
    hide RepliesOk;
    hide OneMessageEach;
    hide Evolves;
    hide Step;
    hide SetCard;
    Unchanged(db);
    CardStep(db, c);
    if Step(db, c).0 != db {
      OneCardKeeps(db, c.id, Step(db, c).0.cards[c.id]);
    }
  }

  lemma AssignKeeps(db: Db, c: Call)
    requires Inv(db) && c.AssignReply?
    ensures Inv(Step(db, c).0) && Evolves(db, Step(db, c).0)
  {
    hide MessagesOk;
    hide IdemsOk;
    hide RepliesOk;
    hide CardsOk;
    hide OneMessageEach;
    var ids := OpenMessages(db, c.tokens, c.parent, c.now);
    if |ids| == 1 && c.event !in db.replies {
      var id := Only(ids);
      var r := Step(db, c).0.replies[c.event];
      assert AnsweredBy(db.messages[id], r);
    }
    RepliesChange(db, Step(db, c).0.replies);
  }

  lemma PruneKeeps(db: Db, now: int)
    requires Inv(db)
    ensures Inv(Step(db, Prune(now)).0) && Evolves(db, Step(db, Prune(now)).0)
  {
    hide MessagesOk;
    hide IdemsOk;
    hide RepliesOk;
    hide OneMessageEach;
    var cards := PruneCards(db.cards, now);
    forall id | id in cards ensures CardOk(db.idem, id, cards[id]) && CardMoves(db.cards[id], cards[id]) {
      assert CardOk(db.idem, id, db.cards[id]);
    }
    CardsChange(db, cards);
    var a, replies := db.(cards := cards), PruneReplies(db, now);
    RepliesChange(a, replies);
    EvolvesTransitive(db, a, a.(replies := replies));
  }

  lemma TokensChange(db: Db, tokens: map<string, Token>)
    requires Inv(db) && TokensKept(db.tokens, tokens)
    ensures Inv(db.(tokens := tokens)) && Evolves(db, db.(tokens := tokens))
  {
  }

  /** A reply is ambiguous exactly if it names no message and more than one open message could be meant. */
  lemma AmbiguousIff(db: Db, c: Call)
    requires c.AssignReply?
    ensures Step(db, c).1.Matched?
    ensures Step(db, c).1.ambiguous <==>
      c.parent.None? && exists a, b :: a in OpenMessages(db, c.tokens, c.parent, c.now)
                                     && b in OpenMessages(db, c.tokens, c.parent, c.now) && a != b
    ensures Step(db, c).1.ambiguous ==> !Step(db, c).1.yes && Step(db, c).0 == db
  {
    var ids := OpenMessages(db, c.tokens, c.parent, c.now);
    if |ids| > 1 {
      var a :| a in ids;
      assert |ids - {a}| >= 1;
      assert ids - {a} != {};
      var b :| b in ids - {a};
      assert a in ids && b in ids && a != b;
    } else if |ids| == 1 {
      OneElement(ids);
    }
  }

  lemma StepKeeps(db: Db, c: Call)
    requires Inv(db) && Enabled(db, c)
    ensures Inv(Step(db, c).0) && Evolves(db, Step(db, c).0)
  {
    hide Inv;
    hide Evolves;
    Unchanged(db);
    match c {
      case ReserveMessage(owner, _, _, _, _) =>
        if owner !in db.idem { ReserveMessageKeeps(db, c); }
      case FinishMessage(id, _) =>
        if id in db.messages && db.messages[id].status == Sending { FinishMessageKeeps(db, c); }
      case ReserveCard(owner, hash, actions, expiresAt, id, nonce) =>
        if owner !in db.idem {
          CardAdded(db, owner, hash, id, Card(owner, nonce, actions, CardSending, None, None, None, expiresAt));
        }
      case RegisterCardMessage(_, _, _, _) => RegisterKeeps(db, c);
      case CloseReplyWindow(_, _, _) => CloseWindowKeeps(db, c);
      case AssignReply(_, _, _, _, _) => AssignKeeps(db, c);
      case Prune(now) => PruneKeeps(db, now);
      case FinishCard(_, _) => CardCallKeeps(db, c);
      case FailCard(_) => CardCallKeeps(db, c);
      case LookAtCard(_, _, _) => CardCallKeeps(db, c);
      case ActionCard(_, _, _, _, _, _) => CardCallKeeps(db, c);
      case CloseCard(_, _, _, _) => CardCallKeeps(db, c);
      case IssueToken(_, _) => TokensChange(db, Step(db, c).0.tokens);
      case RevokeToken(_) => TokensChange(db, Step(db, c).0.tokens);
    }
  }

  // ----- whole runs -----

  function Exec(db: Db, calls: seq<Call>): Db
    decreases |calls|
  {
    if calls == [] then db else Exec(Step(db, calls[0]).0, calls[1..])
  }

  ghost predicate AllEnabled(db: Db, calls: seq<Call>)
    decreases |calls|
  {
    calls != [] ==> Enabled(db, calls[0]) && AllEnabled(Step(db, calls[0]).0, calls[1..])
  }

  /**
   In every reachable state every message row is backed by an idempotency row, every card's
   action id and close reason match its status and a card's text window ends with the card; and
   rows only changed as they may.
   */
  lemma {:induction false} RunKeeps(db: Db, calls: seq<Call>)
    requires Inv(db) && AllEnabled(db, calls)
    ensures Inv(Exec(db, calls)) && Evolves(db, Exec(db, calls))
    decreases |calls|
  {
    hide Inv;
    hide Evolves;
    hide Step;
    hide Enabled;
    if calls == [] {
      Unchanged(db);
    } else {
      var b := Step(db, calls[0]).0;
      StepKeeps(db, calls[0]);
      RunKeeps(b, calls[1..]);
      EvolvesTransitive(db, b, Exec(db, calls));
    }
  }

  /** A reservation never loses its row: the row read back is there, named by the idempotency row. */
  lemma ReservedRowExists(db: Db, c: Call)
    requires Inv(db) && Enabled(db, c) && c.ReserveMessage?
    ensures var (b, answer) := Step(db, c);
      answer.Resource? ==>
        && answer.id in b.messages && b.messages[answer.id].owner == c.owner
        && b.idem[c.owner] == Idem(c.hash, MessageNamed, answer.id)
        && (answer.created ==>
              b.messages[answer.id] == Message(c.owner, c.hash, c.kind, Sending, None, c.window))
  {
    if c.owner in db.idem {
      assert IdemOk(db.messages, db.cards, c.owner, db.idem[c.owner]);
    } else {
      UnnamedOwnerIsFree(db, c.owner);
    }
  }

  predicate Reserves(c: Call, owner: Owner) {
    (c.ReserveMessage? || c.ReserveCard?) && c.owner == owner
  }

  /** A (token, key) pair names one resource forever: any later replay returns it or a conflict. */
  lemma KeyNamesOneResource(db: Db, calls: seq<Call>, owner: Owner, c: Call)
    requires Inv(db) && AllEnabled(db, calls) && owner in db.idem && Reserves(c, owner)
    ensures var later := Exec(db, calls);
      && owner in later.idem && later.idem[owner] == db.idem[owner]
      && Step(later, c).0 == later
      && Step(later, c).1 in {Conflict, Resource(db.idem[owner].resource, false)}
  {
    hide Inv;
    hide Enabled;
    RunKeeps(db, calls);
  }

  /** A finished card never changes again. */
  lemma TerminalForever(db: Db, calls: seq<Call>, id: string)
    requires Inv(db) && AllEnabled(db, calls) && id in db.cards && Terminal(db.cards[id].status)
    ensures var later := Exec(db, calls); id in later.cards && later.cards[id] == db.cards[id]
  {
    hide Inv;
    hide Enabled;
    RunKeeps(db, calls);
  }

  predicate Clicks(db: Db, c: Call, id: string) {
    c.ActionCard? && c.id == id && Step(db, c).1 == Ok(true)
  }

  function ClickCount(db: Db, calls: seq<Call>, id: string): nat
    decreases |calls|
  {
    if calls == [] then 0
    else (if Clicks(db, calls[0], id) then 1 else 0) + ClickCount(Step(db, calls[0]).0, calls[1..], id)
  }

  predicate Over(db: Db, id: string) {
    id in db.cards && Terminal(db.cards[id].status)
  }

  lemma ClickEnds(db: Db, c: Call, id: string)
    requires Clicks(db, c, id)
    ensures !Over(db, id) && Over(Step(db, c).0, id) && c.now < db.cards[id].expiresAt
    ensures Step(db, c).0.cards[id].actionId == Some(c.action) && c.action in db.cards[id].actions
  {
  }

  /** At most one click on a card ever succeeds. */
  lemma {:induction false} ClicksAtMostOnce(db: Db, calls: seq<Call>, id: string)
    requires Inv(db) && AllEnabled(db, calls)
    ensures ClickCount(db, calls, id) <= if Over(db, id) then 0 else 1
    decreases |calls|
  {
    hide Inv;
    hide Enabled;
    hide Step;
    if calls != [] {
      var b := Step(db, calls[0]).0;
      StepKeeps(db, calls[0]);
      ClicksAtMostOnce(b, calls[1..], id);
      if Clicks(db, calls[0], id) {
        ClickEnds(db, calls[0], id);
      }
    }
  }

  // ----- replies -----

  /** A new reply is stored against the one open message of the looked-up tokens it can mean. */
  lemma ReplyIsAttributed(db: Db, c: Call)
    requires c.AssignReply? && c.event !in db.replies && c.event in Step(db, c).0.replies
    ensures exists id ::
      && id in db.messages && OpenFor(db.messages[id], c.tokens, c.parent, c.now)
      && (forall id' :: id' in db.messages && OpenFor(db.messages[id'], c.tokens, c.parent, c.now) ==> id' == id)
      && Step(db, c).0.replies[c.event]
         == Reply(db.messages[id].owner.token, db.messages[id].messageId.value, c.text, c.now, false)
  {
    var ids := OpenMessages(db, c.tokens, c.parent, c.now);
    OneElement(ids);
    var id := Only(ids);
    assert forall id' :: id' in db.messages && OpenFor(db.messages[id'], c.tokens, c.parent, c.now) ==> id' in ids;
  }

  /**
   Retention: a reply stored while its message's window ended at `w` is emptied by any later
   prune at or after `w` plus 24 hours, however the window was shortened in between.
   */
  lemma PruneEmptiesOldReplies(db: Db, calls: seq<Call>, e: string, id: string, now: int)
    requires Inv(db) && AllEnabled(db, calls) && e in db.replies && id in db.messages
    requires AnsweredBy(db.messages[id], db.replies[e])
    requires now >= db.messages[id].window.value + REPLY_RETENTION_MS
    ensures var later := Step(Exec(db, calls), Prune(now)).0;
      e in later.replies && later.replies[e].purged && (!db.replies[e].purged ==> later.replies[e].text == "")
  {
    hide Inv;
    hide Enabled;
    RunKeeps(db, calls);
    var later := Exec(db, calls);
    assert MessageMoves(db.messages[id], later.messages[id]);
    assert ReplyMoves(db.replies[e], later.replies[e]);
    assert WindowOver(later, later.replies[e], now);
  }

  /** The tables, changed in place by lock-atomic methods. */
  class MessageStore {
    var idem: Idems
    var messages: Messages
    var cards: Cards
    var replies: Replies
    var tokens: map<string, Token>

    ghost function View(): Db
      reads this
    {
      Db(idem, messages, cards, replies, tokens)
    }

    constructor ()
      ensures View() == EMPTY && Inv(View())
    {
      idem, messages, cards, replies, tokens := map[], map[], map[], map[], map[];
    }

    method ReserveMessage(owner: Owner, hash: string, window: Option<int>, kind: string, id: string)
      returns (answer: Answer)
      modifies this
      ensures (View(), answer) == Step(old(View()), Call.ReserveMessage(owner, hash, window, kind, id))
    {
      if owner in idem {
        if idem[owner].hash != hash || idem[owner].kind != MessageNamed {
          return Conflict;
        }
        return Resource(idem[owner].resource, false);
      }
      idem := idem[owner := Idem(hash, MessageNamed, id)];
      if id !in messages && !OwnerTaken(messages, owner) {
        messages := messages[id := Message(owner, hash, kind, Sending, None, window)];
      }
      answer := Resource(id, true);
    }

    method FinishMessage(id: string, messageId: string)
      modifies this
      ensures View() == Step(old(View()), Call.FinishMessage(id, messageId)).0
    {
      if id in messages && messages[id].status == Sending {
        messages := messages[id := messages[id].(status := Sent, messageId := Some(messageId))];
      }
    }

    method ReserveCard(owner: Owner, hash: string, actions: seq<string>, expiresAt: int, id: string, nonce: string)
      returns (answer: Answer)
      modifies this
      ensures (View(), answer) == Step(old(View()), Call.ReserveCard(owner, hash, actions, expiresAt, id, nonce))
    {
      if owner in idem {
        if idem[owner].hash != hash || idem[owner].kind != CardNamed {
          return Conflict;
        }
        return Resource(idem[owner].resource, false);
      }
      idem := idem[owner := Idem(hash, CardNamed, id)];
      cards := cards[id := Card(owner, nonce, actions, CardSending, None, None, None, expiresAt)];
      answer := Resource(id, true);
    }

    method RegisterCardMessage(owner: Owner, messageId: string, expiresAt: int, id: string) returns (answer: Answer)
      modifies this
      ensures (View(), answer) == Step(old(View()), Call.RegisterCardMessage(owner, messageId, expiresAt, id))
    {
      if id in messages || OwnerTaken(messages, owner) {
        return Refused;
      }
      messages := messages[id := Message(owner, "", "card", Sent, Some(messageId), Some(expiresAt))];
      answer := Nothing;
    }

    method FinishCard(id: string, messageId: string)
      modifies this
      ensures View() == Step(old(View()), Call.FinishCard(id, messageId)).0
    {
      if id in cards && cards[id].status == CardSending {
        cards := cards[id := cards[id].(status := CardPending, messageId := Some(messageId))];
      }
    }

    method FailCard(id: string)
      modifies this
      ensures View() == Step(old(View()), Call.FailCard(id)).0
    {
      if id in cards && cards[id].status == CardSending {
        cards := cards[id := cards[id].(status := CardFailed)];
      }
    }

    method CardState(token: string, id: string, now: int) returns (card: Option<Card>)
      modifies this
      ensures View() == Step(old(View()), Call.LookAtCard(token, id, now)).0
      ensures card == if id in cards && cards[id].owner.token == token then Some(cards[id]) else None
    {
      if id in cards && cards[id].owner.token == token && cards[id].status == CardPending
         && cards[id].expiresAt <= now {
        cards := cards[id := cards[id].(status := CardExpired)];
      }
      card := if id in cards && cards[id].owner.token == token then Some(cards[id]) else None;
    }

    method TokenIdsForActor(actor: string) returns (ids: set<string>)
      ensures ids == ActiveTokens(tokens, actor)
    {
      if !IsActor(actor) {
        return {};
      }
      ids := set t | t in tokens && tokens[t].active && tokens[t].actor == actor;
    }

    /** The actor's active tokens are looked up first, then the card is tried under the lock. */
    method ActionCard(actor: string, id: string, nonce: string, messageId: string, action: string, now: int)
      returns (ok: bool)
      modifies this`cards
      ensures (View(), Ok(ok))
           == Step(old(View()), Call.ActionCard(ActiveTokens(tokens, actor), id, nonce, messageId, action, now))
    {
      var ids := TokenIdsForActor(actor);
      if id !in cards || !Clickable(cards[id], ids, nonce, messageId, action, now) {
        return false;
      }
      cards := cards[id := cards[id].(status := Actioned, actionId := Some(action))];
      ok := true;
    }

    /** Closing is one locked step and showing the card, which may expire it, another. */
    method CloseCard(token: string, id: string, reason: string, now: int, later: int)
      returns (card: Option<Card>, ok: bool)
      modifies this
      ensures Ok(ok) == Step(old(View()), Call.CloseCard(token, id, reason, now)).1
      ensures View() == Step(Step(old(View()), Call.CloseCard(token, id, reason, now)).0, LookAtCard(token, id, later)).0
      ensures card == if id in cards && cards[id].owner.token == token then Some(cards[id]) else None
    {
      ok := id in cards && cards[id].owner.token == token && cards[id].status == CardPending
            && cards[id].expiresAt > now;
      if ok {
        cards := cards[id := cards[id].(status := Closed, closeReason := Some(reason))];
      }
      assert View() == Step(old(View()), Call.CloseCard(token, id, reason, now)).0;
      card := CardState(token, id, later);
    }

    method CloseReplyWindow(token: string, messageId: string, now: int) returns (ok: bool)
      modifies this
      ensures (View(), Ok(ok)) == Step(old(View()), Call.CloseReplyWindow(token, messageId, now))
    {
      var shut := set id | id in messages && Shuts(messages[id], token, messageId, now);
      ok := |shut| == 1;
      messages := map id | id in messages :: if Shuts(messages[id], token, messageId, now)
                                             then messages[id].(window := Some(now)) else messages[id];
    }

    method AssignReply(event: string, actor: string, text: string, parent: Option<string>, now: int)
      returns (ok: bool, ambiguous: bool)
      modifies this`replies
      ensures (View(), Matched(ok, ambiguous))
           == Step(old(View()), Call.AssignReply(event, ActiveTokens(tokens, actor), text, parent, now))
    {
      var mine := TokenIdsForActor(actor);
      var ids := set id | id in messages && OpenFor(messages[id], mine, parent, now);
      assert ids == OpenMessages(View(), mine, parent, now);
      ok, ambiguous := |ids| == 1, parent.None? && |ids| > 1;
      if ok && event !in replies {
        var m := messages[Only(ids)];
        replies := replies[event := Reply(m.owner.token, m.messageId.value, text, now, false)];
      }
    }

    method IssueToken(token: string, actor: string)
      modifies this`tokens
      ensures View() == Step(old(View()), Call.IssueToken(token, actor)).0
    {
      tokens := tokens[token := Token(actor, true)];
    }

    method RevokeToken(token: string) returns (ok: bool)
      modifies this`tokens
      ensures (View(), Ok(ok)) == Step(old(View()), Call.RevokeToken(token))
    {
      ok := token in tokens && tokens[token].active;
      if ok {
        tokens := tokens[token := tokens[token].(active := false)];
      }
    }

    method Prune(now: int)
      modifies this
      ensures View() == Step(old(View()), Call.Prune(now)).0
    {
      cards := PruneCards(cards, now);
      replies := PruneReplies(Db(idem, messages, cards, replies, tokens), now);
      assert replies == PruneReplies(old(View()), now);
    }
  }
}
