/**
 What each call on messages, cards and replies does, in the fields of the rows and in plain
 numbers: whom a reply is given to, when a click counts, what closing and pruning change.
 */
module RelayDuty {
  import opened Wrappers
  import opened RelayMessages

  // ----- replies -----

  /** A message the reply can mean: sent with one of these tokens, its window open, and the parent if one is named. */
  predicate Meant(m: Message, tokens: set<string>, parent: Option<string>, now: int) {
    && m.owner.token in tokens && m.status == Sent && m.messageId.Some?
    && m.window.Some? && now < m.window.value
    && (parent.Some? ==> m.messageId.value == parent.value)
  }

  /** `id` is the only message the reply can mean. */
  ghost predicate OnlyMeant(db: Db, c: Call, id: string)
    requires c.AssignReply?
  {
    && id in db.messages && Meant(db.messages[id], c.tokens, c.parent, c.now)
    && forall x :: x in db.messages && Meant(db.messages[x], c.tokens, c.parent, c.now) ==> x == id
  }

  lemma OpenIsMeant(db: Db, c: Call)
    requires c.AssignReply?
    ensures OpenMessages(db, c.tokens, c.parent, c.now)
         == set x | x in db.messages && Meant(db.messages[x], c.tokens, c.parent, c.now)
  {
  }

  lemma OnlyMeantIff(db: Db, c: Call, id: string)
    requires c.AssignReply?
    ensures OnlyMeant(db, c, id) <==> OpenMessages(db, c.tokens, c.parent, c.now) == {id}
  {
    OpenIsMeant(db, c);
    hide OpenMessages;
    var ids := OpenMessages(db, c.tokens, c.parent, c.now);
    if ids == {id} {
      assert id in ids;
      forall x | x in db.messages && Meant(db.messages[x], c.tokens, c.parent, c.now) ensures x == id {
        assert x in ids;
      }
    }
  }

  /**
   A new event is stored exactly if there is one message it can mean, against that message, and
   nothing else changes; with a named parent, only against that parent. A known event changes nothing.
   */
  lemma ReplyDoes(db: Db, c: Call)
    requires c.AssignReply?
    ensures var (b, answer) := Step(db, c);
      && (c.event !in db.replies ==> (c.event in b.replies <==> exists id :: OnlyMeant(db, c, id)))
      && (c.event in db.replies ==> b == db)
      && (answer.Matched? && (answer.yes <==> exists id :: OnlyMeant(db, c, id)))
      && (forall id :: OnlyMeant(db, c, id) && c.event !in db.replies ==>
            b == db.(replies := db.replies[c.event :=
                   Reply(db.messages[id].owner.token, db.messages[id].messageId.value, c.text, c.now, false)]))
      && (!(exists id :: OnlyMeant(db, c, id)) ==> b == db)
  {
    hide OnlyMeant;
    var ids := OpenMessages(db, c.tokens, c.parent, c.now);
    forall id ensures OnlyMeant(db, c, id) <==> ids == {id} {
      OnlyMeantIff(db, c, id);
    }
    if |ids| == 1 {
      OneElement(ids);
      var id := Only(ids);
      assert ids == {id};
    }
  }

  /** A reply that names its parent is stored with that parent's id or not at all. */
  lemma ReplyKeepsToItsParent(db: Db, c: Call)
    requires c.AssignReply? && c.parent.Some? && c.event !in db.replies && c.event in Step(db, c).0.replies
    ensures Step(db, c).0.replies[c.event].messageId == c.parent.value
  {
    hide Step;
    ReplyDoes(db, c);
    var id :| OnlyMeant(db, c, id);
    assert Meant(db.messages[id], c.tokens, c.parent, c.now);
  }

  // ----- cards -----

  /**
   A click counts if and only if the card belongs to one of the actor's tokens, is pending and
   unexpired, and nonce, message and action are the card's own; it then records the action and
   changes nothing else.
   */
  lemma ClickDoes(db: Db, c: Call)
    requires c.ActionCard?
    ensures var (b, answer) := Step(db, c);
      if c.id in db.cards && db.cards[c.id].owner.token in c.tokens && db.cards[c.id].status == CardPending
         && c.now < db.cards[c.id].expiresAt && db.cards[c.id].nonce == c.nonce
         && db.cards[c.id].messageId == Some(c.messageId) && c.action in db.cards[c.id].actions
      then answer == Ok(true) && b == db.(cards := db.cards[c.id := db.cards[c.id].(status := Actioned, actionId := Some(c.action))])
      else answer == Ok(false) && b == db
  {
  }

  /** A card is closed if and only if it is the token's, pending and unexpired; the reason is recorded. */
  lemma CloseDoes(db: Db, c: Call)
    requires c.CloseCard?
    ensures var (b, answer) := Step(db, c);
      if c.id in db.cards && db.cards[c.id].owner.token == c.token && db.cards[c.id].status == CardPending
         && c.now < db.cards[c.id].expiresAt
      then answer == Ok(true) && b == db.(cards := db.cards[c.id := db.cards[c.id].(status := Closed, closeReason := Some(c.reason))])
      else answer == Ok(false) && b == db
  {
  }

  /** Looking at one's own card expires it if it is pending and due. */
  lemma LookDoes(db: Db, c: Call)
    requires c.LookAtCard?
    ensures Step(db, c).0 ==
      if c.id in db.cards && db.cards[c.id].owner.token == c.token && db.cards[c.id].status == CardPending
         && db.cards[c.id].expiresAt <= c.now
      then db.(cards := db.cards[c.id := db.cards[c.id].(status := CardExpired)]) else db
  {
  }

  /** Only a card still being sent is finished, with its message, or failed. */
  lemma SendingEnds(db: Db, c: Call)
    requires c.FinishCard? || c.FailCard?
    ensures Step(db, c).0 ==
      if c.id in db.cards && db.cards[c.id].status == CardSending
      then db.(cards := db.cards[c.id := if c.FinishCard?
                                         then db.cards[c.id].(status := CardPending, messageId := Some(c.messageId))
                                         else db.cards[c.id].(status := CardFailed)])
      else db
  {
  }

  // ----- reservations -----

  /** A new key gets a message being sent, with the window asked for; a known key gets its own message back. */
  lemma ReserveMessageDoes(db: Db, c: Call)
    requires Inv(db) && Enabled(db, c) && c.ReserveMessage?
    ensures var (b, answer) := Step(db, c);
      if c.owner !in db.idem then
        && answer == Resource(c.id, true)
        && b == db.(idem := db.idem[c.owner := Idem(c.hash, MessageNamed, c.id)],
                    messages := db.messages[c.id := Message(c.owner, c.hash, c.kind, Sending, None, c.window)])
      else
        && b == db
        && answer == if db.idem[c.owner].hash == c.hash && db.idem[c.owner].kind == MessageNamed
                     then Resource(db.idem[c.owner].resource, false) else Conflict
  {
    if c.owner !in db.idem {
      UnnamedOwnerIsFree(db, c.owner);
    }
  }

  lemma ReserveCardDoes(db: Db, c: Call)
    requires c.ReserveCard?
    ensures var (b, answer) := Step(db, c);
      if c.owner !in db.idem then
        && answer == Resource(c.id, true)
        && b == db.(idem := db.idem[c.owner := Idem(c.hash, CardNamed, c.id)],
                    cards := db.cards[c.id := Card(c.owner, c.nonce, c.actions, CardSending, None, None, None, c.expiresAt)])
      else
        && b == db
        && answer == if db.idem[c.owner].hash == c.hash && db.idem[c.owner].kind == CardNamed
                     then Resource(db.idem[c.owner].resource, false) else Conflict
  {
  }

  /** Only a message still being sent is finished. */
  lemma FinishMessageDoes(db: Db, c: Call)
    requires c.FinishMessage?
    ensures Step(db, c).0 ==
      if c.id in db.messages && db.messages[c.id].status == Sending
      then db.(messages := db.messages[c.id := db.messages[c.id].(status := Sent, messageId := Some(c.messageId))])
      else db
  {
  }

  /** The fallback of a card is a sent message with the card's message id and expiry, one a key. */
  lemma RegisterDoes(db: Db, c: Call)
    requires c.RegisterCardMessage? && c.id !in db.messages
    ensures var (b, answer) := Step(db, c);
      if exists x :: x in db.messages && db.messages[x].owner == c.owner then answer == Refused && b == db
      else
        && answer == Nothing
        && b == db.(messages := db.messages[c.id := Message(c.owner, "", "card", Sent, Some(c.messageId), Some(c.expiresAt))])
  {
  }

  // ----- windows and retention -----

  /** Closing a window ends every open window of the token's message now, and touches no other. */
  lemma CloseWindowDoes(db: Db, c: Call, id: string)
    requires c.CloseReplyWindow? && id in db.messages
    ensures var (b, m) := (Step(db, c).0, db.messages[id]);
      && b == db.(messages := b.messages) && b.messages.Keys == db.messages.Keys
      && b.messages[id] ==
           if m.owner.token == c.token && m.messageId == Some(c.messageId) && m.status == Sent
              && m.window.Some? && m.window.value > c.now
           then m.(window := Some(c.now)) else m
  {
  }

  /** Pruning expires pending cards that are due, and leaves every other card alone. */
  lemma PruneExpires(db: Db, now: int, id: string)
    requires id in db.cards
    ensures var b := Step(db, Prune(now)).0;
      && b.cards.Keys == db.cards.Keys && b.messages == db.messages && b.idem == db.idem && b.tokens == db.tokens
      && b.cards[id] == if db.cards[id].status == CardPending && db.cards[id].expiresAt <= now
                        then db.cards[id].(status := CardExpired) else db.cards[id]
  {
  }

  /** Pruning empties a reply exactly if a message it answers closed its window a day ago or earlier. */
  lemma PruneEmpties(db: Db, now: int, e: string)
    requires e in db.replies
    ensures var b, r := Step(db, Prune(now)).0, db.replies[e];
      && b.replies.Keys == db.replies.Keys
      && b.replies[e] ==
           if !r.purged && (exists id :: id in db.messages && db.messages[id].owner.token == r.token
                              && db.messages[id].messageId == Some(r.messageId) && db.messages[id].window.Some?
                              && db.messages[id].window.value + 86_400_000 <= now)
           then r.(text := "", purged := true) else r
  {
  }

  /** The tokens looked up for an actor are its own active ones, and an actor is an open id. */
  lemma LookUpFinds(tokens: map<string, Token>, actor: string, t: string)
    ensures t in ActiveTokens(tokens, actor)
       <==> t in tokens && tokens[t].active && tokens[t].actor == actor && "ou_" <= actor
  {
  }
}
