/**
 Requests on top of the relay's store. `create_card` reserves, sends, finishes or fails, and
 registers the text fallback; replies and clicks look the actor's tokens up in one locked step and
 use them in a later one. Every request is a thread that may be dropped at any point, and any
 number of them interleave, with the store's remaining calls in between.
 */
module RelayTraffic {
  import opened Wrappers
  import opened RelayMessages

  /** A request between two steps. `card` is the row that `reserve_card` returned. */
  datatype Thread =
    | Reserved(owner: Owner, id: string, card: Card)
    | Delivered(owner: Owner, id: string, expiresAt: int, messageId: string)
    | Finished(owner: Owner, id: string, expiresAt: int, messageId: string)
    | Registered(owner: Owner, id: string)
    | Looked(actor: string, found: set<string>)

  datatype State = State(db: Db, threads: map<nat, Thread>)

  const START := State(EMPTY, map[])

  /** What a request in flight may do next. An empty message id stands for a missing receipt. */
  datatype Move =
    | Deliver(messageId: string)
    | Reject
    | Finish
    | Register(row: string)
    | Show(now: int)
    | Drop
    | Reply(event: string, text: string, parent: Option<string>, now: int)
    | Click(id: string, nonce: string, messageId: string, action: string, now: int)

  datatype Event =
    | Reserve(thread: nat, owner: Owner, hash: string, actions: seq<string>, expiresAt: int, id: string, nonce: string)
    | LookUp(thread: nat, actor: string)
    | Go(thread: nat, move: Move)
    | Other(call: Call)

  /** The calls that no thread makes: messages, closing, retention and tokens. */
  predicate Free(c: Call) {
    || c.ReserveMessage? || c.FinishMessage? || c.LookAtCard? || c.CloseCard? || c.CloseReplyWindow?
    || c.Prune? || c.IssueToken? || c.RevokeToken?
  }

  /** All that is asked of an event: random draws are new, and a new request is a new thread. */
  predicate Possible(s: State, e: Event) {
    match e
    case Reserve(thread, _, _, _, _, id, _) => thread !in s.threads && id !in s.db.cards
    case LookUp(thread, _) => thread !in s.threads
    case Go(_, m) => m.Register? ==> m.row !in s.db.messages
    case Other(c) =>
      && Free(c) && (c.ReserveMessage? ==> c.id !in s.db.messages)
      && (c.IssueToken? ==> c.token !in s.db.tokens)
  }

  /** A replayed request whose card has been sent already. */
  predicate Replayed(t: Thread) {
    t.Reserved? && t.card.status != CardSending && t.card.messageId.Some? && t.card.messageId.value != ""
  }

  /** The store call with which a request moves on. */
  function MoveCall(t: Thread, m: Move): Option<Call> {
    match m
    case Deliver(messageId) =>
      if t.Reserved? && t.card.status == CardSending && messageId == "" then Some(FailCard(t.id)) else None
    case Reject => if t.Reserved? && t.card.status == CardSending then Some(FailCard(t.id)) else None
    case Finish => if t.Delivered? then Some(FinishCard(t.id, t.messageId)) else None
    case Register(row) =>
      if t.Finished? then Some(RegisterCardMessage(t.owner, t.messageId, t.expiresAt, row))
      else if Replayed(t) then Some(RegisterCardMessage(t.owner, t.card.messageId.value, t.card.expiresAt, row))
      else None
    case Show(now) => if t.Registered? then Some(LookAtCard(t.owner.token, t.id, now)) else None
    case Drop => None
    case Reply(event, text, parent, now) =>
      if t.Looked? then Some(AssignReply(event, t.found, text, parent, now)) else None
    case Click(id, nonce, messageId, action, now) =>
      if t.Looked? then Some(ActionCard(t.found, id, nonce, messageId, action, now)) else None
  }

  /** Where the request stands then; `None` when it is over. */
  function MoveTo(t: Thread, m: Move): Option<Thread> {
    match m
    case Deliver(messageId) =>
      if t.Reserved? && t.card.status == CardSending && messageId != ""
      then Some(Delivered(t.owner, t.id, t.card.expiresAt, messageId)) else None
    case Finish => if t.Delivered? then Some(Finished(t.owner, t.id, t.expiresAt, t.messageId)) else None
    case Register(_) => if t.Finished? then Some(Registered(t.owner, t.id)) else None
    case Reject => None
    case Show(_) => None
    case Drop => None
    case Reply(_, _, _, _) => None
    case Click(_, _, _, _, _) => None
  }

  /** The store call that an event makes, if it makes one. */
  function CallOf(s: State, e: Event): Option<Call> {
    match e
    case Reserve(_, owner, hash, actions, expiresAt, id, nonce) =>
      Some(ReserveCard(owner, hash, actions, expiresAt, id, nonce))
    case LookUp(_, _) => None
    case Go(thread, m) => if thread in s.threads then MoveCall(s.threads[thread], m) else None
    case Other(c) => Some(c)
  }

  function Answer(s: State, e: Event): RelayMessages.Answer {
    if CallOf(s, e).None? then Nothing else Step(s.db, CallOf(s, e).value).1
  }

  function After(s: State, e: Event): Db {
    if CallOf(s, e).None? then s.db else Step(s.db, CallOf(s, e).value).0
  }

  function Moved(s: State, e: Event): Option<Thread> {
    match e
    case Reserve(_, owner, _, _, _, _, _) =>
      var a := Answer(s, e);
      if a.Resource? && a.id in After(s, e).cards then Some(Reserved(owner, a.id, After(s, e).cards[a.id])) else None
    case LookUp(_, actor) => Some(Looked(actor, ActiveTokens(s.db.tokens, actor)))
    case Go(thread, m) => if thread in s.threads then MoveTo(s.threads[thread], m) else None
    case Other(_) => None
  }

  function Next(s: State, e: Event): State {
    if e.Other? then State(After(s, e), s.threads)
    else
      var t := Moved(s, e);
      State(After(s, e), if t.Some? then s.threads[e.thread := t.value] else s.threads - {e.thread})
  }

  // ----- the guard of the text fallback is earned, not assumed -----

  /** The card this request is about is still there, under its key and with its expiry. */
  predicate Holds(db: Db, owner: Owner, id: string, expiresAt: int) {
    && owner in db.idem && db.idem[owner].kind == CardNamed && db.idem[owner].resource == id
    && id in db.cards && db.cards[id].expiresAt == expiresAt
  }

  predicate ThreadOk(db: Db, t: Thread) {
    match t
    case Reserved(owner, id, card) => Holds(db, owner, id, card.expiresAt)
    case Delivered(owner, id, expiresAt, _) => Holds(db, owner, id, expiresAt)
    case Finished(owner, id, expiresAt, _) => Holds(db, owner, id, expiresAt)
    case Registered(_, _) => true
    case Looked(actor, found) => forall k :: k in found ==> k in db.tokens && db.tokens[k].actor == actor
  }

  ghost predicate Sound(s: State) {
    Inv(s.db) && forall t :: t in s.threads ==> ThreadOk(s.db, s.threads[t])
  }

  /** What a request holds on to survives whatever the others do. */
  lemma ThreadStays(a: Db, b: Db, t: Thread)
    requires ThreadOk(a, t) && Evolves(a, b)
    ensures ThreadOk(b, t)
  {
  }

  /** Every call that a request makes meets the store's assumptions, and the fallback's in particular. */
  lemma CallsAreEnabled(s: State, e: Event)
    requires Sound(s) && Possible(s, e) && CallOf(s, e).Some?
    ensures Enabled(s.db, CallOf(s, e).value)
  {
    hide Inv;
    if e.Go? {
      assert ThreadOk(s.db, s.threads[e.thread]);
    }
  }

  lemma NextEvolves(s: State, e: Event)
    requires Sound(s) && Possible(s, e)
    ensures Inv(After(s, e)) && Evolves(s.db, After(s, e))
  {
    hide Inv;
    hide Evolves;
    hide Step;
    hide Enabled;
    hide CallOf;
    if CallOf(s, e).Some? {
      CallsAreEnabled(s, e);
      StepKeeps(s.db, CallOf(s, e).value);
    } else {
      Unchanged(s.db);
    }
  }

  /** The row that a reservation hands back is the caller's card. */
  lemma ReservedHolds(s: State, e: Event)
    requires Inv(s.db) && e.Reserve? && Moved(s, e).Some?
    ensures ThreadOk(After(s, e), Moved(s, e).value)
  {
    if e.owner in s.db.idem {
      assert IdemOk(s.db.messages, s.db.cards, e.owner, s.db.idem[e.owner]);
    }
  }

  lemma MovedHolds(s: State, e: Event)
    requires Sound(s) && Possible(s, e) && Moved(s, e).Some?
    ensures ThreadOk(After(s, e), Moved(s, e).value)
  {
    hide Inv;
    hide Evolves;
    hide Step;
    NextEvolves(s, e);
    if e.Reserve? {
      ReservedHolds(s, e);
    } else if e.LookUp? {
      assert After(s, e) == s.db;
    } else {
      assert ThreadOk(s.db, s.threads[e.thread]);
      ThreadStays(s.db, After(s, e), s.threads[e.thread]);
    }
  }

  lemma NextKeeps(s: State, e: Event)
    requires Sound(s) && Possible(s, e)
    ensures Sound(Next(s, e)) && Evolves(s.db, Next(s, e).db)
  {
    hide Inv;
    hide Evolves;
    hide ThreadOk;
    hide After;
    hide Moved;
    var b := Next(s, e);
    NextEvolves(s, e);
    forall t | t in b.threads ensures ThreadOk(b.db, b.threads[t]) {
      if !e.Other? && t == e.thread && Moved(s, e).Some? {
        MovedHolds(s, e);
      } else {
        ThreadStays(s.db, b.db, s.threads[t]);
      }
    }
  }

  // ----- whole runs of traffic -----

  function Exec(s: State, events: seq<Event>): State
    decreases |events|
  {
    if events == [] then s else Next(Exec(s, events[..|events| - 1]), events[|events| - 1])
  }

  ghost predicate AllPossible(s: State, events: seq<Event>) {
    forall i :: 0 <= i < |events| ==> Possible(Exec(s, events[..i]), events[i])
  }

  lemma PossibleInit(s: State, events: seq<Event>, n: nat)
    requires n <= |events| && AllPossible(s, events)
    ensures AllPossible(s, events[..n])
  {
    hide Possible;
    forall i | 0 <= i < n ensures Possible(Exec(s, events[..n][..i]), events[..n][i]) {
      assert events[..n][..i] == events[..i];
    }
  }

  /**
   However requests interleave and wherever they break off, the store keeps its invariant: every
   message row is backed by an idempotency row and no text window outlives its card.
   */
  lemma {:induction false} TrafficKeeps(s: State, events: seq<Event>)
    requires Sound(s) && AllPossible(s, events)
    ensures Sound(Exec(s, events)) && Evolves(s.db, Exec(s, events).db)
    decreases |events|
  {
    hide Sound;
    hide Evolves;
    hide Possible;
    hide Next;
    if events == [] {
      Unchanged(s.db);
    } else {
      var n := |events| - 1;
      PossibleInit(s, events, n);
      TrafficKeeps(s, events[..n]);
      var a := Exec(s, events[..n]);
      NextKeeps(a, events[n]);
      EvolvesTransitive(s.db, a.db, Exec(s, events).db);
    }
  }

  // ----- what holds of the store's runs holds of traffic -----

  /** The store calls of a run of traffic, in order. */
  function CallsOf(s: State, events: seq<Event>): seq<Call>
    decreases |events|
  {
    if events == [] then []
    else
      var n := |events| - 1;
      var c := CallOf(Exec(s, events[..n]), events[n]);
      CallsOf(s, events[..n]) + if c.Some? then [c.value] else []
  }

  lemma {:induction false} StoreExecLast(db: Db, calls: seq<Call>, c: Call)
    ensures RelayMessages.Exec(db, calls + [c]) == Step(RelayMessages.Exec(db, calls), c).0
    ensures RelayMessages.AllEnabled(db, calls + [c])
       <==> RelayMessages.AllEnabled(db, calls) && Enabled(RelayMessages.Exec(db, calls), c)
    decreases |calls|
  {
    hide Step;
    hide Enabled;
    if calls == [] {
      assert ([] + [c])[1..] == [];
      assert RelayMessages.Exec(db, [] + [c]) == RelayMessages.Exec(Step(db, c).0, []);
    } else {
      assert (calls + [c])[1..] == calls[1..] + [c];
      StoreExecLast(Step(db, calls[0]).0, calls[1..], c);
    }
  }

  /** The store calls of a run of traffic are a run of the store, so all that is proved of those applies. */
  lemma {:induction false} TrafficIsARun(s: State, events: seq<Event>)
    requires Sound(s) && AllPossible(s, events)
    ensures RelayMessages.AllEnabled(s.db, CallsOf(s, events))
    ensures RelayMessages.Exec(s.db, CallsOf(s, events)) == Exec(s, events).db
    decreases |events|
  {
    hide Sound;
    hide Possible;
    hide Step;
    hide Enabled;
    hide CallOf;
    hide Moved;
    if events != [] {
      var n := |events| - 1;
      var a := Exec(s, events[..n]);
      PossibleInit(s, events, n);
      TrafficIsARun(s, events[..n]);
      TrafficKeeps(s, events[..n]);
      if CallOf(a, events[n]).Some? {
        CallsAreEnabled(a, events[n]);
        StoreExecLast(s.db, CallsOf(s, events[..n]), CallOf(a, events[n]).value);
      } else {
        assert CallsOf(s, events[..n]) + [] == CallsOf(s, events[..n]);
      }
    }
  }

  /** At most one click on a card ever succeeds, however requests interleave. */
  lemma TrafficClicksOnce(s: State, events: seq<Event>, id: string)
    requires Sound(s) && AllPossible(s, events)
    ensures ClickCount(s.db, CallsOf(s, events), id) <= 1
  {
    hide Possible;
    hide Over;
    TrafficIsARun(s, events);
    ClicksAtMostOnce(s.db, CallsOf(s, events), id);
  }

  /** A key in use names the same resource after any traffic, and a replay returns it or a conflict. */
  lemma TrafficKeepsNames(s: State, events: seq<Event>, owner: Owner, c: Call)
    requires Sound(s) && AllPossible(s, events) && owner in s.db.idem && Reserves(c, owner)
    ensures var later := Exec(s, events).db;
      && owner in later.idem && later.idem[owner] == s.db.idem[owner] && Step(later, c).0 == later
      && Step(later, c).1 in {Conflict, Resource(s.db.idem[owner].resource, false)}
  {
    hide Possible;
    hide Step;
    TrafficIsARun(s, events);
    KeyNamesOneResource(s.db, CallsOf(s, events), owner, c);
  }

  /** After any traffic, a prune a day past the window leaves the reply purged and empty. */
  lemma TrafficIsPruned(s: State, events: seq<Event>, e: string, id: string, now: int)
    requires Sound(s) && AllPossible(s, events) && e in s.db.replies && id in s.db.messages
    requires AnsweredBy(s.db.messages[id], s.db.replies[e]) && now >= s.db.messages[id].window.value + REPLY_RETENTION_MS
    ensures var later := Step(Exec(s, events).db, Prune(now)).0;
      e in later.replies && later.replies[e].purged && (!s.db.replies[e].purged ==> later.replies[e].text == "")
  {
    hide Possible;
    hide Step;
    TrafficIsARun(s, events);
    PruneEmptiesOldReplies(s.db, CallsOf(s, events), e, id, now);
  }

  lemma StartIsSound()
    ensures Sound(START)
  {
  }

  /**
   `create_card` undisturbed, under a new key: the card is pending with the delivered message, and a
   sent message with the same id and the card's own expiry stands beside it.
   */
  lemma CreateCardDoes(s: State, thread: nat, owner: Owner, hash: string, actions: seq<string>, expiresAt: int,
                       id: string, nonce: string, messageId: string, row: string)
    requires Sound(s) && thread !in s.threads && owner !in s.db.idem && id !in s.db.cards && row !in s.db.messages
    requires messageId != ""
    ensures var a := Next(s, Reserve(thread, owner, hash, actions, expiresAt, id, nonce));
      var b := Next(Next(a, Go(thread, Deliver(messageId))), Go(thread, Finish));
      var c := Next(b, Go(thread, Register(row)));
      && a.db.cards == s.db.cards[id := Card(owner, nonce, actions, CardSending, None, None, None, expiresAt)]
      && b.db.cards == s.db.cards[id := Card(owner, nonce, actions, CardPending, None, None, Some(messageId), expiresAt)]
      && c.db.cards == b.db.cards && c.db.idem == s.db.idem[owner := Idem(hash, CardNamed, id)]
      && c.db.messages == s.db.messages[row := Message(owner, "", "card", Sent, Some(messageId), Some(expiresAt))]
  {
    UnnamedOwnerIsFree(s.db, owner);
  }

  /** A refused card, or one without a receipt, fails, and no fallback is registered. */
  lemma RefusedCardFails(s: State, thread: nat, owner: Owner, hash: string, actions: seq<string>, expiresAt: int,
                         id: string, nonce: string, m: Move)
    requires thread !in s.threads && owner !in s.db.idem && id !in s.db.cards
    requires m == Reject || m == Deliver("")
    ensures var b := Next(Next(s, Reserve(thread, owner, hash, actions, expiresAt, id, nonce)), Go(thread, m));
      && b.db.cards == s.db.cards[id := Card(owner, nonce, actions, CardFailed, None, None, None, expiresAt)]
      && b.db.messages == s.db.messages && thread !in b.threads
  {
  }

  /** A replay heals a missing fallback: with the card's own message and expiry, if there is none yet. */
  lemma ReplayHeals(s: State, e: Event)
    requires Sound(s) && Possible(s, e) && e.Go? && e.move.Register?
    requires e.thread in s.threads && Replayed(s.threads[e.thread])
    ensures var t := s.threads[e.thread];
      && e.thread !in Next(s, e).threads
      && (if OwnerTaken(s.db.messages, t.owner) then Answer(s, e) == Refused && Next(s, e).db == s.db
          else e.move.row in Next(s, e).db.messages
               && Next(s, e).db.messages[e.move.row]
                  == Message(t.owner, "", "card", Sent, t.card.messageId, Some(t.card.expiresAt)))
  {
  }

  // ----- whose reply, whose click -----

  /** The request's tokens are those that were active for its actor when it looked them up, earlier in the run. */
  lemma {:induction false} FoundWasLookedUp(s: State, events: seq<Event>, thread: nat) returns (i: nat)
    requires thread in Exec(s, events).threads && Exec(s, events).threads[thread].Looked?
    requires thread !in s.threads
    ensures i < |events| && events[i] == LookUp(thread, Exec(s, events).threads[thread].actor)
    ensures Exec(s, events).threads[thread].found
         == ActiveTokens(Exec(s, events[..i]).db.tokens, Exec(s, events).threads[thread].actor)
    decreases |events|
  {
    hide After;
    hide Answer;
    hide ActiveTokens;
    var n := |events| - 1;
    var a := Exec(s, events[..n]);
    if events[n].LookUp? && events[n].thread == thread {
      i := n;
    } else {
      i := FoundWasLookedUp(s, events[..n], thread);
      assert events[..n][..i] == events[..i];
    }
  }

  /** The event stores a reply that was not there. */
  predicate Stores(s: State, e: Event) {
    e.Go? && e.move.Reply? && e.move.event !in s.db.replies && e.move.event in Next(s, e).db.replies
  }

  lemma StoredIsOpen(s: State, e: Event) returns (id: string)
    requires Stores(s, e)
    ensures e.thread in s.threads && s.threads[e.thread].Looked?
    ensures id in s.db.messages && OpenFor(s.db.messages[id], s.threads[e.thread].found, e.move.parent, e.move.now)
    ensures Next(s, e).db.replies[e.move.event]
      == RelayMessages.Reply(s.db.messages[id].owner.token, s.db.messages[id].messageId.value, e.move.text, e.move.now, false)
  {
    var t := s.threads[e.thread];
    var c := AssignReply(e.move.event, t.found, e.move.text, e.move.parent, e.move.now);
    ReplyIsAttributed(s.db, c);
    id :| id in s.db.messages && OpenFor(s.db.messages[id], t.found, e.move.parent, e.move.now)
      && Step(s.db, c).0.replies[c.event]
         == RelayMessages.Reply(s.db.messages[id].owner.token, s.db.messages[id].messageId.value, c.text, c.now, false);
  }

  /**
   In every run a reply is stored only against a message whose window is open at that moment and
   whose token was active, and the replying actor's, when the request looked it up.
   */
  lemma RepliesAreTheActors(s: State, events: seq<Event>, e: Event) returns (i: nat, id: string)
    requires Stores(Exec(s, events), e) && e.thread !in s.threads
    ensures var held := Exec(s, events).db;
      && id in held.messages && held.messages[id].window.Some? && held.messages[id].window.value > e.move.now
      && held.messages[id].messageId.Some?
      && Next(Exec(s, events), e).db.replies[e.move.event]
         == RelayMessages.Reply(held.messages[id].owner.token, held.messages[id].messageId.value, e.move.text, e.move.now, false)
    ensures e.move.parent.Some? ==> Exec(s, events).db.messages[id].messageId == e.move.parent
    ensures Exec(s, events).db.messages[id].status == Sent
    ensures i < |events| && events[i].LookUp? && events[i].thread == e.thread && IsActor(events[i].actor)
    ensures var token, looked := Exec(s, events).db.messages[id].owner.token, Exec(s, events[..i]).db.tokens;
      token in looked && looked[token] == Token(events[i].actor, true)
  {
    hide Exec;
    id := StoredIsOpen(Exec(s, events), e);
    i := FoundWasLookedUp(s, events, e.thread);
  }

  predicate Succeeds(s: State, e: Event) {
    e.Go? && e.move.Click? && Answer(s, e) == Ok(true)
  }

  /** The same of clicks: the card's token was active, and the clicking actor's, at the look-up. */
  lemma ClicksAreTheActors(s: State, events: seq<Event>, e: Event) returns (i: nat)
    requires Succeeds(Exec(s, events), e) && e.thread !in s.threads
    ensures e.move.id in Exec(s, events).db.cards && e.move.now < Exec(s, events).db.cards[e.move.id].expiresAt
    ensures i < |events| && events[i].LookUp? && events[i].thread == e.thread && IsActor(events[i].actor)
    ensures var token, looked := Exec(s, events).db.cards[e.move.id].owner.token, Exec(s, events[..i]).db.tokens;
      token in looked && looked[token] == Token(events[i].actor, true)
  {
    hide Exec;
    i := FoundWasLookedUp(s, events, e.thread);
  }

  // ----- a revocation in between -----

  predicate Revokes(e: Event, token: string) {
    e == Other(RevokeToken(token))
  }

  ghost predicate NoneRevokes(events: seq<Event>, from: nat, token: string) {
    forall k :: from <= k < |events| ==> !Revokes(events[k], token)
  }

  /** Only issuing and revoking touch the token table. */
  lemma TokensStay(db: Db, c: Call)
    requires !c.IssueToken? && !c.RevokeToken?
    ensures Step(db, c).0.tokens == db.tokens
  {
  }

  lemma TokenAfter(s: State, e: Event, token: string)
    requires Possible(s, e) && token in s.db.tokens
    ensures token in Next(s, e).db.tokens && Next(s, e).db.tokens[token].actor == s.db.tokens[token].actor
    ensures Next(s, e).db.tokens[token].active <==> s.db.tokens[token].active && !Revokes(e, token)
  {
    hide Step;
    hide Moved;
    var c := CallOf(s, e);
    if c.Some? {
      if c.value.IssueToken? || c.value.RevokeToken? {
        TokenCallAfter(s.db, c.value, token);
      } else {
        TokensStay(s.db, c.value);
      }
    }
  }

  lemma TokenCallAfter(db: Db, c: Call, token: string)
    requires (c.IssueToken? && c.token !in db.tokens) || c.RevokeToken?
    requires token in db.tokens
    ensures var b := Step(db, c).0.tokens;
      && token in b && b[token].actor == db.tokens[token].actor
      && (b[token].active <==> db.tokens[token].active && c != RevokeToken(token))
  {
  }

  lemma NoneRevokesLast(events: seq<Event>, from: nat, token: string)
    requires from < |events|
    ensures var n := |events| - 1;
      NoneRevokes(events, from, token) <==> NoneRevokes(events[..n], from, token) && !Revokes(events[n], token)
  {
    hide Revokes;
    var n := |events| - 1;
    assert forall k :: from <= k < n ==> events[..n][k] == events[k];
  }

  /**
   A token that was active at the look-up is still so at the end exactly if nobody revoked it in
   between; it stays the same actor's either way.
   */
  lemma {:induction false} StillActiveIff(s: State, events: seq<Event>, i: nat, token: string)
    requires AllPossible(s, events) && i <= |events|
    requires token in Exec(s, events[..i]).db.tokens && Exec(s, events[..i]).db.tokens[token].active
    ensures var before, now := Exec(s, events[..i]).db.tokens[token], Exec(s, events).db.tokens;
      && token in now && now[token].actor == before.actor
      && (now[token].active <==> NoneRevokes(events, i, token))
    decreases |events|
  {
    hide Possible;
    hide Next;
    hide Revokes;
    hide NoneRevokes;
    hide AllPossible;
    if i == |events| {
      NothingRevoked(events, i, token);
      assert events[..i] == events;
    } else {
      var n := |events| - 1;
      PossibleInit(s, events, n);
      assert events[..n][..i] == events[..i];
      StillActiveIff(s, events[..n], i, token);
      LastIsPossible(s, events);
      TokenAfter(Exec(s, events[..n]), events[n], token);
      NoneRevokesLast(events, i, token);
    }
  }

  lemma NothingRevoked(events: seq<Event>, from: nat, token: string)
    requires from == |events|
    ensures NoneRevokes(events, from, token)
  {
  }

  lemma LastIsPossible(s: State, events: seq<Event>)
    requires events != [] && AllPossible(s, events)
    ensures var n := |events| - 1; Possible(Exec(s, events[..n]), events[n])
  {
  }

  /** So a reply can still arrive on a token revoked after the look-up. */
  lemma RevokedStillAnswers(s: State, e: Event, token: string)
    requires Stores(s, e) && token in s.db.tokens && s.db.tokens[token].active
    requires Next(s, e).db.replies[e.move.event].token == token
    ensures var revoked := Next(s, Other(RevokeToken(token)));
      && !revoked.db.tokens[token].active
      && Stores(revoked, e) && Next(revoked, e).db.replies[e.move.event].token == token
  {
    var revoked := Next(s, Other(RevokeToken(token)));
    var t := s.threads[e.thread];
    assert OpenMessages(revoked.db, t.found, e.move.parent, e.move.now) == OpenMessages(s.db, t.found, e.move.parent, e.move.now);
  }
}
