/** The public demo's in-memory session store: a map from a client-chosen
    session id to the recent messages and the time the session was last
    used. backend/src/routes/demo.ts and frontend/netlify/routes/demo.ts
    hold the same store, prune timer, chat turn and first-message guard.
    The clock is a parameter `now` in milliseconds. */
module Demo {
  import opened Strings
  import opened Sequences
  import opened ChatPrompt
  import Safety

  /** Sessions idle for more than 30 minutes are dropped. */
  const SessionTtl: int := 30 * 60 * 1000
  /** A session keeps at most 40 messages. */
  const MaxStored: nat := 40
  /** How many stored messages a chat turn sends to the model. */
  const DemoWindow: nat := 16

  /** `{ messages, lastSeen }`: messages hold only user and assistant turns. */
  datatype Session = Session(messages: seq<Turn>, lastSeen: int)

  /** What the model call gave back: it threw, it had no content, or it
      had this content. */
  datatype Completion = Failed | NoContent | Content(text: string)

  /** What `/chat` answers. */
  datatype ChatOutcome =
    | NotConfigured   // 503: no demo user
    | BadRequest      // 400: blank message or session id
    | CrisisAnswer(content: string)
    | NoProfile       // 503: the demo profile is missing
    | Unavailable     // 502: the model call threw
    | Answer(content: string)

  /** What `/first-message` answers. */
  datatype FirstOutcome =
    | Opening(content: string)
    | MissingId       // 400
    | AlreadyStarted  // 409

  /** The messages stored for `id`, none for an unknown id. */
  function StoredFor(es: map<string, Session>, id: string): seq<Turn> {
    if id in es then es[id].messages else []
  }

  /** The sessions the prune timer keeps at time `now`. */
  function Pruned(es: map<string, Session>, now: int): map<string, Session> {
    map id | id in es && es[id].lastSeen >= now - SessionTtl :: es[id]
  }

  /** Pruning removes exactly the sessions last seen more than 30 minutes
      before `now` and leaves every other session as it was. */
  lemma PrunedExactly(es: map<string, Session>, now: int)
    ensures forall id :: id in Pruned(es, now) <==> id in es && !(es[id].lastSeen < now - SessionTtl)
    ensures forall id :: id in Pruned(es, now) ==> Pruned(es, now)[id] == es[id]
  {
  }

  /** Pruning twice at the same time removes nothing more, and a later
      prune keeps no session an earlier one removed. */
  lemma PruneStable(es: map<string, Session>, t: int, u: int)
    requires t <= u
    ensures Pruned(Pruned(es, t), t) == Pruned(es, t)
    ensures Pruned(es, u).Keys <= Pruned(es, t).Keys
  {
  }

  /** `if (messages.length > 40) messages.splice(0, 2)`. */
  function Capped(ms: seq<Turn>): seq<Turn> {
    if |ms| > MaxStored then ms[2..] else ms
  }

  /** A chat turn on a buffer within the cap leaves it within the cap,
      drops only the oldest messages, and ends with the new pair. */
  lemma TurnStaysCapped(ms: seq<Turn>, user: Turn, reply: Turn)
    requires |ms| <= MaxStored
    ensures var r := Capped(ms + [user, reply]);
      |r| <= MaxStored
      && |r| >= 2 && r[|r| - 2] == user && r[|r| - 1] == reply
      && r == (ms + [user, reply])[|ms| + 2 - |r|..]
  {
  }

  /** The messages a chat turn sends: the system prompt, the latest 16
      stored messages, the new message. */
  function DemoContext(stored: seq<Turn>, systemPrompt: string, message: string): (r: seq<Turn>)
    ensures 2 <= |r| <= DemoWindow + 2
    ensures |r| - 2 == if |stored| < DemoWindow then |stored| else DemoWindow
    ensures r[0] == Turn(System, systemPrompt) && r[|r| - 1] == Turn(User, message)
    ensures r[1..|r| - 1] == stored[|stored| - (|r| - 2)..]
  {
    var kept := TakeLast(stored, DemoWindow);
    var r := [Turn(System, systemPrompt)] + kept + [Turn(User, message)];
    assert r[1..|r| - 1] == kept;
    r
  }

  /** `completion.choices[0]?.message?.content ?? '…'`. */
  function ReplyText(c: Completion): string
    requires !c.Failed?
  {
    if c.Content? then c.text else "\U{2026}"
  }

  /** `content?.trim() ?? 'yo'`, or the fixed line when the call threw. */
  function OpeningText(c: Completion): string {
    match c
    case Failed => "yo what's good"
    case NoContent => "yo"
    case Content(t) => Trim(t)
  }

  /** The answer to a turn that reached the model. */
  function TurnOutcome(c: Completion): ChatOutcome {
    if c.Failed? then Unavailable else Answer(ReplyText(c))
  }

  /** The sessions after a turn that reached the model: the session exists
      and was seen at `now`, and holds the new exchange unless the call
      threw. */
  function AfterTurn(es: map<string, Session>, id: string, message: string, now: int, c: Completion)
    : map<string, Session>
  {
    var stored := StoredFor(es, id);
    if c.Failed? then es[id := Session(stored, now)]
    else es[id := Session(Capped(stored + [Turn(User, message), Turn(Assistant, ReplyText(c))]), now)]
  }

  /** A turn changes only its own session, and leaves it existing. */
  lemma TurnTouchesOnlyItsSession(es: map<string, Session>, id: string, message: string, now: int, c: Completion)
    ensures AfterTurn(es, id, message, now, c).Keys == es.Keys + {id}
    ensures AfterTurn(es, id, message, now, c)[id].lastSeen == now
    ensures forall other :: other in es && other != id ==> AfterTurn(es, id, message, now, c)[other] == es[other]
  {
  }

  /** Touching the session and then storing the exchange gives
      `AfterTurn`. */
  lemma TouchThenSettle(es: map<string, Session>, id: string, message: string, now: int, c: Completion,
                        touched: map<string, Session>, settled: map<string, Session>)
    requires touched == es[id := Session(StoredFor(es, id), now)]
    requires c.Failed? ==> settled == touched
    requires !c.Failed? ==>
      settled == touched[id := touched[id].(messages :=
        Capped(touched[id].messages + [Turn(User, message), Turn(Assistant, ReplyText(c))]))]
    ensures settled == AfterTurn(es, id, message, now, c)
  {
  }

  class Sessions {
    var entries: map<string, Session>

    /** No session holds more than 40 messages. */
    ghost predicate Valid()
      reads this
    {
      forall id :: id in entries ==> |entries[id].messages| <= MaxStored
    }

    constructor()
      ensures Valid() && entries == map[]
    {
      entries := map[];
    }

    /** The prune timer: delete every session last seen before the cutoff,
        visiting the sessions one at a time. */
    method Prune(now: int)
      requires Valid()
      modifies this
      ensures Valid()
      ensures entries == Pruned(old(entries), now)
    {
      var cutoff := now - SessionTtl;
      ghost var start := entries;
      var pending := entries.Keys;
      while pending != {}
        invariant pending <= start.Keys
        invariant entries == map id | id in start && (id in pending || start[id].lastSeen >= cutoff) :: start[id]
        decreases |pending|
      {
        var id :| id in pending;
        if entries[id].lastSeen < cutoff {
          entries := entries - {id};
        }
        pending := pending - {id};
      }
    }

    /** Create an empty session for an unknown id, then set `lastSeen`. */
    method Touch(id: string, now: int)
      requires Valid()
      modifies this
      ensures Valid()
      ensures entries == old(entries)[id := Session(StoredFor(old(entries), id), now)]
    {
      if id !in entries {
        entries := entries[id := Session([], now)];
      }
      entries := entries[id := entries[id].(lastSeen := now)];
    }

    /** Push the user message and the reply, then drop the oldest two past
        40. */
    method Record(id: string, message: string, reply: string)
      requires Valid() && id in entries
      modifies this
      ensures Valid()
      ensures entries == old(entries)[id := old(entries)[id].(messages :=
                Capped(old(entries)[id].messages + [Turn(User, message), Turn(Assistant, reply)]))]
    {
      var ms := entries[id].messages;
      TurnStaysCapped(ms, Turn(User, message), Turn(Assistant, reply));
      ms := ms + [Turn(User, message)];
      ms := ms + [Turn(Assistant, reply)];
      assert ms == old(entries)[id].messages + [Turn(User, message), Turn(Assistant, reply)];
      if |ms| > MaxStored {
        ms := ms[2..];
      }
      entries := entries[id := entries[id].(messages := ms)];
    }

    /** `/chat`: the checks in the handler's order; a request that passes
        them all goes on to `Converse`. `sent` is what the model receives,
        empty when the turn stops before the call. */
    method Chat(id: string, message: string, now: int, configured: bool, hasProfile: bool,
                systemPrompt: string, completion: Completion)
      returns (out: ChatOutcome, sent: seq<Turn>)
      requires Valid()
      modifies this
      ensures Valid()
      ensures !configured ==> out == NotConfigured && entries == old(entries)
      ensures configured && (Trim(message) == "" || Trim(id) == "") ==> out == BadRequest && entries == old(entries)
      ensures configured && Trim(message) != "" && Trim(id) != "" && Safety.DetectCrisis(message) ==>
                out == CrisisAnswer(Safety.CrisisResponse) && entries == old(entries)
      ensures configured && Trim(message) != "" && Trim(id) != "" && !Safety.DetectCrisis(message) && !hasProfile ==>
                out == NoProfile && entries == old(entries)
      ensures configured && Trim(message) != "" && Trim(id) != "" && !Safety.DetectCrisis(message) && hasProfile ==>
                sent == DemoContext(StoredFor(old(entries), id), systemPrompt, message)
                && out == TurnOutcome(completion)
                && entries == AfterTurn(old(entries), id, message, now, completion)
    {
      sent := [];
      if !configured {
        return NotConfigured, sent;
      }
      if Trim(message) == "" || Trim(id) == "" {
        return BadRequest, sent;
      }
      if Safety.DetectCrisis(message) {
        return CrisisAnswer(Safety.CrisisResponse), sent;
      }
      if !hasProfile {
        return NoProfile, sent;
      }
      out, sent := Converse(id, message, now, systemPrompt, completion);
    }

    /** The rest of a chat turn: touch the session, send the context, and
        store the exchange unless the model call threw. */
    method Converse(id: string, message: string, now: int, systemPrompt: string, completion: Completion)
      returns (out: ChatOutcome, sent: seq<Turn>)
      requires Valid()
      modifies this
      ensures Valid()
      ensures sent == DemoContext(StoredFor(old(entries), id), systemPrompt, message)
      ensures out == TurnOutcome(completion)
      ensures entries == AfterTurn(old(entries), id, message, now, completion)
    {
      Touch(id, now);
      ghost var touched := entries;
      sent := DemoContext(entries[id].messages, systemPrompt, message);
      out := Settle(id, message, completion);
      TouchThenSettle(old(entries), id, message, now, completion, touched, entries);
    }

    /** Store the exchange unless the model call threw. */
    method Settle(id: string, message: string, completion: Completion) returns (out: ChatOutcome)
      requires Valid() && id in entries
      modifies this
      ensures Valid()
      ensures out == TurnOutcome(completion)
      ensures completion.Failed? ==> entries == old(entries)
      ensures !completion.Failed? ==>
        entries == old(entries)[id := old(entries)[id].(messages :=
          Capped(old(entries)[id].messages + [Turn(User, message), Turn(Assistant, ReplyText(completion))]))]
    {
      if completion.Failed? {
        return Unavailable;
      }
      var content := ReplyText(completion);
      Record(id, message, content);
      out := Answer(content);
    }

    /** `/first-message`: refused once the session has messages; otherwise
        the opening line becomes the session's only message. */
    method FirstMessage(id: string, now: int, configured: bool, hasProfile: bool, completion: Completion)
      returns (out: FirstOutcome)
      requires Valid()
      modifies this
      ensures Valid()
      ensures !configured ==> out == Opening("demo not set up yet lol") && entries == old(entries)
      ensures configured && id == "" ==> out == MissingId && entries == old(entries)
      ensures configured && id != "" && StoredFor(old(entries), id) != [] ==>
                out == AlreadyStarted && entries == old(entries)
      ensures configured && id != "" && StoredFor(old(entries), id) == [] ==>
                (!hasProfile ==> out == Opening("hey") && entries == old(entries))
                && (hasProfile ==>
                      out == Opening(OpeningText(completion))
                      && entries == old(entries)[id := Session([Turn(Assistant, OpeningText(completion))], now)])
    {
      if !configured {
        return Opening("demo not set up yet lol");
      }
      if id == "" {
        return MissingId;
      }
      if id in entries && |entries[id].messages| > 0 {
        return AlreadyStarted;
      }
      if !hasProfile {
        return Opening("hey");
      }
      var content := OpeningText(completion);
      if id !in entries {
        entries := entries[id := Session([], now)];
      }
      assert entries[id].messages == [];
      entries := entries[id := entries[id].(messages := entries[id].messages + [Turn(Assistant, content)])];
      entries := entries[id := entries[id].(lastSeen := now)];
      assert entries[id] == Session([Turn(Assistant, content)], now);
      out := Opening(content);
    }
  }
}
