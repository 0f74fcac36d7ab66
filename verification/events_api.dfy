/** POST /events from the body's text to the response: what is queued is a well-formed event, and what a
    201 says is on disk. */
module EventsApi {
  import opened Records
  import opened JsonText
  import opened Blocks
  import opened ParsedText
  import opened LooseText
  import opened Storage
  import opened WritePath
  import opened Guarantees

  /** parse_event and the check behind it: the only way in for an event. */
  function ReadEvent(body: string): Option<Event> {
    match Parse(body)
    case None => None
    case Some(v) =>
      match EventFromJson(v)
      case Some(e) => if e.eventType == "" then None else Some(e)
      case None => None
  }

  /** What became of the hand-off to the writer. */
  datatype HandOff = Refused | Replied(reply: Reply)

  datatype Response = Response(status: nat, body: Option<string>)

  /** Bad input is turned away before the queue is touched. */
  function PostEvents(body: string, handOff: HandOff): Response {
    if ReadEvent(body).None? then Response(400, None)
    else match handOff
      case Refused => Response(500, None)
      case Replied(StorageFailure) => Response(500, None)
      case Replied(Created(b)) => Response(201, Some(BlockText(b)))
  }

  /** The body is a JSON object that says all five things about an event, and a type that is not empty. */
  ghost predicate SaysEvent(body: string, e: Event) {
    && Parse(body).Some? && Parse(body).value.Obj?
    && var ms := Parse(body).value.members;
       && Find(ms, "actor") == Some(Str(e.actor)) && Find(ms, "description") == Some(Str(e.description))
       && Find(ms, "event_type") == Some(Str(e.eventType)) && Find(ms, "location_id") == Some(Str(e.locationId))
       && Find(ms, "metadata") == Some(e.metadata) && e.eventType != ""
  }

  ghost predicate SaysNoEvent(body: string) {
    forall e :: !SaysEvent(body, e)
  }

  /** What is read from a body is what its members say, and nothing is read exactly if they say no event. */
  lemma ReadEventIsSaid(body: string, e: Event)
    ensures ReadEvent(body) == Some(e) <==> SaysEvent(body, e)
  {
    hide Parse, Find;
  }

  lemma NothingReadIsSaid(body: string)
    ensures ReadEvent(body).None? <==> SaysNoEvent(body)
  {
    hide ReadEvent, SaysEvent;
    forall e ensures ReadEvent(body) == Some(e) <==> SaysEvent(body, e) { ReadEventIsSaid(body, e); }
    if ReadEvent(body).Some? { assert SaysEvent(body, ReadEvent(body).value); }
  }

  /** The text of an event reads as that event. */
  lemma EventTextIsRead(e: Event)
    requires WellFormedEvent(e) && e.eventType != ""
    ensures ReadEvent(EventText(e)) == Some(e)
  {
    hide Parse, Dump, EventFromJson, EventJson;
    EventJsonWellFormed(e);
    ParseRoundTrip(EventJson(e));
    EventJsonRoundTrip(e);
  }

  /** So does any other text that says the same: laid out with blanks, its members in another order or
      repeated, further ones beside them, its characters escaped or not. */
  lemma LooseEventIsRead(ms: seq<DocMember>, l: Layout, before: string, behind: string, e: Event)
    requires Proper(ObjDoc(ms)) && Allowed(l) && Blanks(before) && Blanks(behind) && e.eventType != ""
    requires LastValue(ms, "actor") == Some(Str(e.actor)) && LastValue(ms, "description") == Some(Str(e.description))
    requires LastValue(ms, "event_type") == Some(Str(e.eventType))
    requires LastValue(ms, "location_id") == Some(Str(e.locationId)) && LastValue(ms, "metadata") == Some(e.metadata)
    ensures ReadEvent(before + DocOnto(ObjDoc(ms), l, behind)) == Some(e)
  {
    hide Parse, Find, LastValue, HeldMembers, DocOnto, ReadEvent;
    LooseTextIsRead(ObjDoc(ms), l, before, behind);
    LastMemberCounts(ms, "actor");
    LastMemberCounts(ms, "description");
    LastMemberCounts(ms, "event_type");
    LastMemberCounts(ms, "location_id");
    LastMemberCounts(ms, "metadata");
    ReadEventIsSaid(before + DocOnto(ObjDoc(ms), l, behind), e);
  }

  /** Every event a handler queues is well-formed, as the write path requires of it. */
  lemma QueuedEventsAreWellFormed(body: string, e: Event)
    requires SaysEvent(body, e)
    ensures ReadEvent(body) == Some(e) && WellFormedEvent(e)
  {
    hide ParseValue, WellFormed, EventFromJson, SaysEvent;
    ReadEventIsSaid(body, e);
    ParsedIsWellFormed(SkipBlanks(body));
    EventIsWellFormed(Parse(body).value);
  }

  // ----- the response ------------------------------------------------------------------------------

  /** A 400 is for bodies that say no event, whatever the writer is doing; a 500 for an event that the
      queue or the disk turned away; a 201 for one that became a block, and no other status occurs. */
  lemma StatusSaysWhatHappened(body: string, handOff: HandOff)
    ensures var r := PostEvents(body, handOff);
      && (r.status == 400 <==> SaysNoEvent(body))
      && (r.status == 500 <==> !SaysNoEvent(body) && (handOff.Refused? || handOff.reply.StorageFailure?))
      && (r.status == 201 <==> !SaysNoEvent(body) && handOff.Replied? && handOff.reply.Created?)
      && (r.status == 400 || r.status == 500 || r.status == 201)
      && (r.status != 201 ==> r.body.None?)
  {
    hide ReadEvent, SaysNoEvent, BlockText;
    NothingReadIsSaid(body);
  }

  /** A 201 tells the truth: its body reads as a block that carries the posted event, stands in the
      chain at its index and is on disk. */
  lemma CreatedResponseIsTrue(sha: Sha, s: State, i: nat, body: string) returns (k: nat)
    requires Inv(sha, s) && i < |s.served| && SaysEvent(body, s.served[i].request.event)
    ensures var r := PostEvents(body, Replied(s.served[i].reply));
      && (r.status == 201 <==> s.served[i].reply.Created?)
      && (r.status == 201 ==>
            && r.body.Some? && k < |s.chain| && ReadBlock(r.body.value) == Some(s.chain[k])
            && s.chain[k] == s.served[i].reply.block && s.chain[k].index == Wrap(k)
            && Durable(s, k) && SaysEvent(body, s.chain[k].event))
  {
    hide Inv, ReadBlock, BlockText, ReadEvent, EncodeLog, ChainOk, ServiceOk, ClientsOk, MainOk, WellFormedEvent,
        SaysEvent;
    k := 0;
    ReadEventIsSaid(body, s.served[i].request.event);
    if s.served[i].reply.Created? {
      k := RepliedIsDurable(sha, s, i);
      InvParts(sha, s);
      assert WellFormedEvent(s.chain[k].event);
      BlockRoundTrip(s.chain[k]);
    }
  }
}
