/**
 The badge-classification pass of the Yurplan client (`get_badge_info`).

 Every fetched ticket gets a badge type from its ticket-type id (four independent
 checks, so the last one that matches wins), an exception map may force a type
 for a token, tickets left without a non-empty type are dropped, the kept ones
 get their names corrected, and each becomes a four-field badge record. The
 ticket list is an input: fetching it is the client's business (module Client).
 */
module Badges {
  import opened Options

  const ATTENDEE: string := "ATTENDEE"
  const SPEAKER: string := "SPEAKER"
  const SPONSOR: string := "SPONSOR"
  const STAFF: string := "STAFF"

  /** A raw ticket as fetched: the fields the pass reads (`type.id` is `typeId`). */
  datatype Ticket = Ticket(token: string, typeId: string, firstname: string, lastname: string)

  /** The four configured ticket-type ids, in the order the pass checks them. */
  datatype TypeIds = TypeIds(conf: string, speaker: string, sponsor: string, staff: string)

  /** The ids `get_badge_info` uses when its caller passes none. */
  const DefaultTypeIds: TypeIds := TypeIds("11201", "12310", "12322", "12309")

  /** token -> forced badge type */
  type Exceptions = map<string, string>

  /** token -> (firstname, lastname) */
  type Corrections = map<string, (string, string)>

  /** A kept ticket: the ticket after name corrections together with its `_type`. */
  datatype Selected = Selected(ticket: Ticket, badgeType: string)

  /** What the pass hands to badge rendering; `badgeType` is the record's `type` key. */
  datatype Record = Record(firstname: string, lastname: string, token: string, badgeType: string)

  /** Does the ticket-type id equal at least one configured id? */
  predicate MatchesAny(typeId: string, ids: TypeIds) {
    typeId == ids.conf || typeId == ids.speaker || typeId == ids.sponsor || typeId == ids.staff
  }

  /**
   The `_type` the four checks leave behind, each check overwriting the previous
   one; None when no check matched (the key was never written).
   */
  function Classify(typeId: string, ids: TypeIds): (r: Option<string>)
    ensures r.None? <==> !MatchesAny(typeId, ids)
    ensures r.Some? ==> r.value in {ATTENDEE, SPEAKER, SPONSOR, STAFF}
  {
    var afterConf := if typeId == ids.conf then Some(ATTENDEE) else None;
    var afterSpeaker := if typeId == ids.speaker then Some(SPEAKER) else afterConf;
    var afterSponsor := if typeId == ids.sponsor then Some(SPONSOR) else afterSpeaker;
    if typeId == ids.staff then Some(STAFF) else afterSponsor
  }

  /**
   The exception step as written: when the token is a key, `_type` becomes
   `exceptions.get(token, <previous _type or ATTENDEE>)`. Because the key test
   comes first, the default of that `get` can never be chosen.
   */
  function ApplyException(token: string, prior: Option<string>, exceptions: Exceptions): (r: Option<string>)
    ensures token in exceptions ==> r == Some(exceptions[token])
    ensures token !in exceptions ==> r == prior
  {
    if token in exceptions then Some(DictGet(exceptions, token, prior.GetOr(ATTENDEE)))
    else prior
  }

  /** The ticket's `_type` after classification and the exception step. */
  function FinalType(t: Ticket, ids: TypeIds, exceptions: Exceptions): Option<string> {
    ApplyException(t.token, Classify(t.typeId, ids), exceptions)
  }

  /** Python truthiness of `ticket.get('_type')`: present and not the empty string. */
  predicate Truthy(badgeType: Option<string>) {
    badgeType.Some? && badgeType.value != ""
  }

  /** Is the ticket kept by the pass? */
  predicate Kept(t: Ticket, ids: TypeIds, exceptions: Exceptions) {
    Truthy(FinalType(t, ids, exceptions))
  }

  /** The ticket with its names replaced when its token has a correction. */
  function Correct(t: Ticket, corrections: Corrections): Ticket {
    if t.token in corrections then
      t.(firstname := corrections[t.token].0, lastname := corrections[t.token].1)
    else t
  }

  /** One iteration of the loop: the kept, corrected ticket, or None when it is dropped. */
  function ProcessTicket(t: Ticket, ids: TypeIds, exceptions: Exceptions, corrections: Corrections)
    : (r: Option<Selected>)
    ensures r.Some? <==>
              (t.token in exceptions && exceptions[t.token] != "")
              || (t.token !in exceptions && MatchesAny(t.typeId, ids))
    ensures r.Some? ==> r.value.ticket.token == t.token && r.value.ticket.typeId == t.typeId
    ensures r.Some? ==> r.value.badgeType != ""
    ensures r.Some? && t.token in exceptions ==> r.value.badgeType == exceptions[t.token]
    ensures r.Some? && t.token !in exceptions ==> Some(r.value.badgeType) == Classify(t.typeId, ids)
    ensures r.Some? && t.token in corrections ==>
              (r.value.ticket.firstname, r.value.ticket.lastname) == corrections[t.token]
    ensures r.Some? && t.token !in corrections ==>
              r.value.ticket.firstname == t.firstname && r.value.ticket.lastname == t.lastname
  {
    var badgeType := FinalType(t, ids, exceptions);
    if Truthy(badgeType) then Some(Selected(Correct(t, corrections), badgeType.value)) else None
  }

  /** The `conf_tickets` list: the kept tickets of `ts`, appended in fetch order. */
  function SelectTickets(ts: seq<Ticket>, ids: TypeIds, exceptions: Exceptions, corrections: Corrections)
    : (r: seq<Selected>)
    ensures |r| <= |ts|
    ensures forall k :: 0 <= k < |r| ==> r[k].badgeType != ""
    decreases |ts|
  {
    if |ts| == 0 then []
    else
      var kept := SelectTickets(ts[..|ts| - 1], ids, exceptions, corrections);
      match ProcessTicket(ts[|ts| - 1], ids, exceptions, corrections)
      case Some(s) => kept + [s]
      case None => kept
  }

  /** The record built from a kept ticket: its four fields and nothing else. */
  function ToRecord(s: Selected): Record {
    Record(s.ticket.firstname, s.ticket.lastname, s.ticket.token, s.badgeType)
  }

  /** The final list comprehension over `conf_tickets`. */
  function ToRecords(ss: seq<Selected>): seq<Record> {
    seq(|ss|, k requires 0 <= k < |ss| => ToRecord(ss[k]))
  }

  /** `get_badge_info` on an already fetched ticket list. */
  function BadgeInfo(ts: seq<Ticket>, ids: TypeIds, exceptions: Exceptions, corrections: Corrections)
    : (r: seq<Record>)
    ensures |r| <= |ts|
    ensures forall k :: 0 <= k < |r| ==> r[k].badgeType != ""
  {
    ToRecords(SelectTickets(ts, ids, exceptions, corrections))
  }
}
