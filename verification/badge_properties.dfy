/**
 Properties of the classification pass: which category a ticket-type id yields,
 how exceptions and corrections override it, and which tickets reach the output
 and in what order.
 */
module BadgeProperties {
  import opened Options
  import opened Badges

  /** The categories whose configured id the type id equals, in the order they are checked. */
  function MatchedCategories(typeId: string, ids: TypeIds): seq<string> {
    (if typeId == ids.conf then [ATTENDEE] else [])
    + (if typeId == ids.speaker then [SPEAKER] else [])
    + (if typeId == ids.sponsor then [SPONSOR] else [])
    + (if typeId == ids.staff then [STAFF] else [])
  }

  /** Classification picks the last matching check, and nothing when none matches. */
  lemma ClassifyIsLastMatch(typeId: string, ids: TypeIds)
    ensures var m := MatchedCategories(typeId, ids);
            Classify(typeId, ids) == if |m| == 0 then None else Some(m[|m| - 1])
  {
  }

  /** With exactly one matching id, the ticket gets that id's category. */
  lemma ClassifySingleMatch(typeId: string, ids: TypeIds)
    requires |MatchedCategories(typeId, ids)| == 1
    ensures typeId == ids.conf ==> Classify(typeId, ids) == Some(ATTENDEE)
    ensures typeId == ids.speaker ==> Classify(typeId, ids) == Some(SPEAKER)
    ensures typeId == ids.sponsor ==> Classify(typeId, ids) == Some(SPONSOR)
    ensures typeId == ids.staff ==> Classify(typeId, ids) == Some(STAFF)
  {
  }

  /** When configured ids coincide, STAFF beats SPONSOR beats SPEAKER beats ATTENDEE. */
  lemma ClassifyPriority(typeId: string, ids: TypeIds)
    ensures typeId == ids.staff ==> Classify(typeId, ids) == Some(STAFF)
    ensures typeId != ids.staff && typeId == ids.sponsor ==> Classify(typeId, ids) == Some(SPONSOR)
    ensures typeId != ids.staff && typeId != ids.sponsor && typeId == ids.speaker ==>
              Classify(typeId, ids) == Some(SPEAKER)
    ensures typeId != ids.staff && typeId != ids.sponsor && typeId != ids.speaker && typeId == ids.conf ==>
              Classify(typeId, ids) == Some(ATTENDEE)
  {
  }

  /** An exception fixes the type to the stored value, whatever the ticket-type id says. */
  lemma ExceptionOverridesType(t: Ticket, ids: TypeIds, exceptions: Exceptions)
    requires t.token in exceptions
    ensures FinalType(t, ids, exceptions) == Some(exceptions[t.token])
    ensures Kept(t, ids, exceptions) <==> exceptions[t.token] != ""
  {
  }

  /** A ticket with neither a matching id nor an exception is dropped. */
  lemma UnmatchedTicketDropped(t: Ticket, ids: TypeIds, exceptions: Exceptions, corrections: Corrections)
    requires t.token !in exceptions && !MatchesAny(t.typeId, ids)
    ensures !Kept(t, ids, exceptions)
    ensures ProcessTicket(t, ids, exceptions, corrections) == None
  {
  }

  /** Is `idx` a strictly increasing list of positions below `n`? */
  predicate IncreasingBelow(idx: seq<nat>, n: nat) {
    && (forall k :: 0 <= k < |idx| ==> idx[k] < n)
    && (forall j, k :: 0 <= j < k < |idx| ==> idx[j] < idx[k])
  }

  /**
   The positions of the kept tickets in `ts`, in increasing order. The contract
   determines the list: exactly the kept positions, each once, ascending.
   */
  function KeptIndices(ts: seq<Ticket>, ids: TypeIds, exceptions: Exceptions): (idx: seq<nat>)
    ensures IncreasingBelow(idx, |ts|)
    ensures forall i :: 0 <= i < |ts| ==> (i in idx <==> Kept(ts[i], ids, exceptions))
    decreases |ts|
  {
    if |ts| == 0 then []
    else
      var prev := KeptIndices(ts[..|ts| - 1], ids, exceptions);
      if Kept(ts[|ts| - 1], ids, exceptions) then prev + [|ts| - 1] else prev
  }

  /** The k-th kept ticket is the one at the k-th kept position. */
  lemma {:induction false} SelectTicketsFollowsKeptIndices(
    ts: seq<Ticket>, ids: TypeIds, exceptions: Exceptions, corrections: Corrections)
    ensures var sel := SelectTickets(ts, ids, exceptions, corrections);
            var idx := KeptIndices(ts, ids, exceptions);
            && |sel| == |idx|
            && forall k :: 0 <= k < |sel| ==>
                 ProcessTicket(ts[idx[k]], ids, exceptions, corrections) == Some(sel[k])
    decreases |ts|
  {
    if |ts| > 0 {
      var prefix := ts[..|ts| - 1];
      SelectTicketsFollowsKeptIndices(prefix, ids, exceptions, corrections);
      var idx := KeptIndices(prefix, ids, exceptions);
      forall k | 0 <= k < |idx|
        ensures ts[idx[k]] == prefix[idx[k]]
      {
      }
    }
  }

  /**
   The output is the ordered selection of the kept tickets: record k is built,
   field by field, from the kept ticket at the k-th kept position.
   */
  lemma BadgeInfoIsOrderedSelection(
    ts: seq<Ticket>, ids: TypeIds, exceptions: Exceptions, corrections: Corrections)
    ensures var out := BadgeInfo(ts, ids, exceptions, corrections);
            var idx := KeptIndices(ts, ids, exceptions);
            && |out| == |idx|
            && forall k :: 0 <= k < |out| ==>
                 && ProcessTicket(ts[idx[k]], ids, exceptions, corrections).Some?
                 && out[k] == ToRecord(ProcessTicket(ts[idx[k]], ids, exceptions, corrections).value)
  {
    SelectTicketsFollowsKeptIndices(ts, ids, exceptions, corrections);
  }

  /** The tokens of a list of records. */
  function RecordTokens(rs: seq<Record>): seq<string> {
    seq(|rs|, k requires 0 <= k < |rs| => rs[k].token)
  }

  /** The tokens of a list of tickets. */
  function TicketTokens(ts: seq<Ticket>): seq<string> {
    seq(|ts|, k requires 0 <= k < |ts| => ts[k].token)
  }

  /** `idx` embeds `xs` into `ys` in order. */
  predicate Embeds(idx: seq<nat>, xs: seq<string>, ys: seq<string>) {
    && |idx| == |xs|
    && IncreasingBelow(idx, |ys|)
    && forall k :: 0 <= k < |xs| ==> xs[k] == ys[idx[k]]
  }

  /** `xs` is `ys` with some elements removed and the rest kept in order. */
  ghost predicate IsSubsequence(xs: seq<string>, ys: seq<string>) {
    exists idx :: Embeds(idx, xs, ys)
  }

  /** By token, the output is a subsequence of the fetched tickets. */
  lemma BadgeInfoTokensAreSubsequence(
    ts: seq<Ticket>, ids: TypeIds, exceptions: Exceptions, corrections: Corrections)
    ensures IsSubsequence(RecordTokens(BadgeInfo(ts, ids, exceptions, corrections)), TicketTokens(ts))
  {
    BadgeInfoIsOrderedSelection(ts, ids, exceptions, corrections);
    var idx := KeptIndices(ts, ids, exceptions);
    assert Embeds(idx, RecordTokens(BadgeInfo(ts, ids, exceptions, corrections)), TicketTokens(ts));
  }

  /** Every kept ticket has its record in the output. */
  lemma KeptTicketHasRecord(
    ts: seq<Ticket>, ids: TypeIds, exceptions: Exceptions, corrections: Corrections, i: nat)
    requires i < |ts| && Kept(ts[i], ids, exceptions)
    ensures ProcessTicket(ts[i], ids, exceptions, corrections).Some?
    ensures exists k :: 0 <= k < |BadgeInfo(ts, ids, exceptions, corrections)|
              && BadgeInfo(ts, ids, exceptions, corrections)[k]
                 == ToRecord(ProcessTicket(ts[i], ids, exceptions, corrections).value)
  {
    BadgeInfoIsOrderedSelection(ts, ids, exceptions, corrections);
    var idx := KeptIndices(ts, ids, exceptions);
    var k :| 0 <= k < |idx| && idx[k] == i;
    assert BadgeInfo(ts, ids, exceptions, corrections)[k]
        == ToRecord(ProcessTicket(ts[i], ids, exceptions, corrections).value);
  }

  /** Are the tokens of `ts` pairwise distinct? */
  predicate DistinctTokens(ts: seq<Ticket>) {
    forall i, j :: 0 <= i < j < |ts| ==> ts[i].token != ts[j].token
  }

  /** With distinct tokens, a dropped ticket's token appears in no record. */
  lemma DroppedTicketHasNoRecord(
    ts: seq<Ticket>, ids: TypeIds, exceptions: Exceptions, corrections: Corrections, i: nat)
    requires DistinctTokens(ts)
    requires i < |ts| && !Kept(ts[i], ids, exceptions)
    ensures forall k :: 0 <= k < |BadgeInfo(ts, ids, exceptions, corrections)| ==>
              BadgeInfo(ts, ids, exceptions, corrections)[k].token != ts[i].token
  {
    BadgeInfoIsOrderedSelection(ts, ids, exceptions, corrections);
    var out := BadgeInfo(ts, ids, exceptions, corrections);
    var idx := KeptIndices(ts, ids, exceptions);
    forall k | 0 <= k < |out|
      ensures out[k].token != ts[i].token
    {
      assert out[k].token == ts[idx[k]].token;
      assert idx[k] != i;
    }
  }

  /**
   In the output, a token with an exception carries exactly the stored type and a
   token with a correction carries exactly the stored names.
   */
  lemma RecordsHonourOverrides(
    ts: seq<Ticket>, ids: TypeIds, exceptions: Exceptions, corrections: Corrections)
    ensures var out := BadgeInfo(ts, ids, exceptions, corrections);
            forall k :: 0 <= k < |out| ==>
              && (out[k].token in exceptions ==> out[k].badgeType == exceptions[out[k].token])
              && (out[k].token in corrections ==>
                    (out[k].firstname, out[k].lastname) == corrections[out[k].token])
  {
    BadgeInfoIsOrderedSelection(ts, ids, exceptions, corrections);
  }

  /** One attendee ticket whose id is the conference id yields one ATTENDEE record. */
  lemma AttendeeScenario()
    ensures BadgeInfo([Ticket("A", "6343", "Jo", "X")], TypeIds("6343", "2", "3", "4"), map[], map[])
            == [Record("Jo", "X", "A", ATTENDEE)]
  {
  }

  /** With the default type ids, a ticket of the staff type gets a STAFF badge. */
  lemma DefaultStaffScenario()
    ensures BadgeInfo([Ticket("B", "12309", "Al", "Z")], DefaultTypeIds, map[], map[])
            == [Record("Al", "Z", "B", STAFF)]
  {
  }

  /** An exception with an empty value drops the ticket instead of falling back. */
  lemma EmptyExceptionScenario()
    ensures BadgeInfo([Ticket("A", "6343", "Jo", "X")], TypeIds("6343", "2", "3", "4"), map["A" := ""], map[])
            == []
  {
  }
}
