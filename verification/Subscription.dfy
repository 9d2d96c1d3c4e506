/** A change stream that reconnects by itself and never skips a change. */
module Subscription {
  import opened Model

  type ChangeId = nat

  datatype QueryEvent = Columns | Row | EndOfQuery(changeId: Option<ChangeId>) | Change(id: ChangeId) | ErrorEvent

  /**
   * What the body yields when polled: a line that decodes, one that decodes at most without its row
   * type, or trouble.
   */
  datatype Frame =
    | NoFrame | Typed(event: QueryEvent) | Untyped(metadata: Option<QueryEvent>) | LongLine | BrokenBody | EndOfBody

  datatype Response = NoResponse | Accepts | Fails

  /** The outside world during one poll. */
  datatype Moment = Moment(timerDone: bool, response: Response, frame: Frame)

  datatype SubscriptionError = Io | Deserialize | MissedChange(expected: ChangeId, got: ChangeId)
    | MaxLineLengthExceeded | UnfinishedQuery | MaxRetryAttempts

  datatype Poll<T> = NotYet | Got(value: T)

  /** An item of the stream; `None` is its end. */
  type Item = Option<Result<QueryEvent, SubscriptionError>>

  const MAX_RETRIES: nat := 10

  // ---------------------------------------------------------------------------
  // The log of a run
  // ---------------------------------------------------------------------------

  /** End-of-query markers seen, changes accepted, resubscribe requests sent, and how polls ended. */
  datatype Entry =
    | Marker(at: Option<ChangeId>) | Accepted(id: ChangeId) | Resubscribed(from: Option<ChangeId>) | Broken | Settled

  /** Where the log stands in the change sequence. */
  function Position(log: seq<Entry>): Option<ChangeId> {
    if log == [] then None
    else match log[|log| - 1] {
      case Marker(at) => at
      case Accepted(id) => Some(id)
      case _ => Position(log[..|log| - 1])
    }
  }

  predicate QueryEnded(log: seq<Entry>) {
    exists i :: 0 <= i < |log| && log[i].Marker?
  }

  /** Failures since the last poll that came to anything. */
  function Failures(log: seq<Entry>): nat {
    if log == [] || log[|log| - 1].Settled? then 0
    else Failures(log[..|log| - 1]) + if log[|log| - 1].Broken? then 1 else 0
  }

  /** `e` may follow `log`: a change continues the sequence, a request asks from where the log stands. */
  predicate Follows(log: seq<Entry>, e: Entry) {
    match e
    case Accepted(id) => Position(log).None? || id == Position(log).value + 1
    case Resubscribed(from) => from == Position(log) && QueryEnded(log)
    case _ => true
  }

  predicate GapFree(log: seq<Entry>) {
    forall i :: 0 <= i < |log| ==> Follows(log[..i], log[i])
  }

  lemma GapFreeAppend(log: seq<Entry>, e: Entry)
    requires GapFree(log) && Follows(log, e)
    ensures GapFree(log + [e])
    ensures QueryEnded(log + [e]) <==> QueryEnded(log) || e.Marker?
    ensures Position(log + [e]) == (match e case Marker(at) => at case Accepted(id) => Some(id) case _ => Position(log))
    ensures Failures(log + [e]) == (match e case Settled => 0 case Broken => Failures(log) + 1 case _ => Failures(log))
  {
    var all := log + [e];
    assert all[..|log|] == log;
    forall i | 0 <= i < |all| ensures Follows(all[..i], all[i]) {
      if i < |log| { assert all[..i] == log[..i]; }
    }
    assert all[|log|] == e;
    if QueryEnded(log) {
      var i :| 0 <= i < |log| && log[i].Marker?;
      assert all[i].Marker?;
    }
  }

  /** A stream's fields agree with the log of its run. */
  ghost predicate Coherent(log: seq<Entry>, last: Option<ChangeId>, ended: bool, backoffCount: nat) {
    && GapFree(log)
    && last == Position(log)
    && ended == QueryEnded(log)
    && backoffCount == if Failures(log) < MAX_RETRIES then Failures(log) else MAX_RETRIES
  }

  lemma CoherentMarker(log: seq<Entry>, last: Option<ChangeId>, ended: bool, count: nat, at: Option<ChangeId>)
    requires Coherent(log, last, ended, count)
    ensures Coherent(log + [Marker(at)], at, true, count)
  {
    GapFreeAppend(log, Marker(at));
  }

  lemma CoherentChange(log: seq<Entry>, last: Option<ChangeId>, ended: bool, count: nat, id: ChangeId)
    requires Coherent(log, last, ended, count) && (last.None? || id == last.value + 1)
    ensures Coherent(log + [Accepted(id)], Some(id), ended, count)
  {
    GapFreeAppend(log, Accepted(id));
  }

  lemma CoherentRequest(log: seq<Entry>, last: Option<ChangeId>, count: nat)
    requires Coherent(log, last, true, count)
    ensures Coherent(log + [Resubscribed(last)], last, true, count)
  {
    GapFreeAppend(log, Resubscribed(last));
  }

  lemma CoherentClosing(log: seq<Entry>, last: Option<ChangeId>, ended: bool, count: nat, look: Poll<Item>)
    requires Coherent(log, last, ended, count)
    ensures Coherent(
      log + Closing(look), last, ended,
      if look.NotYet? then count
      else if look.value != Some(Err(Io)) then 0
      else if count < MAX_RETRIES then count + 1 else count)
  {
    if look.NotYet? {
      assert log + [] == log;
    } else {
      GapFreeAppend(log, Closing(look)[0]);
    }
  }

  /** The retry counter is the number of failures in a row, capped at ten. */
  lemma RetriesAreBounded(s: SubscriptionStream)
    requires s.Valid()
    ensures s.backoffCount <= MAX_RETRIES
    ensures s.backoffCount == MAX_RETRIES <==> Failures(s.log) >= MAX_RETRIES
  {
  }

  function AcceptedBetween(log: seq<Entry>, i: nat, j: nat): nat
    requires i <= j <= |log|
  {
    if i == j then 0 else AcceptedBetween(log, i, j - 1) + if log[j - 1].Accepted? then 1 else 0
  }

  /** Between two markers the accepted ids count up by one, across any number of reconnects. */
  lemma {:induction false} AcceptedIdsAreConsecutive(log: seq<Entry>, i: nat, j: nat)
    requires GapFree(log) && i < j <= |log| && log[i].Accepted?
    requires forall k :: i < k < j ==> !log[k].Marker?
    ensures Position(log[..j]) == Some(log[i].id + AcceptedBetween(log, i + 1, j))
    decreases j
  {
    assert log[..j][j - 1] == log[j - 1] && log[..j][..j - 1] == log[..j - 1];
    if j > i + 1 {
      AcceptedIdsAreConsecutive(log, i, j - 1);
      assert Follows(log[..j - 1], log[j - 1]);
    }
  }

  /** In particular the k-th change after a marker with id `m` has id `m + k`. */
  lemma {:induction false} AcceptedIdsContinueMarker(log: seq<Entry>, i: nat, j: nat)
    requires GapFree(log) && i < j <= |log| && log[i].Marker? && log[i].at.Some?
    requires forall k :: i < k < j ==> !log[k].Marker?
    ensures Position(log[..j]) == Some(log[i].at.value + AcceptedBetween(log, i + 1, j))
    decreases j
  {
    assert log[..j][j - 1] == log[j - 1] && log[..j][..j - 1] == log[..j - 1];
    if j > i + 1 {
      AcceptedIdsContinueMarker(log, i, j - 1);
      assert Follows(log[..j - 1], log[j - 1]);
    }
  }

  // ---------------------------------------------------------------------------
  // The stream
  // ---------------------------------------------------------------------------

  class SubscriptionStream {
    var observedEoq: bool
    var lastChangeId: Option<ChangeId>
    /** Whether there is a body to read. */
    var stream: bool
    var backoff: bool
    var backoffCount: nat
    /** The resubscribe request in flight, by the id it asks from. */
    var response: Option<Option<ChangeId>>
    ghost var log: seq<Entry>

    ghost predicate Valid()
      reads this
    {
      && Coherent(log, lastChangeId, observedEoq, backoffCount)
      && (response.Some? ==> !stream && observedEoq && response.value == lastChangeId)
      && (backoff ==> !stream)
    }

    ghost function Value(): StreamState
      reads this
    {
      StreamState(observedEoq, lastChangeId, stream, backoff, backoffCount, response)
    }

    constructor (changeId: Option<ChangeId>)
      ensures Valid() && stream && !backoff && response.None?
      ensures observedEoq == changeId.Some? && lastChangeId == changeId
      ensures log == if changeId.Some? then [Marker(changeId)] else []
    {
      observedEoq, lastChangeId := changeId.Some?, changeId;
      stream, backoff, backoffCount, response := true, false, 0, None;
      log := if changeId.Some? then [Marker(changeId)] else [];
      new;
      assert changeId.Some? ==> log[0].Marker?;
    }

    method HandleEoq(changeId: Option<ChangeId>)
      requires Valid() && stream
      modifies this`observedEoq, this`lastChangeId, this`log
      ensures Valid() && observedEoq && lastChangeId == changeId && log == old(log) + [Marker(changeId)]
    {
      hide Coherent;
      CoherentMarker(log, lastChangeId, observedEoq, backoffCount, changeId);
      log := log + [Marker(changeId)];
      observedEoq, lastChangeId := true, changeId;
    }

    /** Accepts the change exactly when it continues the sequence or there is none yet. */
    method HandleChange(changeId: ChangeId) returns (r: Option<SubscriptionError>)
      requires Valid() && stream
      modifies this`lastChangeId, this`log
      ensures Valid()
      ensures r.None? <==> old(lastChangeId).None? || changeId == old(lastChangeId).value + 1
      ensures r.None? ==> lastChangeId == Some(changeId) && log == old(log) + [Accepted(changeId)]
      ensures r.Some? ==> r.value == MissedChange(old(lastChangeId).value + 1, changeId)
      ensures r.Some? ==> lastChangeId == old(lastChangeId) && log == old(log)
    {
      hide Coherent;
      if lastChangeId.Some? && lastChangeId.value + 1 != changeId {
        return Some(MissedChange(lastChangeId.value + 1, changeId));
      }
      CoherentChange(log, lastChangeId, observedEoq, backoffCount, changeId);
      log := log + [Accepted(changeId)];
      lastChangeId := Some(changeId);
      r := None;
    }

    /**
     * Waits for the answer of the resubscribe request, sending one first if there is none: never
     * before the query has ended, and always from the last accepted id.
     */
    method PollReconnect(answer: Response) returns (r: Poll<Option<SubscriptionError>>)
      requires Valid() && !stream
      modifies this`response, this`log
      ensures Valid() && log == old(log) + Request(false, observedEoq, old(response), lastChangeId)
      ensures r == if !observedEoq then Got(Some(UnfinishedQuery))
                   else match answer { case NoResponse => NotYet case Accepts => Got(None) case Fails => Got(Some(Io)) }
      ensures response == if r.NotYet? then Some(lastChangeId) else None
    {
      hide Coherent;
      if response.None? {
        if !observedEoq {
          return Got(Some(UnfinishedQuery));
        }
        CoherentRequest(log, lastChangeId, backoffCount);
        log := log + [Resubscribed(lastChangeId)];
        response := Some(lastChangeId);
      }
      match answer {
        case NoResponse => r := NotYet;
        case Accepts => response := None; r := Got(None);
        case Fails => response := None; r := Got(Some(Io));
      }
    }

    /** Follows the end-of-query markers and changes of a decoded line. */
    method Track(event: QueryEvent) returns (r: Option<SubscriptionError>)
      requires Valid() && stream
      modifies this`observedEoq, this`lastChangeId, this`log
      ensures Valid()
      ensures log == old(log) + Tracked(event, old(lastChangeId))
      ensures Missed(event, old(lastChangeId)) ==> r == Some(MissedChange(old(lastChangeId).value + 1, event.id))
      ensures !Missed(event, old(lastChangeId)) ==> r == None
      ensures lastChangeId == LastAfter(old(lastChangeId), Tracked(event, old(lastChangeId)))
      ensures observedEoq == EndedAfter(old(observedEoq), Tracked(event, old(lastChangeId)))
    {
      hide Coherent;
      match event {
        case EndOfQuery(changeId) => HandleEoq(changeId); r := None;
        case Change(changeId) => r := HandleChange(changeId);
        case _ => r := None;
      }
    }

    /** What one look at the connection yields, and what it adds to the log. */
    method PollStream(moment: Moment) returns (r: Poll<Item>)
      requires Valid() && !backoff
      modifies this`observedEoq, this`lastChangeId, this`stream, this`response, this`log
      ensures Valid() && (r == Got(Some(Err(Io))) ==> response.None?)
      ensures r == Look(moment, old(stream), old(observedEoq), old(lastChangeId))
      ensures stream == Reads(moment, old(stream), old(observedEoq))
      ensures lastChangeId == LastAfter(old(lastChangeId),
        Heard(moment, old(stream), old(observedEoq), old(lastChangeId)))
      ensures observedEoq == EndedAfter(old(observedEoq),
        Heard(moment, old(stream), old(observedEoq), old(lastChangeId)))
      ensures response == InFlight(moment, old(stream), old(observedEoq), old(response), old(lastChangeId))
      ensures log == old(log) + Request(old(stream), old(observedEoq), old(response), old(lastChangeId))
                              + Heard(moment, old(stream), old(observedEoq), old(lastChangeId))
    {
      hide Coherent;
      if !stream {
        var reconnected := PollReconnect(moment.response);
        match reconnected {
          case NotYet => return NotYet;
          case Got(Some(e)) => return Got(Some(Err(e)));
          case Got(None) => stream := true;
        }
      }
      match moment.frame {
        case NoFrame => r := NotYet;
        case Typed(event) =>
          var tracked := Track(event);
          r := Got(Some(if tracked.Some? then Err(tracked.value) else Ok(event)));
        case Untyped(event) =>
          if event.Some? {
            var ignored := Track(event.value);
          }
          r := Got(Some(Err(Deserialize)));
        case LongLine => r := Got(Some(Err(MaxLineLengthExceeded)));
        case BrokenBody => r := Got(Some(Err(Io)));
        case EndOfBody => r := Got(None);
      }
    }

    /**
     * One poll: I/O errors are turned into a pause and a reconnect until ten in a row have been,
     * everything else is passed on.
     */
    method PollNext(moment: Moment) returns (r: Poll<Item>)
      requires Valid()
      modifies this
      ensures Valid() && Value() == AfterPoll(old(Value()), moment) && r == ReplyTo(old(Value()), moment)
      ensures log == old(log) + EntriesOf(old(Value()), moment)
    {
      hide Coherent, Look, Heard, Request, Reads, InFlight, LastAfter, EndedAfter;
      if backoff {
        if !moment.timerDone {
          return NotYet;
        }
        backoff := false;
      }
      var look := PollStream(moment);
      CoherentClosing(log, lastChangeId, observedEoq, backoffCount, look);
      log := log + Closing(look);
      if look.NotYet? {
        return NotYet;
      }
      if look.value != Some(Err(Io)) {
        backoffCount := 0;
        return look;
      }
      stream := false;
      if backoffCount >= MAX_RETRIES {
        return Got(Some(Err(MaxRetryAttempts)));
      }
      backoff, backoffCount := true, backoffCount + 1;
      return NotYet;
    }
  }

  // ---------------------------------------------------------------------------
  // One poll
  // ---------------------------------------------------------------------------

  /** The poll gets as far as the body: it was there, or a resubscribe request has just been accepted. */
  predicate Reads(moment: Moment, stream: bool, ended: bool) {
    stream || (ended && moment.response == Accepts)
  }

  function Look(moment: Moment, stream: bool, ended: bool, last: Option<ChangeId>): Poll<Item> {
    if Reads(moment, stream, ended) then ItemOf(moment.frame, last)
    else if !ended then Got(Some(Err(UnfinishedQuery)))
    else if moment.response == NoResponse then NotYet
    else Got(Some(Err(Io)))
  }

  /** The position after the entries of one line. */
  function LastAfter(last: Option<ChangeId>, entries: seq<Entry>): Option<ChangeId> {
    if entries == [] then last
    else match entries[|entries| - 1] {
      case Marker(at) => at
      case Accepted(id) => Some(id)
      case _ => last
    }
  }

  predicate EndedAfter(ended: bool, entries: seq<Entry>) {
    ended || (entries != [] && entries[|entries| - 1].Marker?)
  }

  /** The request in flight after a look at the connection. */
  function InFlight(
    moment: Moment, stream: bool, ended: bool, response: Option<Option<ChangeId>>, last: Option<ChangeId>)
    : Option<Option<ChangeId>>
  {
    if stream || !ended then response else if moment.response == NoResponse then Some(last) else None
  }

  /** A stream between polls. */
  datatype StreamState = StreamState(
    ended: bool, last: Option<ChangeId>, stream: bool, backoff: bool, backoffCount: nat,
    response: Option<Option<ChangeId>>)

  predicate Paused(s: StreamState, moment: Moment) { s.backoff && !moment.timerDone }

  function AfterPoll(s: StreamState, moment: Moment): StreamState {
    if Paused(s, moment) then s
    else
      var look, heard := Look(moment, s.stream, s.ended, s.last), Heard(moment, s.stream, s.ended, s.last);
      var broken := look == Got(Some(Err(Io)));
      StreamState(
        EndedAfter(s.ended, heard), LastAfter(s.last, heard), Reads(moment, s.stream, s.ended) && !broken,
        broken && s.backoffCount < MAX_RETRIES,
        if look.NotYet? then s.backoffCount else if !broken then 0
        else if s.backoffCount < MAX_RETRIES then s.backoffCount + 1 else s.backoffCount,
        InFlight(moment, s.stream, s.ended, s.response, s.last))
  }

  /** I/O errors are turned into a pause until ten in a row have been; everything else is passed on. */
  function ReplyTo(s: StreamState, moment: Moment): Poll<Item> {
    var look := Look(moment, s.stream, s.ended, s.last);
    if Paused(s, moment) then NotYet
    else if look != Got(Some(Err(Io))) then look
    else if s.backoffCount >= MAX_RETRIES then Got(Some(Err(MaxRetryAttempts)))
    else NotYet
  }

  /** What a poll adds to the log. */
  function EntriesOf(s: StreamState, moment: Moment): seq<Entry> {
    var request, heard := Request(s.stream, s.ended, s.response, s.last), Heard(moment, s.stream, s.ended, s.last);
    if Paused(s, moment) then [] else request + heard + Closing(Look(moment, s.stream, s.ended, s.last))
  }

  function StateAfter(s: StreamState, moments: seq<Moment>, n: nat): StreamState
    requires n <= |moments|
  {
    if n == 0 then s else AfterPoll(StateAfter(s, moments, n - 1), moments[n - 1])
  }

  /** What the first `n` polls of a run add to the log. */
  function EntriesAfter(s: StreamState, moments: seq<Moment>, n: nat): seq<Entry>
    requires n <= |moments|
  {
    if n == 0 then []
    else EntriesAfter(s, moments, n - 1) + EntriesOf(StateAfter(s, moments, n - 1), moments[n - 1])
  }

  function ItemOf(frame: Frame, last: Option<ChangeId>): Poll<Item> {
    match frame
    case NoFrame => NotYet
    case Typed(event) =>
      Got(Some(if Missed(event, last) then Err(MissedChange(last.value + 1, event.id)) else Ok(event)))
    case Untyped(_) => Got(Some(Err(Deserialize)))
    case LongLine => Got(Some(Err(MaxLineLengthExceeded)))
    case BrokenBody => Got(Some(Err(Io)))
    case EndOfBody => Got(None)
  }

  function Request(stream: bool, ended: bool, response: Option<Option<ChangeId>>, last: Option<ChangeId>): seq<Entry> {
    if !stream && ended && response.None? then [Resubscribed(last)] else []
  }

  function Heard(moment: Moment, stream: bool, ended: bool, last: Option<ChangeId>): seq<Entry> {
    if !Reads(moment, stream, ended) then []
    else match moment.frame {
      case Typed(event) => Tracked(event, last)
      case Untyped(Some(event)) => Tracked(event, last)
      case _ => []
    }
  }

  function Closing(look: Poll<Item>): seq<Entry> {
    if look.NotYet? then [] else if look.value == Some(Err(Io)) then [Broken] else [Settled]
  }

  predicate Missed(event: QueryEvent, last: Option<ChangeId>) {
    event.Change? && last.Some? && event.id != last.value + 1
  }

  function Tracked(event: QueryEvent, last: Option<ChangeId>): seq<Entry> {
    match event
    case EndOfQuery(at) => [Marker(at)]
    case Change(id) => if Missed(event, last) then [] else [Accepted(id)]
    case _ => []
  }

  // ---------------------------------------------------------------------------
  // Whole runs
  // ---------------------------------------------------------------------------

  function AcceptedIds(log: seq<Entry>): seq<ChangeId> {
    if log == [] then []
    else AcceptedIds(log[..|log| - 1]) + if log[|log| - 1].Accepted? then [log[|log| - 1].id] else []
  }

  lemma {:induction false} AcceptedIdsOfConcat(a: seq<Entry>, b: seq<Entry>)
    ensures AcceptedIds(a + b) == AcceptedIds(a) + AcceptedIds(b)
  {
    if b == [] {
      assert a + b == a;
    } else {
      AcceptedIdsOfConcat(a, b[..|b| - 1]);
      assert (a + b)[..|a + b| - 1] == a + b[..|b| - 1];
    }
  }

  function Delivered(r: Poll<Item>): seq<ChangeId> {
    match r
    case Got(Some(Ok(Change(id)))) => [id]
    case _ => []
  }

  function AllDelivered(items: seq<Poll<Item>>): seq<ChangeId> {
    if items == [] then [] else AllDelivered(items[..|items| - 1]) + Delivered(items[|items| - 1])
  }

  /** No line carries a change whose row cannot be decoded. */
  predicate Decodable(moment: Moment) {
    match moment.frame
    case Untyped(Some(Change(_))) => false
    case _ => true
  }

  lemma PollDelivers(s: StreamState, moment: Moment)
    requires Decodable(moment)
    ensures AcceptedIds(EntriesOf(s, moment)) == Delivered(ReplyTo(s, moment))
  {
    hide Look, Heard, Closing, Request;
    if !Paused(s, moment) {
      var look := Look(moment, s.stream, s.ended, s.last);
      var request, heard := Request(s.stream, s.ended, s.response, s.last), Heard(moment, s.stream, s.ended, s.last);
      AcceptedIdsOfConcat(request + heard, Closing(look));
      AcceptedIdsOfConcat(request, heard);
      RequestAcceptsNothing(s.stream, s.ended, s.response, s.last);
      ClosingAcceptsNothing(look);
      HeardIsDelivered(moment, s.stream, s.ended, s.last);
    }
  }

  lemma RequestAcceptsNothing(stream: bool, ended: bool, response: Option<Option<ChangeId>>, last: Option<ChangeId>)
    ensures AcceptedIds(Request(stream, ended, response, last)) == []
  {
  }

  lemma ClosingAcceptsNothing(look: Poll<Item>)
    ensures AcceptedIds(Closing(look)) == []
  {
  }

  /** A poll hands over what it accepts, except when it accepts a change whose row it cannot decode. */
  lemma HeardIsDelivered(moment: Moment, stream: bool, ended: bool, last: Option<ChangeId>)
    ensures AcceptedIds(Heard(moment, stream, ended, last)) == Delivered(Look(moment, stream, ended, last)) <==>
      !(Reads(moment, stream, ended) && !Decodable(moment) && !Missed(moment.frame.metadata.value, last))
  {
  }

  /** While rows decode, a run hands over exactly the changes it accepts. */
  lemma {:induction false} RunDelivers(s: StreamState, moments: seq<Moment>, items: seq<Poll<Item>>, n: nat)
    requires n <= |moments| == |items| && forall i :: 0 <= i < n ==> Decodable(moments[i])
    requires forall i: nat :: i < n ==> items[i] == ReplyTo(StateAfter(s, moments, i), moments[i])
    ensures AcceptedIds(EntriesAfter(s, moments, n)) == AllDelivered(items[..n])
  {
    hide EntriesOf, ReplyTo, AfterPoll, Decodable, Delivered, AcceptedIds;
    if n == 0 {
      NothingAccepted();
    } else {
      RunDelivers(s, moments, items, n - 1);
      var before := StateAfter(s, moments, n - 1);
      AcceptedIdsOfConcat(EntriesAfter(s, moments, n - 1), EntriesOf(before, moments[n - 1]));
      PollDelivers(before, moments[n - 1]);
      assert items[..n][..n - 1] == items[..n - 1];
    }
  }

  lemma NothingAccepted()
    ensures AcceptedIds([]) == []
  {
  }

  /**
   * Any run of polls, with any disconnects: every reply is that of the poll, the log stays gap-free,
   * and as long as rows decode the consumer is handed exactly the accepted changes, once and in order.
   */
  method Drive(s: SubscriptionStream, moments: seq<Moment>) returns (items: seq<Poll<Item>>)
    requires s.Valid()
    modifies s
    ensures s.Valid() && |items| == |moments|
    ensures s.Value() == StateAfter(old(s.Value()), moments, |moments|)
    ensures forall i: nat :: i < |moments| ==> items[i] == ReplyTo(StateAfter(old(s.Value()), moments, i), moments[i])
    ensures s.log == old(s.log) + EntriesAfter(old(s.Value()), moments, |moments|)
    ensures (forall i :: 0 <= i < |moments| ==> Decodable(moments[i])) ==>
      AcceptedIds(s.log) == AcceptedIds(old(s.log)) + AllDelivered(items)
  {
    hide EntriesOf, ReplyTo, AfterPoll, Decodable, Coherent, Delivered, AcceptedIds;
    items := [];
    ghost var first := s.Value();
    for i := 0 to |moments|
      invariant s.Valid() && |items| == i && s.Value() == StateAfter(first, moments, i)
      invariant forall j: nat :: j < i ==> items[j] == ReplyTo(StateAfter(first, moments, j), moments[j])
      invariant s.log == old(s.log) + EntriesAfter(first, moments, i)
    {
      var r := s.PollNext(moments[i]);
      items := items + [r];
    }
    AcceptedIdsOfConcat(old(s.log), EntriesAfter(first, moments, |moments|));
    if forall i :: 0 <= i < |moments| ==> Decodable(moments[i]) {
      RunDelivers(first, moments, items, |moments|);
      assert items[..|moments|] == items;
    }
  }

  // ---------------------------------------------------------------------------
  // What a poll does, by what it meets
  // ---------------------------------------------------------------------------

  /** The pause is over, and there is a body to read: an open one, or one just granted by a resubscription. */
  ghost predicate ReadsBody(s: StreamState, m: Moment) {
    (s.backoff ==> m.timerDone) && (s.stream || (s.ended && m.response == Accepts))
  }

  /** The connection fails: the body breaks, or the resubscription does. */
  ghost predicate ConnectionFails(s: StreamState, m: Moment) {
    || (ReadsBody(s, m) && m.frame == BrokenBody)
    || ((s.backoff ==> m.timerDone) && !s.stream && s.ended && m.response == Fails)
  }

  /** What the consumer is told. */
  lemma ReplyExact(s: StreamState, m: Moment, event: QueryEvent)
    ensures ReplyTo(s, m) == Got(Some(Ok(event))) <==>
      && ReadsBody(s, m) && m.frame == Typed(event)
      && (event.Change? && s.last.Some? ==> event.id == s.last.value + 1)
    ensures ReplyTo(s, m) == Got(None) <==> ReadsBody(s, m) && m.frame == EndOfBody
    ensures ReplyTo(s, m) == Got(Some(Err(Deserialize))) <==> ReadsBody(s, m) && m.frame.Untyped?
    ensures ReplyTo(s, m) == Got(Some(Err(MaxLineLengthExceeded))) <==> ReadsBody(s, m) && m.frame == LongLine
    ensures ReplyTo(s, m) == Got(Some(Err(UnfinishedQuery))) <==> (s.backoff ==> m.timerDone) && !s.stream && !s.ended
    ensures ReplyTo(s, m) == Got(Some(Err(MaxRetryAttempts))) <==> ConnectionFails(s, m) && s.backoffCount >= 10
    ensures ReplyTo(s, m) != Got(Some(Err(Io)))
  {
  }

  /** A change out of sequence is reported with the id that was expected. */
  lemma GapExact(s: StreamState, m: Moment, expected: ChangeId, got: ChangeId)
    ensures ReplyTo(s, m) == Got(Some(Err(MissedChange(expected, got)))) <==>
      && ReadsBody(s, m) && m.frame == Typed(Change(got))
      && s.last.Some? && expected == s.last.value + 1 && got != expected
  {
  }

  /** What the log gets: the markers and changes of a line, and requests from the last id once the query has ended. */
  lemma EntriesExact(s: StreamState, m: Moment, e: Entry)
    requires !e.Broken? && !e.Settled?
    ensures e in EntriesOf(s, m) <==> match e
      case Marker(at) =>
        ReadsBody(s, m) && (m.frame == Typed(EndOfQuery(at)) || m.frame == Untyped(Some(EndOfQuery(at))))
      case Accepted(id) =>
        && ReadsBody(s, m) && (m.frame == Typed(Change(id)) || m.frame == Untyped(Some(Change(id))))
        && (s.last.Some? ==> id == s.last.value + 1)
      case Resubscribed(from) =>
        (s.backoff ==> m.timerDone) && !s.stream && s.ended && s.response.None? && from == s.last
      case _ => false
  {
  }

  /** A failing connection is given up, with a pause for the first ten failures in a row; nothing else is. */
  lemma FailureExact(s: StreamState, m: Moment)
    ensures
      var t := AfterPoll(s, m);
      && (ConnectionFails(s, m) ==>
        && !t.stream && t.backoff == (s.backoffCount < 10)
        && (s.backoffCount < 10 ==> t.backoffCount == s.backoffCount + 1))
      && (!ConnectionFails(s, m) && ReadsBody(s, m) ==> t.stream && !t.backoff)
      && (!ConnectionFails(s, m) && ReplyTo(s, m).Got? ==> t.backoffCount == 0)
  {
  }

  /** So a consumer hears of the eleventh failure in a row, and of none before it. */
  lemma {:induction false} ElevenFailures(s: StreamState, moments: seq<Moment>, n: nat)
    requires s.backoffCount == 0 && n < |moments| && n <= 10
    requires forall i: nat :: i <= n ==> ConnectionFails(StateAfter(s, moments, i), moments[i])
    ensures StateAfter(s, moments, n).backoffCount == n
    ensures ReplyTo(StateAfter(s, moments, n), moments[n]) ==
      if n < 10 then NotYet else Got(Some(Err(MaxRetryAttempts)))
  {
    hide AfterPoll, ReplyTo, ConnectionFails;
    if n > 0 {
      ElevenFailures(s, moments, n - 1);
      FailureExact(StateAfter(s, moments, n - 1), moments[n - 1]);
    }
    FailedReply(StateAfter(s, moments, n), moments[n]);
  }

  lemma FailedReply(s: StreamState, m: Moment)
    requires ConnectionFails(s, m)
    ensures ReplyTo(s, m) == if s.backoffCount < 10 then NotYet else Got(Some(Err(MaxRetryAttempts)))
  {
  }

  /** While a request is unanswered none is sent again, and an answer of either kind settles it. */
  lemma RequestExact(s: StreamState, m: Moment)
    requires s.response.Some? ==> !s.stream && s.ended && s.response.value == s.last
    ensures AfterPoll(s, m).response ==
      if s.backoff && !m.timerDone then s.response
      else if !s.stream && s.ended && m.response == NoResponse then Some(s.last)
      else None
  {
  }
}
