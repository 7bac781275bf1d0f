/** A client's bounded send channel: `send` in the Client struct, the non-blocking sends that
    drop when the buffer is full, and the dequeue side of the write pump. */
module Mailboxes {
  import opened Domain

  /** Capacity of a client's send channel. */
  const SEND_BUFFER_SIZE: nat := 256

  datatype ErrorCode = RoomNotFound | Forbidden | SendFailed | InvalidMessage

  /** What the server puts on a client's channel. */
  datatype Msg =
    | RoomJoined(room: RoomId, members: seq<UserId>)
    | Failure(code: ErrorCode)
    | Payload(room: RoomId, data: nat)
    | Typing(room: RoomId, user: UserId)
    | VoiceParticipants(room: RoomId, users: seq<UserId>)
    | VoiceJoined(room: RoomId, user: UserId)
    | VoiceLeft(room: RoomId, user: UserId)
    | VoiceSignal(room: RoomId, user: UserId)
    | Offline(user: UserId)

  /** The channel (`buf`, `closed`) with its history: every message offered while it was open, every message
      the write pump took and every message dropped. The two faults are the panics of the Go runtime. */
  datatype Mailbox = Mailbox(buf: seq<Msg>, closed: bool,
                             offered: seq<Msg>, taken: seq<Msg>, dropped: seq<Msg>,
                             sentWhenClosed: bool, closedTwice: bool)

  const EMPTY_MAILBOX := Mailbox([], false, [], [], [], false, false)

  /** `select { case c.send <- m: default: }` */
  function Offer(b: Mailbox, m: Msg): Mailbox {
    if b.closed then b.(sentWhenClosed := true)
    else if |b.buf| < SEND_BUFFER_SIZE then b.(buf := b.buf + [m], offered := b.offered + [m])
    else b.(offered := b.offered + [m], dropped := b.dropped + [m])
  }

  function OfferSeq(b: Mailbox, ms: seq<Msg>): Mailbox {
    if ms == [] then b else Offer(OfferSeq(b, ms[..|ms| - 1]), ms[|ms| - 1])
  }

  /** `close(c.send)` */
  function Close(b: Mailbox): Mailbox {
    if b.closed then b.(closedTwice := true) else b.(closed := true)
  }

  /** `data, ok := <-c.send` in the write pump; an empty channel blocks it. A closed channel is still drained. */
  function Take(b: Mailbox): Mailbox {
    if b.buf == [] then b else b.(buf := b.buf[1..], taken := b.taken + [b.buf[0]])
  }

  /** What a receive of the write pump comes to. */
  datatype PumpTurn = Writes(m: Msg) | Waits | Ends

  function TurnOf(b: Mailbox): (turn: PumpTurn)
    ensures turn.Ends? <==> b.closed && b.buf == []
    ensures turn.Writes? ==> Take(b).taken == b.taken + [turn.m] && [turn.m] + Take(b).buf == b.buf
    ensures !turn.Writes? ==> Take(b) == b
  {
    if b.buf != [] then Writes(b.buf[0]) else if b.closed then Ends else Waits
  }

  /** `whole` is an interleaving of `kept` and `lost`, both in their own order. */
  ghost predicate Interleaves<T>(whole: seq<T>, kept: seq<T>, lost: seq<T>)
    decreases |whole|
  {
    if whole == [] then kept == [] && lost == []
    else
      var n := |whole| - 1;
      || (kept != [] && kept[|kept| - 1] == whole[n] && Interleaves(whole[..n], kept[..|kept| - 1], lost))
      || (lost != [] && lost[|lost| - 1] == whole[n] && Interleaves(whole[..n], kept, lost[..|lost| - 1]))
  }

  /** What holds of a mailbox at all times. */
  ghost predicate Lawful(b: Mailbox) {
    && |b.buf| <= SEND_BUFFER_SIZE
    && Interleaves(b.offered, b.taken + b.buf, b.dropped)
    && (b.dropped != [] ==> |b.offered| > SEND_BUFFER_SIZE)
  }

  lemma OneMoreKept<T>(whole: seq<T>, kept: seq<T>, lost: seq<T>, x: T, whole': seq<T>, kept': seq<T>)
    requires Interleaves(whole, kept, lost) && whole' == whole + [x] && kept' == kept + [x]
    ensures Interleaves(whole', kept', lost)
  {
    assert whole'[..|whole|] == whole && kept'[..|kept|] == kept;
  }

  lemma OneMoreLost<T>(whole: seq<T>, kept: seq<T>, lost: seq<T>, x: T, whole': seq<T>, lost': seq<T>)
    requires Interleaves(whole, kept, lost) && whole' == whole + [x] && lost' == lost + [x]
    ensures Interleaves(whole', kept, lost')
  {
    assert whole'[..|whole|] == whole && lost'[..|lost|] == lost;
  }

  lemma QueuedLawful(b: Mailbox, m: Msg, b': Mailbox)
    requires Lawful(b) && |b.buf| < SEND_BUFFER_SIZE
    requires b' == b.(buf := b.buf + [m], offered := b.offered + [m])
    ensures Lawful(b')
  {
    OneMoreKept(b.offered, b.taken + b.buf, b.dropped, m, b'.offered, b'.taken + b'.buf);
  }

  lemma DroppedLawful(b: Mailbox, m: Msg, b': Mailbox)
    requires Lawful(b) && |b.buf| == SEND_BUFFER_SIZE
    requires b' == b.(offered := b.offered + [m], dropped := b.dropped + [m])
    ensures Lawful(b')
  {
    OneMoreLost(b.offered, b.taken + b.buf, b.dropped, m, b'.offered, b'.dropped);
    InterleavesLength(b.offered, b.taken + b.buf, b.dropped);
  }

  lemma OfferLawful(b: Mailbox, m: Msg)
    requires Lawful(b)
    ensures Lawful(Offer(b, m))
  {
    if !b.closed {
      if |b.buf| < SEND_BUFFER_SIZE { QueuedLawful(b, m, Offer(b, m)); } else { DroppedLawful(b, m, Offer(b, m)); }
    }
  }

  lemma TakeLawful(b: Mailbox)
    requires Lawful(b)
    ensures Lawful(Take(b))
  {
    if b.buf != [] {
      assert Take(b).taken + Take(b).buf == b.taken + b.buf;
    }
  }

  lemma {:induction false} InterleavesLength<T>(whole: seq<T>, kept: seq<T>, lost: seq<T>)
    requires Interleaves(whole, kept, lost)
    ensures |whole| == |kept| + |lost|
    decreases |whole|
  {
    if whole != [] {
      var n := |whole| - 1;
      if kept != [] && kept[|kept| - 1] == whole[n] && Interleaves(whole[..n], kept[..|kept| - 1], lost) {
        InterleavesLength(whole[..n], kept[..|kept| - 1], lost);
      } else {
        InterleavesLength(whole[..n], kept, lost[..|lost| - 1]);
      }
    }
  }

  lemma LastCounts<T>(s: seq<T>)
    requires s != []
    ensures multiset(s) == multiset(s[..|s| - 1]) + multiset{s[|s| - 1]}
  {
    assert s == s[..|s| - 1] + [s[|s| - 1]];
  }

  lemma {:induction false} InterleavesCounts<T>(whole: seq<T>, kept: seq<T>, lost: seq<T>)
    requires Interleaves(whole, kept, lost)
    ensures multiset(whole) == multiset(kept) + multiset(lost)
    decreases |whole|
  {
    if whole != [] {
      var n := |whole| - 1;
      LastCounts(whole);
      if kept != [] && kept[|kept| - 1] == whole[n] && Interleaves(whole[..n], kept[..|kept| - 1], lost) {
        InterleavesCounts(whole[..n], kept[..|kept| - 1], lost);
        LastCounts(kept);
      } else {
        InterleavesCounts(whole[..n], kept, lost[..|lost| - 1]);
        LastCounts(lost);
      }
    }
  }

  /** The positions of `kept` inside `whole`: strictly increasing, so order is preserved. */
  lemma {:induction false} InterleavesPositions<T>(whole: seq<T>, kept: seq<T>, lost: seq<T>) returns (at: seq<nat>)
    requires Interleaves(whole, kept, lost)
    ensures |at| == |kept|
    ensures forall i :: 0 <= i < |at| ==> at[i] < |whole| && whole[at[i]] == kept[i]
    ensures forall i, j :: 0 <= i < j < |at| ==> at[i] < at[j]
    decreases |whole|
  {
    at := [];
    if whole != [] {
      var n := |whole| - 1;
      if kept != [] && kept[|kept| - 1] == whole[n] && Interleaves(whole[..n], kept[..|kept| - 1], lost) {
        at := InterleavesPositions(whole[..n], kept[..|kept| - 1], lost);
        at := at + [n];
      } else {
        at := InterleavesPositions(whole[..n], kept, lost[..|lost| - 1]);
      }
    }
  }

  // ---------- Sends and receives in any order ----------

  /** What the goroutines that share a channel do to it. */
  datatype Use = DoSend(m: Msg) | DoReceive | DoClose

  function UseOnce(b: Mailbox, u: Use): Mailbox {
    match u
    case DoSend(m) => Offer(b, m)
    case DoReceive => Take(b)
    case DoClose => Close(b)
  }

  function UseAll(us: seq<Use>): Mailbox {
    if us == [] then EMPTY_MAILBOX else UseOnce(UseAll(us[..|us| - 1]), us[|us| - 1])
  }

  /** The messages whose send found the channel open and full, which is at 256 messages. */
  function Refused(us: seq<Use>): seq<Msg> {
    if us == [] then []
    else
      var b, u := UseAll(us[..|us| - 1]), us[|us| - 1];
      Refused(us[..|us| - 1]) + if u.DoSend? && !b.closed && |b.buf| == 256 then [u.m] else []
  }

  /** The messages sent while the channel was open. */
  function Attempted(us: seq<Use>): seq<Msg> {
    if us == [] then []
    else
      var b, u := UseAll(us[..|us| - 1]), us[|us| - 1];
      Attempted(us[..|us| - 1]) + if u.DoSend? && !b.closed then [u.m] else []
  }

  lemma UseEffect(b: Mailbox, u: Use)
    requires Lawful(b)
    ensures Lawful(UseOnce(b, u))
    ensures UseOnce(b, u).offered == b.offered + if u.DoSend? && !b.closed then [u.m] else []
    ensures UseOnce(b, u).dropped
         == b.dropped + if u.DoSend? && !b.closed && |b.buf| == 256 then [u.m] else []
  {
    match u
    case DoSend(m) => OfferLawful(b, m);
    case DoReceive => TakeLawful(b);
    case DoClose =>
  }

  /** However the sends of the hub and the read pump and the receives of the write pump interleave, also within one
      event of the hub: the law of the queue holds, and what was dropped is what was sent to a full channel. */
  lemma {:induction false} DropsExactlyWhenFull(us: seq<Use>)
    ensures Lawful(UseAll(us))
    ensures UseAll(us).offered == Attempted(us) && UseAll(us).dropped == Refused(us)
    decreases |us|
  {
    if us != [] {
      DropsExactlyWhenFull(us[..|us| - 1]);
      UseEffect(UseAll(us[..|us| - 1]), us[|us| - 1]);
    }
  }

  lemma {:induction false} OfferSeqThen(b: Mailbox, ms: seq<Msg>, more: seq<Msg>)
    ensures OfferSeq(b, ms + more) == OfferSeq(OfferSeq(b, ms), more)
    decreases |more|
  {
    if more == [] {
      assert ms + more == ms;
    } else {
      var n := |more| - 1;
      OfferSeqThen(b, ms, more[..n]);
      assert (ms + more)[..|ms + more| - 1] == ms + more[..n];
    }
  }

  /** Offers only append to the history, and the queue only loses a message while it is full. */
  lemma {:induction false} OfferSeqEffect(b: Mailbox, ms: seq<Msg>)
    requires |b.buf| <= SEND_BUFFER_SIZE
    ensures var b' := OfferSeq(b, ms);
            && b'.closed == b.closed && b'.taken == b.taken && b.buf <= b'.buf && |b'.buf| <= SEND_BUFFER_SIZE
            && b'.closedTwice == b.closedTwice
            && (b.closed ==> b'.offered == b.offered && b'.buf == b.buf && b'.dropped == b.dropped)
            && (b.closed ==> (b'.sentWhenClosed <==> b.sentWhenClosed || ms != []))
            && (!b.closed ==> b'.offered == b.offered + ms && b'.sentWhenClosed == b.sentWhenClosed)
            && (b'.dropped != b.dropped ==> |b'.buf| == SEND_BUFFER_SIZE)
    decreases |ms|
  {
    if ms != [] {
      var n := |ms| - 1;
      OfferSeqEffect(b, ms[..n]);
      assert ms == ms[..n] + [ms[n]];
    }
  }

  lemma {:induction false} OfferSeqLawful(b: Mailbox, ms: seq<Msg>)
    requires Lawful(b)
    ensures Lawful(OfferSeq(b, ms))
    decreases |ms|
  {
    if ms != [] {
      OfferSeqLawful(b, ms[..|ms| - 1]);
      OfferLawful(OfferSeq(b, ms[..|ms| - 1]), ms[|ms| - 1]);
    }
  }
}
