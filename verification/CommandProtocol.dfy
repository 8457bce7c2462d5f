// The host-to-chip command protocol: one command outstanding, a 12-bit sequence number that skips 0, a
// 4-bit retry count, a timeout with one retry, and responses that may come late or not at all.
//
// The functions on Link are the regions the driver runs under cmd_lock. Around them, a system of the
// one caller the cmd_wait mutex admits, the command queue's slot, the chip and the responses in flight.
module CommandProtocol {
  import opened Bytes
  import opened Wrappers

  const SEQ_MAX := 0xfff
  const MAX_ATTEMPTS := 2
  const HEADER_SIZE := 12
  const RESP_SIZE := 16
  const ETIMEDOUT := 110
  const ENOMEM := 12

  datatype Request = Request(messageId: u16, hostId: nat, length: nat, hasDest: bool)

  // A response: its header's ids and length field, and the bytes that follow the header in memory
  // (at least a status). The call it answers is known to the chip only.
  datatype RawResponse = Response(messageId: u16, hostId: nat, len: nat, data: seq<byte>, call: nat)

  type Response = r: RawResponse | |r.data| >= 4 && |r.data| >= r.len witness Response(0, 0, 0, [0, 0, 0, 0], 0)

  // A caller's response buffer after its header, with room for a status.
  type Buffer = s: seq<byte> | |s| >= 4 witness [0, 0, 0, 0]

  function Status(data: Buffer): s32 {
    ToS32(Read32(data, 0))
  }

  // ----- sequence numbers and host ids

  function NextSeq(seqNo: nat): nat {
    if seqNo + 1 > SEQ_MAX then 1 else seqNo + 1
  }

  // (seq << 4) | retry
  function HostId(seqNo: nat, retry: nat): nat {
    16 * seqNo + retry
  }

  // host_id & 0xfff0, as a sequence number
  function SeqPart(hostId: nat): nat {
    hostId / 16
  }

  // The sequence number of the n-th call.
  function SeqOf(n: nat): nat {
    if n == 0 then 0 else (n - 1) % SEQ_MAX + 1
  }

  lemma {:induction false} NextSeqOf(n: nat)
    ensures NextSeq(SeqOf(n)) == SeqOf(n + 1)
    ensures n > 0 ==> 1 <= SeqOf(n) <= SEQ_MAX
  {}

  // A command's host id fits 16 bits, is never 0, and gives its sequence number back.
  lemma {:induction false} HostIds(n: nat, retry: nat)
    requires n > 0 && retry < 16
    ensures 0 < HostId(SeqOf(n), retry) < 0x1_0000
    ensures SeqPart(HostId(SeqOf(n), retry)) == SeqOf(n)
  {}

  // Two calls share a sequence number exactly when they are a multiple of 4095 calls apart.
  lemma {:induction false} SameSeq(m: nat, n: nat)
    requires 0 < m <= n
    ensures SeqOf(m) == SeqOf(n) <==> (n - m) % SEQ_MAX == 0
  {}

  // ----- regions under cmd_lock

  // comp: the call whose completion cmd_comp points to, if it is set. pending: the slot's request has
  // been handed to the chip. done: the count of that completion. cbRet: the result word kept with the
  // request. dest: the caller's response buffer after its header.
  datatype Link = Link(cmdSeq: nat, comp: Option<nat>, slot: Option<Request>, pending: bool,
                       done: nat, dest: Buffer, cbRet: int)

  // morse_cmd_resp_process: the response is for the pending request.
  predicate Matches(l: Link, r: Response) {
    && l.slot.Some? && l.pending
    && l.slot.value.messageId == r.messageId
    && SeqPart(l.slot.value.hostId) == SeqPart(r.hostId)
  }

  predicate Copies(length: nat, hasDest: bool) {
    length >= RESP_SIZE && hasDest
  }

  function Min(a: nat, b: nat): nat { if a < b then a else b }

  // The caller's buffer after the response has been copied into it. A buffer is always at least as
  // long as the length the caller states for it (see Inv), so the copy always fits.
  function Copied(dest: Buffer, length: nat, r: Response): Buffer
    requires length >= RESP_SIZE
  {
    var n := Min(length - HEADER_SIZE, r.len);
    if n <= |dest| then r.data[..n] + dest[n..] else dest
  }

  // The caller's buffer holds the response as far as both reach, and its own bytes behind that.
  lemma {:induction false} CopiedBytes(dest: Buffer, length: nat, r: Response)
    requires length >= RESP_SIZE && |dest| + HEADER_SIZE >= length
    ensures var c, n := Copied(dest, length, r), if length - HEADER_SIZE < r.len then length - HEADER_SIZE else r.len;
            && |c| == |dest|
            && (forall i :: 0 <= i < n ==> c[i] == r.data[i])
            && (forall i :: n <= i < |dest| ==> c[i] == dest[i])
  {}

  function Process(l: Link, r: Response): Link {
    if !Matches(l, r) then l
    else
      var q := l.slot.value;
      var l1 := if Copies(q.length, q.hasDest) then l.(dest := Copied(l.dest, q.length, r), cbRet := 0)
                else l.(cbRet := Status(r.data));
      if l.comp.Some? then l1.(done := l1.done + 1) else l1
  }

  // morse_cmd_tx, the region that queues an attempt; queueRet is what the queue returned.
  function Queue(l: Link, call: nat, q: Request, retry: nat, queueRet: int): Link {
    var l1 := l.(comp := Some(call), done := if retry > 0 then 0 else l.done);
    if queueRet == 0 then l1.(slot := Some(q), pending := false) else l1
  }

  // The value morse_cmd_tx takes from a woken wait.
  function Returned(length: nat, hasDest: bool, dest: Buffer, cbRet: int): int {
    if length != 0 && hasDest then Status(dest) else cbRet
  }

  // morse_cmd_tx, the region after the wait.
  function Conclude(l: Link, q: Request, woken: bool): (Link, int) {
    (l.(comp := None, slot := None),
     if woken then Returned(q.length, q.hasDest, l.dest, l.cbRet) else -ETIMEDOUT)
  }

  // ----- what a woken caller gets

  ghost predicate ReturnsStatus(length: nat, hasDest: bool, dest: Buffer, r: Response) {
    var dest' := if Copies(length, hasDest) then Copied(dest, length, r) else dest;
    var cbRet := if Copies(length, hasDest) then 0 else Status(r.data);
    Returned(length, hasDest, dest', cbRet) == Status(r.data)
  }

  function Other(b: byte): byte { if b == 0 then 1 else 0 }

  // A buffer that agrees with the response's status nowhere.
  function Unlike(r: Response, n: nat): (dest: Buffer)
    ensures |dest| == n + 4
    ensures dest[0] != r.data[0] && dest[1] != r.data[1] && dest[2] != r.data[2] && dest[3] != r.data[3]
  {
    [Other(r.data[0]), Other(r.data[1]), Other(r.data[2]), Other(r.data[3])] + Zeros(n)
  }

  lemma {:induction false} StaleStatus(length: nat, r: Response)
    requires length != 0 && !(length >= RESP_SIZE && r.len >= 4)
    ensures !ReturnsStatus(length, true, Unlike(r, length), r)
  {}

  // The returned value is the status in the response, whatever was in the caller's buffer, exactly
  // when no buffer is used, or the buffer has room for a status and the response carries one.
  lemma {:induction false} StatusReturned(length: nat, hasDest: bool, r: Response)
    ensures (forall dest: Buffer :: |dest| + HEADER_SIZE >= length ==> ReturnsStatus(length, hasDest, dest, r)) <==>
            (length == 0 || !hasDest || (length >= RESP_SIZE && r.len >= 4))
  {
    if length != 0 && hasDest && !(length >= RESP_SIZE && r.len >= 4) {
      StaleStatus(length, r);
    } else if length != 0 && hasDest {
      forall dest: Buffer | |dest| + HEADER_SIZE >= length
        ensures ReturnsStatus(length, hasDest, dest, r)
      {
        CopiedStatus(dest, length, r);
      }
    }
  }

  lemma {:induction false} CopiedStatus(dest: Buffer, length: nat, r: Response)
    requires length >= RESP_SIZE && |dest| + HEADER_SIZE >= length && r.len >= 4
    ensures Status(Copied(dest, length, r)) == Status(r.data)
  {}

  // ----- the system

  // Where morse_cmd_tx is: about to queue attempt `retry`, waiting, or past the wait and about to take
  // cmd_lock. cmd_wait admits one caller at a time.
  datatype Phase = NoCall | Sending(retry: nat) | Waiting(retry: nat) | Expired(retry: nat) | Woken(retry: nat)

  datatype Sent = Sent(call: nat, retry: nat, messageId: u16)

  // A response taken as the answer, and the attempt that was under way then.
  datatype Taken = Taken(response: Response, during: nat)

  // calls: calls begun so far. q: the request of the call in progress. sent: what the chip received;
  // answered: the calls it has answered. net: responses in flight, by the call they answer. last: the
  // response taken since the current attempt was queued. result: what the last call returned.
  datatype Sys = Sys(link: Link, calls: nat, phase: Phase, q: Request, sent: set<Sent>,
                     answered: set<nat>, net: map<nat, Response>, last: Option<Taken>, result: Option<int>)

  datatype Event =
    | BeginCall(messageId: u16, length: nat, hasDest: bool, dest: Buffer)
    | AllocFails
    | QueueAttempt(queueRet: int)
    | Transmit
    | ChipAnswers(to: Sent, len: nat, data: seq<byte>)
    | Lose(call: nat)
    | Deliver(call: nat)
    | Wake
    | Expire
    | Finish

  predicate Attempting(s: Sys) {
    s.phase.Waiting? || s.phase.Expired? || s.phase.Woken?
  }

  // The attempt under way.
  function Retry(s: Sys): nat {
    if s.phase.NoCall? then 0 else s.phase.retry
  }

  // The chip answers a command at most once, however often it is sent; responses may be delayed,
  // reordered and lost.
  predicate Enabled(s: Sys, e: Event) {
    match e
    case BeginCall(_, length, _, dest) => s.phase.NoCall? && |dest| + HEADER_SIZE >= length
    case AllocFails => s.phase.Sending?
    case QueueAttempt(_) => s.phase.Sending?
    case Transmit => s.link.slot.Some? && !s.link.pending
    case ChipAnswers(to, len, data) => to in s.sent && to.call !in s.answered && |data| >= 4 && |data| >= len
    case Lose(c) => c in s.net
    case Deliver(c) => c in s.net
    case Wake => s.phase.Waiting? && s.link.done > 0
    case Expire => s.phase.Waiting? && s.link.done == 0
    case Finish => s.phase.Expired? || s.phase.Woken?
  }

  function Next(s: Sys, e: Event): Sys
    requires Enabled(s, e)
  {
    match e
    case BeginCall(messageId, length, hasDest, dest) =>
      s.(link := s.link.(cmdSeq := NextSeq(s.link.cmdSeq), done := 0, dest := dest), calls := s.calls + 1,
         phase := Sending(0), q := Request(messageId, 0, length, hasDest), last := None)
    case AllocFails => s.(phase := NoCall, result := Some(-ENOMEM))
    case QueueAttempt(queueRet) =>
      var q := s.q.(hostId := HostId(s.link.cmdSeq, Retry(s)));
      var l := Queue(s.link, s.calls, q, Retry(s), queueRet);
      if queueRet == 0 then s.(link := l, q := q, phase := Waiting(Retry(s)), last := None)
      else s.(link := l, phase := NoCall, result := Some(queueRet))
    case Transmit =>
      s.(link := s.link.(pending := true), sent := s.sent + {Sent(s.calls, Retry(s), s.q.messageId)})
    case ChipAnswers(to, len, data) =>
      s.(answered := s.answered + {to.call},
         net := s.net[to.call := Response(to.messageId, HostId(SeqOf(to.call), to.retry), len, data, to.call)])
    case Lose(c) => s.(net := s.net - {c})
    case Deliver(c) =>
      s.(net := s.net - {c}, link := Process(s.link, s.net[c]),
         last := if Matches(s.link, s.net[c]) then Some(Taken(s.net[c], Retry(s))) else s.last)
    case Wake => s.(link := s.link.(done := s.link.done - 1), phase := Woken(Retry(s)))
    case Expire => s.(phase := Expired(Retry(s)))
    case Finish =>
      var (l, ret) := Conclude(s.link, s.q, s.phase.Woken?);
      if ret == -ETIMEDOUT && Retry(s) + 1 < MAX_ATTEMPTS then s.(link := l, phase := Sending(Retry(s) + 1))
      else s.(link := l, phase := NoCall, result := Some(ret))
  }

  // ----- what holds in every reachable state

  ghost predicate Inv(s: Sys) {
    && s.link.cmdSeq == SeqOf(s.calls)
    && CallInv(s)
    && (Attempting(s) && s.last.Some? ==> TakenInv(s))
    && ((s.phase.Waiting? && s.link.done > 0) || s.phase.Woken? ==> s.last.Some?)
    && (forall x :: x in s.sent ==> SentInv(s, x))
    && (forall c :: c in s.net ==> NetInv(s, c))
  }

  // At most two attempts; the slot and cmd_comp belong to the call in progress; no slot without one.
  predicate CallInv(s: Sys) {
    && (!s.phase.NoCall? ==> s.calls > 0 && s.phase.retry < MAX_ATTEMPTS && |s.link.dest| + HEADER_SIZE >= s.q.length)
    && (Attempting(s) ==> s.link.slot == Some(s.q) && s.link.comp == Some(s.calls)
                          && s.q.hostId == HostId(s.link.cmdSeq, s.phase.retry))
    && (!Attempting(s) ==> s.link.slot == None)
    && (s.phase == Sending(0) ==> s.link.done == 0)
  }

  // r answers an attempt that was sent, and carries that attempt's ids.
  ghost predicate AnswersSent(s: Sys, r: Response) {
    exists k :: 0 <= k < MAX_ATTEMPTS && Sent(r.call, k, r.messageId) in s.sent && r.hostId == HostId(SeqOf(r.call), k)
  }

  // The response taken in this attempt echoes the request's message id and sequence, answers an attempt
  // that was sent, and is where the returned status will come from.
  ghost predicate TakenInv(s: Sys)
    requires Attempting(s) && s.last.Some?
  {
    var r := s.last.value.response;
    && s.last.value.during == s.phase.retry
    && r.messageId == s.q.messageId && SeqPart(r.hostId) == s.link.cmdSeq
    && 0 < r.call <= s.calls && AnswersSent(s, r)
    && (Copies(s.q.length, s.q.hasDest) ==> HoldsResponse(s.link.dest, s.q.length, r))
    && (!Copies(s.q.length, s.q.hasDest) ==> s.link.cbRet == Status(r.data))
  }

  // The buffer begins with the response, as far as the stated length and the response reach.
  predicate HoldsResponse(dest: Buffer, length: nat, r: Response) {
    forall i :: 0 <= i < |dest| && i < length - HEADER_SIZE && i < r.len ==> dest[i] == r.data[i]
  }

  predicate SentInv(s: Sys, x: Sent) {
    0 < x.call <= s.calls && x.retry < MAX_ATTEMPTS && (x.call == s.calls ==> x.messageId == s.q.messageId)
  }

  ghost predicate NetInv(s: Sys, c: nat)
    requires c in s.net
  {
    s.net[c].call == c && 0 < c <= s.calls && c in s.answered && AnswersSent(s, s.net[c])
  }

  lemma {:induction false} AnswersStillSent(s: Sys, t: Sys, r: Response)
    requires AnswersSent(s, r) && s.sent <= t.sent
    ensures AnswersSent(t, r)
  {}

  lemma {:induction false} NetKept(s: Sys, t: Sys)
    requires forall c :: c in s.net ==> NetInv(s, c)
    requires s.sent <= t.sent && s.calls <= t.calls && s.answered <= t.answered
    requires forall c :: c in t.net ==> c in s.net && t.net[c] == s.net[c]
    ensures forall c :: c in t.net ==> NetInv(t, c)
  {}

  lemma {:induction false} DeliverKeepsInv(s: Sys, c: nat)
    requires Inv(s) && c in s.net
    ensures Inv(Next(s, Deliver(c)))
  {
    var t, r := Next(s, Deliver(c)), s.net[c];
    NetKept(s, t);
    if Matches(s.link, r) {
      assert NetInv(s, c);
      AnswersStillSent(s, t, r);
      HostIds(s.calls, s.phase.retry);
      if Copies(s.q.length, s.q.hasDest) && r.len >= 4 {
        CopiedStatus(s.link.dest, s.q.length, r);
      }
    } else if Attempting(s) && s.last.Some? {
      AnswersStillSent(s, t, s.last.value.response);
    }
  }

  lemma {:induction false} AnswerKeepsInv(s: Sys, to: Sent, len: nat, data: seq<byte>)
    requires Inv(s) && Enabled(s, ChipAnswers(to, len, data))
    ensures Inv(Next(s, ChipAnswers(to, len, data)))
  {}

  lemma {:induction false} StepKeepsInv(s: Sys, e: Event)
    requires Inv(s) && Enabled(s, e)
    ensures Inv(Next(s, e))
  {
    if e.Deliver? {
      DeliverKeepsInv(s, e.call);
    } else if e.ChipAnswers? {
      AnswerKeepsInv(s, e.to, e.len, e.data);
    } else {
      var t := Next(s, e);
      NextSeqOf(s.calls);
      NetKept(s, t);
      forall x | x in t.sent
        ensures SentInv(t, x)
      {
        assert x in s.sent ==> SentInv(s, x);
      }
      if Attempting(s) && s.last.Some? {
        AnswersStillSent(s, t, s.last.value.response);
      }
    }
  }

  // ----- runs

  ghost predicate Legal(s: Sys, events: seq<Event>)
    decreases |events|
  {
    |events| > 0 ==> Enabled(s, events[0]) && Legal(Next(s, events[0]), events[1..])
  }

  ghost function Run(s: Sys, events: seq<Event>): Sys
    requires Legal(s, events)
    decreases |events|
  {
    if |events| == 0 then s else Run(Next(s, events[0]), events[1..])
  }

  // No response is delivered more than 4094 calls after the call it answers.
  ghost predicate Prompt(s: Sys, events: seq<Event>)
    requires Legal(s, events)
    decreases |events|
  {
    |events| > 0 ==>
      && (events[0].Deliver? ==> s.calls - events[0].call <= 4094)
      && Prompt(Next(s, events[0]), events[1..])
  }

  // The response taken in this attempt answers the call in progress.
  predicate OwnInv(s: Sys) {
    Attempting(s) && s.last.Some? ==> s.last.value.response.call == s.calls
  }

  lemma {:induction false} NetSeq(s: Sys, c: nat)
    requires Inv(s) && c in s.net
    ensures 0 < c <= s.calls && SeqPart(s.net[c].hostId) == SeqOf(c)
  {}

  lemma {:induction false} SlotSeq(s: Sys)
    requires Inv(s) && s.link.slot.Some?
    ensures s.calls > 0 && SeqPart(s.link.slot.value.hostId) == SeqOf(s.calls)
  {}

  lemma {:induction false} Age(d: nat)
    requires d % SEQ_MAX == 0
    ensures d == 0 <==> d <= 4094
  {}

  // A response that matches answers the call in progress exactly when fewer than 4095 calls have
  // started since its own; one that is older matches by the wrap of the sequence number.
  lemma {:induction false} MatchIsOwn(s: Sys, c: nat)
    requires Inv(s) && c in s.net && Matches(s.link, s.net[c])
    ensures (s.calls - c) % SEQ_MAX == 0
    ensures c == s.calls <==> s.calls - c <= 4094
  {
    NetSeq(s, c);
    SlotSeq(s);
    SameSeq(c, s.calls);
    Age(s.calls - c);
  }

  lemma {:induction false} StepKeepsOwn(s: Sys, e: Event)
    requires Inv(s) && Enabled(s, e) && OwnInv(s)
    requires e.Deliver? ==> s.calls - e.call <= 4094
    ensures OwnInv(Next(s, e))
  {
    if e.Deliver? {
      assert NetInv(s, e.call);
      if Matches(s.link, s.net[e.call]) {
        MatchIsOwn(s, e.call);
      }
    }
  }

  lemma {:induction false} RunKeepsInv(s: Sys, events: seq<Event>)
    requires Legal(s, events) && Inv(s)
    ensures Inv(Run(s, events))
    ensures OwnInv(s) && Prompt(s, events) ==> OwnInv(Run(s, events))
    decreases |events|
  {
    if |events| > 0 {
      var e := events[0];
      StepKeepsInv(s, e);
      if OwnInv(s) && Prompt(s, events) {
        StepKeepsOwn(s, e);
      }
      RunKeepsInv(Next(s, e), events[1..]);
    }
  }

  // Before the first command; the state of the link's other fields does not matter.
  predicate Initial(s: Sys) {
    && s.link.cmdSeq == 0 && s.calls == 0 && s.phase.NoCall? && s.link.slot == None
    && s.sent == {} && s.answered == {} && s.net == map[] && s.last == None
  }

  // The attempt that r answers, of the n-th call with this message id.
  ghost predicate AnswersCall(s: Sys, r: Response, n: nat, messageId: u16) {
    exists k :: 0 <= k < MAX_ATTEMPTS && r.call == n && r.messageId == messageId
                && r.hostId == HostId(SeqOf(n), k) && Sent(n, k, messageId) in s.sent
  }

  // In every interleaving, a caller is woken only by a response that echoes its message id and sequence
  // number, taken during the very attempt it is waiting on; and as long as no response is delivered
  // more than 4094 calls late, that response answers an attempt of this very call.
  lemma {:induction false} WokenByOwnResponse(s0: Sys, events: seq<Event>)
    requires Initial(s0) && Legal(s0, events)
    ensures var s := Run(s0, events);
            s.phase.Woken? ==>
              && s.last.Some? && s.last.value.during == s.phase.retry < MAX_ATTEMPTS
              && s.last.value.response.messageId == s.q.messageId
              && SeqPart(s.last.value.response.hostId) == SeqPart(s.q.hostId) == s.link.cmdSeq
              && (Prompt(s0, events) ==> AnswersCall(s, s.last.value.response, s.calls, s.q.messageId))
  {
    RunKeepsInv(s0, events);
    var s := Run(s0, events);
    if s.phase.Woken? {
      HostIds(s.calls, s.phase.retry);
      var r := s.last.value.response;
      var k :| 0 <= k < MAX_ATTEMPTS && Sent(r.call, k, r.messageId) in s.sent && r.hostId == HostId(SeqOf(r.call), k);
    }
  }

  // In every interleaving the sequence number is that of the call in 1..4095, no attempt is beyond the
  // second, and the host id of a queued request is a nonzero 16-bit value.
  lemma {:induction false} SequenceInRange(s0: Sys, events: seq<Event>)
    requires Initial(s0) && Legal(s0, events)
    ensures var s := Run(s0, events);
            && (s.calls > 0 ==> 1 <= s.link.cmdSeq <= SEQ_MAX && s.link.cmdSeq == SeqOf(s.calls))
            && (s.link.slot.Some? ==> 0 < s.link.slot.value.hostId < 0x1_0000)
            && (forall x :: x in s.sent ==> x.retry < MAX_ATTEMPTS)
  {
    RunKeepsInv(s0, events);
    var s := Run(s0, events);
    NextSeqOf(s.calls);
    if Attempting(s) {
      HostIds(s.calls, s.phase.retry);
    }
    forall x | x in s.sent
      ensures x.retry < MAX_ATTEMPTS
    {
      assert SentInv(s, x);
    }
  }

  // When the wait is woken, what the attempt yields is the status of the response that was taken, if no
  // buffer is used or the buffer and the response both hold a status; it ends the call unless the chip
  // itself reported -ETIMEDOUT to the first attempt. A buffer long enough for a status holds the response.
  lemma {:induction false} WokenReturnsStatus(s0: Sys, events: seq<Event>)
    requires Initial(s0) && Legal(s0, events)
    requires Run(s0, events).phase.Woken?
    ensures var s := Run(s0, events);
            && Enabled(s, Finish) && s.last.Some?
            && var r := s.last.value.response;
               (s.q.length == 0 || !s.q.hasDest || (s.q.length >= RESP_SIZE && r.len >= 4)) ==>
                 var t := Next(s, Finish);
                 if Status(r.data) == -ETIMEDOUT && s.phase.retry == 0 then t.phase == Sending(1)
                 else t.phase == NoCall && t.result == Some(Status(r.data))
    ensures var s := Run(s0, events);
            Copies(s.q.length, s.q.hasDest) ==> HoldsResponse(s.link.dest, s.q.length, s.last.value.response)
  {
    RunKeepsInv(s0, events);
  }

  // In every run a response to the call in progress, whichever attempt it answers, is taken as soon as it
  // arrives while an attempt of that call is with the chip, and wakes the caller.
  lemma {:induction false} OwnResponseIsTaken(s0: Sys, events: seq<Event>, c: nat)
    requires Initial(s0) && Legal(s0, events)
    requires var s := Run(s0, events); c in s.net && c == s.calls && s.link.slot.Some? && s.link.pending
    ensures var s, t := Run(s0, events), Next(Run(s0, events), Deliver(c));
            && t.link.done == s.link.done + 1
            && t.last == Some(Taken(s.net[c], Retry(s)))
            && (s.phase.Waiting? ==> Enabled(t, Wake))
  {
    RunKeepsInv(s0, events);
    var s := Run(s0, events);
    NetSeq(s, c);
    SlotSeq(s);
    assert NetInv(s, c);
    var r := s.net[c];
    var k :| 0 <= k < MAX_ATTEMPTS && Sent(r.call, k, r.messageId) in s.sent && r.hostId == HostId(SeqOf(r.call), k);
    assert SentInv(s, Sent(r.call, k, r.messageId));
  }

  // An attempt whose wait ran out is tried once more and then given up, whatever came in since; either way
  // nothing of it stays behind in the link.
  lemma {:induction false} ExpiredIsRetriedOnce(s0: Sys, events: seq<Event>)
    requires Initial(s0) && Legal(s0, events) && Run(s0, events).phase.Expired?
    ensures var s := Run(s0, events);
            && Enabled(s, Finish)
            && var t := Next(s, Finish);
               && t.link.comp == None && t.link.slot == None
               && (s.phase.retry == 0 ==> t.phase == Sending(1))
               && (s.phase.retry != 0 ==> t.phase == NoCall && t.result == Some(-ETIMEDOUT))
  {
    RunKeepsInv(s0, events);
  }

  // cmd_comp points to a completion on the stack of a caller, and stays set when queueing an attempt fails. It
  // is only ever signalled while the caller it belongs to is there to be woken.
  lemma {:induction false} SignalsOnlyPresentCaller(s0: Sys, events: seq<Event>, c: nat)
    requires Initial(s0) && Legal(s0, events) && c in Run(s0, events).net
    ensures var s := Run(s0, events);
            && (Matches(s.link, s.net[c]) ==> Attempting(s) && s.link.comp == Some(s.calls))
            && (Next(s, Deliver(c)).link.done != s.link.done ==> Attempting(s) && s.link.comp == Some(s.calls))
  {
    RunKeepsInv(s0, events);
  }

  // ----- the age limit is needed

  lemma {:induction false} RunAppend(s: Sys, a: seq<Event>, b: seq<Event>)
    requires Legal(s, a) && Legal(Run(s, a), b)
    ensures Legal(s, a + b) && Run(s, a + b) == Run(Run(s, a), b)
    decreases |a|
  {
    if |a| == 0 {
      assert a + b == b;
    } else {
      assert (a + b)[1..] == a[1..] + b;
      RunAppend(Next(s, a[0]), a[1..], b);
    }
  }

  lemma {:induction false} Prepend(s: Sys, e: Event, rest: seq<Event>)
    requires Enabled(s, e) && Legal(Next(s, e), rest)
    ensures Legal(s, [e] + rest) && Run(s, [e] + rest) == Run(Next(s, e), rest)
  {}

  const CALL := BeginCall(7, 0, false, [0, 0, 0, 0])

  // n calls that fail for want of memory.
  function Failing(n: nat): seq<Event> {
    if n == 0 then [] else [CALL] + ([AllocFails] + Failing(n - 1))
  }

  // No call is in progress; the n-th was the last; one response is in flight.
  ghost predicate Resting(s: Sys, n: nat, r: Response) {
    && s.phase.NoCall? && s.calls == n && s.link.cmdSeq == SeqOf(n) && s.link.slot == None
    && s.net == map[r.call := r]
  }

  lemma {:induction false} FailingRun(s: Sys, n: nat, k: nat, r: Response)
    requires Resting(s, n, r)
    ensures Legal(s, Failing(k)) && Resting(Run(s, Failing(k)), n + k, r)
    decreases k
  {
    if k > 0 {
      NextSeqOf(n);
      var s1 := Next(s, CALL);
      var s2 := Next(s1, AllocFails);
      FailingRun(s2, n + 1, k - 1, r);
      Prepend(s1, AllocFails, Failing(k - 1));
      Prepend(s, CALL, [AllocFails] + Failing(k - 1));
    }
  }

  function FirstCall(): seq<Event> {
    [CALL] + ([QueueAttempt(0)] + ([Transmit] + ([ChipAnswers(Sent(1, 0, 7), 4, [0, 0, 0, 0])]
    + ([Expire] + ([Finish] + ([AllocFails] + []))))))
  }

  const FIRST_ANSWER: Response := Response(7, HostId(1, 0), 4, [0, 0, 0, 0], 1)

  lemma {:induction false} FirstCallRun(s: Sys)
    requires Initial(s)
    ensures Legal(s, FirstCall()) && Resting(Run(s, FirstCall()), 1, FIRST_ANSWER)
  {
    var s1 := Next(s, CALL);
    var s2 := Next(s1, QueueAttempt(0));
    var s3 := Next(s2, Transmit);
    assert Sent(1, 0, 7) in s3.sent;
    var answer := ChipAnswers(Sent(1, 0, 7), 4, [0, 0, 0, 0]);
    var s4 := Next(s3, answer);
    var s5 := Next(s4, Expire);
    var s6 := Next(s5, Finish);
    Prepend(s6, AllocFails, []);
    var e6 := [AllocFails] + [];
    Prepend(s5, Finish, e6);
    var e5 := [Finish] + e6;
    Prepend(s4, Expire, e5);
    var e4 := [Expire] + e5;
    Prepend(s3, answer, e4);
    var e3 := [answer] + e4;
    Prepend(s2, Transmit, e3);
    var e2 := [Transmit] + e3;
    Prepend(s1, QueueAttempt(0), e2);
    Prepend(s, CALL, [QueueAttempt(0)] + e2);
  }

  function LastCall(): seq<Event> {
    [CALL] + ([QueueAttempt(0)] + ([Transmit] + ([Deliver(1)] + ([Wake] + []))))
  }

  lemma {:induction false} LastCallRun(s: Sys)
    requires Resting(s, 4095, FIRST_ANSWER)
    ensures Legal(s, LastCall())
    ensures var t := Run(s, LastCall()); t.phase.Woken? && t.calls == 4096 && t.last == Some(Taken(FIRST_ANSWER, 0))
  {
    var s1 := Next(s, CALL);
    assert s1.link.cmdSeq == 1;
    var s2 := Next(s1, QueueAttempt(0));
    var s3 := Next(s2, Transmit);
    assert Matches(s3.link, FIRST_ANSWER);
    var s4 := Next(s3, Deliver(1));
    Prepend(s4, Wake, []);
    var e4 := [Wake] + [];
    Prepend(s3, Deliver(1), e4);
    var e3 := [Deliver(1)] + e4;
    Prepend(s2, Transmit, e3);
    var e2 := [Transmit] + e3;
    Prepend(s1, QueueAttempt(0), e2);
    Prepend(s, CALL, [QueueAttempt(0)] + e2);
  }

  ghost predicate WokenByAged(s: Sys) {
    s.phase.Woken? && s.last.Some? && s.last.value.response.call + 4095 == s.calls
  }

  lemma {:induction false} Compose(s: Sys, a: seq<Event>, b: seq<Event>, c: seq<Event>)
    requires Legal(s, a) && Legal(Run(s, a), b) && Legal(Run(Run(s, a), b), c)
    ensures Legal(s, a + (b + c)) && Run(s, a + (b + c)) == Run(Run(Run(s, a), b), c)
  {
    RunAppend(Run(s, a), b, c);
    RunAppend(s, a, b + c);
  }

  // A response that is 4095 calls old wakes a caller it does not answer.
  lemma {:induction false} AgedResponseIsTaken(s0: Sys) returns (events: seq<Event>)
    requires Initial(s0)
    ensures Legal(s0, events) && WokenByAged(Run(s0, events))
  {
    var a, b, c := FirstCall(), Failing(4094), LastCall();
    FirstCallRun(s0);
    FailingRun(Run(s0, a), 1, 4094, FIRST_ANSWER);
    LastCallRun(Run(Run(s0, a), b));
    Compose(s0, a, b, c);
    events := a + (b + c);
  }

  // ----- the driver's regions, as it runs them

  class CommandLink {
    var cmdSeq: nat
    var comp: Option<nat>
    var slot: Option<Request>
    var pending: bool
    var done: nat
    var dest: Buffer
    var cbRet: int

    function View(): Link
      reads this
    {
      Link(cmdSeq, comp, slot, pending, done, dest, cbRet)
    }

    // morse_cmd_tx up to the retry loop: takes the next sequence number.
    method Begin(buffer: Buffer)
      modifies this
      ensures View() == old(View()).(cmdSeq := NextSeq(old(cmdSeq)), done := 0, dest := buffer)
    {
      done, dest := 0, buffer;
      cmdSeq := cmdSeq + 1;
      if cmdSeq > SEQ_MAX {
        cmdSeq := 1;
      }
    }

    // morse_cmd_tx: queue attempt `retry` of a call.
    method QueueRequest(call: nat, q: Request, retry: nat, queueRet: int)
      modifies this
      ensures View() == Queue(old(View()), call, q, retry, queueRet)
    {
      comp := Some(call);
      if retry > 0 {
        done := 0;
      }
      if queueRet == 0 {
        slot, pending := Some(q), false;
      }
    }

    // morse_cmd_tx: after the wait.
    method ConcludeAttempt(q: Request, woken: bool) returns (ret: int)
      modifies this
      ensures (View(), ret) == Conclude(old(View()), q, woken)
    {
      comp := None;
      if !woken {
        ret := -ETIMEDOUT;
      } else {
        ret := if q.length != 0 && q.hasDest then Status(dest) else cbRet;
      }
      slot := None;
    }

    // morse_cmd_resp_process
    method ProcessResponse(r: Response)
      modifies this
      ensures View() == Process(old(View()), r)
    {
      var messageId, hostId := 0, 0;
      var found := slot.Some? && pending;
      if found {
        messageId, hostId := slot.value.messageId, slot.value.hostId;
      }
      if !found || messageId != r.messageId || SeqPart(hostId) != SeqPart(r.hostId) {
        return;
      }
      var length := slot.value.length;
      if length >= RESP_SIZE && slot.value.hasDest {
        cbRet := 0;
        var n := if length - HEADER_SIZE < r.len then length - HEADER_SIZE else r.len;
        if n <= |dest| {
          dest := r.data[..n] + dest[n..];
        }
      } else {
        cbRet := Status(r.data);
      }
      if comp.Some? {
        done := done + 1;
      }
    }
  }
}
