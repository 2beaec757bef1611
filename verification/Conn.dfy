/**
 The netlink connection of netlink-client/conn.go: filling in and sending a
 request, draining a reply that comes in several reads, and matching the two.

 The socket is the list of answers its Receive will give, in order, of which
 each batch read takes the first; a read with no answer left waits for ever,
 which is the error Blocked.  What its Send answers is a parameter.
 */
module Conn {
  import opened Bytes
  import opened Nlenc
  import opened Messages
  import opened Wrappers

  const MAX_SIZE := 1024 * 32
  const WRAP := 0x1_0000_0000

  type Answer = Result<seq<Message>>

  // -------------------------------------------------------- filling a request

  /** nextSequence: atomic.AddUint32 wraps. */
  function Next(sequence: uint32): uint32 { (sequence + 1) % WRAP }

  function Fixed(m: Message, sequence: uint32, pid: uint32): Message
    requires NLMSG_HEADER_LEN + |m.data| <= MAX_SIZE
  {
    var h := m.header;
    Message(
      h.(length := if h.length == 0 then Align(NLMSG_HEADER_LEN + |m.data|) else h.length,
         sequence := if h.sequence == 0 then Next(sequence) else h.sequence,
         pid := if h.pid == 0 then pid else h.pid),
      m.data)
  }

  /** Where the connection's counter is after m has been filled in. */
  function Counter(m: Message, sequence: uint32): uint32 {
    if m.header.sequence == 0 then Next(sequence) else sequence
  }

  /** A request with no length that is not too large goes out whole, padded to a multiple of 4. */
  lemma FilledRequestRoundTrips(host: ByteOrder, m: Message, sequence: uint32, pid: uint32)
    requires m.header.length == 0 && NLMSG_HEADER_LEN + |m.data| <= MAX_SIZE
    ensures var f := Fixed(m, sequence, pid);
            var padding := Align(|m.data|) - |m.data|;
            && Marshalled(host, f).Ok?
            && Unmarshalled(host, Marshalled(host, f).value) == Ok(f.(data := m.data + Repeat(0, padding)))
            && padding < 4 && |Marshalled(host, f).value| == f.header.length <= MAX_SIZE
  {
    hide HeaderBytes, Unmarshalled, Sized, Align, Repeat;
    var f := Fixed(m, sequence, pid);
    var size: nat := |m.data|;
    AlignedLength(size);
    MarshalThenUnmarshal(host, f);
    SizedIs(m.data, Align(size), size);
    assert m.data[..size] == m.data;
  }

  lemma AlignedLength(n: nat)
    ensures Align(NLMSG_HEADER_LEN + n) == NLMSG_HEADER_LEN + Align(n)
    ensures Align(Align(NLMSG_HEADER_LEN + n)) == Align(NLMSG_HEADER_LEN + n)
  {
    hide Align;
  }

  /** With a length of its own, a request can be marshalled only if that length is a multiple of 4 from 16 up. */
  lemma OwnLengthMarshalsIff(host: ByteOrder, m: Message, sequence: uint32, pid: uint32)
    requires m.header.length != 0 && NLMSG_HEADER_LEN + |m.data| <= MAX_SIZE
    ensures Marshalled(host, Fixed(m, sequence, pid)).Ok?
            <==> m.header.length % 4 == 0 && NLMSG_HEADER_LEN <= m.header.length
  {
    hide HeaderBytes, Sized;
  }

  /** What the caller set is kept; what was left 0 is the padded size, the next number and the connection's PID. */
  lemma FixedKeeps(m: Message, sequence: uint32, pid: uint32)
    requires NLMSG_HEADER_LEN + |m.data| <= MAX_SIZE
    ensures var f := Fixed(m, sequence, pid);
            && f.data == m.data && f.header.typ == m.header.typ && f.header.flags == m.header.flags
            && f.header.pid == (if m.header.pid != 0 then m.header.pid else pid)
            && f.header.sequence == (if m.header.sequence != 0 then m.header.sequence else (sequence + 1) % 0x1_0000_0000)
            && (m.header.length != 0 ==> f.header.length == m.header.length)
            && (m.header.length == 0 ==> f.header.length % 4 == 0 && 0 <= f.header.length - (16 + |m.data|) < 4)
  {
  }

  // --------------------------------------------------- a list of requests

  /** Header and data are at most 32 KiB. */
  predicate Small(m: Message) { 16 + |m.data| <= 32768 }

  predicate AllSmall(ms: seq<Message>) { forall i | 0 <= i < |ms| :: Small(ms[i]) }

  function FixedAll(ms: seq<Message>, sequence: uint32, pid: uint32): (r: seq<Message>)
    requires AllSmall(ms)
    ensures |r| == |ms|
    decreases |ms|
  {
    if ms == [] then []
    else
      var k := |ms| - 1;
      FixedAll(ms[..k], sequence, pid) + [Fixed(ms[k], CounterAll(ms[..k], sequence), pid)]
  }

  function CounterAll(ms: seq<Message>, sequence: uint32): uint32
    decreases |ms|
  {
    if ms == [] then sequence else Counter(ms[|ms| - 1], CounterAll(ms[..|ms| - 1], sequence))
  }

  /** How many of ms ask for a sequence number. */
  function Asking(ms: seq<Message>): (n: nat)
    ensures n <= |ms|
    decreases |ms|
  {
    if ms == [] then 0
    else Asking(ms[..|ms| - 1]) + if ms[|ms| - 1].header.sequence == 0 then 1 else 0
  }

  lemma {:induction false} CounterCounts(ms: seq<Message>, sequence: uint32)
    ensures CounterAll(ms, sequence) == (sequence + Asking(ms)) % WRAP
  {
    if ms != [] {
      CounterCounts(ms[..|ms| - 1], sequence);
      NextOf(sequence + Asking(ms[..|ms| - 1]));
    }
  }

  lemma NextOf(n: nat)
    ensures Next(n % WRAP) == (n + 1) % WRAP
  {
  }

  lemma {:induction false} FixedAllAt(ms: seq<Message>, sequence: uint32, pid: uint32, i: nat)
    requires AllSmall(ms) && i < |ms|
    ensures FixedAll(ms, sequence, pid)[i] == Fixed(ms[i], CounterAll(ms[..i], sequence), pid)
    decreases |ms|
  {
    var k := |ms| - 1;
    if i < k {
      FixedAllAt(ms[..k], sequence, pid, i);
      assert ms[..k][..i] == ms[..i];
    }
  }

  /** Requests are numbered one after the other, in order. */
  lemma NumberedInOrder(ms: seq<Message>, sequence: uint32, pid: uint32, i: nat)
    requires AllSmall(ms) && i < |ms| && ms[i].header.sequence == 0
    ensures FixedAll(ms, sequence, pid)[i].header.sequence == (sequence + Asking(ms[..i + 1])) % WRAP
  {
    FixedAllAt(ms, sequence, pid, i);
    CounterCounts(ms[..i], sequence);
    NextOf(sequence + Asking(ms[..i]));
    assert ms[..i + 1][..i] == ms[..i];
    assert Asking(ms[..i + 1]) == Asking(ms[..i]) + 1;
    hide Next, FixedAll, Asking, CounterAll, Align;
  }

  lemma {:induction false} AskingGrows(ms: seq<Message>, i: nat, j: nat)
    requires i <= j <= |ms|
    ensures Asking(ms[..i]) <= Asking(ms[..j])
    decreases j
  {
    if i < j {
      AskingGrows(ms, i, j - 1);
      assert ms[..j][..j - 1] == ms[..j - 1];
    }
  }

  /** So fewer than 2^32 requests in one call get different numbers. */
  lemma NumberedApart(ms: seq<Message>, sequence: uint32, pid: uint32, i: nat, j: nat)
    requires AllSmall(ms) && i < j < |ms| < WRAP
    requires ms[i].header.sequence == 0 && ms[j].header.sequence == 0
    ensures FixedAll(ms, sequence, pid)[i].header.sequence != FixedAll(ms, sequence, pid)[j].header.sequence
  {
    NumberedInOrder(ms, sequence, pid, i);
    NumberedInOrder(ms, sequence, pid, j);
    AskingGrows(ms, i + 1, j);
    assert ms[..j + 1][..j] == ms[..j];
    ResiduesApart(sequence, Asking(ms[..i + 1]), Asking(ms[..j + 1]));
    hide FixedAll, Asking;
  }

  lemma ResiduesApart(x: nat, a: nat, b: nat)
    requires a < b < a + WRAP
    ensures (x + a) % WRAP != (x + b) % WRAP
  {
  }

  // ------------------------------------------------- what a reply amounts to

  /** The first error that a batch reports. */
  function Fault(host: ByteOrder, batch: seq<Message>): (e: Option<Error>)
    ensures e.None? <==> forall i | 0 <= i < |batch| :: CheckMessage(host, batch[i]).None?
  {
    if batch == [] then None
    else if CheckMessage(host, batch[0]).Some? then CheckMessage(host, batch[0])
    else Fault(host, batch[1..])
  }

  /** The value of `multi` after the loop over a batch. */
  function Multi(batch: seq<Message>, multi: bool): bool
    decreases |batch|
  {
    if batch == [] then multi
    else
      var m := batch[|batch| - 1];
      if IsMulti(m) then m.header.typ != DONE else Multi(batch[..|batch| - 1], multi)
  }

  predicate Goes(batch: seq<Message>) { Multi(batch, false) }

  /** What receive returns and what it leaves unread. */
  function Received(host: ByteOrder, answers: seq<Answer>, res: seq<Message>): (Answer, seq<Answer>)
    decreases |answers|
  {
    if answers == [] then (Err(Blocked), [])
    else if answers[0].Err? then (answers[0], answers[1..])
    else
      var batch := answers[0].value;
      var e := Fault(host, batch);
      if e.Some? then (Err(e.value), answers[1..])
      else if Goes(batch) then Received(host, answers[1..], res + batch)
      else (Ok(res + batch), answers[1..])
  }

  predicate IsDone(m: Message) { IsMulti(m) && m.header.typ == DONE }

  function Trimmed(r: Answer): Answer {
    if r.Ok? && r.value != [] && IsDone(r.value[|r.value| - 1]) then Ok(r.value[..|r.value| - 1]) else r
  }

  /** A read goes on exactly when the last message marked Multi is not a Done. */
  lemma {:induction false} GoesIff(batch: seq<Message>)
    ensures Goes(batch) <==> exists j: nat :: LastMultiGoes(batch, j)
  {
    if batch != [] {
      var k := |batch| - 1;
      MultiIsBitOne(batch[k]);
      if IsMulti(batch[k]) {
        assert Goes(batch) <==> LastMultiGoes(batch, k);
      } else {
        GoesIff(batch[..k]);
        assert Goes(batch) <==> Goes(batch[..k]);
        forall j: nat ensures LastMultiGoes(batch, j) <==> LastMultiGoes(batch[..k], j) {
        }
      }
    }
  }

  /** Of the messages with bit 1 of their flags set, j is the last, and its type is not 3. */
  predicate LastMultiGoes(batch: seq<Message>, j: nat) {
    && j < |batch| && Flagged(batch[j]) && batch[j].header.typ != 3
    && forall l | j < l < |batch| :: !Flagged(batch[l])
  }

  predicate Flagged(m: Message) { m.header.flags / 2 % 2 == 1 }

  function Oks(batches: seq<seq<Message>>): (r: seq<Answer>)
    ensures |r| == |batches| && forall i | 0 <= i < |r| :: r[i] == Ok(batches[i])
  {
    seq(|batches|, i requires 0 <= i < |batches| => Ok(batches[i]))
  }

  function Flat(batches: seq<seq<Message>>): seq<Message> {
    if batches == [] then [] else batches[0] + Flat(batches[1..])
  }

  /** Draining: whole batches are taken up to and including the first that does not go on. */
  lemma {:induction false} DrainsToFirstStop(
    host: ByteOrder, batches: seq<seq<Message>>, k: nat, later: seq<Answer>, res: seq<Message>)
    requires k < |batches| && forall i | 0 <= i <= k :: Fault(host, batches[i]).None?
    requires (forall i | 0 <= i < k :: Goes(batches[i])) && !Goes(batches[k])
    ensures Received(host, Oks(batches) + later, res) == (Ok(res + Flat(batches[..k + 1])), Oks(batches[k + 1..]) + later)
    decreases k
  {
    hide Goes, Fault;
    var answers := Oks(batches) + later;
    assert answers[0] == Ok(batches[0]);
    assert answers[1..] == Oks(batches[1..]) + later;
    assert batches[..k + 1][1..] == batches[1..][..k];
    if k == 0 {
      assert Flat(batches[..1]) == batches[0];
    } else {
      DrainsToFirstStop(host, batches[1..], k - 1, later, res + batches[0]);
      assert batches[1..][k..] == batches[k + 1..];
      assert res + batches[0] + Flat(batches[1..][..k]) == res + (batches[0] + Flat(batches[1..][..k]));
    }
  }

  // ------------------------------------------------------- multi-part replies

  /** No error: not of type 2, or with a code of four zero bytes. */
  predicate Clean(m: Message) { m.header.typ != 2 || (|m.data| >= 4 && m.data[..4] == [0, 0, 0, 0]) }

  /** A part of a multi-part reply that is neither its end nor an error. */
  predicate Part(m: Message) { Flagged(m) && m.header.typ != 3 && Clean(m) }

  predicate Parts(ms: seq<Message>) { forall i | 0 <= i < |ms| :: Part(ms[i]) }

  /** The end of a multi-part reply. */
  predicate Final(m: Message) { Flagged(m) && m.header.typ == 3 }

  lemma MarksAre(host: ByteOrder, m: Message)
    ensures Part(m) <==> IsMulti(m) && m.header.typ != DONE && CheckMessage(host, m).None?
    ensures Final(m) <==> IsDone(m)
    ensures Final(m) ==> CheckMessage(host, m).None?
  {
    MultiIsBitOne(m);
    NoErrorIff(host, m);
    hide CheckMessage, IsMulti;
  }

  predicate NonEmpty(batches: seq<seq<Message>>) { forall i | 0 <= i < |batches| :: batches[i] != [] }

  function Reply(host: ByteOrder, answers: seq<Answer>): (Answer, seq<Answer>) {
    var (r, rest) := Received(host, answers, []);
    (Trimmed(r), rest)
  }

  lemma PartsGo(host: ByteOrder, batch: seq<Message>)
    requires Parts(batch)
    ensures Fault(host, batch).None? && (Goes(batch) <==> batch != [])
  {
    forall i | 0 <= i < |batch| ensures CheckMessage(host, batch[i]).None? {
      MarksAre(host, batch[i]);
    }
    if batch != [] {
      MarksAre(host, batch[|batch| - 1]);
    }
    hide Part, IsMulti, CheckMessage;
  }

  lemma DoneStops(host: ByteOrder, batch: seq<Message>)
    requires batch != [] && Final(batch[|batch| - 1]) && Parts(batch[..|batch| - 1])
    ensures Fault(host, batch).None? && !Goes(batch)
  {
    var k := |batch| - 1;
    forall i | 0 <= i < |batch| ensures CheckMessage(host, batch[i]).None? {
      MarksAre(host, batch[i]);
      if i < k {
        assert Part(batch[..k][i]);
      }
    }
    MarksAre(host, batch[k]);
    hide Part, Final, IsMulti, CheckMessage;
  }

  /** Reading a reply batch by batch, whatever has been read before it. */
  lemma {:induction false} DrainsParts(
    host: ByteOrder, batches: seq<seq<Message>>, payload: seq<Message>, done: Message, later: seq<Answer>, res: seq<Message>)
    requires Flat(batches) == payload + [done] && Parts(payload) && Final(done) && NonEmpty(batches)
    ensures Received(host, Oks(batches) + later, res) == (Ok(res + payload + [done]), later)
    decreases |batches|
  {
    var b := batches[0];
    var rest := batches[1..];
    var answers := Oks(batches) + later;
    assert answers[0] == Ok(b) && answers[1..] == Oks(rest) + later;
    if rest == [] {
      assert b == payload + [done] && b[..|b| - 1] == payload;
      DoneStops(host, b);
      assert Oks(rest) + later == later;
      hide Goes, Fault, Parts;
      assert res + b == res + payload + [done];
    } else {
      LaterBatches(rest);
      SplitAtBatch(b, Flat(rest), payload, done);
      PartsGo(host, b);
      hide Goes, Fault;
      DrainsParts(host, rest, payload[|b|..], done, later, res + b);
      assert res + b + payload[|b|..] == res + payload;
    }
  }

  lemma LaterBatches(batches: seq<seq<Message>>)
    requires batches != [] && NonEmpty(batches)
    ensures Flat(batches) != []
  {
  }

  lemma SplitAtBatch(b: seq<Message>, more: seq<Message>, payload: seq<Message>, done: Message)
    requires b + more == payload + [done] && more != []
    ensures |b| <= |payload| && b == payload[..|b|] && more == payload[|b|..] + [done]
  {
    assert b == (b + more)[..|b|];
    assert more == (b + more)[|b|..];
  }

  /** The fate of a reply that is split with an empty batch in it. */
  lemma {:induction false} EmptyBatchStops(
    host: ByteOrder, batches: seq<seq<Message>>, payload: seq<Message>, done: Message, later: seq<Answer>, res: seq<Message>)
    requires Flat(batches) == payload + [done] && Parts(payload) && Final(done) && !NonEmpty(batches)
    ensures var r := Received(host, Oks(batches) + later, res);
            r.0.Ok? && |r.1| > |later|
    decreases |batches|
  {
    var b := batches[0];
    var rest := batches[1..];
    var answers := Oks(batches) + later;
    assert answers[0] == Ok(b) && answers[1..] == Oks(rest) + later;
    if b != [] {
      assert !NonEmpty(rest);
      assert rest != [];
      if Flat(rest) != [] {
        SplitAtBatch(b, Flat(rest), payload, done);
        PartsGo(host, b);
        hide Goes, Fault;
        EmptyBatchStops(host, rest, payload[|b|..], done, later, res + b);
      } else {
        assert b == payload + [done] && b[..|b| - 1] == payload;
        DoneStops(host, b);
      }
    } else {
      assert Flat(batches) == Flat(rest);
    }
  }

  /** The batch that holds the last message: behind it there are only empty ones. */
  function LastFull(batches: seq<seq<Message>>): (d: nat)
    requires Flat(batches) != []
    ensures d < |batches| && batches[d] != [] && forall i | d < i < |batches| :: batches[i] == []
    decreases |batches|
  {
    var k := |batches| - 1;
    if batches[k] != [] then k
    else
      FlatOfFront(batches);
      LastFull(batches[..k])
  }

  lemma {:induction false} FlatOfFront(batches: seq<seq<Message>>)
    requires batches != []
    ensures Flat(batches) == Flat(batches[..|batches| - 1]) + batches[|batches| - 1]
  {
    if |batches| > 1 {
      FlatOfFront(batches[1..]);
      assert batches[1..][..|batches| - 2] == batches[..|batches| - 1][1..];
      assert batches[0] + (Flat(batches[1..][..|batches| - 2]) + batches[|batches| - 1])
          == (batches[0] + Flat(batches[1..][..|batches| - 2])) + batches[|batches| - 1];
    }
  }

  lemma {:induction false} EmptyBehind(batches: seq<seq<Message>>, d: nat)
    requires d < |batches| && forall i | d < i < |batches| :: batches[i] == []
    ensures Flat(batches[..d + 1]) == Flat(batches)
    decreases |batches|
  {
    var k := |batches| - 1;
    if d < k {
      FlatOfFront(batches);
      EmptyBehind(batches[..k], d);
      assert batches[..k][..d + 1] == batches[..d + 1];
    } else {
      assert batches[..d + 1] == batches;
    }
  }

  /** A split that ends with the batch of the Done: the reply is exact if and only if no batch is empty. */
  lemma ExactIffNonEmpty(
    host: ByteOrder, batches: seq<seq<Message>>, payload: seq<Message>, done: Message, later: seq<Answer>)
    requires Flat(batches) == payload + [done] && Parts(payload) && Final(done)
    ensures Reply(host, Oks(batches) + later) == (Ok(payload), later) <==> NonEmpty(batches)
  {
    hide Goes, Fault, Parts;
    if NonEmpty(batches) {
      DrainsParts(host, batches, payload, done, later, []);
      var all := [] + payload + [done];
      assert all[|all| - 1] == done && all[..|all| - 1] == payload;
      MarksAre(host, done);
    } else {
      EmptyBatchStops(host, batches, payload, done, later, []);
    }
  }

  /**
   Receive returns exactly the payload of a multi-part reply, without its Done,
   and leaves unread what comes behind the batch of the Done, if and only if no
   batch before that one is empty.
   */
  lemma ReplyExactIff(
    host: ByteOrder, batches: seq<seq<Message>>, payload: seq<Message>, done: Message, later: seq<Answer>)
    requires Flat(batches) == payload + [done] && Parts(payload) && Final(done)
    ensures var d := LastFull(batches);
            Reply(host, Oks(batches) + later) == (Ok(payload), Oks(batches[d + 1..]) + later) <==> NonEmpty(batches[..d])
  {
    hide Parts, Flat, Reply;
    var d := LastFull(batches);
    var front, behind := batches[..d + 1], Oks(batches[d + 1..]) + later;
    EmptyBehind(batches, d);
    ExactIffNonEmpty(host, front, payload, done, behind);
    SplitOks(batches, d + 1, later);
    FullLast(batches, d);
  }

  lemma SplitOks(batches: seq<seq<Message>>, n: nat, later: seq<Answer>)
    requires n <= |batches|
    ensures Oks(batches) + later == Oks(batches[..n]) + (Oks(batches[n..]) + later)
  {
    hide Oks;
    assert Oks(batches) == Oks(batches[..n]) + Oks(batches[n..]);
  }

  lemma FullLast(batches: seq<seq<Message>>, d: nat)
    requires d < |batches| && batches[d] != []
    ensures NonEmpty(batches[..d + 1]) <==> NonEmpty(batches[..d])
  {
    assert batches[..d + 1] == batches[..d] + [batches[d]];
  }

  /** The split does not matter. */
  lemma SplitDoesNotMatter(
    host: ByteOrder, a: seq<seq<Message>>, b: seq<seq<Message>>, payload: seq<Message>, done: Message, later: seq<Answer>)
    requires Flat(a) == payload + [done] && Flat(b) == payload + [done] && NonEmpty(a) && NonEmpty(b)
    requires Parts(payload) && Final(done)
    ensures Reply(host, Oks(a) + later) == Reply(host, Oks(b) + later)
  {
    ExactIffNonEmpty(host, a, payload, done, later);
    ExactIffNonEmpty(host, b, payload, done, later);
  }

  /** A reply that turns into an error is that error however it is split, and whatever follows. */
  lemma {:induction false} ErrorHoweverSplit(
    host: ByteOrder, batches: seq<seq<Message>>, payload: seq<Message>, bad: Message, tail: seq<Message>,
    later: seq<Answer>, res: seq<Message>)
    requires Flat(batches) == payload + [bad] + tail && Parts(payload) && NonEmpty(batches)
    requires CheckMessage(host, bad).Some?
    ensures Received(host, Oks(batches) + later, res).0 == Err(CheckMessage(host, bad).value)
    decreases |batches|
  {
    var b := batches[0];
    var rest := batches[1..];
    var answers := Oks(batches) + later;
    assert answers[0] == Ok(b) && answers[1..] == Oks(rest) + later;
    if |b| <= |payload| {
      var all := payload + [bad] + tail;
      assert b == all[..|b|] == payload[..|b|];
      assert Flat(rest) == all[|b|..] == payload[|b|..] + [bad] + tail;
      PartsGo(host, b);
      hide Goes, Fault, CheckMessage;
      ErrorHoweverSplit(host, rest, payload[|b|..], bad, tail, later, res + b);
    } else {
      assert b[..|payload|] == (b + Flat(rest))[..|payload|] == payload;
      assert b[|payload|] == (b + Flat(rest))[|payload|] == bad;
      FaultAt(host, b, |payload|);
    }
  }

  lemma {:induction false} FaultAt(host: ByteOrder, batch: seq<Message>, k: nat)
    requires k < |batch| && Parts(batch[..k]) && CheckMessage(host, batch[k]).Some?
    ensures Fault(host, batch) == CheckMessage(host, batch[k])
    decreases k
  {
    if k > 0 {
      assert Part(batch[..k][0]);
      MarksAre(host, batch[0]);
      assert batch[..k][1..] == batch[1..][..k - 1];
      FaultAt(host, batch[1..], k - 1);
    }
  }

  /** So the code -n of a message of type 2 comes back as the error n, whatever parts came before it. */
  lemma CodeIsReported(
    host: ByteOrder, batches: seq<seq<Message>>, payload: seq<Message>, bad: Message, tail: seq<Message>,
    later: seq<Answer>, n: int)
    requires Flat(batches) == payload + [bad] + tail && Parts(payload) && NonEmpty(batches)
    requires bad.header.typ == 2 && |bad.data| >= 4
    requires n != 0 && -0x8000_0000 < n <= 0x8000_0000 && bad.data[..4] == Put(host, -n % WRAP, 4)
    ensures Reply(host, Oks(batches) + later).0 == Err(Netlink(n))
  {
    CodeIsNegated(host, bad, n);
    hide CheckMessage, Parts, Flat, Received;
    ErrorHoweverSplit(host, batches, payload, bad, tail, later, []);
  }

  lemma ShortErrorIsReported(
    host: ByteOrder, batches: seq<seq<Message>>, payload: seq<Message>, bad: Message, tail: seq<Message>,
    later: seq<Answer>)
    requires Flat(batches) == payload + [bad] + tail && Parts(payload) && NonEmpty(batches)
    requires bad.header.typ == 2 && |bad.data| < 4
    ensures Reply(host, Oks(batches) + later).0 == Err(ShortErrorMessage)
  {
    NoErrorIff(host, bad);
    hide CheckMessage, Parts, Flat, Received;
    ErrorHoweverSplit(host, batches, payload, bad, tail, later, []);
  }

  /** An error of the socket ends the reading, and what was read before it is dropped. */
  lemma {:induction false} SocketErrorIsReported(
    host: ByteOrder, batches: seq<seq<Message>>, e: Error, later: seq<Answer>, res: seq<Message>)
    requires forall i | 0 <= i < |batches| :: batches[i] != [] && Parts(batches[i])
    ensures Received(host, Oks(batches) + [Err(e)] + later, res) == (Err(e), later)
    decreases |batches|
  {
    var answers := Oks(batches) + [Err(e)] + later;
    if batches == [] {
      assert answers == [Err(e)] + later && answers[1..] == later;
    } else {
      PartsGo(host, batches[0]);
      hide Fault, Goes, Parts;
      assert answers[0] == Ok(batches[0]) && answers[1..] == Oks(batches[1..]) + [Err(e)] + later;
      SocketErrorIsReported(host, batches[1..], e, later, res + batches[0]);
    }
  }

  /** Receive takes away a last message exactly if it is the end of a multi-part reply. */
  lemma TrimsOnlyTheEnd(host: ByteOrder, answers: seq<Answer>)
    ensures var r, t := Received(host, answers, []), Reply(host, answers);
            && t.1 == r.1
            && (if r.0.Ok? && r.0.value != [] && Final(r.0.value[|r.0.value| - 1])
                then t.0.Ok? && t.0.value + [r.0.value[|r.0.value| - 1]] == r.0.value
                else t.0 == r.0)
  {
    var r := Received(host, answers, []);
    hide Received;
    if r.0.Ok? && r.0.value != [] {
      MarksAre(host, r.0.value[|r.0.value| - 1]);
    }
  }

  predicate AllClean(ms: seq<Message>) { forall i | 0 <= i < |ms| :: Clean(ms[i]) }

  lemma CleanIff(host: ByteOrder, batch: seq<Message>)
    ensures Fault(host, batch).None? <==> AllClean(batch)
  {
    forall i | 0 <= i < |batch| ensures CheckMessage(host, batch[i]).None? <==> Clean(batch[i]) {
      NoErrorIff(host, batch[i]);
    }
    hide CheckMessage, Clean;
  }

  /** Without such messages there is no error: a reply is read to its end, or waits for more. */
  lemma {:induction false} CleanReplyIsNoError(host: ByteOrder, batches: seq<seq<Message>>, res: seq<Message>)
    requires forall i | 0 <= i < |batches| :: AllClean(batches[i])
    ensures Received(host, Oks(batches), res).0 == Err(Blocked)
         || exists k | 0 < k <= |batches| :: Received(host, Oks(batches), res).0 == Ok(res + Flat(batches[..k]))
    decreases |batches|
  {
    if batches != [] {
      var rest := batches[1..];
      CleanIff(host, batches[0]);
      hide Fault, Goes, AllClean;
      assert Oks(batches)[1..] == Oks(rest);
      if Goes(batches[0]) {
        CleanReplyIsNoError(host, rest, res + batches[0]);
        if k :| 0 < k <= |rest| && Received(host, Oks(rest), res + batches[0]).0 == Ok(res + batches[0] + Flat(rest[..k])) {
          assert batches[..k + 1][1..] == rest[..k];
          assert res + batches[0] + Flat(rest[..k]) == res + Flat(batches[..k + 1]);
        }
      } else {
        assert batches[..1] == [batches[0]] && Flat(batches[..1]) == batches[0];
      }
    }
  }

  // ------------------------------------------------------------- validation

  predicate SequenceMatches(request: Message, m: Message) {
    request.header.sequence == 0 || m.header.sequence == request.header.sequence
  }

  predicate PidMatches(request: Message, m: Message) {
    request.header.pid == 0 || m.header.pid == 0 || m.header.pid == request.header.pid
  }

  predicate Matches(request: Message, m: Message) { SequenceMatches(request, m) && PidMatches(request, m) }

  ghost predicate FirstMismatch(request: Message, replies: seq<Message>, e: Error) {
    exists k | 0 <= k < |replies| ::
      && !Matches(request, replies[k])
      && (forall i | 0 <= i < k :: Matches(request, replies[i]))
      && e == if SequenceMatches(request, replies[k]) then MismatchedPID else MismatchedSequence
  }

  /** Validate reports the first reply that does not match, its sequence number before its PID. */
  method Validate(request: Message, replies: seq<Message>) returns (e: Option<Error>)
    ensures e.None? <==> forall i | 0 <= i < |replies| :: Matches(request, replies[i])
    ensures e.Some? ==> FirstMismatch(request, replies, e.value)
    ensures e.None? <==> forall i | 0 <= i < |replies| ::
              var h, g := request.header, replies[i].header;
              (h.sequence == 0 || g.sequence == h.sequence) && (h.pid == 0 || g.pid == 0 || g.pid == h.pid)
    ensures e == Some(MismatchedSequence) ==> exists i | 0 <= i < |replies| :: replies[i].header.sequence != request.header.sequence
    ensures e.Some? && e != Some(MismatchedSequence) ==>
              e == Some(MismatchedPID) && exists i | 0 <= i < |replies| :: replies[i].header.pid != request.header.pid
  {
    for k := 0 to |replies|
      invariant forall i | 0 <= i < k :: Matches(request, replies[i])
    {
      var m := replies[k];
      if m.header.sequence != request.header.sequence && request.header.sequence != 0 {
        assert !Matches(request, replies[k]);
        return Some(MismatchedSequence);
      }
      if m.header.pid != request.header.pid && request.header.pid != 0 && m.header.pid != 0 {
        assert !Matches(request, replies[k]);
        return Some(MismatchedPID);
      }
    }
    return None;
  }

  /** SendMessages' loop after k rounds: the first k requests are filled in, the rest are as they were. */
  predicate FixedUpTo(was: seq<Message>, now: seq<Message>, k: nat, sequence: uint32, pid: uint32) {
    && k <= |was| == |now| && AllSmall(was[..k])
    && now[..k] == FixedAll(was[..k], sequence, pid) && now[k..] == was[k..]
  }

  lemma NoneFixed(was: seq<Message>, sequence: uint32, pid: uint32)
    ensures FixedUpTo(was, was, 0, sequence, pid)
  {
  }

  lemma FixedSoFar(was: seq<Message>, now: seq<Message>, k: nat, sequence: uint32, pid: uint32)
    requires FixedUpTo(was, now, k, sequence, pid) && k < |was|
    ensures |now| == |was| && now[k] == was[k]
  {
    assert now[k] == now[k..][0];
    assert was[k] == was[k..][0];
  }

  lemma FixOneMore(was: seq<Message>, now: seq<Message>, k: nat, sequence: uint32, pid: uint32)
    requires FixedUpTo(was, now, k, sequence, pid) && k < |was| && Small(was[k])
    ensures FixedUpTo(was, now[k := Fixed(was[k], CounterAll(was[..k], sequence), pid)], k + 1, sequence, pid)
    ensures CounterAll(was[..k + 1], sequence) == Counter(was[k], CounterAll(was[..k], sequence))
  {
    hide Fixed, Counter;
    var f := Fixed(was[k], CounterAll(was[..k], sequence), pid);
    var next := now[k := f];
    assert was[..k + 1][..k] == was[..k];
    assert next[..k + 1] == now[..k] + [f];
    assert next[k + 1..] == now[k..][1..];
    assert was[k + 1..] == was[k..][1..];
  }

  lemma TooLargeAt(was: seq<Message>, now: seq<Message>, k: nat, sequence: uint32, pid: uint32)
    requires FixedUpTo(was, now, k, sequence, pid) && k < |was| && !Small(was[k])
    ensures !AllSmall(was) && AllSmall(was[..k])
    ensures now[..k] == FixedAll(was[..k], sequence, pid) && now[k..] == was[k..]
  {
  }

  lemma AllFixed(was: seq<Message>, now: seq<Message>, sequence: uint32, pid: uint32)
    requires FixedUpTo(was, now, |was|, sequence, pid)
    ensures AllSmall(was) && now == FixedAll(was, sequence, pid) && was[..|was|] == was
  {
    assert was[..|was|] == was;
    assert now[..|was|] == now;
  }

  lemma AllKept(was: seq<Message>, sequence: uint32, pid: uint32)
    requires AllSmall(was)
    ensures forall i | 0 <= i < |was| ::
              var m, f := was[i], FixedAll(was, sequence, pid)[i];
              && f.data == m.data && f.header.typ == m.header.typ && f.header.flags == m.header.flags
              && f.header.pid == (if m.header.pid != 0 then m.header.pid else pid)
              && (m.header.sequence != 0 ==> f.header.sequence == m.header.sequence)
              && (m.header.length != 0 ==> f.header.length == m.header.length)
  {
    forall i | 0 <= i < |was|
      ensures var m, f := was[i], FixedAll(was, sequence, pid)[i];
              && f.data == m.data && f.header.typ == m.header.typ && f.header.flags == m.header.flags
              && f.header.pid == (if m.header.pid != 0 then m.header.pid else pid)
              && (m.header.sequence != 0 ==> f.header.sequence == m.header.sequence)
              && (m.header.length != 0 ==> f.header.length == m.header.length)
    {
      FixedAllAt(was, sequence, pid, i);
      FixedKeeps(was[i], CounterAll(was[..i], sequence), pid);
    }
  }

  // ---------------------------------------------------------- the connection

  class Conn {
    const host: ByteOrder
    const pid: uint32
    var sequence: uint32
    /** What the socket has accepted, and what it has still to answer. */
    var sent: seq<Message>
    var answers: seq<Answer>

    constructor (host: ByteOrder, pid: uint32, seed: uint32, answers: seq<Answer>)
      ensures this.host == host && this.pid == pid && sequence == seed && sent == [] && this.answers == answers
    {
      this.host, this.pid, this.sequence, this.sent, this.answers := host, pid, seed, [], answers;
    }

    method NextSequence() returns (n: uint32)
      modifies this`sequence
      ensures n == sequence == Next(old(sequence))
      ensures n == 0 <==> old(sequence) == WRAP - 1
    {
      sequence := (sequence + 1) % WRAP;
      n := sequence;
    }

    method FixMsg(m: Message) returns (r: Message)
      requires Small(m)
      modifies this`sequence
      ensures r == Fixed(m, old(sequence), pid) && sequence == Counter(m, old(sequence))
    {
      r := m;
      if r.header.length == 0 {
        r := r.(header := r.header.(length := Align(NLMSG_HEADER_LEN + |m.data|)));
      }
      if r.header.sequence == 0 {
        var n := NextSequence();
        r := r.(header := r.header.(sequence := n));
      }
      if r.header.pid == 0 {
        r := r.(header := r.header.(pid := pid));
      }
    }

    /** A request that is too large changes nothing; one the socket refuses has still used its number. */
    method LockedSend(m: Message, refusal: Option<Error>) returns (r: Result<Message>)
      modifies this`sequence, this`sent
      ensures !Small(m) ==> r == Err(TooLarge) && sequence == old(sequence) && sent == old(sent)
      ensures Small(m) ==> sequence == Counter(m, old(sequence))
      ensures Small(m) && refusal.Some? ==> r == Err(refusal.value) && sent == old(sent)
      ensures Small(m) && refusal.None? ==> r == Ok(Fixed(m, old(sequence), pid)) && sent == old(sent) + [r.value]
      ensures r.Ok? ==>
                && r.value.data == m.data && r.value.header.typ == m.header.typ && r.value.header.flags == m.header.flags
                && r.value.header.pid == (if m.header.pid != 0 then m.header.pid else pid)
                && (m.header.sequence != 0 ==> r.value.header.sequence == m.header.sequence)
                && (m.header.length != 0 ==> r.value.header.length == m.header.length)
    {
      if NLMSG_HEADER_LEN + |m.data| > MAX_SIZE {
        return Err(TooLarge);
      }
      var f := FixMsg(m);
      if refusal.Some? {
        return Err(refusal.value);
      }
      sent := sent + [f];
      return Ok(f);
    }

    /** The caller's list is filled in place, up to the first request that is too large. */
    method SendMessages(ms: array<Message>, refusal: Option<Error>) returns (r: Result<seq<Message>>)
      modifies this`sequence, this`sent, ms
      ensures AllSmall(old(ms[..])) ==>
                && ms[..] == FixedAll(old(ms[..]), old(sequence), pid)
                && sequence == CounterAll(old(ms[..]), old(sequence))
                && (if refusal.Some? then r == Err(refusal.value) && sent == old(sent)
                    else r == Ok(ms[..]) && sent == old(sent) + ms[..])
      ensures !AllSmall(old(ms[..])) ==>
                && r == Err(TooLarge) && sent == old(sent)
                && exists k | 0 <= k < ms.Length ::
                     && !Small(old(ms[k])) && AllSmall(old(ms[..k]))
                     && ms[..k] == FixedAll(old(ms[..k]), old(sequence), pid)
                     && ms[k..] == old(ms[k..])
                     && sequence == CounterAll(old(ms[..k]), old(sequence))
      ensures r.Ok? ==> forall i | 0 <= i < ms.Length ::
                var m, f := old(ms[i]), ms[i];
                && f.data == m.data && f.header.typ == m.header.typ && f.header.flags == m.header.flags
                && f.header.pid == (if m.header.pid != 0 then m.header.pid else pid)
                && (m.header.sequence != 0 ==> f.header.sequence == m.header.sequence)
                && (m.header.length != 0 ==> f.header.length == m.header.length)
    {
      hide FixedUpTo;
      ghost var was, start := ms[..], sequence;
      NoneFixed(was, start, pid);
      for k := 0 to ms.Length
        invariant FixedUpTo(was, ms[..], k, start, pid)
        invariant sequence == CounterAll(was[..k], start) && sent == old(sent)
      {
        FixedSoFar(was, ms[..], k, start, pid);
        if NLMSG_HEADER_LEN + |ms[k].data| > MAX_SIZE {
          TooLargeAt(was, ms[..], k, start, pid);
          assert was[..k] == old(ms[..k]) && was[k..] == old(ms[k..]) && ms[..][..k] == ms[..k] && ms[..][k..] == ms[k..];
          return Err(TooLarge);
        }
        ghost var before := ms[..];
        var f := FixMsg(ms[k]);
        ms[k] := f;
        FixOneMore(was, before, k, start, pid);
        assert ms[..] == before[k := f];
      }
      AllFixed(was, ms[..], start, pid);
      AllKept(was, start, pid);
      if refusal.Some? {
        return Err(refusal.value);
      }
      sent := sent + ms[..];
      return Ok(ms[..]);
    }

    /** receive. */
    method Drain() returns (r: Answer)
      modifies this`answers
      ensures (r, answers) == Received(host, old(answers), [])
    {
      var res: seq<Message> := [];
      while true
        invariant Received(host, answers, res) == Received(host, old(answers), [])
        decreases |answers|
      {
        if answers == [] {
          return Err(Blocked);
        }
        var answer := answers[0];
        answers := answers[1..];
        if answer.Err? {
          return answer;
        }
        var multi := false;
        var msgs := answer.value;
        for i := 0 to |msgs|
          invariant Fault(host, msgs) == Fault(host, msgs[i..])
          invariant multi == Multi(msgs[..i], false)
        {
          assert msgs[i..][0] == msgs[i] && msgs[i..][1..] == msgs[i + 1..];
          assert msgs[..i + 1][..i] == msgs[..i];
          var e := CheckMessage(host, msgs[i]);
          if e.Some? {
            return Err(e.value);
          }
          if IsMulti(msgs[i]) {
            multi := msgs[i].header.typ != DONE;
          }
        }
        assert msgs[..|msgs|] == msgs;
        res := res + msgs;
        if !multi {
          return Ok(res);
        }
      }
    }

    method LockedReceive() returns (r: Answer)
      modifies this`answers
      ensures (r, answers) == Reply(host, old(answers))
    {
      r := Drain();
      if r.Err? || r.value == [] {
        return;
      }
      var m := r.value[|r.value| - 1];
      if IsMulti(m) && m.header.typ == DONE {
        r := Ok(r.value[..|r.value| - 1]);
      }
    }

    /**
     Execute.  Its replies match the request, and when it numbered the request
     itself they carry that number, unless the counter wrapped to 0.
     */
    method Execute(m: Message, refusal: Option<Error>) returns (r: Answer)
      modifies this`sequence, this`sent, this`answers
      ensures !Small(m) ==> r == Err(TooLarge) && sequence == old(sequence)
      ensures Small(m) && refusal.Some? ==> r == Err(refusal.value)
      ensures !Small(m) || refusal.Some? ==> sent == old(sent) && answers == old(answers)
      ensures Small(m) && refusal.None? ==>
                var request := Fixed(m, old(sequence), pid);
                var (reply, rest) := Reply(host, old(answers));
                && sent == old(sent) + [request] && answers == rest
                && (reply.Err? ==> r == reply)
                && (reply.Ok? ==>
                      if forall i | 0 <= i < |reply.value| :: Matches(request, reply.value[i]) then r == reply
                      else r.Err? && FirstMismatch(request, reply.value, r.error))
      ensures r.Ok? && m.header.sequence == 0 && old(sequence) != WRAP - 1 ==>
                forall i | 0 <= i < |r.value| :: r.value[i].header.sequence == old(sequence) + 1
      ensures r.Ok? && m.header.pid == 0 && pid != 0 ==>
                forall i | 0 <= i < |r.value| :: r.value[i].header.pid == 0 || r.value[i].header.pid == pid
      ensures r.Ok? ==>
                && |sent| == |old(sent)| + 1 && sent[..|old(sent)|] == old(sent)
                && var f := sent[|old(sent)|];
                   && f.data == m.data && f.header.typ == m.header.typ && f.header.flags == m.header.flags
                   && f.header.pid == (if m.header.pid != 0 then m.header.pid else pid)
                   && (m.header.sequence != 0 ==> f.header.sequence == m.header.sequence)
                   && (m.header.length != 0 ==> f.header.length == m.header.length)
                   && forall i | 0 <= i < |r.value| ::
                        && (f.header.sequence == 0 || r.value[i].header.sequence == f.header.sequence)
                        && (f.header.pid == 0 || r.value[i].header.pid == 0 || r.value[i].header.pid == f.header.pid)
    {
      var request := LockedSend(m, refusal);
      if request.Err? {
        return Err(request.error);
      }
      var replies := LockedReceive();
      if replies.Err? {
        return replies;
      }
      var e := Validate(request.value, replies.value);
      if e.Some? {
        return Err(e.value);
      }
      return replies;
    }
  }

  /** The number a connection gives is 0 just after it wraps, and then replies are accepted with any number. */
  lemma WrappedNumberIsNotChecked(m: Message, sequence: uint32, pid: uint32)
    requires Small(m) && m.header.sequence == 0
    ensures (forall reply: Message :: SequenceMatches(Fixed(m, sequence, pid), reply)) <==> sequence == WRAP - 1
  {
    var request := Fixed(m, sequence, pid);
    if sequence != WRAP - 1 {
      var reply := Message(Header(0, 0, 0, 0, 0), []);
      assert !SequenceMatches(request, reply);
    }
  }
}
