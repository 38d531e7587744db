/**
 * The DDC/CI write/read exchange of `performDDCCommunication`, run against an I2C channel
 * whose answers are scripted, and the VCP feature read built on it.
 */
module DdcExchange {
  import opened Wrappers
  import opened DdcPacket

  /** The fixed-length buffer one I2C read fills. */
  type ReplyBuffer = s: seq<byte> | |s| == ReadBufferSize witness [0, 0, 0, 0, 0, 0, 0, 0, 0, 0, 0]

  /** What the channel answers to one read: a status (0 is success) and the buffer it filled. */
  datatype ReadAnswer = ReadAnswer(status: int, data: ReplyBuffer)

  /** One logged write transaction: chip address, data address and the bytes written. */
  datatype I2cWrite = I2cWrite(chipAddress: byte, dataAddress: byte, data: seq<byte>)

  /** One logged read transaction: chip address, data address and the buffer length. */
  datatype I2cRead = I2cRead(chipAddress: byte, dataAddress: byte, length: nat)

  /** `n` copies of `x`. */
  function Repeat<T>(x: T, n: nat): (s: seq<T>)
    ensures |s| == n
  {
    if n == 0 then [] else Repeat(x, n - 1) + [x]
  }

  /** The writes `attempts` attempts of `cycles` writes each make, counted attempt by attempt. */
  function WritesFor(attempts: nat, cycles: nat): nat
  {
    if attempts == 0 then 0 else WritesFor(attempts - 1, cycles) + cycles
  }

  /** `attempts` attempts of `cycles` writes make `attempts * cycles` writes. */
  lemma {:induction false} WritesForIsProduct(attempts: nat, cycles: nat)
    ensures WritesFor(attempts, cycles) == attempts * cycles
  {
    if attempts > 0 {
      WritesForIsProduct(attempts - 1, cycles);
    }
  }

  lemma RepeatSnoc<T>(x: T, n: nat)
    ensures Repeat(x, n) + [x] == Repeat(x, n + 1)
  {
  }

  lemma {:induction false} RepeatAppend<T>(x: T, m: nat, n: nat)
    ensures Repeat(x, m) + Repeat(x, n) == Repeat(x, m + n)
    decreases n
  {
    if n > 0 {
      RepeatAppend(x, m, n - 1);
      assert Repeat(x, m) + Repeat(x, n) == (Repeat(x, m) + Repeat(x, n - 1)) + [x];
    }
  }

  /**
   * An IOAVService channel with scripted behaviour: the n-th write on it (counting from 0)
   * returns `writeStatus(n)` and the n-th read returns `readAnswer(n)`. The logs record every
   * transaction in order.
   */
  class Bus {
    const writeStatus: nat -> int
    const readAnswer: nat -> ReadAnswer
    var writeLog: seq<I2cWrite>
    var readLog: seq<I2cRead>

    constructor (writeStatus: nat -> int, readAnswer: nat -> ReadAnswer)
      ensures this.writeStatus == writeStatus && this.readAnswer == readAnswer
      ensures writeLog == [] && readLog == []
    {
      this.writeStatus := writeStatus;
      this.readAnswer := readAnswer;
      writeLog := [];
      readLog := [];
    }

    /** `IOAVServiceWriteI2C`: write `data` to the display, returning the scripted status. */
    method WriteI2C(chipAddress: byte, dataAddress: byte, data: seq<byte>) returns (status: int)
      modifies this
      ensures writeLog == old(writeLog) + [I2cWrite(chipAddress, dataAddress, data)]
      ensures readLog == old(readLog)
      ensures status == writeStatus(|old(writeLog)|)
    {
      status := writeStatus(|writeLog|);
      writeLog := writeLog + [I2cWrite(chipAddress, dataAddress, data)];
    }

    /** `IOAVServiceReadI2C` into an 11-byte buffer, returning the scripted status and bytes. */
    method ReadI2C(chipAddress: byte, dataAddress: byte) returns (status: int, data: ReplyBuffer)
      modifies this
      ensures readLog == old(readLog) + [I2cRead(chipAddress, dataAddress, ReadBufferSize)]
      ensures writeLog == old(writeLog)
      ensures ReadAnswer(status, data) == readAnswer(|old(readLog)|)
    {
      var answer := readAnswer(|readLog|);
      status, data := answer.status, answer.data;
      readLog := readLog + [I2cRead(chipAddress, dataAddress, ReadBufferSize)];
    }
  }

  /**
   * Everything an exchange depends on besides the packet: the channel's script, how many writes
   * and reads it had seen before the exchange, the writes per attempt and whether a reply is read.
   */
  datatype Plan = Plan(
    writeStatus: nat -> int,
    readAnswer: nat -> ReadAnswer,
    writesBefore: nat,
    readsBefore: nat,
    cycles: nat,
    readReply: bool)

  /** `max(numOfWriteCycles, 1)`. */
  function WriteCycles(numOfWriteCycles: int): (c: nat)
    ensures c >= 1 && c >= numOfWriteCycles
    ensures c == numOfWriteCycles || c == 1
  {
    if numOfWriteCycles > 1 then numOfWriteCycles else 1
  }

  /** Whether the last write of attempt `k` (0-based) succeeded. */
  function LastWriteOk(e: Plan, k: nat): bool
    requires e.cycles >= 1
  {
    e.writeStatus(e.writesBefore + WritesFor(k, e.cycles) + e.cycles - 1) == 0
  }

  /** The channel's answer to the read of attempt `k` (0-based). */
  function ReadAt(e: Plan, k: nat): ReadAnswer
  {
    e.readAnswer(e.readsBefore + k)
  }

  /**
   * The flag and reply attempt `k` leaves: the status of its last write, overwritten by the
   * reply's checksum test whenever a reply is read with status 0.
   */
  function Attempt(e: Plan, k: nat): (r: (bool, seq<byte>))
    requires e.cycles >= 1
    ensures e.readReply ==> |r.1| == ReadBufferSize
    ensures !e.readReply ==> r.1 == []
  {
    if !e.readReply then
      (LastWriteOk(e, k), [])
    else
      var answer := ReadAt(e, k);
      if answer.status == 0 then (ChecksumMatches(ReplySeed, answer.data), answer.data)
      else (LastWriteOk(e, k), answer.data)
  }

  /**
   * The attempts from `k` on, given the flag and reply attempt `k - 1` left: the first
   * successful attempt ends the exchange. Returns the flag, the reply and the attempts made.
   */
  function RunFrom(e: Plan, attempts: int, k: nat, ok: bool, reply: seq<byte>): (bool, seq<byte>, nat)
    requires e.cycles >= 1
    decreases attempts - k
  {
    if k >= attempts then
      (ok, reply, k)
    else
      var (ok', reply') := Attempt(e, k);
      if ok' then (true, reply', k + 1) else RunFrom(e, attempts, k + 1, ok', reply')
  }

  /**
   * The result of an exchange of `attempts` attempts: the flag and reply of the last attempt
   * made, and how many were made.
   */
  function Outcome(e: Plan, attempts: int): (bool, seq<byte>, nat)
    requires e.cycles >= 1
  {
    RunFrom(e, attempts, 0, false, [])
  }

  /**
   * What a run from attempt `k` on reports: the flag and reply of the last attempt it made, every
   * attempt before that one failed, and it stops early only on a success.
   */
  lemma {:induction false} RunFromShape(e: Plan, attempts: int, k: nat, ok: bool, reply: seq<byte>)
    requires e.cycles >= 1
    ensures var r := RunFrom(e, attempts, k, ok, reply);
      && (k >= attempts ==> r == (ok, reply, k))
      && (k < attempts ==> k + 1 <= r.2 <= attempts && (r.0, r.1) == Attempt(e, r.2 - 1))
      && (k < attempts ==> forall j :: k <= j < r.2 - 1 ==> !Attempt(e, j).0)
      && (k < attempts && !r.0 ==> r.2 == attempts)
    decreases attempts - k
  {
    if k < attempts && !Attempt(e, k).0 {
      RunFromShape(e, attempts, k + 1, Attempt(e, k).0, Attempt(e, k).1);
    }
  }

  /**
   * An exchange of `attempts` attempts reports the flag and reply of the last attempt it made, all
   * earlier attempts failed, it makes every attempt unless one succeeds, and with no attempt at
   * all it reports failure with an empty reply.
   */
  lemma OutcomeShape(e: Plan, attempts: int)
    requires e.cycles >= 1
    ensures var r := Outcome(e, attempts);
      && (attempts <= 0 ==> r == (false, [], 0))
      && (attempts > 0 ==> 1 <= r.2 <= attempts && (r.0, r.1) == Attempt(e, r.2 - 1))
      && (forall j :: 0 <= j < r.2 - 1 ==> !Attempt(e, j).0)
      && (attempts > 0 && !r.0 ==> r.2 == attempts)
  {
    RunFromShape(e, attempts, 0, false, []);
  }

  /** The attempt that succeeds first is the one whose reply the exchange returns. */
  lemma FirstSuccessfulAttemptWins(e: Plan, attempts: int, k: nat)
    requires e.cycles >= 1
    requires k < attempts
    requires forall j :: 0 <= j < k ==> !Attempt(e, j).0
    requires Attempt(e, k).0
    ensures Outcome(e, attempts) == (true, Attempt(e, k).1, k + 1)
  {
    OutcomeShape(e, attempts);
  }

  /** When every attempt fails, the exchange makes all of them and reports the last one. */
  lemma AllAttemptsFail(e: Plan, attempts: int)
    requires e.cycles >= 1
    requires attempts > 0
    requires forall j :: 0 <= j < attempts ==> !Attempt(e, j).0
    ensures Outcome(e, attempts) == (false, Attempt(e, attempts - 1).1, attempts)
  {
    OutcomeShape(e, attempts);
  }

  /**
   * Only the last write of each attempt matters: two channels that agree on reads and on the
   * status of every attempt's last write give the same outcome, whatever the earlier writes of
   * each attempt returned.
   */
  lemma {:induction false} OnlyLastWriteCounts(e1: Plan, e2: Plan, attempts: int, k: nat, ok: bool, reply: seq<byte>)
    requires e1.cycles >= 1 && e2.cycles >= 1
    requires e1.readReply == e2.readReply
    requires forall j: nat :: LastWriteOk(e1, j) == LastWriteOk(e2, j)
    requires forall j: nat :: ReadAt(e1, j) == ReadAt(e2, j)
    ensures RunFrom(e1, attempts, k, ok, reply) == RunFrom(e2, attempts, k, ok, reply)
    decreases attempts - k
  {
    if k < attempts {
      assert LastWriteOk(e1, k) == LastWriteOk(e2, k);
      assert ReadAt(e1, k) == ReadAt(e2, k);
      assert Attempt(e1, k) == Attempt(e2, k);
      var (ok', reply') := Attempt(e1, k);
      if !ok' {
        OnlyLastWriteCounts(e1, e2, attempts, k + 1, ok', reply');
      }
    }
  }

  /**
   * One attempt of `performDDCCommunication`: write the packet `e.cycles` times, keeping the
   * status of the last write, then, when a reply is wanted, read it and replace the flag by its
   * checksum test if the read succeeded. `attempt` attempts were made before this one.
   */
  method RunAttempt(bus: Bus, packet: seq<byte>, cycles: nat, readReply: bool, ghost e: Plan, ghost attempt: nat)
    returns (success: bool, rep: seq<byte>)
    requires e.cycles == cycles >= 1 && e.readReply == readReply
    requires e.writeStatus == bus.writeStatus && e.readAnswer == bus.readAnswer
    requires |bus.writeLog| == e.writesBefore + WritesFor(attempt, e.cycles)
    requires readReply ==> |bus.readLog| == e.readsBefore + attempt
    modifies bus
    ensures (success, rep) == Attempt(e, attempt)
    ensures bus.writeLog == old(bus.writeLog) + WritesOf(packet, cycles)
    ensures bus.readLog == old(bus.readLog) + (if readReply then [I2cRead(Ddc7BitAddress, DdcDataAddress, ReadBufferSize)] else [])
  {
    ghost var w := I2cWrite(Ddc7BitAddress, DdcDataAddress, packet);
    success := false;
    var c := 0;
    while c < cycles
      invariant 0 <= c <= cycles
      invariant bus.writeLog == old(bus.writeLog) + Repeat(w, c)
      invariant bus.readLog == old(bus.readLog)
      invariant c > 0 ==> success == (e.writeStatus(e.writesBefore + WritesFor(attempt, e.cycles) + c - 1) == 0)
    {
      var status := bus.WriteI2C(Ddc7BitAddress, DdcDataAddress, packet);
      success := status == 0;
      RepeatSnoc(w, c);
      c := c + 1;
    }
    assert success == LastWriteOk(e, attempt);
    rep := [];
    if readReply {
      var ret, data := bus.ReadI2C(Ddc7BitAddress, DdcDataAddress);
      assert ReadAt(e, attempt) == ReadAnswer(ret, data);
      rep := data;
      if ret == 0 {
        var chk := Checksum(ReplySeed, rep, 0, |rep| - 2);
        assert rep[0..|rep| - 2 + 1] == rep[..|rep| - 1];
        success := chk == rep[|rep| - 1];
      }
    }
  }

  /** The writes `n` attempts of `cycles` writes each leave in the log. */
  function WritesOf(packet: seq<byte>, n: nat): seq<I2cWrite>
  {
    Repeat(I2cWrite(Ddc7BitAddress, DdcDataAddress, packet), n)
  }

  /** One more attempt of `cycles` writes extends the write log by `cycles` copies of the packet. */
  lemma WritesOfStep(packet: seq<byte>, attempt: nat, cycles: nat)
    ensures WritesOf(packet, WritesFor(attempt, cycles)) + WritesOf(packet, cycles) == WritesOf(packet, WritesFor(attempt + 1, cycles))
  {
    RepeatAppend(I2cWrite(Ddc7BitAddress, DdcDataAddress, packet), WritesFor(attempt, cycles), cycles);
  }

  /** The reads `n` attempts leave in the log. */
  function ReadsOf(readReply: bool, n: nat): seq<I2cRead>
  {
    if readReply then Repeat(I2cRead(Ddc7BitAddress, DdcDataAddress, ReadBufferSize), n) else []
  }

  /** One more attempt adds one read to the log when a reply is read, and none otherwise. */
  lemma ReadsOfSnoc(readReply: bool, n: nat)
    ensures ReadsOf(readReply, n) + (if readReply then [I2cRead(Ddc7BitAddress, DdcDataAddress, ReadBufferSize)] else []) == ReadsOf(readReply, n + 1)
  {
  }

  /** One step of `RunFrom`: a successful attempt ends the run, a failed one continues it. */
  lemma RunFromStep(e: Plan, attempts: int, k: nat, ok: bool, reply: seq<byte>)
    requires e.cycles >= 1 && k < attempts
    ensures Attempt(e, k).0 ==> RunFrom(e, attempts, k, ok, reply) == (true, Attempt(e, k).1, k + 1)
    ensures !Attempt(e, k).0 ==> RunFrom(e, attempts, k, ok, reply) == RunFrom(e, attempts, k + 1, Attempt(e, k).0, Attempt(e, k).1)
  {
  }

  /**
   * The retry loop of `performDDCCommunication` for an already framed packet: up to `attempts`
   * attempts, returning the flag and reply of the first successful one, or of the last one.
   */
  method RetryAttempts(bus: Bus, packet: seq<byte>, cycles: nat, readReply: bool, attempts: int, ghost e: Plan)
    returns (success: bool, rep: seq<byte>)
    requires e == Plan(bus.writeStatus, bus.readAnswer, |bus.writeLog|, |bus.readLog|, cycles, readReply)
    requires cycles >= 1
    modifies bus
    ensures var o := Outcome(e, attempts);
      && (success, rep) == (o.0, o.1)
      && bus.writeLog == old(bus.writeLog) + WritesOf(packet, WritesFor(o.2, cycles))
      && bus.readLog == old(bus.readLog) + ReadsOf(readReply, o.2)
  {
    ghost var o := Outcome(e, attempts);
    success := false;
    rep := [];
    var attempt: nat := 0;
    while attempt < attempts
      invariant attempts > 0 ==> attempt <= attempts
      invariant attempts <= 0 ==> attempt == 0
      invariant RunFrom(e, attempts, attempt, success, rep) == o
      invariant bus.writeLog == old(bus.writeLog) + WritesOf(packet, WritesFor(attempt, cycles))
      invariant bus.readLog == old(bus.readLog) + ReadsOf(readReply, attempt)
    {
      RunFromStep(e, attempts, attempt, success, rep);
      success, rep := RunAttempt(bus, packet, cycles, readReply, e, attempt);
      WritesOfStep(packet, attempt, cycles);
      ReadsOfSnoc(readReply, attempt);
      if success {
        return;
      }
      attempt := attempt + 1;
    }
  }

  /**
   * `performDDCCommunication`: frame the payload, then for each of `numOfRetryAttempts`
   * attempts write the packet `max(numOfWriteCycles, 1)` times, optionally read an 11-byte reply
   * and check it, and return at the first success. `None` stands for the ValueError the packet
   * builder raises on a payload that does not fit in bytes.
   */
  method PerformDdcCommunication(bus: Bus, send: seq<int>, readReply: bool, numOfWriteCycles: int, numOfRetryAttempts: int)
    returns (r: Option<(bool, seq<byte>)>)
    modifies bus
    ensures !ValidPayload(send) ==> r.None? && bus.writeLog == old(bus.writeLog) && bus.readLog == old(bus.readLog)
    ensures ValidPayload(send) ==>
      var e := Plan(bus.writeStatus, bus.readAnswer, |old(bus.writeLog)|, |old(bus.readLog)|, WriteCycles(numOfWriteCycles), readReply);
      var o := Outcome(e, numOfRetryAttempts);
      && r == Some((o.0, o.1))
      && bus.writeLog == old(bus.writeLog) + Repeat(I2cWrite(Ddc7BitAddress, DdcDataAddress, Encode(Bytes(send))), WritesFor(o.2, e.cycles))
      && bus.readLog == old(bus.readLog) + (if readReply then Repeat(I2cRead(Ddc7BitAddress, DdcDataAddress, ReadBufferSize), o.2) else [])
  {
    var maybePacket := BuildPacket(send);
    if maybePacket.None? {
      return None;
    }
    var packet := maybePacket.value;
    var cycles := WriteCycles(numOfWriteCycles);
    ghost var e := Plan(bus.writeStatus, bus.readAnswer, |bus.writeLog|, |bus.readLog|, cycles, readReply);
    var success, rep := RetryAttempts(bus, packet, cycles, readReply, numOfRetryAttempts, e);
    r := Some((success, rep));
  }

  /** What `read` returns: a ValueError from the packet builder, `None`, or `(current, max)`. */
  datatype ReadOutcome = PacketError | NoReply | Feature(current: nat, maximum: nat)

  /**
   * `read`: request VCP feature `command` with a one-byte payload, read the reply, and decode the
   * current value and the maximum from it when the exchange succeeded.
   */
  method Read(bus: Bus, command: int, numOfWriteCycles: int, numOfRetryAttempts: int) returns (r: ReadOutcome)
    modifies bus
    ensures !IsByte(command) ==> r == PacketError && bus.writeLog == old(bus.writeLog) && bus.readLog == old(bus.readLog)
    ensures IsByte(command) ==>
      var e := Plan(bus.writeStatus, bus.readAnswer, |old(bus.writeLog)|, |old(bus.readLog)|, WriteCycles(numOfWriteCycles), true);
      var o := Outcome(e, numOfRetryAttempts);
      && (r.Feature? <==> o.0)
      && (o.0 ==> |o.1| == ReadBufferSize && (r.current, r.maximum) == DecodeFeatureReply(o.1))
      && (!o.0 ==> r == NoReply)
      && bus.writeLog == old(bus.writeLog) + Repeat(I2cWrite(Ddc7BitAddress, DdcDataAddress, Encode([ToByte(command)])), WritesFor(o.2, e.cycles))
      && bus.readLog == old(bus.readLog) + Repeat(I2cRead(Ddc7BitAddress, DdcDataAddress, ReadBufferSize), o.2)
  {
    var send := [command];
    assert send[0] == command;
    assert ValidPayload(send) <==> IsByte(command);
    assert IsByte(command) ==> Bytes(send) == [ToByte(command)];
    ghost var e := Plan(bus.writeStatus, bus.readAnswer, |bus.writeLog|, |bus.readLog|, WriteCycles(numOfWriteCycles), true);
    OutcomeShape(e, numOfRetryAttempts);
    var result := PerformDdcCommunication(bus, send, true, numOfWriteCycles, numOfRetryAttempts);
    if result.None? {
      return PacketError;
    }
    var (success, reply) := result.value;
    if success {
      var (valCur, valMax) := DecodeFeatureReply(reply);
      r := Feature(valCur, valMax);
    } else {
      r := NoReply;
    }
  }

  /** The default number of writes per attempt of `read`. */
  const DefaultWriteCycles := 2

  /** The default number of attempts of `read`. */
  const DefaultRetryAttempts := 4

  /**
   * `read(ioavservice, command)` with its default counts: a byte command makes one to four
   * attempts of two writes and one read each, and all four when no reply validates.
   */
  method ReadWithDefaults(bus: Bus, command: int) returns (r: ReadOutcome)
    modifies bus
    ensures !IsByte(command) ==> r == PacketError && bus.writeLog == old(bus.writeLog) && bus.readLog == old(bus.readLog)
    ensures IsByte(command) ==> r != PacketError
    ensures IsByte(command) ==> 1 <= |bus.readLog| - |old(bus.readLog)| <= DefaultRetryAttempts
    ensures IsByte(command) ==> |bus.writeLog| - |old(bus.writeLog)| == DefaultWriteCycles * (|bus.readLog| - |old(bus.readLog)|)
    ensures IsByte(command) && r == NoReply ==> |bus.readLog| - |old(bus.readLog)| == DefaultRetryAttempts
  {
    ghost var e := Plan(bus.writeStatus, bus.readAnswer, |bus.writeLog|, |bus.readLog|, WriteCycles(DefaultWriteCycles), true);
    OutcomeShape(e, DefaultRetryAttempts);
    WritesForIsProduct(Outcome(e, DefaultRetryAttempts).2, e.cycles);
    r := Read(bus, command, DefaultWriteCycles, DefaultRetryAttempts);
  }
}
