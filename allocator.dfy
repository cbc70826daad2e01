/**
 * The allocator: a context holding the configuration fixed at startup and
 * the two fields every request updates, `sequence` and `last_timestamp`.
 *
 * The clock is outside the model.  One request sees three readings, passed
 * in as a `Reading`: whether the `gettimeofday` probe succeeded, the
 * millisecond time `really_time` returned, and the time `skip_next_millis`
 * would return after its one-millisecond sleep (used only when the sequence
 * wraps within a millisecond).
 */
module Allocator {
  import opened Words
  import opened IdLayout

  /** The immutable part of the context: epoch and identity bits. */
  datatype Config = Config(twepoch: U64, datacenterId: int, workerId: int) {
    predicate Valid() {
      IsIdentity(datacenterId) && IsIdentity(workerId)
    }
  }

  /** The mutable part of the context. */
  datatype AllocState = AllocState(sequence: int, lastTimestamp: U64)

  /** The clock as one request observes it. */
  datatype Reading = Reading(clockOk: bool, now: U64, afterWait: U64)

  /** What the server sends back: `ERR`, or a freshly allocated identifier. */
  datatype Response = Err | Issued(id: U64)

  /** `(sequence + 1) & sequence_mask`: the sequence number counts modulo 4096. */
  function NextSequence(sequence: int): (r: int)
    requires IsSequence(sequence)
    ensures IsSequence(r)
    ensures r == (sequence + 1) % 4096
    ensures r == 0 <==> sequence == SequenceMask
  {
    Pow2Values();
    BitAndLowMask(sequence + 1, 12);
    if sequence < SequenceMask then
      DivModUnique(sequence + 1, 4096, 0, sequence + 1);
      BitAnd(sequence + 1, SequenceMask)
    else
      DivModUnique(sequence + 1, 4096, 1, 0);
      BitAnd(sequence + 1, SequenceMask)
  }

  /** Timestamp first, then sequence: the order identifiers of one context follow. */
  predicate Later(a: AllocState, b: AllocState) {
    b.lastTimestamp > a.lastTimestamp
    || (b.lastTimestamp == a.lastTimestamp && b.sequence > a.sequence)
  }

  /**
   * The sequence/clock policy of one successful request: in the same
   * millisecond as the previous request the sequence counts up, and when it
   * wraps to 0 the post-sleep reading replaces the timestamp; in any other
   * millisecond (later or, undetected, earlier) the sequence restarts at 0.
   */
  function Advance(st: AllocState, now: U64, afterWait: U64): (next: AllocState)
    requires IsSequence(st.sequence)
    ensures IsSequence(next.sequence)
    ensures now != st.lastTimestamp ==> next == AllocState(0, now)
    ensures now == st.lastTimestamp && st.sequence < SequenceMask ==>
              next == AllocState(st.sequence + 1, now)
    ensures now == st.lastTimestamp && st.sequence == SequenceMask ==>
              next == AllocState(0, afterWait)
    // with a clock that does not run backwards and a sleep that does move it,
    // the state strictly advances
    ensures st.lastTimestamp <= now < afterWait ==> Later(st, next)
    ensures next.lastTimestamp == now || next.lastTimestamp == afterWait
  {
    if st.lastTimestamp == now then
      var sequence := NextSequence(st.sequence);
      if sequence == 0 then
        assert st.sequence == SequenceMask;
        AllocState(sequence, afterWait)
      else
        assert sequence == st.sequence + 1;
        AllocState(sequence, now)
    else
      AllocState(0, now)
  }

  /** The identifier the context's fields encode once `last_timestamp` and `sequence` are set. */
  function IdOf(cfg: Config, st: AllocState): (id: U64)
    requires cfg.Valid() && IsSequence(st.sequence)
    ensures DatacenterOf(id) == cfg.datacenterId && WorkerOf(id) == cfg.workerId
    ensures SequenceOf(id) == st.sequence
    ensures InWindow(cfg, st.lastTimestamp) ==>
              TimestampOf(id) + cfg.twepoch == st.lastTimestamp && id < 0x8000_0000_0000_0000
  {
    var rel := Sub64(st.lastTimestamp, cfg.twepoch);
    if InWindow(cfg, st.lastTimestamp) then
      DivModUnique(rel, 0x200_0000_0000, 0, rel);
      MakeId(rel, cfg.datacenterId, cfg.workerId, st.sequence)
    else
      MakeId(rel, cfg.datacenterId, cfg.workerId, st.sequence)
  }

  /** A timestamp that the 41 timestamp bits can carry relative to the epoch. */
  predicate InWindow(cfg: Config, t: U64) {
    cfg.twepoch <= t < cfg.twepoch + 0x200_0000_0000
  }

  /** One request of the accept loop: the new state and the response. */
  function Step(cfg: Config, st: AllocState, r: Reading): (out: (AllocState, Response))
    requires cfg.Valid() && IsSequence(st.sequence)
    ensures IsSequence(out.0.sequence)
    // a failed clock probe answers ERR and leaves the state alone
    ensures !r.clockOk <==> out.1 == Err
    ensures !r.clockOk ==> out.0 == st
    // otherwise the answer encodes the identity, the sequence and the
    // timestamp now stored in last_timestamp
    ensures r.clockOk ==> out.0 == Advance(st, r.now, r.afterWait)
    ensures out.1.Issued? ==>
              DatacenterOf(out.1.id) == cfg.datacenterId && WorkerOf(out.1.id) == cfg.workerId
              && SequenceOf(out.1.id) == out.0.sequence
    ensures out.1.Issued? && InWindow(cfg, out.0.lastTimestamp) ==>
              TimestampOf(out.1.id) + cfg.twepoch == out.0.lastTimestamp
  {
    if !r.clockOk then
      (st, Err)
    else
      var next := Advance(st, r.now, r.afterWait);
      (next, Issued(IdOf(cfg, next)))
  }

  /** The state after serving the readings in order. */
  function Replay(cfg: Config, st: AllocState, rs: seq<Reading>): (fin: AllocState)
    requires cfg.Valid() && IsSequence(st.sequence)
    ensures IsSequence(fin.sequence)
  {
    if rs == [] then st
    else Step(cfg, Replay(cfg, st, rs[..|rs| - 1]), rs[|rs| - 1]).0
  }

  /** The responses sent while serving the readings in order. */
  function Responses(cfg: Config, st: AllocState, rs: seq<Reading>): (out: seq<Response>)
    requires cfg.Valid() && IsSequence(st.sequence)
  {
    if rs == [] then []
    else Responses(cfg, st, rs[..|rs| - 1]) + [Step(cfg, Replay(cfg, st, rs[..|rs| - 1]), rs[|rs| - 1]).1]
  }

  /** The identifiers among the responses, in order. */
  function IssuedIds(out: seq<Response>): seq<U64> {
    if out == [] then []
    else IssuedIds(out[..|out| - 1]) + (if out[|out| - 1].Issued? then [out[|out| - 1].id] else [])
  }

  predicate StrictlyIncreasing(ids: seq<U64>) {
    forall i, j :: 0 <= i < j < |ids| ==> ids[i] < ids[j]
  }

  /**
   * The clock assumptions under which identifiers increase, on the readings
   * a context actually uses: every successful request reads a time no
   * earlier than the `last_timestamp` the context holds at that moment, the
   * post-sleep reading is later than the reading it would replace, and both
   * fit in the 41-bit window above the epoch.  Several requests may read the
   * same millisecond.
   */
  predicate ClockMovesForward(cfg: Config, st: AllocState, rs: seq<Reading>)
    requires cfg.Valid() && IsSequence(st.sequence)
  {
    forall i :: 0 <= i < |rs| && rs[i].clockOk ==>
      && Replay(cfg, st, rs[..i]).lastTimestamp <= rs[i].now < rs[i].afterWait
      && InWindow(cfg, rs[i].now) && InWindow(cfg, rs[i].afterWait)
  }

  lemma IssuedIdsAppend(out: seq<Response>, r: Response)
    ensures IssuedIds(out + [r]) == IssuedIds(out) + (if r.Issued? then [r.id] else [])
  {
    assert (out + [r])[..|out|] == out;
  }

  /**
   * One successful request under a forward-moving clock yields an identifier
   * above the one the previous state encodes.
   */
  lemma StepIncreasesId(cfg: Config, prev: AllocState, r: Reading)
    requires cfg.Valid() && IsSequence(prev.sequence)
    requires r.clockOk && prev.lastTimestamp <= r.now < r.afterWait
    requires InWindow(cfg, prev.lastTimestamp) && InWindow(cfg, r.now) && InWindow(cfg, r.afterWait)
    ensures IdOf(cfg, prev) < IdOf(cfg, Step(cfg, prev, r).0)
  {
    var next := Step(cfg, prev, r).0;
    assert Later(prev, next);
    IdOrder(Sub64(prev.lastTimestamp, cfg.twepoch), prev.sequence,
            Sub64(next.lastTimestamp, cfg.twepoch), next.sequence,
            cfg.datacenterId, cfg.workerId);
  }

  lemma AppendIncreasing(ids: seq<U64>, x: U64)
    requires StrictlyIncreasing(ids)
    requires ids != [] ==> ids[|ids| - 1] < x
    ensures StrictlyIncreasing(ids + [x])
  {
    var all := ids + [x];
    forall i, j | 0 <= i < j < |all| ensures all[i] < all[j] {
      if j == |ids| && i < |ids| - 1 {
        assert ids[i] < ids[|ids| - 1];
      }
    }
  }

  /** The clock assumptions hold of every prefix, and of the last reading against the state before it. */
  lemma ClockPrefix(cfg: Config, st: AllocState, rs: seq<Reading>)
    requires cfg.Valid() && IsSequence(st.sequence)
    requires rs != [] && ClockMovesForward(cfg, st, rs)
    ensures ClockMovesForward(cfg, st, rs[..|rs| - 1])
    ensures var r := rs[|rs| - 1];
      r.clockOk ==>
        && Replay(cfg, st, rs[..|rs| - 1]).lastTimestamp <= r.now < r.afterWait
        && InWindow(cfg, r.now) && InWindow(cfg, r.afterWait)
  {
    var p := rs[..|rs| - 1];
    forall i | 0 <= i < |p| && p[i].clockOk
      ensures Replay(cfg, st, p[..i]).lastTimestamp <= p[i].now < p[i].afterWait
      ensures InWindow(cfg, p[i].now) && InWindow(cfg, p[i].afterWait)
    {
      assert p[..i] == rs[..i] && p[i] == rs[i];
    }
  }

  /**
   * The induction behind ServedIdsIncrease: the identifiers so far increase,
   * the last of them is the one the current state encodes, and the stored
   * timestamp never runs ahead of the clock.
   */
  lemma {:induction false} ServedIdsIncreaseStep(cfg: Config, st: AllocState, rs: seq<Reading>)
    requires cfg.Valid() && IsSequence(st.sequence)
    requires ClockMovesForward(cfg, st, rs)
    ensures var ids := IssuedIds(Responses(cfg, st, rs));
      var fin := Replay(cfg, st, rs);
      && StrictlyIncreasing(ids)
      && (ids != [] ==> ids[|ids| - 1] == IdOf(cfg, fin) && InWindow(cfg, fin.lastTimestamp))
  {
    if rs != [] {
      var p, r := rs[..|rs| - 1], rs[|rs| - 1];
      assert p + [r] == rs;
      ClockPrefix(cfg, st, rs);
      ServedIdsIncreaseStep(cfg, st, p);
      ServeOneMore(cfg, st, p, r);
      IssuedIdsAppend(Responses(cfg, st, p), Step(cfg, Replay(cfg, st, p), r).1);
      OneMoreIncreasing(cfg, Replay(cfg, st, p), r, IssuedIds(Responses(cfg, st, p)));
    }
  }

  /**
   * One request keeps the induction of ServedIdsIncreaseStep going: if the
   * identifiers so far increase and end with the one the state encodes,
   * a request that meets the clock assumptions keeps both facts.
   */
  lemma OneMoreIncreasing(cfg: Config, prev: AllocState, r: Reading, ids: seq<U64>)
    requires cfg.Valid() && IsSequence(prev.sequence)
    requires StrictlyIncreasing(ids)
    requires ids != [] ==> ids[|ids| - 1] == IdOf(cfg, prev) && InWindow(cfg, prev.lastTimestamp)
    requires r.clockOk ==>
      && prev.lastTimestamp <= r.now < r.afterWait
      && InWindow(cfg, r.now) && InWindow(cfg, r.afterWait)
    ensures var out := Step(cfg, prev, r);
      var more := ids + (if out.1.Issued? then [out.1.id] else []);
      && StrictlyIncreasing(more)
      && (more != [] ==> more[|more| - 1] == IdOf(cfg, out.0) && InWindow(cfg, out.0.lastTimestamp))
  {
    var out := Step(cfg, prev, r);
    if r.clockOk {
      assert out.0 == Advance(prev, r.now, r.afterWait);
      assert InWindow(cfg, out.0.lastTimestamp);
      if ids != [] {
        StepIncreasesId(cfg, prev, r);
      }
      AppendIncreasing(ids, IdOf(cfg, out.0));
    } else {
      assert out == (prev, Err);
      assert ids + [] == ids;
    }
  }

  /**
   * While every successful request reads a time no earlier than the stored
   * `last_timestamp`, and the post-sleep reading is later than the reading
   * it replaces, every identifier one context hands out is larger than the
   * one before it; in particular no two are equal.  Requests within one
   * millisecond are covered: they are told apart by the sequence number.
   */
  lemma ServedIdsIncrease(cfg: Config, st: AllocState, rs: seq<Reading>)
    requires cfg.Valid() && IsSequence(st.sequence)
    requires ClockMovesForward(cfg, st, rs)
    ensures StrictlyIncreasing(IssuedIds(Responses(cfg, st, rs)))
  {
    ServedIdsIncreaseStep(cfg, st, rs);
  }

  /**
   * The clock assumptions admit several requests in one millisecond: two
   * requests reading the stored millisecond t meet them, and the second is
   * served by bumping the sequence to 2.
   */
  lemma SameMillisecondAdmitted(cfg: Config, st: AllocState, t: U64, later: U64)
    requires cfg.Valid() && st.sequence == 0 && st.lastTimestamp == t
    requires t < later && InWindow(cfg, t) && InWindow(cfg, later)
    ensures ClockMovesForward(cfg, st, [Reading(true, t, later), Reading(true, t, later)])
    ensures Replay(cfg, st, [Reading(true, t, later), Reading(true, t, later)]) == AllocState(2, t)
  {
    var r := Reading(true, t, later);
    var rs := [r, r];
    ServeOneMore(cfg, st, [], r);
    ServeOneMore(cfg, st, [r], r);
    assert [] + [r] == [r] && [r] + [r] == rs;
    assert rs[..0] == [] && rs[..1] == [r];
    assert Replay(cfg, st, [r]) == AllocState(1, t);
  }

  /**
   * Nothing in the step detects a clock that goes back: after readings t,
   * then any other time w, then t again, the third identifier repeats the
   * first.  The clock assumptions of ServedIdsIncrease cannot be dropped.
   */
  lemma BackwardClockRepeatsId(cfg: Config, st: AllocState, t: U64, w: U64)
    requires cfg.Valid() && IsSequence(st.sequence)
    requires st.lastTimestamp != t && w != t
    ensures var ids := IssuedIds(Responses(cfg, st, [Reading(true, t, t), Reading(true, w, w), Reading(true, t, t)]));
      |ids| == 3 && ids[0] == ids[2]
  {
    var r1, r2, r3 := Reading(true, t, t), Reading(true, w, w), Reading(true, t, t);
    ServeOneMore(cfg, st, [], r1);
    ServeOneMore(cfg, st, [r1], r2);
    ServeOneMore(cfg, st, [r1, r2], r3);
    assert [] + [r1] == [r1] && [r1] + [r2] == [r1, r2] && [r1, r2] + [r3] == [r1, r2, r3];
    var s1 := Step(cfg, st, r1);
    var s2 := Step(cfg, s1.0, r2);
    var s3 := Step(cfg, s2.0, r3);
    assert s1.0 == AllocState(0, t) == s3.0;
    IssuedIdsAppend([], s1.1);
    IssuedIdsAppend([s1.1], s2.1);
    IssuedIdsAppend([s1.1, s2.1], s3.1);
  }

  /** Serving one more reading appends its response and takes one more step. */
  lemma ServeOneMore(cfg: Config, st: AllocState, rs: seq<Reading>, r: Reading)
    requires cfg.Valid() && IsSequence(st.sequence)
    ensures Replay(cfg, st, rs + [r]) == Step(cfg, Replay(cfg, st, rs), r).0
    ensures Responses(cfg, st, rs + [r]) == Responses(cfg, st, rs) + [Step(cfg, Replay(cfg, st, rs), r).1]
  {
    assert (rs + [r])[..|rs|] == rs;
  }

  /** Every identifier a context hands out carries its own identity bits. */
  lemma {:induction false} ServedIdsCarryIdentity(cfg: Config, st: AllocState, rs: seq<Reading>)
    requires cfg.Valid() && IsSequence(st.sequence)
    ensures forall id | id in IssuedIds(Responses(cfg, st, rs)) ::
              DatacenterOf(id) == cfg.datacenterId && WorkerOf(id) == cfg.workerId
  {
    if rs != [] {
      var p := rs[..|rs| - 1];
      ServedIdsCarryIdentity(cfg, st, p);
      IssuedIdsAppend(Responses(cfg, st, p), Step(cfg, Replay(cfg, st, p), rs[|rs| - 1]).1);
    }
  }

  /**
   * Two contexts configured with different (datacenter, worker) pairs never
   * hand out the same identifier, whatever their clocks do.
   */
  lemma ContextsNeverClash(cfg1: Config, st1: AllocState, rs1: seq<Reading>,
                           cfg2: Config, st2: AllocState, rs2: seq<Reading>)
    requires cfg1.Valid() && IsSequence(st1.sequence)
    requires cfg2.Valid() && IsSequence(st2.sequence)
    requires cfg1.datacenterId != cfg2.datacenterId || cfg1.workerId != cfg2.workerId
    ensures forall id | id in IssuedIds(Responses(cfg1, st1, rs1)) ::
              id !in IssuedIds(Responses(cfg2, st2, rs2))
  {
    ServedIdsCarryIdentity(cfg1, st1, rs1);
    ServedIdsCarryIdentity(cfg2, st2, rs2);
  }

  /** The context's `(sequence + 1) & sequence_mask` is the sequence policy's increment. */
  lemma MaskedIncrement(sequence: int, mask: nat)
    requires IsSequence(sequence) && mask == SequenceMask
    ensures BitAnd(sequence + 1, mask) == NextSequence(sequence)
  {
  }

  /** Packing the context's fields with the startup shifts gives the identifier the state encodes. */
  lemma PackedFieldsAreId(twepoch: U64, datacenterId: int, workerId: int, sequence: int, lastTimestamp: U64,
                          timestampShift: nat, datacenterShift: nat, workerShift: nat)
    requires IsIdentity(datacenterId) && IsIdentity(workerId) && IsSequence(sequence)
    requires timestampShift == TimestampLeftShift && datacenterShift == DatacenterIdShift
    requires workerShift == WorkerIdShift
    ensures Pack(Sub64(lastTimestamp, twepoch), datacenterId, workerId, sequence,
                 timestampShift, datacenterShift, workerShift)
         == IdOf(Config(twepoch, datacenterId, workerId), AllocState(sequence, lastTimestamp))
  {
  }

  /** `ukey_context_t`: the allocator's context, updated in place by each request. */
  class Context {
    var workerId: int
    var datacenterId: int

    var sequence: int
    var lastTimestamp: U64

    var twepoch: U64
    var workerIdBits: nat
    var datacenterIdBits: nat
    var sequenceBits: nat
    var workerIdShift: nat
    var datacenterIdShift: nat
    var timestampLeftShift: nat
    var sequenceMask: nat

    ghost predicate Valid()
      reads this
    {
      && IsIdentity(workerId) && IsIdentity(datacenterId) && IsSequence(sequence)
      && workerIdBits == WorkerIdBits && datacenterIdBits == DatacenterIdBits
      && sequenceBits == SequenceBits
      && workerIdShift == WorkerIdShift && datacenterIdShift == DatacenterIdShift
      && timestampLeftShift == TimestampLeftShift && sequenceMask == SequenceMask
    }

    ghost function Cfg(): Config
      reads this
    {
      Config(twepoch, datacenterId, workerId)
    }

    ghost function State(): AllocState
      reads this
    {
      AllocState(sequence, lastTimestamp)
    }

    /**
     * `ukey_startup`: fixes the field widths, derives the shifts and the
     * sequence mask from them, and starts with sequence 0 and
     * last_timestamp 0.  Its caller passes identities already clamped to
     * [0, 31].
     */
    constructor Startup(twepoch: U64, workerId: int, datacenterId: int)
      requires IsIdentity(workerId) && IsIdentity(datacenterId)
      ensures Valid()
      ensures Cfg() == Config(twepoch, datacenterId, workerId)
      ensures State() == AllocState(0, 0)
      ensures this.workerIdShift == 12 && this.datacenterIdShift == 17
      ensures this.timestampLeftShift == 22 && this.sequenceMask == 4095
    {
      this.twepoch := twepoch;
      this.workerId := workerId;
      this.datacenterId := datacenterId;

      sequence := 0;
      lastTimestamp := 0;

      workerIdBits := 5;
      datacenterIdBits := 5;
      sequenceBits := 12;
      new;

      workerIdShift := sequenceBits;
      datacenterIdShift := sequenceBits + workerIdBits;
      timestampLeftShift := sequenceBits + workerIdBits + datacenterIdBits;
      // -1 ^ (-1 << sequence_bits) on a 32-bit int: the low sequence_bits ones
      var minusOne: bv32 := 0xFFFF_FFFF;
      sequenceMask := (minusOne ^ (minusOne << sequenceBits)) as nat;
    }

    /**
     * One request of the accept loop.  On a failed clock probe the answer is
     * ERR and the context is untouched; otherwise the sequence and
     * last_timestamp move as `Step` says and the identifier is packed from
     * the updated fields.
     */
    method Next(clockOk: bool, now: U64, afterWait: U64) returns (r: Response)
      requires Valid()
      modifies this`sequence, this`lastTimestamp
      ensures Valid()
      ensures Cfg() == old(Cfg())
      ensures (State(), r) == Step(Cfg(), old(State()), Reading(clockOk, now, afterWait))
    {
      if !clockOk {
        r := Err;
      } else {
        ghost var next := Advance(State(), now, afterWait);
        var timestamp := now;
        if lastTimestamp == timestamp {
          BumpSequence();
          if sequence == 0 {
            timestamp := afterWait;
          }
        } else {
          sequence := 0;
        }
        lastTimestamp := timestamp;
        assert State() == next;
        var id := PackId();
        r := Issued(id);
        assert (State(), r) == Step(Cfg(), old(State()), Reading(clockOk, now, afterWait));
      }
    }

    /** `context->sequence = (context->sequence + 1) & context->sequence_mask`. */
    method BumpSequence()
      requires Valid()
      modifies this`sequence
      ensures Valid()
      ensures sequence == NextSequence(old(sequence))
    {
      var bumped := BitAnd(sequence + 1, sequenceMask);
      MaskedIncrement(sequence, sequenceMask);
      sequence := bumped;
    }

    /**
     * The identifier expression of the accept loop,
     * `((last_timestamp - twepoch) << timestamp_left_shift) |
     * (datacenter_id << datacenter_id_shift) | (worker_id << worker_id_shift) | sequence`,
     * evaluated on the context's fields.
     */
    method PackId() returns (id: U64)
      requires Valid()
      ensures id == IdOf(Cfg(), State())
    {
      var packed := Pack(Sub64(lastTimestamp, twepoch), datacenterId, workerId, sequence,
                         timestampLeftShift, datacenterIdShift, workerIdShift);
      PackedFieldsAreId(twepoch, datacenterId, workerId, sequence, lastTimestamp,
                        timestampLeftShift, datacenterIdShift, workerIdShift);
      id := packed;
    }

    /** The accept loop over a finite run of connections, one reading each. */
    method Serve(readings: seq<Reading>) returns (responses: seq<Response>)
      requires Valid()
      modifies this`sequence, this`lastTimestamp
      ensures Valid()
      ensures Cfg() == old(Cfg())
      ensures State() == Replay(Cfg(), old(State()), readings)
      ensures responses == Responses(Cfg(), old(State()), readings)
    {
      responses := [];
      var i := 0;
      while i < |readings|
        invariant 0 <= i <= |readings|
        invariant Valid() && Cfg() == old(Cfg())
        invariant State() == Replay(Cfg(), old(State()), readings[..i])
        invariant responses == Responses(Cfg(), old(State()), readings[..i])
      {
        var r := Next(readings[i].clockOk, readings[i].now, readings[i].afterWait);
        assert readings[..i + 1][..i] == readings[..i];
        responses := responses + [r];
        i := i + 1;
      }
      assert readings[..i] == readings;
    }
  }
}
