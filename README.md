# Snowflake identifier server — a Dafny model

`uniqueidserver.c` is a small TCP server that hands out 64-bit identifiers
in the Twitter Snowflake layout. Every accepted connection receives one
identifier as decimal text, then the server closes the connection. From the
high bit down, an identifier holds:

- one unused bit;
- 41 bits of milliseconds since a fixed epoch (`twepoch`, 1288834974657 ms,
  which is 2010-11-04T01:42:54.657Z);
- 5 bits of datacenter id;
- 5 bits of worker (machine) id;
- a 12-bit sequence number.

The sequence number separates identifiers allocated within the same
millisecond.

The model covers the allocator at the heart of the server:

- `words.dfy` (module `Words`) covers the unsigned 64-bit operations the C
  code uses:
  - subtraction that wraps;
  - left shift that drops high bits;
  - bitwise OR and AND.

  Each is defined on mathematical integers, and lemmas connect them to
  addition and remainder.
- `id_layout.dfy` (module `IdLayout`) covers the identifier layout:
  - packing a relative timestamp, the identity bits and a sequence number
    into an identifier;
  - the field decoders that invert it;
  - lemmas on round trips, bounds, uniqueness and order.
- `allocator.dfy` (module `Allocator`) covers the context `ukey_context_t`
  as the class `Context`:
  - `ukey_startup` as its constructor;
  - one pass of the accept loop (lines 186-208) as `Context.Next`;
  - the accept loop over a finite run of connections as `Context.Serve`;
  - the sequence bump (line 193) and the identifier expression (lines
    205-208) as the helper methods `Context.BumpSequence` and
    `Context.PackId`, which work on the context's own fields.

  Both methods are proved against the pure step function `Step` and its
  replay over a sequence of clock readings. The run-level properties are
  proved about that replay: identifiers increase, carry their identity, and
  never clash across contexts.
- `clock.dfy` (module `Clock`) covers the millisecond arithmetic of
  `really_time`.
- `server.dfy` (module `Server`) covers the parts of `main` around the
  allocator:
  - the range clamp on the command-line ids;
  - the startup with the fixed epoch;
  - the decimal reply, both as intended and as the code actually sends it.

The clock is not part of the model. One request observes three values, and
the model takes them as parameters:

- whether the `gettimeofday` probe succeeded;
- the millisecond time that `really_time` returned;
- the time that `skip_next_millis` returns after its one-millisecond sleep.

The code trusts these readings and checks none of them. The model is the
same:

- a reading earlier than `last_timestamp` is treated like any other change
  of millisecond;
- the post-sleep reading is used even if it is not later.

So the monotonicity results take "the clock moves forward" as a
precondition, and `BackwardClockRepeatsId` shows the precondition cannot be
dropped.

Where the intended design and the code differ, the model follows the code:

- An out-of-range datacenter or machine id is replaced by 1, not rejected.
- A clock that runs backwards is not detected.
- When `really_time` fails it returns 0 and the subtraction wraps. The model
  wraps too, rather than raising an error.
- The reply is cut to 18 bytes (see Findings).

## Model

| member | source | states |
|---|---|---|
| `Words.Shl64` | uniqueidserver.c:205 | `x << n` on an unsigned word, defined as `x·2^n mod 2^64`. When the top n bits of `x` are clear, nothing is lost and the result is `x·2^n` |
| `Words.BitOr` | uniqueidserver.c:205-208 | Bitwise OR on naturals, defined bit by bit. The result is at least each operand and at most their sum |
| `Words.BitAnd` | uniqueidserver.c:193 | Bitwise AND on naturals, defined bit by bit. The result is at most each operand |
| `Words.Sub64` | uniqueidserver.c:205 | `timestamp - twepoch` on unsigned words: the plain difference when the timestamp is not below the epoch, the difference plus 2^64 when it is (for example after `really_time` failed and returned 0) |
| `Words.BitOrDisjoint` | uniqueidserver.c:205-208 | OR of a multiple of 2^k and a value below 2^k is their sum, so packing fields that do not overlap loses nothing |
| `Words.BitAndLowMask` | uniqueidserver.c:193 | AND with the mask 2^k - 1 is the remainder modulo 2^k |
| `IdLayout.MakeId` | uniqueidserver.c:205-208 | The packed identifier is `(rel << 22) + dc·2^17 + worker·2^12 + seq`. The datacenter, worker and sequence decoders give back the packed values, and the timestamp decoder gives back `rel` modulo 2^41. When `rel` fits in 41 bits, the identifier is below 2^63 |
| `IdLayout.DistinctIdentitiesNeverClash` | uniqueidserver.c:9-11 | Identifiers packed with different (datacenter, worker) pairs are never equal, whatever their timestamps and sequences |
| `IdLayout.IdOrder` | uniqueidserver.c:205-208 | For one identity and timestamps within 41 bits, one identifier is below another exactly when its (timestamp, sequence) pair comes first, comparing timestamps first |
| `Allocator.NextSequence` | uniqueidserver.c:193 | `(sequence + 1) & sequence_mask` stays in [0, 4095], equals `(sequence + 1) mod 4096`, and is 0 exactly when the sequence was 4095 |
| `Allocator.Advance` | uniqueidserver.c:192-203 | The sequence stays in [0, 4095]. A reading that differs from `last_timestamp` (later or earlier) resets the sequence to 0 and becomes the stored timestamp. An equal reading increments the sequence; on the wrap to 0 the post-sleep reading becomes the stored timestamp. When the reading is not below `last_timestamp` and the sleep moves the clock, the (timestamp, sequence) pair strictly advances |
| `Allocator.IdOf` | uniqueidserver.c:203-208 | The identifier built from the updated fields carries the context's datacenter and worker ids and its sequence. For a timestamp inside the 41-bit window after the epoch, its timestamp field plus `twepoch` is `last_timestamp`, and it is below 2^63 |
| `Allocator.Step` | uniqueidserver.c:186-208 | The answer is ERR exactly when the clock probe fails, and then the state is unchanged. Otherwise the state moves as `Advance` says, and the identifier encodes the identity, the new sequence and (within the window) the new `last_timestamp` |
| `Allocator.ServedIdsIncreaseStep` | uniqueidserver.c:183-208 | Under the clock assumptions (`ClockMovesForward`), the identifiers served so far strictly increase, and the last one is the identifier the current state encodes, whose timestamp lies in the 41-bit window |
| `Allocator.ServedIdsIncrease` | uniqueidserver.c:190-208 | Suppose each successful request reads a time no earlier than the `last_timestamp` the context holds at that moment, and each post-sleep reading is later than the reading it replaces, with both readings inside the 41-bit window. Then the identifiers one context serves strictly increase, so no two are equal. Requests in the same millisecond are included: the sequence number tells them apart |
| `Allocator.SameMillisecondAdmitted` | uniqueidserver.c:192-197 | The clock assumptions admit repeated readings of one millisecond: two requests reading the stored millisecond meet them and bump the sequence to 2 |
| `Allocator.BackwardClockRepeatsId` | uniqueidserver.c:192-203 | With readings t, then any other time, then t again, the third identifier equals the first, because the step never notices a clock that went back |
| `Allocator.ServedIdsCarryIdentity` | uniqueidserver.c:205-208 | Every identifier a context serves carries that context's datacenter and worker ids, whatever its clock does |
| `Allocator.ContextsNeverClash` | uniqueidserver.c:9-11 | Two contexts with different (datacenter, worker) pairs never serve a common identifier, whatever their clocks do |
| `Allocator.Context.Startup` | uniqueidserver.c:53-79 | The context holds the given epoch and identities, with sequence 0 and `last_timestamp` 0. Its bit widths are 5, 5 and 12, its shifts 12, 17 and 22, and its mask `-1 ^ (-1 << 12)` is 4095 |
| `Allocator.Context.Next` | uniqueidserver.c:186-208 | Updates only `sequence` and `last_timestamp`, exactly as `Step` does, and returns `Step`'s response. The epoch and identities are unchanged, and the context invariant (identities and sequence in range, fixed shifts and mask) is kept |
| `Allocator.Context.BumpSequence` | uniqueidserver.c:193 | `sequence = (sequence + 1) & sequence_mask` on the context: the new sequence is the policy's increment (`NextSequence`), and the context invariant is kept |
| `Allocator.Context.PackId` | uniqueidserver.c:205-208 | The identifier expression, evaluated on the context's own fields (epoch, identities, shifts, sequence, `last_timestamp`), is the identifier `IdOf` says the state encodes |
| `Allocator.Context.Serve` | uniqueidserver.c:183-216 | After a run of connections, the context's state is the replay of `Step` over their readings, and the responses are the ones `Step` gives in order. The configuration is unchanged |
| `Clock.MillisOf` | uniqueidserver.c:90-91 | `tv_sec * 1000 + tv_usec / 1000` on unsigned words. For a genuine timeval, the result divided by 1000 is the seconds, and the remainder is the whole milliseconds within that second |
| `Clock.MillisMonotone` | uniqueidserver.c:90-91 | A later timeval never converts to fewer milliseconds |
| `Server.ClampId` | uniqueidserver.c:147-157 | The result is always in [0, 31]. It equals the argument exactly when the argument is in range, and is 1 otherwise |
| `Server.Launch` | uniqueidserver.c:145-162 | Both ids are clamped and the context starts with epoch 1288834974657, the clamped datacenter id and the clamped machine id as worker id, sequence 0 and `last_timestamp` 0 |
| `Server.DecimalRoundTrip` | uniqueidserver.c:210 | Parsing the decimal digits of a number gives the number back |
| `Server.Reply` | uniqueidserver.c:186-212 | The intended reply: the text is `ERR` exactly for the ERR response. An issued identifier is sent as decimal digits that parse back to exactly that identifier |
| `Server.SignedText` | uniqueidserver.c:210 | `%lld` of the identifier: non-empty, starting with `-` exactly when the top bit is set. Below 2^63 it is the identifier's digits and parses back to it. From 2^63 up (reached when `really_time` failed and the timestamp wrapped), the digits after the sign parse to 2^64 - id, the magnitude of the negative signed value |
| `Server.SentAsWritten` | uniqueidserver.c:212 | The bytes `sendto` delivers: at most 18 characters, always the start of the printed text, and the whole text exactly when it fits in 18 |
| `Server.TruncatedReply` | uniqueidserver.c:210-212 | For every identifier from 10^18 up to 2^63, the 18 bytes the code sends are digits that parse to `id / 10`, which is not the identifier |
| `Server.IdsSince2018AreTruncated` | uniqueidserver.c:159-212 | With the fixed epoch, each identifier allocated at least 238418579102 ms after the epoch (from 2018-05-25 13:05:53.759 UTC) and inside the 41-bit window reaches the client as a different number, while `Reply` would deliver it intact |

## Left out

- Sockets, `accept`, `sendto` and `close` (lines 171-219) are network I/O. The model turns the accept loop into a finite sequence of connections, and its responses into `Response` values.
- `if (connfd)` (line 185) is true for a failed `accept`, which returns -1. So a failed accept still runs an allocation step: the sequence and `last_timestamp` advance, and the identifier goes nowhere. A connection on descriptor 0 skips the step. In the model every element of the sequence is one run of lines 186-213, whatever descriptor `accept` returned.
- Daemonizing (`skeleton_daemon`, lines 109-124) and the startup `printf` calls are process plumbing with no bearing on identifiers.
- `gettimeofday`, the `select` sleep in `skip_next_millis` and the clock itself are I/O. Their results are parameters (`Reading`); only the arithmetic of `really_time` is modelled (`Clock.MillisOf`).
- The `malloc` failure path of `ukey_startup` (lines 55-58) is a foreign allocation; the model's allocation cannot fail.
- `atoi` on the command line is a C library call. The model starts from the integers it returns.
- Memory layout of the reply is not modelled:
  - `sprintf` writes past the end of `char str[18]` for identifiers of 18 or more digits, and that overflow is undefined behaviour;
  - a reply shorter than 18 characters is followed on the wire by the terminating NUL and stale buffer bytes.

  `Server.SentAsWritten` keeps only the first 18 characters of the text.
- Concurrency: the accept loop is single-threaded and shares nothing.
- `Allocator.Context.Startup` requires both identities in [0, 31], where `ukey_startup` accepts any `int`. Its only caller clamps them first (`Server.Launch`), and out-of-range identities would spill into neighbouring fields.
- `IdLayout.MakeId` requires identities in [0, 31] and a sequence in [0, 4095], the values the context invariant guarantees. The identity shifts are C `int` shifts, and with such values they cannot overflow.
- `Allocator.IdOf` states the timestamp field and the 2^63 bound only inside the 41-bit window after the epoch. Outside it, the relative timestamp is cut to its low 42 bits by the shift, so the timestamp field does not reflect the clock.

## Findings

| source | as written | input that shows it | evidently intended | confidence | as-written member | corrected member |
|---|---|---|---|---|---|---|
| uniqueidserver.c:210-212 | `sprintf` prints the identifier into `char str[18]`, and `sendto` sends the first 18 bytes | any identifier of 19 digits, i.e. every one allocated from 2018-05-25 13:05:53.759 UTC on (for example 10^18 reaches the client as 10^17) | all decimal digits of the identifier are sent, so the client parses the identifier itself | high (proved on the model; not executed) | `Server.TruncatedReply` | `Server.Reply` |
